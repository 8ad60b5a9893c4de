/** Sweep after sweep of one source: what a later sweep leaves out, and that nothing
    is handed on twice unchanged. */
module SweepSeries {
  import opened Common
  import opened Sorting
  import opened SourceSweep

  /** One complete sweep: what the source answered, its parents, and the pages. */
  datatype Round = Round(source: Source, parents: nat, pages: seq<Page>)

  /** Where a sweep starts: at the checkpoint the one before it ended with. */
  function StartOf(start: Checkpoint, rounds: seq<Round>, k: nat): Checkpoint
    requires k <= |rounds|
  {
    if k == 0 || rounds[k - 1].pages == [] then start
    else rounds[k - 1].pages[|rounds[k - 1].pages| - 1].checkpoint
  }

  ghost predicate Swept(preset: Preset, start: Checkpoint, rounds: seq<Round>, k: nat)
    requires k < |rounds|
  {
    Sweep(preset, rounds[k].source, rounds[k].parents, StartOf(start, rounds, k), rounds[k].pages)
  }

  ghost predicate Series(preset: Preset, start: Checkpoint, rounds: seq<Round>) {
    forall k {:trigger Swept(preset, start, rounds, k)} :: 0 <= k < |rounds| ==> Swept(preset, start, rounds, k)
  }

  ghost predicate EmittedIn(rounds: seq<Round>, k: nat, r: Item) {
    k < |rounds| && r in Emitted(rounds[k].pages)
  }

  lemma {:induction false} MarkNext(preset: Preset, start: Checkpoint, rounds: seq<Round>, k: nat)
    requires Series(preset, start, rounds) && k < |rounds|
    ensures StartOf(start, rounds, k + 1).watermark
        == Latest(StartOf(start, rounds, k).watermark, Emitted(rounds[k].pages))
  {
    assert Swept(preset, start, rounds, k);
    WatermarkReached(preset, rounds[k].source, rounds[k].parents, StartOf(start, rounds, k), rounds[k].pages);
  }

  lemma {:induction false} LatestOver(from: string, records: seq<Item>, r: Item)
    requires r in records
    ensures !Before(Latest(from, records), from) && !Before(Latest(from, records), Time(r))
  {
    var i :| 0 <= i < |records| && records[i] == r;
    LatestAbove(from, records, i);
  }

  /** What was emitted is not later than the watermark of any later sweep. */
  lemma {:induction false} MarkAbove(preset: Preset, start: Checkpoint, rounds: seq<Round>, j: nat, k: nat, r: Item)
    requires Series(preset, start, rounds) && j < k <= |rounds| && EmittedIn(rounds, j, r)
    ensures !Before(StartOf(start, rounds, k).watermark, Time(r))
  {
    var before, emitted := StartOf(start, rounds, k - 1).watermark, Emitted(rounds[k - 1].pages);
    MarkNext(preset, start, rounds, k - 1);
    if j == k - 1 {
      LatestOver(before, emitted, r);
    } else {
      MarkAbove(preset, start, rounds, j, k - 1, r);
      if emitted != [] { LatestAbove(before, emitted, 0); }
      NotLater(Latest(before, emitted), before, Time(r));
    }
  }

  lemma {:induction false} NotLater(a: string, b: string, c: string)
    requires (a == b || !Before(a, b)) && !Before(b, c)
    ensures !Before(a, c)
  {
    BeforeIsStrict();
  }

  ghost predicate MetBefore(start: Checkpoint, rounds: seq<Round>, k: nat, time: string) {
    time == start.watermark || exists j: nat, r: Item :: j < k && EmittedIn(rounds, j, r) && Time(r) == time
  }

  /** The watermark of a sweep is the first one, or the time of something emitted. */
  lemma {:induction false} MarkMet(preset: Preset, start: Checkpoint, rounds: seq<Round>, k: nat)
    requires Series(preset, start, rounds) && k <= |rounds|
    ensures MetBefore(start, rounds, k, StartOf(start, rounds, k).watermark)
  {
    if k > 0 {
      MarkNext(preset, start, rounds, k - 1);
      MarkMet(preset, start, rounds, k - 1);
      var emitted := Emitted(rounds[k - 1].pages);
      var i := LatestMet(StartOf(start, rounds, k - 1).watermark, emitted);
      if i < |emitted| { assert EmittedIn(rounds, k - 1, emitted[i]); }
    }
  }

  /** The first watermark, or the time of something emitted before, is as late. */
  ghost predicate AtLeast(start: Checkpoint, rounds: seq<Round>, k: nat, time: string) {
    exists met :: met != "" && MetBefore(start, rounds, k, met) && !Before(met, time)
  }

  lemma {:induction false} KeptExact(since: string, raw: seq<Item>, r: Item)
    ensures r in Kept(since, raw) <==>
              r in raw && (since == "" || r.updated.None? || Before(since, r.updated.value))
  {
    if raw != [] {
      KeptExact(since, raw[..|raw| - 1], r);
      assert raw == raw[..|raw| - 1] + [raw[|raw| - 1]];
    }
  }

  ghost predicate ReadIn(preset: Preset, start: Checkpoint, rounds: seq<Round>, k: nat, r: Item) {
    k < |rounds|
    && r in RowsRead(preset, rounds[k].source, rounds[k].parents, StartOf(start, rounds, k), rounds[k].pages,
                     |rounds[k].pages|)
  }

  lemma {:induction false} EmittedExact(preset: Preset, start: Checkpoint, rounds: seq<Round>, k: nat, r: Item)
    requires Series(preset, start, rounds)
    ensures var since := if k < |rounds| then StartOf(start, rounds, k).watermark else "";
            EmittedIn(rounds, k, r) <==>
              && ReadIn(preset, start, rounds, k, r)
              && (since == "" || r.updated.None? || Before(since, r.updated.value))
  {
    if k < |rounds| {
      var round, from := rounds[k], StartOf(start, rounds, k);
      assert Swept(preset, start, rounds, k);
      SweepEmitsRead(preset, round.source, round.parents, from, round.pages);
      KeptExact(from.watermark, RowsRead(preset, round.source, round.parents, from, round.pages, |round.pages|), r);
    }
  }

  /** What a later sweep emits is later than all that was emitted before it, unless
      it has no time: nothing is handed on twice unchanged. */
  lemma {:induction false} NothingTwice(preset: Preset, start: Checkpoint, rounds: seq<Round>, j: nat, k: nat, a: Item,
      b: Item)
    requires Series(preset, start, rounds) && j < k
    requires EmittedIn(rounds, j, a) && EmittedIn(rounds, k, b)
    requires a.updated.Some? && a.updated.value != "" && b.updated.Some?
    ensures Before(a.updated.value, b.updated.value)
  {
    var since := StartOf(start, rounds, k).watermark;
    MarkAbove(preset, start, rounds, j, k, a);
    EmittedExact(preset, start, rounds, k, b);
    LaterStill(a.updated.value, since, b.updated.value);
  }

  lemma {:induction false} LaterStill(a: string, since: string, b: string)
    requires a != "" && !Before(since, a)
    ensures since != "" && (Before(since, b) ==> Before(a, b))
  {
    BeforeIsStrict();
  }

  /** A row that is read and left out is no later than the first watermark, or than
      something an earlier sweep emitted. */
  lemma {:induction false} NothingMissed(preset: Preset, start: Checkpoint, rounds: seq<Round>, k: nat, r: Item)
    requires Series(preset, start, rounds) && ReadIn(preset, start, rounds, k, r)
    ensures EmittedIn(rounds, k, r) || (r.updated.Some? && AtLeast(start, rounds, k, r.updated.value))
  {
    EmittedExact(preset, start, rounds, k, r);
    MarkMet(preset, start, rounds, k);
  }
}
