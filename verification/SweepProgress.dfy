/** A source that serves its lists is swept to the end. */
module SweepProgress {
  import opened Common
  import opened SourceSweep

  /** The pages from a checkpoint, fresh or not, to the one that exhausts the sweep. */
  ghost predicate Turns(preset: Preset, source: Source, n: nat, c: Checkpoint, pages: seq<Page>) {
    && pages != []
    && forall i {:trigger Turned(preset, source, n, c, pages, i)} ::
         0 <= i < |pages| ==> Turned(preset, source, n, c, pages, i)
  }

  lemma {:induction false} OnePage(preset: Preset, source: Source, provider: Provider, n: nat, c: Checkpoint,
      page: Page)
    requires Steady(source, provider) && Extract(preset, provider, n, c) == Ok(page) && page.exhausted
    ensures Turns(preset, source, n, c, [page])
  {
  }

  lemma {:induction false} PageAhead(preset: Preset, source: Source, provider: Provider, n: nat, c: Checkpoint,
      page: Page, rest: seq<Page>)
    requires Steady(source, provider) && Extract(preset, provider, n, c) == Ok(page) && !page.exhausted
    requires Turns(preset, source, n, page.checkpoint, rest)
    ensures Turns(preset, source, n, c, [page] + rest)
  {
    var pages := [page] + rest;
    forall i | 0 <= i < |pages| ensures Turned(preset, source, n, c, pages, i) {
      if i > 0 {
        assert Turned(preset, source, n, page.checkpoint, rest, i - 1);
        assert pages[i] == rest[i - 1] && At(c, pages, i) == At(page.checkpoint, rest, i - 1);
        assert source(i) == provider && source(i - 1) == provider;
      }
    }
  }

  /** At a position of the listing of parent `p`. */
  predicate Reading(preset: Preset, c: Checkpoint, p: nat) {
    Parent(c) == p && (!preset.fanned ==> c.fan == None)
  }

  /** The page at a position that is followed further, or ends its listing. */
  lemma {:induction false} PageAt(preset: Preset, provider: Provider, n: nat, c: Checkpoint, p: nat)
    returns (page: Page)
    requires p < Parents(preset, n) && Reading(preset, c, p) && NextInner(preset, c.inner, provider(p, c.inner)).Ok?
    ensures Extract(preset, provider, n, c) == Ok(page)
    ensures var next := NextInner(preset, c.inner, provider(p, c.inner)).value;
            && (page.exhausted <==> next.None? && p + 1 == Parents(preset, n))
            && (!page.exhausted ==>
                  if next.Some? then Reading(preset, page.checkpoint, p) && page.checkpoint.inner == next.value
                  else Reading(preset, page.checkpoint, p + 1) && page.checkpoint.inner == Start)
  {
    page := Extract(preset, provider, n, c).value;
  }

  /** From any position whose listing can be followed to its end, the sweep ends. */
  lemma {:induction false} GoesOn(preset: Preset, source: Source, provider: Provider, n: nat, lists: seq<seq<Item>>,
      c: Checkpoint, p: nat, k: nat)
    returns (pages: seq<Page>)
    requires Steady(source, provider) && Listing(preset, provider, lists) && |lists| == Parents(preset, n)
    requires p < |lists| && Reading(preset, c, p) && Follow(preset, provider, p, c.inner, k).Ok?
    ensures Turns(preset, source, n, c, pages)
    decreases |lists| - p, k
  {
    var page := PageAt(preset, provider, n, c, p);
    if page.exhausted {
      OnePage(preset, source, provider, n, c, page);
      pages := [page];
    } else {
      var next := NextInner(preset, c.inner, provider(p, c.inner)).value;
      var rest;
      if next.Some? {
        rest := GoesOn(preset, source, provider, n, lists, page.checkpoint, p, k - 1);
      } else {
        assert Serves(preset, provider, p + 1, lists[p + 1]);
        var more := ServesFollow(preset, provider, p + 1, lists[p + 1]);
        rest := GoesOn(preset, source, provider, n, lists, page.checkpoint, p + 1, more);
      }
      PageAhead(preset, source, provider, n, c, page, rest);
      pages := [page] + rest;
    }
  }

  /** When the source serves its lists, in any pagination mode, a complete sweep
      exists; it emits every listed item that is not at or below the watermark. */
  lemma {:induction false} SweepExists(preset: Preset, source: Source, provider: Provider, n: nat,
      lists: seq<seq<Item>>, start: Checkpoint)
    returns (pages: seq<Page>)
    requires Steady(source, provider) && Listing(preset, provider, lists) && |lists| == Parents(preset, n)
    requires Fresh(start)
    ensures Sweep(preset, source, n, start, pages) && Emitted(pages) == Kept(start.watermark, Flat(lists))
  {
    if lists == [] {
      var page := Extract(preset, provider, n, start).value;
      OnePage(preset, source, provider, n, start, page);
      pages := [page];
    } else {
      assert Serves(preset, provider, 0, lists[0]);
      var k := ServesFollow(preset, provider, 0, lists[0]);
      pages := GoesOn(preset, source, provider, n, lists, start, 0, k);
    }
    SweepEmitsAll(preset, source, provider, n, lists, start, pages);
  }

  /** A budget that is large enough makes a reconciliation report the comparison
      with all that is listed. */
  lemma {:induction false} ReconcileReports(preset: Preset, source: Source, provider: Provider, n: nat,
      lists: seq<seq<Item>>, known: set<string>)
    returns (budget: nat)
    requires Steady(source, provider) && Listing(preset, provider, lists) && |lists| == Parents(preset, n)
    ensures forall maxPages: nat, report: Result<Report> ::
              maxPages >= budget && Reconciled(preset, source, n, known, maxPages, report) ==>
                report == Ok(Report(known - Ids(Flat(lists)), Ids(Flat(lists)) - known))
  {
    var pages := SweepExists(preset, source, provider, n, lists, Origin);
    KeptAll(Flat(lists));
    budget := |pages|;
    forall maxPages: nat, report: Result<Report> |
        maxPages >= budget && Reconciled(preset, source, n, known, maxPages, report)
      ensures report == Ok(Report(known - Ids(Flat(lists)), Ids(Flat(lists)) - known))
    {
      assert Budgeted(preset, source, n, maxPages, pages);
    }
  }
}
