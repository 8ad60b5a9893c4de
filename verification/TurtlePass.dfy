/** Whole passes of the rewriter: the matches of one pattern are replaced together, the
    result is masked again for the next pattern, and so on. */
module TurtlePass {
  import opened Common
  import opened Sorting
  import opened TurtleMask
  import opened TurtleEdits
  import opened TurtleRewrite
  import opened TurtleFullRemoval
  import opened TurtleView
  import opened TurtleRemask
  import opened TurtleFullView

  // ----- deletions made together -----

  /** Whole tokens go, and no quote moves up. */
  ghost predicate Clean(s: string, stay: seq<bool>) {
    CutsTokens(s, stay) && forall k {:trigger stay[k]} :: 0 < k < |s| && stay[k] && !stay[k - 1] ==> !Quote(s[k])
  }

  /** What neither of two deletions takes. */
  function Both(a: seq<bool>, b: seq<bool>): (stay: seq<bool>)
    requires |a| == |b|
    ensures |stay| == |a| && forall k :: 0 <= k < |a| ==> (stay[k] <==> a[k] && b[k])
  {
    seq(|a|, k requires 0 <= k < |a| => a[k] && b[k])
  }

  lemma {:induction false} BothCut(s: string, a: seq<bool>, b: seq<bool>, at: nat)
    requires Clean(s, a) && Clean(s, b) && at < |s| && Boundary(s, at)
    ensures CutsToken(s, Both(a, b), at)
  {
    var stay, end := Both(a, b), TokenEnd(s, at);
    assert CutsToken(s, a, at) && CutsToken(s, b, at);
    var next := NextStay(stay, end);
    if end < next < |s| {
      assert stay[next] && !stay[next - 1];
      assert !Quote(s[next]);
    }
  }

  lemma {:induction false} BothClean(s: string, a: seq<bool>, b: seq<bool>)
    requires Clean(s, a) && Clean(s, b)
    ensures Clean(s, Both(a, b))
  {
    forall at | 0 <= at < |s| && Boundary(s, at) ensures CutsToken(s, Both(a, b), at) { BothCut(s, a, b, at); }
  }

  /** What none of the first `m` deletions takes. */
  function Together(stays: seq<seq<bool>>, m: nat, n: nat): (stay: seq<bool>)
    requires m <= |stays| && forall i :: 0 <= i < |stays| ==> |stays[i]| == n
    ensures |stay| == n
  {
    if m == 0 then seq(n, _ => true) else Both(Together(stays, m - 1, n), stays[m - 1])
  }

  lemma {:induction false} TogetherAt(stays: seq<seq<bool>>, m: nat, n: nat, k: nat)
    requires m <= |stays| && k < n && forall i :: 0 <= i < |stays| ==> |stays[i]| == n
    ensures Together(stays, m, n)[k] <==> forall i :: 0 <= i < m ==> stays[i][k]
  {
    if m > 0 { TogetherAt(stays, m - 1, n, k); }
  }

  lemma {:induction false} TogetherClean(s: string, stays: seq<seq<bool>>, m: nat)
    requires m <= |stays|
    requires forall i {:trigger stays[i]} :: 0 <= i < |stays| ==> |stays[i]| == |s| && Clean(s, stays[i])
    ensures Clean(s, Together(stays, m, |s|))
  {
    if m > 0 {
      TogetherClean(s, stays, m - 1);
      BothClean(s, Together(stays, m - 1, |s|), stays[m - 1]);
    } else {
      AllClean(s, Together(stays, 0, |s|));
    }
  }

  lemma {:induction false} AllClean(s: string, stay: seq<bool>)
    requires |stay| == |s| && forall k :: 0 <= k < |s| ==> stay[k]
    ensures Clean(s, stay)
  {
  }

  // ----- one pass -----

  /** What stays of a match takes its place, and everything around it stays. */
  ghost predicate Replaced(text: string, match_: Edit, put: string, stay: seq<bool>) {
    && match_.start <= match_.end <= |text| == |stay|
    && (forall k :: 0 <= k < |text| && (k < match_.start || match_.end <= k) ==> stay[k])
    && put == Left(text, stay, match_.start, match_.end)
  }

  ghost predicate AllReplaced(text: string, matches: seq<Edit>, replace: Edit -> string, stays: seq<seq<bool>>) {
    && |stays| == |matches|
    && (forall i {:trigger stays[i]} :: 0 <= i < |stays| ==> Replaced(text, matches[i], replace(matches[i]), stays[i]))
    && (forall i, j {:trigger matches[i], matches[j]} :: 0 <= i < j < |matches| ==> matches[i].end <= matches[j].start)
  }

  lemma {:induction false} EndsAscend(text: string, matches: seq<Edit>, replace: Edit -> string,
      stays: seq<seq<bool>>, i: nat, j: nat)
    requires AllReplaced(text, matches, replace, stays) && i <= j < |matches|
    ensures matches[i].end <= matches[j].end && (i < j ==> matches[i].end <= matches[j].start)
  {
    assert Replaced(text, matches[j], replace(matches[j]), stays[j]);
  }

  /** Inside a match only its own replacement deletes. */
  lemma {:induction false} OwnStay(text: string, matches: seq<Edit>, replace: Edit -> string, stays: seq<seq<bool>>,
      i: nat, k: nat)
    requires AllReplaced(text, matches, replace, stays) && i < |matches| && k < |text|
    requires (i > 0 ==> matches[i - 1].end <= k) && k < matches[i].end
    ensures Together(stays, |stays|, |text|)[k] <==> stays[i][k]
  {
    TogetherAt(stays, |stays|, |text|, k);
    forall j | 0 <= j < |stays| && j != i ensures stays[j][k] {
      assert Replaced(text, matches[j], replace(matches[j]), stays[j]);
      if j < i {
        EndsAscend(text, matches, replace, stays, j, i - 1);
      } else {
        EndsAscend(text, matches, replace, stays, i, j);
      }
    }
  }

  lemma {:induction false} BehindAll(text: string, matches: seq<Edit>, replace: Edit -> string,
      stays: seq<seq<bool>>, k: nat)
    requires AllReplaced(text, matches, replace, stays) && k < |text|
    requires matches != [] ==> matches[|matches| - 1].end <= k
    ensures Together(stays, |stays|, |text|)[k]
  {
    TogetherAt(stays, |stays|, |text|, k);
    forall j | 0 <= j < |stays| ensures stays[j][k] {
      assert Replaced(text, matches[j], replace(matches[j]), stays[j]);
      EndsAscend(text, matches, replace, stays, j, |matches| - 1);
    }
  }

  lemma {:induction false} SameLeft(s: string, a: seq<bool>, b: seq<bool>, lo: nat, hi: nat)
    requires lo <= hi <= |s| == |a| == |b| && forall k :: lo <= k < hi ==> (a[k] <==> b[k])
    ensures Left(s, a, lo, hi) == Left(s, b, lo, hi)
    decreases hi
  {
    if lo < hi { SameLeft(s, a, b, lo, hi - 1); }
  }

  /** The text up to a match, and its replacement. */
  lemma {:induction false} OneMore(text: string, matches: seq<Edit>, replace: Edit -> string, stays: seq<seq<bool>>,
      i: nat, cursor: nat)
    requires AllReplaced(text, matches, replace, stays) && i < |matches|
    requires cursor == if i == 0 then 0 else matches[i - 1].end
    ensures cursor <= matches[i].start <= matches[i].end <= |text|
    ensures var all := Together(stays, |stays|, |text|);
            Left(text, all, 0, matches[i].end)
            == Left(text, all, 0, cursor) + text[cursor..matches[i].start] + replace(matches[i])
  {
    var all, e := Together(stays, |stays|, |text|), matches[i];
    assert Replaced(text, e, replace(e), stays[i]);
    if i > 0 { assert matches[i - 1].end <= e.start; }
    forall k | cursor <= k < e.end ensures all[k] <==> stays[i][k] { OwnStay(text, matches, replace, stays, i, k); }
    LeftSum(text, all, 0, cursor, e.end);
    LeftSum(text, all, cursor, e.start, e.end);
    LeftAll(text, all, cursor, e.start);
    SameLeft(text, all, stays[i], e.start, e.end);
    Associates(Left(text, all, 0, cursor), text[cursor..e.start], replace(e));
  }

  lemma {:induction false} TheRest(text: string, matches: seq<Edit>, replace: Edit -> string, stays: seq<seq<bool>>,
      cursor: nat)
    requires AllReplaced(text, matches, replace, stays)
    requires cursor == if matches == [] then 0 else matches[|matches| - 1].end
    ensures cursor <= |text|
    ensures var all := Together(stays, |stays|, |text|);
            Left(text, all, 0, |text|) == Left(text, all, 0, cursor) + text[cursor..]
  {
    var all := Together(stays, |stays|, |text|);
    if matches != [] {
      var n := |matches| - 1;
      assert Replaced(text, matches[n], replace(matches[n]), stays[n]);
    }
    forall k | cursor <= k < |text| ensures all[k] { BehindAll(text, matches, replace, stays, k); }
    LeftSum(text, all, 0, cursor, |text|);
    LeftAll(text, all, cursor, |text|);
  }

  /** `_masked_sub`, for matches in order. */
  method MaskedSub(text: string, matches: seq<Edit>, replace: Edit -> string, ghost stays: seq<seq<bool>>)
    returns (result: string)
    requires AllReplaced(text, matches, replace, stays)
    ensures result == Left(text, Together(stays, |stays|, |text|), 0, |text|)
  {
    if matches == [] {
      TheRest(text, matches, replace, stays, 0);
      assert "" + text[0..] == text;
      return text;
    }
    var chunks, cursor := "", 0;
    for i := 0 to |matches|
      invariant cursor == if i == 0 then 0 else matches[i - 1].end
      invariant cursor <= |text| && chunks == Left(text, Together(stays, |stays|, |text|), 0, cursor)
    {
      OneMore(text, matches, replace, stays, i, cursor);
      chunks := chunks + text[cursor..matches[i].start] + replace(matches[i]);
      cursor := matches[i].end;
    }
    TheRest(text, matches, replace, stays, cursor);
    result := chunks + text[cursor..];
  }

  // ----- what a match can become -----

  /** A match stays, loses some of its objects, or all of them with its predicate. */
  datatype Outcome =
    | Unchanged(start: nat, end: nat)
    | Partly(loc: Located, l: Layout, removed: seq<bool>)
    | Fully(site: Site, seps: Separators, result: string)

  function Span(o: Outcome): Edit {
    match o
    case Unchanged(start, end) => Edit(start, end)
    case Partly(loc, _, _) => Edit(loc.start, loc.end)
    case Fully(site, _, _) => Edit(site.start, site.end)
  }

  /** The conditions on a match, and that no quote stands behind what it loses. */
  ghost predicate Possible(text: string, o: Outcome) {
    match o
    case Unchanged(start, end) => start <= end <= |text|
    case Partly(loc, l, removed) =>
      && Sited(loc, l) && |removed| == |l.objects| && loc.text == text
      && var last := l.objects[|l.objects| - 1].end; (last < |text| ==> !Quote(text[last]))
    case Fully(site, seps, result) =>
      && FullySited(site) && Asked(site, seps) && site.text == text
      && (site.end < |text| ==> !Quote(text[site.end]))
      && Applied(text, site.start, site.end, Sort(SpanBefore, FullEdits(site, seps))) == Ok(result)
  }

  ghost function StayOf(text: string, o: Outcome): (stay: seq<bool>)
    requires Possible(text, o)
    ensures |stay| == |text|
  {
    match o
    case Unchanged(_, _) => seq(|text|, _ => true)
    case Partly(_, l, removed) => KeptFlags(l, removed)
    case Fully(site, seps, _) => FullFlags(site, seps)
  }

  ghost function PutOf(text: string, o: Outcome): string
    requires Possible(text, o)
  {
    match o
    case Unchanged(start, end) => text[start..end]
    case Partly(loc, l, removed) => Left(text, KeptFlags(l, removed), loc.start, loc.end)
    case Fully(_, _, result) => result
  }

  /** What stays behind something that goes starts a token. */
  lemma {:induction false} CutStarts(s: string, stay: seq<bool>, at: nat, k: nat)
    requires CutsTokens(s, stay) && Boundary(s, at) && at < k < |s| && stay[k] && !stay[k - 1]
    ensures Boundary(s, k)
    decreases k - at
  {
    assert CutsToken(s, stay, at);
    NextBoundary(s, at);
    if TokenEnd(s, at) < k { CutStarts(s, stay, TokenEnd(s, at), k); }
  }

  lemma {:induction false} StartShows(s: string, stay: seq<bool>, k: nat)
    requires CutsTokens(s, stay) && 0 < k < |s| && stay[k] && !stay[k - 1] && Mask(s)[k] != BLANK
    ensures !Quote(s[k])
  {
    CutStarts(s, stay, 0, k);
    TokenView(s, k, k);
  }

  lemma {:induction false} PartlyOutside(loc: Located, l: Layout, removed: seq<bool>)
    requires WellMatched(loc, l) && |removed| == |l.objects|
    ensures forall k :: 0 <= k < |loc.text| && (k < l.objects[0].start || l.objects[|removed| - 1].end <= k) ==>
              KeptFlags(l, removed)[k]
    ensures loc.start <= l.objects[0].start && l.objects[|removed| - 1].end <= loc.end <= |loc.text|
  {
    forall k | 0 <= k < |loc.text| && (k < l.objects[0].start || l.objects[|removed| - 1].end <= k)
      ensures KeptFlags(l, removed)[k]
    {
      StaysElsewhere(l, removed, k);
      PiecesKeep(l, removed, k);
    }
  }

  /** Behind a deletion inside the list a gap or an object goes on. */
  lemma {:induction false} PartlyShows(loc: Located, l: Layout, removed: seq<bool>, k: nat)
    requires Sited(loc, l) && |removed| == |l.objects|
    requires l.objects[0].start < k < l.objects[|removed| - 1].end && KeptFlags(l, removed)[k]
    requires !KeptFlags(l, removed)[k - 1]
    ensures loc.masked[k] != BLANK
  {
    var i := PlaceOf(l, k, |removed|);
    var o := l.objects[i];
    if o.start < k {
      StaysInObject(l, removed, i, k);
      StaysInObject(l, removed, i, k - 1);
      PiecesKeep(l, removed, k);
      PiecesKeep(l, removed, k - 1);
    } else if o.start == k {
      assert ObjectShows(loc, l, i);
    } else {
      assert GapShows(loc, l, i - 1);
    }
  }

  lemma {:induction false} PartlyClean(text: string, o: Outcome)
    requires o.Partly? && Possible(text, o)
    ensures Clean(text, StayOf(text, o))
  {
    var loc, l, removed, stay := o.loc, o.l, o.removed, StayOf(text, o);
    PartialCuts(loc, l, removed);
    PartlyOutside(loc, l, removed);
    forall k | 0 < k < |text| && stay[k] && !stay[k - 1] ensures !Quote(text[k]) {
      if k < l.objects[|removed| - 1].end {
        PartlyShows(loc, l, removed, k);
        StartShows(text, stay, k);
      }
    }
  }

  /** Where nothing outside a stretch goes, and what stays inside shows no literal. */
  lemma {:induction false} StretchClean(s: string, stay: seq<bool>, lo: nat, hi: nat)
    requires CutsTokens(s, stay) && lo <= hi <= |s| && (hi < |s| ==> !Quote(s[hi]))
    requires forall k :: 0 <= k < |s| && (k < lo || hi <= k) ==> stay[k]
    requires forall k :: lo <= k < hi && stay[k] ==> GapChar(Mask(s)[k])
    ensures Clean(s, stay)
  {
    forall k | 0 < k < |s| && stay[k] && !stay[k - 1] ensures !Quote(s[k]) {
      if k < hi { StartShows(s, stay, k); }
    }
  }

  lemma {:induction false} FullCuts(s: Site, seps: Separators, result: string)
    requires FullySited(s) && Asked(s, seps)
    requires Applied(s.text, s.start, s.end, Sort(SpanBefore, FullEdits(s, seps))) == Ok(result)
    ensures CutsTokens(s.text, FullFlags(s, seps))
  {
    var spans := Sort(SpanBefore, Tokens(s, seps));
    FullLeaves(s, seps, result);
    SiteRow(s, seps, spans);
    FlagsAreRow(s, seps, spans);
    RowCuts(s.text, s.start, spans, EndBoundary(s, seps), s.end, FullFlags(s, seps));
  }

  lemma {:induction false} FullyClean(text: string, o: Outcome)
    requires o.Fully? && Possible(text, o)
    ensures Clean(text, StayOf(text, o))
  {
    FullCuts(o.site, o.seps, o.result);
    FullLeaves(o.site, o.seps, o.result);
    StaysPlain(o.site, o.seps);
    StretchClean(text, FullFlags(o.site, o.seps), o.site.start, o.site.end);
  }

  lemma {:induction false} OutcomeClean(text: string, o: Outcome)
    requires Possible(text, o)
    ensures Clean(text, StayOf(text, o))
  {
    match o
    case Unchanged(_, _) => AllClean(text, StayOf(text, o));
    case Partly(_, _, _) => PartlyClean(text, o);
    case Fully(_, _, _) => FullyClean(text, o);
  }

  /** Each outcome is a replacement of its match. */
  lemma {:induction false} OutcomeReplaces(text: string, o: Outcome)
    requires Possible(text, o)
    ensures Replaced(text, Span(o), PutOf(text, o), StayOf(text, o))
  {
    match o
    case Unchanged(start, end) => LeftAll(text, StayOf(text, o), start, end);
    case Partly(loc, l, removed) => PartlyOutside(loc, l, removed);
    case Fully(site, seps, result) => FullLeaves(site, seps, result);
  }

  // ----- what a pass leaves -----

  /** A pass that makes of each match one of these outcomes. */
  ghost predicate Pass(text: string, outcomes: seq<Outcome>, replace: Edit -> string) {
    && (forall i {:trigger outcomes[i]} :: 0 <= i < |outcomes| ==>
          Possible(text, outcomes[i]) && replace(Span(outcomes[i])) == PutOf(text, outcomes[i]))
    && (forall i, j {:trigger outcomes[i], outcomes[j]} :: 0 <= i < j < |outcomes| ==>
          Span(outcomes[i]).end <= Span(outcomes[j]).start)
  }

  function Spans(outcomes: seq<Outcome>): (spans: seq<Edit>)
    ensures |spans| == |outcomes| && forall i :: 0 <= i < |spans| ==> spans[i] == Span(outcomes[i])
  {
    seq(|outcomes|, i requires 0 <= i < |outcomes| => Span(outcomes[i]))
  }

  ghost function StaysOf(text: string, outcomes: seq<Outcome>): (stays: seq<seq<bool>>)
    requires forall i {:trigger outcomes[i]} :: 0 <= i < |outcomes| ==> Possible(text, outcomes[i])
    ensures |stays| == |outcomes| && forall i :: 0 <= i < |stays| ==> stays[i] == StayOf(text, outcomes[i])
  {
    seq(|outcomes|, i requires 0 <= i < |outcomes| => StayOf(text, outcomes[i]))
  }

  /** A text with characters deleted whose view is the view with them deleted. */
  ghost predicate Shrinks(text: string, stay: seq<bool>, after: string) {
    && |stay| == |text| && after == Left(text, stay, 0, |text|)
    && Mask(after) == Left(Mask(text), stay, 0, |text|)
  }

  lemma {:induction false} PassReplaces(text: string, outcomes: seq<Outcome>, replace: Edit -> string)
    requires Pass(text, outcomes, replace)
    ensures AllReplaced(text, Spans(outcomes), replace, StaysOf(text, outcomes))
  {
    var matches, stays := Spans(outcomes), StaysOf(text, outcomes);
    forall i | 0 <= i < |stays| ensures Replaced(text, matches[i], replace(matches[i]), stays[i]) {
      OutcomeReplaces(text, outcomes[i]);
    }
    forall i, j | 0 <= i < j < |matches| ensures matches[i].end <= matches[j].start {
      assert Span(outcomes[i]).end <= Span(outcomes[j]).start;
    }
  }

  /** After a pass over any number of matches the view is that of the text before, with
      the characters deleted that any of the matches lost. */
  method RunPass(text: string, outcomes: seq<Outcome>, replace: Edit -> string) returns (after: string)
    requires Pass(text, outcomes, replace)
    ensures Shrinks(text, Together(StaysOf(text, outcomes), |outcomes|, |text|), after)
  {
    ghost var stays := StaysOf(text, outcomes);
    PassReplaces(text, outcomes, replace);
    after := MaskedSub(text, Spans(outcomes), replace, stays);
    forall i | 0 <= i < |stays| ensures Clean(text, stays[i]) { OutcomeClean(text, outcomes[i]); }
    TogetherClean(text, stays, |stays|);
    MaskOfLeft(text, Together(stays, |stays|, |text|));
  }

  // ----- passes one after another -----

  /** What stays through two deletions, the second made on what the first left. */
  function Through(a: seq<bool>, b: seq<bool>): (stay: seq<bool>)
    ensures |stay| == |a|
    ensures forall k :: 0 <= k < |a| ==> (stay[k] <==> a[k] && Count(a, k) < |b| && b[Count(a, k)])
  {
    seq(|a|, k requires 0 <= k < |a| => a[k] && Count(a, k) < |b| && b[Count(a, k)])
  }

  lemma {:induction false} LeftThrough(s: string, a: seq<bool>, b: seq<bool>, hi: nat)
    requires hi <= |s| == |a| && |b| == |Left(s, a, 0, |s|)|
    ensures Count(a, hi) <= |b|
    ensures Left(s, Through(a, b), 0, hi) == Left(Left(s, a, 0, |s|), b, 0, Count(a, hi))
    decreases hi
  {
    LeftLength(s, a, |s|);
    CountMono(a, hi, |s|);
    if hi > 0 {
      LeftThrough(s, a, b, hi - 1);
      if a[hi - 1] { LeftAt(s, a, hi - 1, |s|); }
    }
  }

  lemma {:induction false} ShrinksOn(s: string, a: seq<bool>, t: string, b: seq<bool>, u: string)
    requires Shrinks(s, a, t) && Shrinks(t, b, u)
    ensures Shrinks(s, Through(a, b), u)
  {
    LeftThrough(s, a, b, |s|);
    LeftThrough(Mask(s), a, b, |s|);
    LeftLength(s, a, |s|);
  }

  /** Each text comes from the one before by a pass. */
  ghost predicate Passes(texts: seq<string>, stays: seq<seq<bool>>) {
    && |texts| == |stays| + 1
    && forall i {:trigger stays[i]} :: 0 <= i < |stays| ==> Shrinks(texts[i], stays[i], texts[i + 1])
  }

  /** However many patterns are applied one after another, the view of the last text is
      the view of the first with the same characters deleted. */
  lemma {:induction false} PassesShrink(texts: seq<string>, stays: seq<seq<bool>>, n: nat) returns (stay: seq<bool>)
    requires Passes(texts, stays) && n < |texts|
    ensures Shrinks(texts[0], stay, texts[n])
  {
    if n == 0 {
      stay := seq(|texts[0]|, _ => true);
      LeftAll(texts[0], stay, 0, |texts[0]|);
      LeftAll(Mask(texts[0]), stay, 0, |texts[0]|);
    } else {
      stay := PassesShrink(texts, stays, n - 1);
      assert Shrinks(texts[n - 1], stays[n - 1], texts[n]);
      ShrinksOn(texts[0], stay, texts[n - 1], stays[n - 1], texts[n]);
      stay := Through(stay, stays[n - 1]);
    }
  }
}
