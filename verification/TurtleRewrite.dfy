/** Removing some or all objects of an import's object list. */
module TurtleRewrite {
  import opened Common
  import opened Sorting
  import opened TurtleEdits

  /** A located match: its span, and the spans of its objects, over a text and
      its masked view. */
  datatype Located = Located(text: string, masked: string, start: nat, end: nat, objects: seq<Edit>)

  /** The first `c` of the masked view between `lo` and `hi`. */
  function Find(masked: string, c: char, lo: nat, hi: nat): Option<nat>
    requires hi <= |masked|
    decreases hi - lo
  {
    if lo >= hi then None else if masked[lo] == c then Some(lo) else Find(masked, c, lo + 1, hi)
  }

  lemma {:induction false} FindFirst(masked: string, c: char, lo: nat, hi: nat)
    requires hi <= |masked|
    ensures match Find(masked, c, lo, hi)
            case Some(k) => lo <= k < hi && masked[k] == c && forall j :: lo <= j < k ==> masked[j] != c
            case None => forall j :: lo <= j < hi ==> masked[j] != c
    decreases hi - lo
  {
    if lo < hi && masked[lo] != c { FindFirst(masked, c, lo + 1, hi); }
  }

  predicate OnlyComma(masked: string, k: nat, lo: nat, hi: nat)
    requires hi <= |masked|
  {
    lo <= k < hi && masked[k] == ',' && forall j :: lo <= j < hi && masked[j] == ',' ==> j == k
  }

  /** A located match with the positions of its commas. */
  datatype Layout = Layout(text: string, start: nat, end: nat, objects: seq<Edit>, commas: seq<nat>)

  predicate Shaped(l: Layout) {
    |l.objects| == |l.commas| + 1
  }

  /** Objects lie inside the match, and each comma between its two objects. */
  ghost predicate Laid(l: Layout) {
    && Shaped(l) && l.start <= l.end <= |l.text|
    && (forall i {:trigger l.objects[i]} :: 0 <= i < |l.objects| ==>
          l.start <= l.objects[i].start < l.objects[i].end <= l.end)
    && (forall i {:trigger l.commas[i]} :: 0 <= i < |l.commas| ==>
          l.objects[i].end <= l.commas[i] < l.objects[i + 1].start)
  }

  /** What the match pattern guarantees: objects in order inside the match, and
      exactly one visible comma between neighbours, at the positions of `l`. */
  ghost predicate WellMatched(loc: Located, l: Layout) {
    && Laid(l) && l.text == loc.text && l.start == loc.start && l.end == loc.end && l.objects == loc.objects
    && |loc.masked| == |loc.text|
    && forall i {:trigger l.commas[i]} :: 0 <= i < |l.commas| ==>
         OnlyComma(loc.masked, l.commas[i], l.objects[i].end, l.objects[i + 1].start)
  }

  lemma {:induction false} CommaFound(loc: Located, l: Layout, i: nat)
    requires WellMatched(loc, l) && i + 1 < |l.objects|
    ensures loc.objects[i].end <= loc.objects[i + 1].start <= |loc.masked|
    ensures Find(loc.masked, ',', loc.objects[i].end, loc.objects[i + 1].start) == Some(l.commas[i])
  {
    assert OnlyComma(loc.masked, l.commas[i], l.objects[i].end, l.objects[i + 1].start);
    FindFirst(loc.masked, ',', loc.objects[i].end, loc.objects[i + 1].start);
  }

  predicate Plain(text: string, start: nat, end: nat) {
    start < end <= |text| && forall k :: start <= k < end ==> text[k] != '#'
  }

  function GapEdit(text: string, start: nat, end: nat): seq<Edit> {
    if Plain(text, start, end) then [Edit(start, end)] else []
  }

  // ----- partial removal, object by object -----

  /** `removed[i]` says that object `i` goes. */
  predicate Leading(removed: seq<bool>, i: nat)
    requires i < |removed|
  {
    forall j :: 0 <= j <= i ==> removed[j]
  }

  predicate DropsComma(removed: seq<bool>, i: nat)
    requires i + 1 < |removed|
  {
    removed[i + 1] || Leading(removed, i)
  }

  /** The comma at the border of a run takes the plain text after it along. */
  predicate DropsGap(removed: seq<bool>, i: nat)
    requires i + 1 < |removed|
  {
    DropsComma(removed, i) && !(removed[i] && removed[i + 1])
  }

  function ObjectPiece(l: Layout, removed: seq<bool>, i: nat): seq<Edit>
    requires i < |l.objects| == |removed|
  {
    if removed[i] then [l.objects[i]] else []
  }

  function GapPiece(l: Layout, removed: seq<bool>, i: nat): seq<Edit>
    requires Shaped(l) && i + 1 < |l.objects| == |removed|
  {
    var comma := l.commas[i];
    if !DropsComma(removed, i) then []
    else if !DropsGap(removed, i) then [Edit(comma, comma + 1)]
    else [Edit(comma, comma + 1)] + GapEdit(l.text, comma + 1, l.objects[i + 1].start)
  }

  /** All deletions up to object `n`, in text order. */
  function Pieces(l: Layout, removed: seq<bool>, n: nat): seq<Edit>
    requires Shaped(l) && n <= |l.objects| == |removed|
  {
    if n == 0 then [] else Pieces(l, removed, n - 1) + NextPiece(l, removed, n - 1)
  }

  function NextPiece(l: Layout, removed: seq<bool>, i: nat): seq<Edit>
    requires Shaped(l) && i < |l.objects| == |removed|
  {
    (if i > 0 then GapPiece(l, removed, i - 1) else []) + ObjectPiece(l, removed, i)
  }

  // ----- the pieces are in order -----

  lemma {:induction false} NextFits(l: Layout, removed: seq<bool>, i: nat)
    requires Laid(l) && i + 1 < |l.objects| == |removed|
    ensures Fits(NextPiece(l, removed, i + 1), l.objects[i].end, l.objects[i + 1].end)
  {
    assert l.objects[i].end <= l.commas[i] < l.objects[i + 1].start;
    FitsSum(GapPiece(l, removed, i), ObjectPiece(l, removed, i + 1), l.objects[i].end, l.objects[i + 1].start,
            l.objects[i + 1].end);
  }

  lemma {:induction false} OneAscends(e: Edit, cursor: nat)
    requires cursor <= e.start <= e.end
    ensures Ascending([e], cursor)
  {
    assert [e][1..] == [];
  }

  lemma {:induction false} GapAscends(l: Layout, removed: seq<bool>, i: nat)
    requires Laid(l) && i + 1 < |l.objects| == |removed|
    ensures Ascending(GapPiece(l, removed, i), l.objects[i].end)
  {
    var comma, next := l.commas[i], l.objects[i + 1].start;
    assert l.objects[i].end <= comma < next;
    var mark, rest := [Edit(comma, comma + 1)], GapEdit(l.text, comma + 1, next);
    OneAscends(mark[0], l.objects[i].end);
    if rest != [] { OneAscends(rest[0], comma + 1); }
    AscendingSum(mark, rest, l.objects[i].end, comma + 1);
  }

  lemma {:induction false} NextAscends(l: Layout, removed: seq<bool>, i: nat)
    requires Laid(l) && i + 1 < |l.objects| == |removed|
    ensures Ascending(NextPiece(l, removed, i + 1), l.objects[i].end)
  {
    assert l.objects[i].end <= l.commas[i] < l.objects[i + 1].start;
    GapAscends(l, removed, i);
    if removed[i + 1] { OneAscends(l.objects[i + 1], l.objects[i + 1].start); }
    AscendingSum(GapPiece(l, removed, i), ObjectPiece(l, removed, i + 1), l.objects[i].end, l.objects[i + 1].start);
  }

  /** Edits in order inside a stretch. */
  predicate InStretch(edits: seq<Edit>, start: nat, end: nat) {
    start <= end && Fits(edits, start, end) && Ascending(edits, start)
  }

  lemma {:induction false} StretchSum(a: seq<Edit>, b: seq<Edit>, start: nat, at: nat, end: nat)
    requires InStretch(a, start, at) && InStretch(b, at, end)
    ensures InStretch(a + b, start, end)
  {
    FitsSum(a, b, start, at, end);
    AscendingSum(a, b, start, at);
  }

  lemma {:induction false} NextStretch(l: Layout, removed: seq<bool>, i: nat)
    requires Laid(l) && i + 1 < |l.objects| == |removed|
    ensures InStretch(NextPiece(l, removed, i + 1), l.objects[i].end, l.objects[i + 1].end)
  {
    assert l.objects[i].end <= l.commas[i] < l.objects[i + 1].start;
    NextFits(l, removed, i);
    NextAscends(l, removed, i);
  }

  lemma {:induction false} FirstStretch(l: Layout, removed: seq<bool>)
    requires Laid(l) && |l.objects| == |removed|
    ensures InStretch(Pieces(l, removed, 1), l.start, l.objects[0].end)
  {
    assert Pieces(l, removed, 0) == [] && Pieces(l, removed, 1) == ObjectPiece(l, removed, 0);
    if removed[0] { OneAscends(l.objects[0], l.start); }
  }

  lemma {:induction false} PiecesStretch(l: Layout, removed: seq<bool>, n: nat)
    requires Laid(l) && 0 < n <= |l.objects| == |removed|
    ensures InStretch(Pieces(l, removed, n), l.start, l.objects[n - 1].end)
  {
    if n == 1 {
      FirstStretch(l, removed);
    } else {
      PiecesStretch(l, removed, n - 1);
      NextStretch(l, removed, n - 2);
      StretchSum(Pieces(l, removed, n - 1), NextPiece(l, removed, n - 1), l.start, l.objects[n - 2].end,
          l.objects[n - 1].end);
    }
  }

  lemma {:induction false} PiecesFit(l: Layout, removed: seq<bool>, n: nat)
    requires Laid(l) && 0 < n <= |l.objects| == |removed|
    ensures Fits(Pieces(l, removed, n), l.start, l.objects[n - 1].end)
  {
    PiecesStretch(l, removed, n);
  }

  // ----- which characters stay -----

  lemma {:induction false} Ordered(l: Layout, i: nat, j: nat)
    requires Laid(l) && i < j < |l.objects|
    ensures l.objects[i].end <= l.commas[i] < l.objects[j].start
    decreases j
  {
    if i < j - 1 {
      Ordered(l, i, j - 1);
      assert l.objects[j - 1].end <= l.commas[j - 1] < l.objects[j].start;
      assert l.objects[j - 1].start < l.objects[j - 1].end;
    }
  }

  lemma {:induction false} EndsOrdered(l: Layout, i: nat, j: nat)
    requires Laid(l) && i <= j < |l.objects|
    ensures l.objects[i].end <= l.objects[j].end
  {
    if i < j { Ordered(l, i, j); }
  }

  lemma {:induction false} PiecesStep(l: Layout, removed: seq<bool>, n: nat, k: nat)
    requires Shaped(l) && 0 < n <= |l.objects| == |removed|
    ensures Stays(Pieces(l, removed, n), k) <==>
        Stays(Pieces(l, removed, n - 1), k) && Stays(NextPiece(l, removed, n - 1), k)
  {
    StaysSum(Pieces(l, removed, n - 1), NextPiece(l, removed, n - 1), k);
  }

  /** A later piece leaves a character alone. */
  lemma {:induction false} PieceBehind(l: Layout, removed: seq<bool>, i: nat, m: nat, k: nat)
    requires Laid(l) && i < m < |l.objects| == |removed| && k < l.objects[i].end
    ensures Stays(NextPiece(l, removed, m), k)
  {
    NextFits(l, removed, m - 1);
    EndsOrdered(l, i, m - 1);
    StaysOutside(NextPiece(l, removed, m), l.objects[m - 1].end, l.objects[m].end, k);
  }

  /** So does an earlier one. */
  lemma {:induction false} PieceBefore(l: Layout, removed: seq<bool>, m: nat, i: nat, k: nat)
    requires Laid(l) && m < i < |l.objects| == |removed| && l.objects[i - 1].end <= k
    ensures Stays(NextPiece(l, removed, m), k)
  {
    PiecesFit(l, removed, i);
    StaysOutside(Pieces(l, removed, i), l.start, l.objects[i - 1].end, k);
    PiecesEach(l, removed, i, k);
    assert PieceStays(l, removed, m, k);
  }

  predicate PieceStays(l: Layout, removed: seq<bool>, m: nat, k: nat) {
    Shaped(l) && m < |l.objects| == |removed| && Stays(NextPiece(l, removed, m), k)
  }

  lemma {:induction false} PiecesEach(l: Layout, removed: seq<bool>, n: nat, k: nat)
    requires Shaped(l) && n <= |l.objects| == |removed|
    ensures Stays(Pieces(l, removed, n), k) <==>
            forall m {:trigger PieceStays(l, removed, m, k)} :: 0 <= m < n ==> PieceStays(l, removed, m, k)
  {
    if n > 0 {
      PiecesStep(l, removed, n, k);
      PiecesEach(l, removed, n - 1, k);
      assert PieceStays(l, removed, n - 1, k) <==> Stays(NextPiece(l, removed, n - 1), k);
    } else {
      assert Pieces(l, removed, 0) == [];
    }
  }

  /** What happens to a character depends on its own gap and object alone. */
  lemma {:induction false} PiecesAt(l: Layout, removed: seq<bool>, n: nat, i: nat, k: nat)
    requires Laid(l) && i < n <= |l.objects| == |removed|
    requires k < l.objects[i].end && (i > 0 ==> l.objects[i - 1].end <= k)
    ensures Stays(Pieces(l, removed, n), k) <==> Stays(NextPiece(l, removed, i), k)
  {
    PiecesEach(l, removed, n, k);
    forall m | 0 <= m < n && m != i ensures PieceStays(l, removed, m, k) {
      if m < i { PieceBefore(l, removed, m, i, k); } else { PieceBehind(l, removed, i, m, k); }
    }
    assert PieceStays(l, removed, i, k) <==> Stays(NextPiece(l, removed, i), k);
  }

  lemma {:induction false} StaysInObject(l: Layout, removed: seq<bool>, i: nat, k: nat)
    requires Laid(l) && i < |l.objects| == |removed| && l.objects[i].start <= k < l.objects[i].end
    ensures Stays(Pieces(l, removed, |removed|), k) <==> !removed[i]
  {
    var gap := if i > 0 then GapPiece(l, removed, i - 1) else [];
    if i > 0 {
      Ordered(l, i - 1, i);
      StaysOutside(gap, l.objects[i - 1].end, l.objects[i].start, k);
    }
    StaysSum(gap, ObjectPiece(l, removed, i), k);
    PiecesAt(l, removed, |removed|, i, k);
    StaysOne(l.objects[i], k);
  }

  /** What stays of a gap: everything, or all but the comma, with or without the plain
      text behind it. */
  predicate GapStays(text: string, comma: nat, next: nat, drops: bool, dropsGap: bool, k: nat) {
    !drops || (k != comma && !(k > comma && dropsGap && Plain(text, comma + 1, next)))
  }

  lemma {:induction false} StaysInGap(l: Layout, removed: seq<bool>, i: nat, k: nat)
    requires Laid(l) && i + 1 < |l.objects| == |removed| && l.objects[i].end <= k < l.objects[i + 1].start
    ensures Stays(Pieces(l, removed, |removed|), k) <==>
            GapStays(l.text, l.commas[i], l.objects[i + 1].start, DropsComma(removed, i), DropsGap(removed, i), k)
  {
    StaysSum(GapPiece(l, removed, i), ObjectPiece(l, removed, i + 1), k);
    PiecesAt(l, removed, |removed|, i + 1, k);
    GapPieceAt(l, removed, i, k);
  }

  lemma {:induction false} GapPieceAt(l: Layout, removed: seq<bool>, i: nat, k: nat)
    requires Laid(l) && i + 1 < |l.objects| == |removed| && l.objects[i].end <= k < l.objects[i + 1].start
    ensures Stays(GapPiece(l, removed, i), k) <==>
            GapStays(l.text, l.commas[i], l.objects[i + 1].start, DropsComma(removed, i), DropsGap(removed, i), k)
  {
    var comma, next := l.commas[i], l.objects[i + 1].start;
    var mark, rest := Edit(comma, comma + 1), GapEdit(l.text, comma + 1, next);
    StaysSum([mark], rest, k);
    StaysOne(mark, k);
    StaysOne(Edit(comma + 1, next), k);
  }

  lemma {:induction false} StaysElsewhere(l: Layout, removed: seq<bool>, k: nat)
    requires Laid(l) && |l.objects| == |removed|
    requires k < l.objects[0].start || l.objects[|removed| - 1].end <= k
    ensures Stays(Pieces(l, removed, |removed|), k)
  {
    if k < l.objects[0].start {
      PiecesAt(l, removed, |removed|, 0, k);
    } else {
      PiecesFit(l, removed, |removed|);
    }
  }

  // ----- the text that is left -----

  /** What stays, said without edits: everything but the removed objects, the commas
      that go, and the plain text behind a comma at the border of a run. */
  predicate Keeps(l: Layout, removed: seq<bool>, k: nat)
    requires Shaped(l) && |l.objects| == |removed|
  {
    && (forall i {:trigger l.objects[i]} :: 0 <= i < |removed| && removed[i] ==>
        !(l.objects[i].start <= k < l.objects[i].end))
    && (forall i {:trigger l.commas[i]} :: 0 <= i < |l.commas| && l.objects[i].end <= k < l.objects[i + 1].start ==>
          GapStays(l.text, l.commas[i], l.objects[i + 1].start, DropsComma(removed, i), DropsGap(removed, i), k))
  }

  function KeptFlags(l: Layout, removed: seq<bool>): (stay: seq<bool>)
    requires Shaped(l) && |l.objects| == |removed|
    ensures |stay| == |l.text| && forall k :: 0 <= k < |stay| ==> (stay[k] <==> Keeps(l, removed, k))
  {
    seq(|l.text|, k requires 0 <= k < |l.text| => Keeps(l, removed, k))
  }

  /** The object at or behind a position inside the list. */
  lemma {:induction false} PlaceOf(l: Layout, k: nat, n: nat) returns (i: nat)
    requires Laid(l) && 0 < n <= |l.objects| && l.objects[0].start <= k < l.objects[n - 1].end
    ensures i < n && k < l.objects[i].end && (i > 0 ==> l.objects[i - 1].end <= k)
    ensures i == 0 ==> l.objects[0].start <= k
  {
    if n == 1 || l.objects[n - 2].end <= k {
      i := n - 1;
    } else {
      i := PlaceOf(l, k, n - 1);
    }
  }

  lemma {:induction false} PiecesKeep(l: Layout, removed: seq<bool>, k: nat)
    requires Laid(l) && |l.objects| == |removed|
    ensures Stays(Pieces(l, removed, |removed|), k) <==> Keeps(l, removed, k)
  {
    forall i | 0 <= i < |removed| && l.objects[i].start <= k < l.objects[i].end
      ensures Stays(Pieces(l, removed, |removed|), k) <==> !removed[i]
    {
      StaysInObject(l, removed, i, k);
    }
    forall i | 0 <= i < |l.commas| && l.objects[i].end <= k < l.objects[i + 1].start
      ensures Stays(Pieces(l, removed, |removed|), k) <==>
              GapStays(l.text, l.commas[i], l.objects[i + 1].start, DropsComma(removed, i), DropsGap(removed, i), k)
    {
      StaysInGap(l, removed, i, k);
    }
    if k < l.objects[0].start || l.objects[|removed| - 1].end <= k {
      StaysElsewhere(l, removed, k);
    } else {
      var i := PlaceOf(l, k, |removed|);
      if k < l.objects[i].start { assert l.commas[i - 1] < l.objects[i].start; }
    }
  }

  lemma {:induction false} StretchApplies(text: string, start: nat, at: nat, end: nat, edits: seq<Edit>,
      stay: seq<bool>)
    requires InStretch(edits, start, at) && at <= end <= |text| == |stay|
    requires forall k :: start <= k < end ==> (stay[k] <==> Stays(edits, k))
    ensures Applied(text, start, end, edits) == Ok(Left(text, stay, start, end))
    ensures Sorted(SpanBefore, edits) && Fits(edits, start, end)
  {
    AscendingApart(edits, start);
    AppliedLeaves(text, start, end, edits, stay);
  }

  /** The pieces, in text order, applied to the whole match, leave what is kept. */
  lemma {:induction false} AllPiecesApply(l: Layout, removed: seq<bool>)
    requires Laid(l) && |removed| == |l.objects|
    ensures var pieces := Pieces(l, removed, |removed|);
            && Applied(l.text, l.start, l.end, pieces) == Ok(Left(l.text, KeptFlags(l, removed), l.start, l.end))
            && Sorted(SpanBefore, pieces) && Fits(pieces, l.start, l.end)
  {
    var pieces, stay, at := Pieces(l, removed, |removed|), KeptFlags(l, removed), l.objects[|removed| - 1].end;
    PiecesStretch(l, removed, |removed|);
    assert at <= l.end;
    forall k | l.start <= k < l.end ensures stay[k] <==> Stays(pieces, k) { PiecesKeep(l, removed, k); }
    StretchApplies(l.text, l.start, at, l.end, pieces, stay);
  }

  // ----- runs of removed objects -----

  datatype Run = Run(first: nat, last: nat)

  /** The maximal runs among the first `m` objects. */
  function Runs(removed: seq<bool>, m: nat): seq<Run>
    requires m <= |removed|
  {
    if m == 0 then []
    else
      var runs := Runs(removed, m - 1);
      if !removed[m - 1] then runs
      else if runs != [] && runs[|runs| - 1].last + 1 == m - 1 then
        runs[..|runs| - 1] + [Run(runs[|runs| - 1].first, m - 1)]
      else runs + [Run(m - 1, m - 1)]
  }

  lemma {:induction false} RunsSkip(removed: seq<bool>, m: nat, n: nat)
    requires m <= n <= |removed| && forall i :: m <= i < n ==> !removed[i]
    ensures Runs(removed, n) == Runs(removed, m)
    decreases n
  {
    if m < n { RunsSkip(removed, m, n - 1); }
  }

  function Indices(removed: seq<bool>, n: nat): (indices: seq<nat>)
    requires n <= |removed|
    ensures forall k :: 0 <= k < |indices| ==> indices[k] < n && removed[indices[k]]
  {
    if n == 0 then [] else Indices(removed, n - 1) + if removed[n - 1] then [n - 1] else []
  }

  /** `_removed_runs` */
  method RemovedRuns(indices: seq<nat>, ghost removed: seq<bool>) returns (runs: seq<Run>)
    requires indices == Indices(removed, |removed|)
    ensures runs == Runs(removed, |removed|)
  {
    runs := [];
    ghost var m: nat := 0;
    for k := 0 to |indices|
      invariant m <= |removed| && runs == Runs(removed, m)
      invariant indices[..k] == Indices(removed, m)
    {
      IndicesNext(removed, m, |removed|, k);
      var index := indices[k];
      RunsSkip(removed, m, index);
      if runs != [] && runs[|runs| - 1].last + 1 == index {
        runs := runs[..|runs| - 1] + [Run(runs[|runs| - 1].first, index)];
      } else {
        runs := runs + [Run(index, index)];
      }
      m := index + 1;
      assert indices[..k + 1] == indices[..k] + [index];
    }
    assert indices[..|indices|] == indices;
    NoneLeft(removed, m, |removed|);
    RunsSkip(removed, m, |removed|);
  }

  /** The next index is the next removed object. */
  lemma {:induction false} IndicesNext(removed: seq<bool>, m: nat, n: nat, k: nat)
    requires m <= n <= |removed| && k == |Indices(removed, m)| < |Indices(removed, n)|
    ensures var index := Indices(removed, n)[k];
            && m <= index < n && removed[index]
            && (forall i :: m <= i < index ==> !removed[i])
            && Indices(removed, index + 1) == Indices(removed, m) + [index]
    decreases n
  {
    if k < |Indices(removed, n - 1)| && m < n {
      IndicesNext(removed, m, n - 1, k);
    } else {
      NoneLeft(removed, m, n - 1);
    }
  }

  lemma {:induction false} NoneLeft(removed: seq<bool>, m: nat, n: nat)
    requires m <= n <= |removed| && |Indices(removed, m)| == |Indices(removed, n)|
    ensures Indices(removed, m) == Indices(removed, n) && forall i :: m <= i < n ==> !removed[i]
    decreases n
  {
    if m < n {
      IndicesGrow(removed, m, n - 1);
      NoneLeft(removed, m, n - 1);
    }
  }

  lemma {:induction false} IndicesGrow(removed: seq<bool>, m: nat, n: nat)
    requires m <= n <= |removed|
    ensures |Indices(removed, m)| <= |Indices(removed, n)|
    decreases n
  {
    if m < n { IndicesGrow(removed, m, n - 1); }
  }

  // ----- the edits run by run -----

  function Commas(l: Layout, first: nat, last: nat): seq<Edit>
    requires Shaped(l) && first <= last < |l.objects|
    decreases last - first
  {
    if first == last then []
    else Commas(l, first, last - 1) + [Edit(l.commas[last - 1], l.commas[last - 1] + 1)]
  }

  /** The comma that goes with the run as a whole, and the plain gap behind it. */
  function Border(l: Layout, run: Run): seq<Edit>
    requires Shaped(l) && run.first <= run.last < |l.objects|
  {
    if run.first > 0 then BorderAt(l, run.first - 1)
    else if run.last + 1 < |l.objects| then BorderAt(l, run.last)
    else []
  }

  function BorderAt(l: Layout, i: nat): seq<Edit>
    requires Shaped(l) && i + 1 < |l.objects|
  {
    [Edit(l.commas[i], l.commas[i] + 1)] + GapEdit(l.text, l.commas[i] + 1, l.objects[i + 1].start)
  }

  function RunEdits(l: Layout, run: Run): seq<Edit>
    requires Shaped(l) && run.first <= run.last < |l.objects|
  {
    l.objects[run.first..run.last + 1] + Commas(l, run.first, run.last) + Border(l, run)
  }

  method MakeCommas(loc: Located, ghost l: Layout, run: Run) returns (edits: seq<Edit>)
    requires WellMatched(loc, l) && run.first <= run.last < |loc.objects|
    ensures edits == Commas(l, run.first, run.last)
  {
    edits := [];
    for index := run.first to run.last
      invariant edits == Commas(l, run.first, index)
    {
      CommaFound(loc, l, index);
      var comma := Find(loc.masked, ',', loc.objects[index].end, loc.objects[index + 1].start);
      edits := edits + [Edit(comma.value, comma.value + 1)];
    }
  }

  method MakeBorder(loc: Located, ghost l: Layout, at: nat) returns (edits: seq<Edit>)
    requires WellMatched(loc, l) && at + 1 < |loc.objects|
    ensures edits == BorderAt(l, at)
  {
    CommaFound(loc, l, at);
    var comma := Find(loc.masked, ',', loc.objects[at].end, loc.objects[at + 1].start).value;
    edits := [Edit(comma, comma + 1)] + GapEdit(loc.text, comma + 1, loc.objects[at + 1].start);
  }

  /** `_run_edits` */
  method MakeRunEdits(loc: Located, ghost l: Layout, run: Run) returns (edits: seq<Edit>)
    requires WellMatched(loc, l) && run.first <= run.last < |loc.objects|
    ensures edits == RunEdits(l, run)
  {
    var commas := MakeCommas(loc, l, run);
    edits := loc.objects[run.first..run.last + 1] + commas;
    if run.first == 0 && run.last + 1 >= |loc.objects| {
      assert edits + [] == edits;
      return edits;
    }
    var border := MakeBorder(loc, l, if run.first > 0 then run.first - 1 else run.last);
    edits := edits + border;
  }

  function AllRunEdits(l: Layout, runs: seq<Run>): seq<Edit>
    requires Shaped(l) && forall r :: r in runs ==> r.first <= r.last < |l.objects|
  {
    if runs == [] then []
    else AllRunEdits(l, runs[..|runs| - 1]) + RunEdits(l, runs[|runs| - 1])
  }

  /** The last run: all of it goes, it ends where nothing more goes, and starts behind
      an object that stays. */
  predicate LastRun(removed: seq<bool>, run: Run, m: nat) {
    && run.first <= run.last < m <= |removed|
    && (forall i :: run.first <= i <= run.last ==> removed[i])
    && (forall i :: run.last < i < m ==> !removed[i])
    && (run.first > 0 ==> !removed[run.first - 1])
  }

  lemma {:induction false} Snoc<T>(s: seq<T>, x: T)
    ensures (s + [x])[..|s + [x]| - 1] == s && (s + [x])[|s + [x]| - 1] == x
  {
  }

  /** What the runs among the first `m` objects are. */
  lemma {:induction false} RunsShape(removed: seq<bool>, m: nat)
    requires m <= |removed|
    ensures forall r :: r in Runs(removed, m) ==> r.first <= r.last < m
    ensures var runs := Runs(removed, m);
            if runs == [] then forall i :: 0 <= i < m ==> !removed[i]
            else LastRun(removed, runs[|runs| - 1], m)
                 && runs[..|runs| - 1] == Runs(removed, runs[|runs| - 1].first)
  {
    if m > 0 {
      RunsShape(removed, m - 1);
      var before := Runs(removed, m - 1);
      if removed[m - 1] {
        if before != [] && before[|before| - 1].last + 1 == m - 1 {
          Snoc(before[..|before| - 1], Run(before[|before| - 1].first, m - 1));
        } else {
          Snoc(before, Run(m - 1, m - 1));
        }
      }
    }
  }
}
