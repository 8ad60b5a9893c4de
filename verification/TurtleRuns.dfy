/** Deleting run by run deletes every token exactly as often as deleting object
    by object: the tokens are counted, one chosen deletion at a time. */
module TurtleRuns {
  import opened TurtleRewrite

  /** How often a deletion occurs in each token of an object list: in the objects,
      in the comma after each of them but the last, and in that comma together with
      the plain gap behind it. */
  datatype Counts = Counts(objects: seq<nat>, marks: seq<nat>, borders: seq<nat>)

  predicate Matched(t: Counts) {
    |t.marks| == |t.borders| && |t.objects| == |t.marks| + 1
  }

  /** What goes from the gap before object `m`. */
  function GapCount(t: Counts, removed: seq<bool>, m: nat): nat
    requires Matched(t) && m < |t.objects| == |removed|
  {
    if m == 0 || !DropsComma(removed, m - 1) then 0
    else if !DropsGap(removed, m - 1) then t.marks[m - 1]
    else t.borders[m - 1]
  }

  function PieceCount(t: Counts, removed: seq<bool>, m: nat): nat
    requires Matched(t) && m <= |t.objects| == |removed|
  {
    if m == 0 then 0
    else PieceCount(t, removed, m - 1) + GapCount(t, removed, m - 1) + if removed[m - 1] then t.objects[m - 1] else 0
  }

  /** What a run deletes apart from its border. */
  function Inside(t: Counts, first: nat, last: nat): nat
    requires Matched(t) && first <= last < |t.objects|
    decreases last
  {
    if first == last then t.objects[last]
    else Inside(t, first, last - 1) + t.marks[last - 1] + t.objects[last]
  }

  function BorderCount(t: Counts, run: Run): nat
    requires Matched(t) && run.first <= run.last < |t.objects|
  {
    if run.first > 0 then t.borders[run.first - 1]
    else if run.last + 1 < |t.objects| then t.borders[run.last]
    else 0
  }

  function RunsCount(t: Counts, runs: seq<Run>): nat
    requires Matched(t) && forall r :: r in runs ==> r.first <= r.last < |t.objects|
  {
    if runs == [] then 0
    else
      var run := runs[|runs| - 1];
      RunsCount(t, runs[..|runs| - 1]) + Inside(t, run.first, run.last) + BorderCount(t, run)
  }

  /** The border that a leading run of `m` objects owes to the next piece. */
  function Owed(t: Counts, removed: seq<bool>, m: nat): nat
    requires Matched(t) && m <= |t.objects| == |removed|
  {
    if 0 < m < |t.objects| && Leading(removed, m - 1) then t.borders[m - 1] else 0
  }

  lemma {:induction false} KeptSkip(t: Counts, removed: seq<bool>, m: nat, n: nat)
    requires Matched(t) && m <= n <= |t.objects| == |removed| && forall i :: m <= i < n ==> !removed[i]
    ensures PieceCount(t, removed, n) + Owed(t, removed, n) == PieceCount(t, removed, m) + Owed(t, removed, m)
    decreases n
  {
    if m < n {
      KeptSkip(t, removed, m, n - 1);
      assert !removed[n - 1] && !Leading(removed, n - 1);
      if n > 1 && Leading(removed, n - 2) { assert DropsGap(removed, n - 2); }
    }
  }

  lemma {:induction false} RunPieces(t: Counts, removed: seq<bool>, first: nat, k: nat)
    requires Matched(t) && first <= k < |t.objects| == |removed| && forall i :: first <= i <= k ==> removed[i]
    requires first > 0 ==> !removed[first - 1]
    ensures PieceCount(t, removed, k + 1)
         == PieceCount(t, removed, first) + (if first > 0 then t.borders[first - 1] else 0) + Inside(t, first, k)
    decreases k
  {
    if first < k {
      RunPieces(t, removed, first, k - 1);
      assert DropsComma(removed, k - 1) && !DropsGap(removed, k - 1);
    } else if first > 0 {
      assert DropsGap(removed, first - 1);
    }
  }

  /** A run in the middle owes its border before it, a leading one after it. */
  lemma {:induction false} RunBorder(t: Counts, removed: seq<bool>, run: Run)
    requires Matched(t) && run.first <= run.last < |t.objects| == |removed|
    requires forall i :: run.first <= i <= run.last ==> removed[i]
    requires run.first > 0 ==> !removed[run.first - 1]
    ensures Owed(t, removed, run.first) == 0
    ensures (if run.first > 0 then t.borders[run.first - 1] else 0) + Owed(t, removed, run.last + 1)
        == BorderCount(t, run)
  {
    if run.first > 0 {
      assert !Leading(removed, run.last) && !Leading(removed, run.first - 1);
    } else {
      assert Leading(removed, run.last);
    }
  }

  /** Up to object `m`, the runs delete what the pieces delete, and the border a
      leading run owes. */
  lemma {:induction false} RunsArePieces(t: Counts, removed: seq<bool>, m: nat)
    requires Matched(t) && m <= |t.objects| == |removed|
    requires forall r :: r in Runs(removed, m) ==> r.first <= r.last < |t.objects|
    ensures RunsCount(t, Runs(removed, m)) == PieceCount(t, removed, m) + Owed(t, removed, m)
    decreases m
  {
    RunsShape(removed, m);
    var runs := Runs(removed, m);
    if runs == [] {
      KeptSkip(t, removed, 0, m);
    } else {
      var last := runs[|runs| - 1];
      assert last in runs;
      RunsShape(removed, last.first);
      RunsArePieces(t, removed, last.first);
      RunPieces(t, removed, last.first, last.last);
      RunBorder(t, removed, last);
      KeptSkip(t, removed, last.last + 1, m);
    }
  }
}
