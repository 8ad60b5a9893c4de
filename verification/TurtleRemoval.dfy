/** Partial and full removal: what the edits, made run by run or token by token,
    do to the text. */
module TurtleRemoval {
  import opened Common
  import opened Sorting
  import opened TurtleEdits
  import opened TurtleRewrite
  import opened TurtleRuns

  // ----- partial removal: the runs make exactly the pieces -----

  function CountOf(e: Edit, s: seq<Edit>): nat {
    if s == [] then 0 else CountOf(e, s[..|s| - 1]) + if s[|s| - 1] == e then 1 else 0
  }

  lemma {:induction false} CountSum(e: Edit, a: seq<Edit>, b: seq<Edit>)
    ensures CountOf(e, a + b) == CountOf(e, a) + CountOf(e, b)
    decreases |b|
  {
    if b == [] {
      assert a + b == a;
    } else {
      CountSum(e, a, b[..|b| - 1]);
      assert (a + b)[..|a + b| - 1] == a + b[..|b| - 1];
    }
  }

  lemma {:induction false} CountIs(e: Edit, s: seq<Edit>)
    ensures CountOf(e, s) == multiset(s)[e]
  {
    if s != [] {
      CountIs(e, s[..|s| - 1]);
      assert s == s[..|s| - 1] + [s[|s| - 1]];
    }
  }

  /** How often `e` occurs in the tokens of a located match. */
  ghost function CountsOf(e: Edit, l: Layout): (t: Counts)
    requires Shaped(l)
    ensures Matched(t) && |t.objects| == |l.objects|
  {
    var n := |l.objects| - 1;
    Counts(seq(n + 1, i requires 0 <= i <= n => CountOf(e, [l.objects[i]])),
           seq(n, i requires 0 <= i < n => CountOf(e, [Mark(l, i)])),
           seq(n, i requires 0 <= i < n => CountOf(e, BorderAt(l, i))))
  }

  ghost function Mark(l: Layout, i: nat): Edit
    requires Shaped(l) && i + 1 < |l.objects|
  {
    Edit(l.commas[i], l.commas[i] + 1)
  }

  lemma {:induction false} PiecesAre(e: Edit, l: Layout, t: Counts, removed: seq<bool>, m: nat)
    requires Shaped(l) && t == CountsOf(e, l) && m <= |l.objects| == |removed|
    ensures CountOf(e, Pieces(l, removed, m)) == PieceCount(t, removed, m)
  {
    if m > 0 {
      PiecesAre(e, l, t, removed, m - 1);
      CountSum(e, Pieces(l, removed, m - 1), NextPiece(l, removed, m - 1));
      NextIs(e, l, t, removed, m - 1);
    }
  }

  lemma {:induction false} NextIs(e: Edit, l: Layout, t: Counts, removed: seq<bool>, i: nat)
    requires Shaped(l) && t == CountsOf(e, l) && i < |l.objects| == |removed|
    ensures CountOf(e, NextPiece(l, removed, i)) == GapCount(t, removed, i) + if removed[i] then t.objects[i] else 0
  {
    var gap := if i > 0 then GapPiece(l, removed, i - 1) else [];
    CountSum(e, gap, ObjectPiece(l, removed, i));
    assert t.objects[i] == CountOf(e, [l.objects[i]]);
    if i > 0 {
      assert t.marks[i - 1] == CountOf(e, [Mark(l, i - 1)]) && t.borders[i - 1] == CountOf(e, BorderAt(l, i - 1));
    }
  }

  lemma {:induction false} SliceNext(e: Edit, s: seq<Edit>, first: nat, last: nat)
    requires first <= last < |s|
    ensures CountOf(e, s[first..last + 1]) == CountOf(e, s[first..last]) + CountOf(e, [s[last]])
  {
    assert s[first..last + 1] == s[first..last] + [s[last]];
    CountSum(e, s[first..last], [s[last]]);
  }

  lemma {:induction false} CommasNext(e: Edit, l: Layout, first: nat, last: nat)
    requires Shaped(l) && first < last < |l.objects|
    ensures CountOf(e, Commas(l, first, last))
        == CountOf(e, Commas(l, first, last - 1)) + CountOf(e, [Mark(l, last - 1)])
  {
    CountSum(e, Commas(l, first, last - 1), [Mark(l, last - 1)]);
  }

  lemma {:induction false} InsideIs(e: Edit, l: Layout, t: Counts, first: nat, last: nat)
    requires Shaped(l) && t == CountsOf(e, l) && first <= last < |l.objects|
    ensures CountOf(e, l.objects[first..last + 1]) + CountOf(e, Commas(l, first, last)) == Inside(t, first, last)
    decreases last
  {
    SliceNext(e, l.objects, first, last);
    if first == last {
      assert l.objects[first..last] == [];
    } else {
      InsideIs(e, l, t, first, last - 1);
      CommasNext(e, l, first, last);
    }
  }

  lemma {:induction false} RunIs(e: Edit, l: Layout, t: Counts, run: Run)
    requires Shaped(l) && t == CountsOf(e, l) && run.first <= run.last < |l.objects|
    ensures CountOf(e, RunEdits(l, run)) == Inside(t, run.first, run.last) + BorderCount(t, run)
  {
    InsideIs(e, l, t, run.first, run.last);
    BorderIs(e, l, t, run);
    CountParts(e, l.objects[run.first..run.last + 1], Commas(l, run.first, run.last), Border(l, run), RunEdits(l, run));
  }

  lemma {:induction false} BorderIs(e: Edit, l: Layout, t: Counts, run: Run)
    requires Shaped(l) && t == CountsOf(e, l) && run.first <= run.last < |l.objects|
    ensures CountOf(e, Border(l, run)) == BorderCount(t, run)
  {
    if run.first > 0 {
      assert t.borders[run.first - 1] == CountOf(e, BorderAt(l, run.first - 1));
    } else if run.last + 1 < |l.objects| {
      assert t.borders[run.last] == CountOf(e, BorderAt(l, run.last));
    }
  }

  lemma {:induction false} CountParts(e: Edit, a: seq<Edit>, b: seq<Edit>, c: seq<Edit>, whole: seq<Edit>)
    requires whole == a + b + c
    ensures CountOf(e, whole) == CountOf(e, a) + CountOf(e, b) + CountOf(e, c)
  {
    CountSum(e, a + b, c);
    CountSum(e, a, b);
  }

  lemma {:induction false} RunsAre(e: Edit, l: Layout, t: Counts, runs: seq<Run>)
    requires Shaped(l) && t == CountsOf(e, l) && forall r :: r in runs ==> r.first <= r.last < |l.objects|
    ensures CountOf(e, AllRunEdits(l, runs)) == RunsCount(t, runs)
  {
    if runs != [] {
      var run := runs[|runs| - 1];
      assert run in runs;
      RunsAre(e, l, t, runs[..|runs| - 1]);
      RunIs(e, l, t, run);
      CountSum(e, AllRunEdits(l, runs[..|runs| - 1]), RunEdits(l, run));
    }
  }

  /** Run by run or object by object, the same deletions are made. */
  lemma {:induction false} RunsMakePieces(l: Layout, removed: seq<bool>)
    requires Shaped(l) && |removed| == |l.objects|
    requires forall r :: r in Runs(removed, |removed|) ==> r.first <= r.last < |l.objects|
    ensures multiset(AllRunEdits(l, Runs(removed, |removed|))) == multiset(Pieces(l, removed, |removed|))
  {
    var made, pieces := AllRunEdits(l, Runs(removed, |removed|)), Pieces(l, removed, |removed|);
    forall e ensures CountOf(e, made) == CountOf(e, pieces) {
      var t := CountsOf(e, l);
      RunsAre(e, l, t, Runs(removed, |removed|));
      PiecesAre(e, l, t, removed, |removed|);
      RunsArePieces(t, removed, |removed|);
    }
    SameCounts(made, pieces);
  }

  lemma {:induction false} SameCounts(a: seq<Edit>, b: seq<Edit>)
    requires forall e :: CountOf(e, a) == CountOf(e, b)
    ensures multiset(a) == multiset(b)
  {
    forall e ensures multiset(a)[e] == multiset(b)[e] {
      CountIs(e, a);
      CountIs(e, b);
    }
  }

  /** `_partial_removal_edits` */
  method PartialRemovalEdits(loc: Located, ghost l: Layout, indices: seq<nat>, ghost removed: seq<bool>)
      returns (edits: seq<Edit>)
    requires WellMatched(loc, l) && |removed| == |loc.objects| && indices == Indices(removed, |removed|)
    ensures multiset(edits) == multiset(Pieces(l, removed, |removed|))
  {
    var runs := RemovedRuns(indices, removed);
    RunsShape(removed, |removed|);
    edits := AllRuns(loc, l, runs);
    RunsMakePieces(l, removed);
  }

  method AllRuns(loc: Located, ghost l: Layout, runs: seq<Run>) returns (edits: seq<Edit>)
    requires WellMatched(loc, l) && forall r :: r in runs ==> r.first <= r.last < |l.objects|
    ensures edits == AllRunEdits(l, runs)
  {
    edits := [];
    for n := 0 to |runs|
      invariant edits == AllRunEdits(l, runs[..n])
    {
      assert runs[n] in runs && runs[..n + 1][..n] == runs[..n];
      var more := MakeRunEdits(loc, l, runs[n]);
      edits := edits + more;
    }
    assert runs[..|runs|] == runs;
  }

  /** Partial removal never overlaps, and leaves exactly what is kept, every other
      character in place. */
  method RemoveSome(loc: Located, ghost l: Layout, indices: seq<nat>, ghost removed: seq<bool>)
      returns (result: Result<string>)
    requires WellMatched(loc, l) && |removed| == |loc.objects| && indices == Indices(removed, |removed|)
    ensures result == Ok(Left(loc.text, KeptFlags(l, removed), loc.start, loc.end))
  {
    var edits := PartialRemovalEdits(loc, l, indices, removed);
    ghost var pieces := Pieces(l, removed, |removed|);
    AllPiecesApply(l, removed);
    SpanOrderStrict();
    SortPermutes(SpanBefore, edits);
    SortSorts(SpanBefore, edits);
    SortedUnique(SpanBefore, Sort(SpanBefore, edits), pieces);
    forall i | 0 <= i < |edits| ensures edits[i].start <= edits[i].end {
      assert edits[i] in multiset(pieces);
    }
    result := ApplyEdits(loc.text, loc.start, loc.end, edits);
  }

  // ----- the commas that stay -----

  /** The gaps between `a` and `b` whose comma stays. */
  function KeptCommas(removed: seq<bool>, a: nat, b: nat): nat
    requires a <= b < |removed|
    decreases b - a
  {
    if a == b then 0 else KeptCommas(removed, a, b - 1) + if DropsComma(removed, b - 1) then 0 else 1
  }

  lemma {:induction false} NoCommaThrough(removed: seq<bool>, a: nat, b: nat)
    requires a <= b < |removed| && forall i :: a <= i < b ==> removed[i + 1] || Leading(removed, i)
    ensures KeptCommas(removed, a, b) == 0
    decreases b
  {
    if a < b { NoCommaThrough(removed, a, b - 1); }
  }

  /** Exactly one comma stays between neighbouring kept objects. */
  lemma {:induction false} OneCommaBetween(removed: seq<bool>, a: nat, b: nat)
    requires a < b < |removed| && !removed[a] && !removed[b] && forall i :: a < i < b ==> removed[i]
    ensures KeptCommas(removed, a, b) == 1
  {
    NoCommaThrough(removed, a, b - 1);
    assert !Leading(removed, b - 1);
  }

  /** None stays before the first kept object or after the last. */
  lemma {:induction false} NoCommaOutside(removed: seq<bool>, a: nat, b: nat)
    requires a <= b < |removed| && !removed[a] && !removed[b]
    requires (forall i :: 0 <= i < a ==> removed[i]) && (forall i :: b < i < |removed| ==> removed[i])
    ensures KeptCommas(removed, 0, a) == 0 && KeptCommas(removed, b, |removed| - 1) == 0
  {
    forall i | 0 <= i < a ensures Leading(removed, i) {}
    NoCommaThrough(removed, 0, a);
    NoCommaThrough(removed, b, |removed| - 1);
  }

  /** A kept object stays verbatim, and a removed one leaves nothing. */
  lemma {:induction false} ObjectLeft(l: Layout, removed: seq<bool>, i: nat)
    requires Laid(l) && i < |l.objects| == |removed|
    ensures var o := l.objects[i];
            && o.start <= o.end <= |l.text|
            && Left(l.text, KeptFlags(l, removed), o.start, o.end) == if removed[i] then "" else l.text[o.start..o.end]
  {
    var o, stay := l.objects[i], KeptFlags(l, removed);
    forall k | o.start <= k < o.end ensures stay[k] <==> !removed[i] {
      StaysInObject(l, removed, i, k);
      PiecesKeep(l, removed, k);
    }
    if removed[i] { LeftNone(l.text, stay, o.start, o.end); } else { LeftAll(l.text, stay, o.start, o.end); }
  }

  /** A gap keeps all of its text when its comma stays, and otherwise loses the
      comma; the plain text behind it goes along at the border of a run. */
  lemma {:induction false} GapLeft(l: Layout, removed: seq<bool>, i: nat)
    requires Laid(l) && i + 1 < |l.objects| == |removed|
    ensures var here, comma, next := l.objects[i].end, l.commas[i], l.objects[i + 1].start;
            && here <= comma < next <= |l.text|
            && Left(l.text, KeptFlags(l, removed), here, next)
               == if !DropsComma(removed, i) then l.text[here..next]
                  else l.text[here..comma]
                       + if DropsGap(removed, i) && Plain(l.text, comma + 1, next) then "" else l.text[comma + 1..next]
  {
    var here, comma, next, stay := l.objects[i].end, l.commas[i], l.objects[i + 1].start, KeptFlags(l, removed);
    assert here <= comma < next;
    forall k | here <= k < next
      ensures stay[k] <==> GapStays(l.text, comma, next, DropsComma(removed, i), DropsGap(removed, i), k)
    {
      StaysInGap(l, removed, i, k);
      PiecesKeep(l, removed, k);
    }
    GapIs(l.text, stay, here, comma, next, DropsComma(removed, i), DropsGap(removed, i));
  }

  lemma {:induction false} GapIs(s: string, stay: seq<bool>, here: nat, comma: nat, next: nat, drops: bool,
      dropsGap: bool)
    requires here <= comma < next <= |s| == |stay|
    requires forall k :: here <= k < next ==> (stay[k] <==> GapStays(s, comma, next, drops, dropsGap, k))
    ensures Left(s, stay, here, next)
         == if !drops then s[here..next]
            else s[here..comma] + if dropsGap && Plain(s, comma + 1, next) then "" else s[comma + 1..next]
  {
    if !drops {
      LeftAll(s, stay, here, next);
    } else {
      var plain := dropsGap && Plain(s, comma + 1, next);
      forall k | comma < k < next ensures stay[k] <==> !plain {}
      CommaOut(s, stay, here, comma, next, plain);
    }
  }

  lemma {:induction false} CommaOut(s: string, stay: seq<bool>, here: nat, comma: nat, next: nat, plain: bool)
    requires here <= comma < next <= |s| == |stay| && !stay[comma]
    requires (forall k :: here <= k < comma ==> stay[k]) && forall k :: comma < k < next ==> (stay[k] <==> !plain)
    ensures Left(s, stay, here, next) == s[here..comma] + if plain then "" else s[comma + 1..next]
  {
    LeftAll(s, stay, here, comma);
    LeftSum(s, stay, here, comma, comma + 1);
    LeftSum(s, stay, here, comma + 1, next);
    LeftNone(s, stay, comma, comma + 1);
    if plain { LeftNone(s, stay, comma + 1, next); } else { LeftAll(s, stay, comma + 1, next); }
    assert s[here..comma] + "" == s[here..comma];
  }
}
