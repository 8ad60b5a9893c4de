/** Applying token edits to a Turtle text: deletions given in any order, refused
    as a whole when two of them overlap or one leaves the match. */
module TurtleEdits {
  import opened Common
  import opened Sorting

  /** Delete the characters from `start` up to `end`. */
  datatype Edit = Edit(start: nat, end: nat)

  predicate SpanBefore(a: Edit, b: Edit) {
    a.start < b.start || (a.start == b.start && a.end < b.end)
  }

  lemma {:induction false} SpanOrderStrict()
    ensures StrictOrder(SpanBefore)
  {
  }

  /** The rest of the match once the edits before `cursor` are done. */
  function Applied(text: string, cursor: nat, end: nat, edits: seq<Edit>): Result<string>
    requires cursor <= end <= |text|
    decreases |edits|
  {
    if edits == [] then Ok(text[cursor..end])
    else if edits[0].start < cursor || edits[0].end > end || edits[0].end < edits[0].start then Refused
    else
      match Applied(text, edits[0].end, end, edits[1..])
      case Refused => Refused
      case Ok(rest) => Ok(text[cursor..edits[0].start] + rest)
  }

  /** `_apply_edits` */
  method ApplyEdits(text: string, start: nat, end: nat, edits: seq<Edit>) returns (result: Result<string>)
    requires start <= end <= |text| && forall i :: 0 <= i < |edits| ==> edits[i].start <= edits[i].end
    ensures result == Applied(text, start, end, Sort(SpanBefore, edits))
  {
    var ordered := Sort(SpanBefore, edits);
    SortPermutes(SpanBefore, edits);
    var chunks: string := "";
    var cursor := start;
    assert ordered[0..] == ordered;
    ghost var whole := Applied(text, start, end, ordered);
    assert whole.Ok? ==> chunks + whole.value == whole.value;
    for n := 0 to |ordered|
      invariant start <= cursor <= end
      invariant Applied(text, start, end, ordered) ==
        match Applied(text, cursor, end, ordered[n..])
        case Refused => Refused
        case Ok(rest) => Ok(chunks + rest)
    {
      assert ordered[n] in multiset(ordered);
      assert ordered[n..][1..] == ordered[n + 1..];
      if ordered[n].start < start || ordered[n].end > end || ordered[n].start < cursor { return Refused; }
      ghost var rest := Applied(text, ordered[n].end, end, ordered[n + 1..]);
      assert rest.Ok? ==>
          chunks + (text[cursor..ordered[n].start] + rest.value)
          == chunks + text[cursor..ordered[n].start] + rest.value;
      chunks := chunks + text[cursor..ordered[n].start];
      cursor := ordered[n].end;
    }
    result := Ok(chunks + text[cursor..end]);
  }

  // ----- when edits apply -----

  /** Every edit deletes something, inside the match. */
  predicate Fits(edits: seq<Edit>, start: nat, end: nat) {
    forall i :: 0 <= i < |edits| ==> start <= edits[i].start < edits[i].end <= end
  }

  predicate Apart(a: Edit, b: Edit) { a.end <= b.start || b.end <= a.start }

  predicate Disjoint(edits: seq<Edit>) {
    forall i, j :: 0 <= i < j < |edits| ==> Apart(edits[i], edits[j])
  }

  /** Edits in order, each starting where the one before it ended or later. */
  predicate Ascending(edits: seq<Edit>, cursor: nat) {
    edits == [] || (cursor <= edits[0].start <= edits[0].end && Ascending(edits[1..], edits[0].end))
  }

  lemma {:induction false} AscendingApplies(text: string, cursor: nat, end: nat, edits: seq<Edit>)
    requires cursor <= end <= |text| && forall i :: 0 <= i < |edits| ==> edits[i].start <= edits[i].end <= end
    ensures Applied(text, cursor, end, edits).Ok? <==> Ascending(edits, cursor)
    decreases |edits|
  {
    if edits != [] && cursor <= edits[0].start {
      AscendingApplies(text, edits[0].end, end, edits[1..]);
    }
  }

  lemma {:induction false} AscendingApart(edits: seq<Edit>, cursor: nat)
    requires Ascending(edits, cursor)
    ensures forall i :: 0 <= i < |edits| ==> cursor <= edits[i].start <= edits[i].end
    ensures forall i, j :: 0 <= i < j < |edits| ==> edits[i].end <= edits[j].start
  {
    if edits != [] { AscendingApart(edits[1..], edits[0].end); }
  }

  lemma {:induction false} ApartAscending(edits: seq<Edit>, start: nat, end: nat, cursor: nat)
    requires Fits(edits, start, end) && Sorted(SpanBefore, edits) && Disjoint(edits)
    requires edits != [] ==> cursor <= edits[0].start
    ensures Ascending(edits, cursor)
  {
    if edits != [] {
      if |edits| > 1 {
        assert !SpanBefore(edits[1], edits[0]);
        assert Apart(edits[0], edits[1]);
      }
      ApartAscending(edits[1..], start, end, edits[0].end);
    }
  }

  predicate AllApart(x: Edit, s: seq<Edit>) {
    forall e :: e in s ==> Apart(x, e)
  }

  lemma {:induction false} DisjointCons(x: Edit, s: seq<Edit>)
    ensures Disjoint([x] + s) <==> Disjoint(s) && AllApart(x, s)
  {
    var t := [x] + s;
    if Disjoint(t) {
      forall i, j | 0 <= i < j < |s| ensures Apart(s[i], s[j]) { assert Apart(t[i + 1], t[j + 1]); }
      forall e | e in s ensures Apart(x, e) {
        var i :| 0 <= i < |s| && s[i] == e;
        assert Apart(t[0], t[i + 1]);
      }
    }
  }

  /** Being apart from all of `s` does not depend on the order of `s`. */
  lemma {:induction false} AllApartPermutes(x: Edit, s: seq<Edit>, t: seq<Edit>)
    requires multiset(s) == multiset(t)
    ensures AllApart(x, s) <==> AllApart(x, t)
  {
    assert forall e :: e in s <==> e in multiset(s);
    assert forall e :: e in t <==> e in multiset(t);
  }

  lemma {:induction false} InsertKeepsApart(x: Edit, s: seq<Edit>)
    ensures Disjoint(Insert(SpanBefore, x, s)) <==> Disjoint([x] + s)
  {
    if s != [] && SpanBefore(s[0], x) {
      var first, tail := s[0], s[1..];
      var rest := Insert(SpanBefore, x, tail);
      InsertKeepsApart(x, tail);
      InsertPermutes(SpanBefore, x, tail);
      assert s == [first] + tail;
      assert multiset([x] + tail) == multiset(rest);
      AllApartPermutes(first, rest, [x] + tail);
      SwapFirst(x, first, tail);
      DisjointCons(first, rest);
      DisjointCons(first, [x] + tail);
    }
  }

  lemma {:induction false} SwapFirst(x: Edit, y: Edit, s: seq<Edit>)
    ensures Disjoint([x] + ([y] + s)) <==> Disjoint([y] + ([x] + s))
  {
    DisjointCons(x, [y] + s);
    DisjointCons(y, [x] + s);
    DisjointCons(x, s);
    DisjointCons(y, s);
    assert AllApart(x, [y] + s) <==> Apart(x, y) && AllApart(x, s) by {
      assert y in [y] + s && forall e :: e in s ==> e in [y] + s;
    }
    assert AllApart(y, [x] + s) <==> Apart(y, x) && AllApart(y, s) by {
      assert x in [x] + s && forall e :: e in s ==> e in [x] + s;
    }
  }

  lemma {:induction false} SortKeepsApart(s: seq<Edit>)
    ensures Disjoint(Sort(SpanBefore, s)) <==> Disjoint(s)
  {
    if s != [] {
      var rest := Sort(SpanBefore, s[1..]);
      SortKeepsApart(s[1..]);
      InsertKeepsApart(s[0], rest);
      SortPermutes(SpanBefore, s[1..]);
      AllApartPermutes(s[0], rest, s[1..]);
      DisjointCons(s[0], rest);
      DisjointCons(s[0], s[1..]);
      assert s == [s[0]] + s[1..];
    }
  }

  lemma {:induction false} SortFits(edits: seq<Edit>, start: nat, end: nat)
    requires Fits(edits, start, end)
    ensures Fits(Sort(SpanBefore, edits), start, end)
  {
    var sorted := Sort(SpanBefore, edits);
    SortPermutes(SpanBefore, edits);
    forall i | 0 <= i < |sorted| ensures start <= sorted[i].start < sorted[i].end <= end {
      assert sorted[i] in multiset(sorted);
      assert sorted[i] in edits;
    }
  }

  /** Deletions inside the match apply exactly when no two of them overlap. */
  lemma {:induction false} AppliesExactly(text: string, start: nat, end: nat, edits: seq<Edit>)
    requires start <= end <= |text| && Fits(edits, start, end)
    ensures Applied(text, start, end, Sort(SpanBefore, edits)).Ok? <==> Disjoint(edits)
  {
    var sorted := Sort(SpanBefore, edits);
    SortFits(edits, start, end);
    SortKeepsApart(edits);
    AscendingApplies(text, start, end, sorted);
    SpanOrderStrict();
    SortSorts(SpanBefore, edits);
    if Disjoint(edits) {
      ApartAscending(sorted, start, end, start);
    }
    if Ascending(sorted, start) {
      AscendingApart(sorted, start);
    }
  }

  // ----- what deletions leave -----

  predicate Stays(edits: seq<Edit>, k: nat) {
    forall i :: 0 <= i < |edits| ==> !(edits[i].start <= k < edits[i].end)
  }

  /** Which of `n` characters stay. */
  function Flags(edits: seq<Edit>, n: nat): (stay: seq<bool>)
    ensures |stay| == n && forall k :: 0 <= k < n ==> (stay[k] <==> Stays(edits, k))
  {
    seq(n, k requires 0 <= k < n => Stays(edits, k))
  }

  /** The characters of a stretch that stay. */
  function Left(s: string, stay: seq<bool>, lo: nat, hi: nat): string
    requires lo <= hi <= |s| == |stay|
    decreases hi - lo
  {
    if lo == hi then "" else Left(s, stay, lo, hi - 1) + if stay[hi - 1] then [s[hi - 1]] else ""
  }

  lemma {:induction false} LeftSum(s: string, stay: seq<bool>, lo: nat, mid: nat, hi: nat)
    requires lo <= mid <= hi <= |s| == |stay|
    ensures Left(s, stay, lo, hi) == Left(s, stay, lo, mid) + Left(s, stay, mid, hi)
    decreases hi
  {
    if mid < hi {
      LeftSum(s, stay, lo, mid, hi - 1);
      Associates(Left(s, stay, lo, mid), Left(s, stay, mid, hi - 1), if stay[hi - 1] then [s[hi - 1]] else "");
    }
  }

  lemma {:induction false} LeftAll(s: string, stay: seq<bool>, lo: nat, hi: nat)
    requires lo <= hi <= |s| == |stay| && forall k :: lo <= k < hi ==> stay[k]
    ensures Left(s, stay, lo, hi) == s[lo..hi]
    decreases hi
  {
    if lo < hi {
      LeftAll(s, stay, lo, hi - 1);
      assert s[lo..hi] == s[lo..hi - 1] + [s[hi - 1]];
    }
  }

  lemma {:induction false} LeftNone(s: string, stay: seq<bool>, lo: nat, hi: nat)
    requires lo <= hi <= |s| == |stay| && forall k :: lo <= k < hi ==> !stay[k]
    ensures Left(s, stay, lo, hi) == ""
    decreases hi
  {
    if lo < hi { LeftNone(s, stay, lo, hi - 1); }
  }

  /** Applying edits in order leaves exactly the characters no edit covers. */
  lemma {:induction false} AppliedLeaves(text: string, cursor: nat, end: nat, edits: seq<Edit>, stay: seq<bool>)
    requires cursor <= end <= |text| == |stay| && Ascending(edits, cursor)
    requires forall i :: 0 <= i < |edits| ==> edits[i].end <= end
    requires forall k :: cursor <= k < end ==> (stay[k] <==> Stays(edits, k))
    ensures Applied(text, cursor, end, edits) == Ok(Left(text, stay, cursor, end))
    decreases |edits|
  {
    if edits == [] {
      LeftAll(text, stay, cursor, end);
    } else {
      var e, more := edits[0], edits[1..];
      AscendingApart(edits, cursor);
      forall k | e.end <= k < end ensures stay[k] <==> Stays(more, k) { StaysTail(edits, k); }
      AppliedLeaves(text, e.end, end, more, stay);
      LeftAll(text, stay, cursor, e.start);
      forall k | e.start <= k < e.end ensures !stay[k] { assert !Stays(edits, k); }
      LeftNone(text, stay, e.start, e.end);
      LeftSum(text, stay, cursor, e.start, end);
      LeftSum(text, stay, e.start, e.end, end);
      assert "" + Left(text, stay, e.end, end) == Left(text, stay, e.end, end);
    }
  }

  lemma {:induction false} StaysTail(edits: seq<Edit>, k: nat)
    requires edits != [] && edits[0].end <= k
    ensures Stays(edits, k) <==> Stays(edits[1..], k)
  {
    if Stays(edits[1..], k) {
      forall i | 0 <= i < |edits| ensures !(edits[i].start <= k < edits[i].end) {
        if i > 0 { assert edits[i] == edits[1..][i - 1]; }
      }
    }
  }

  lemma {:induction false} AscendingSum(a: seq<Edit>, b: seq<Edit>, start: nat, at: nat)
    requires Ascending(a, start) && Ascending(b, at) && start <= at && forall i :: 0 <= i < |a| ==> a[i].end <= at
    ensures Ascending(a + b, start)
    decreases |a|
  {
    if a == [] {
      assert a + b == b;
    } else {
      assert (a + b)[1..] == a[1..] + b;
      AscendingSum(a[1..], b, a[0].end, at);
    }
  }

  lemma {:induction false} AppliedCons(text: string, at: nat, end: nat, e: Edit, more: seq<Edit>)
    requires at <= e.start <= e.end <= end <= |text| && Applied(text, e.end, end, more).Ok?
    ensures Applied(text, at, end, [e] + more) == Ok(text[at..e.start] + Applied(text, e.end, end, more).value)
  {
    assert ([e] + more)[1..] == more;
  }

  lemma {:induction false} FitsSum(a: seq<Edit>, b: seq<Edit>, start: nat, at: nat, end: nat)
    requires start <= at <= end && Fits(a, start, at) && Fits(b, at, end)
    ensures Fits(a + b, start, end)
  {
  }

  lemma {:induction false} StaysSum(a: seq<Edit>, b: seq<Edit>, k: nat)
    ensures Stays(a + b, k) <==> Stays(a, k) && Stays(b, k)
  {
    if Stays(a + b, k) {
      forall i | 0 <= i < |a| ensures !(a[i].start <= k < a[i].end) { assert (a + b)[i] == a[i]; }
      forall i | 0 <= i < |b| ensures !(b[i].start <= k < b[i].end) { assert (a + b)[|a| + i] == b[i]; }
    }
  }

  lemma {:induction false} StaysOne(e: Edit, k: nat)
    ensures Stays([e], k) <==> !(e.start <= k < e.end)
  {
    assert [e][0] == e;
  }

  lemma {:induction false} StaysOutside(edits: seq<Edit>, lo: nat, hi: nat, k: nat)
    requires Fits(edits, lo, hi) && (k < lo || hi <= k)
    ensures Stays(edits, k)
  {
  }
}
