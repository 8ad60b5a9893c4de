/** Removing every object of a match, with the predicate, the commas and the
    neighbouring tokens that go along. */
module TurtleFullRemoval {
  import opened Common
  import opened Sorting
  import opened TurtleMask
  import opened TurtleEdits
  import opened TurtleRewrite

  /** Which neighbouring tokens go with the predicate. */
  datatype Separators = Separators(preceding: bool, following: bool, subject: bool, terminator: bool)

  /** A match with its predicate, and the subject in front of it if one is there. */
  datatype Site = Site(text: string, masked: string, start: nat, end: nat,
                       predicate_: Edit, subject: Option<Edit>, objects: seq<Edit>)

  predicate Placed(s: Site) {
    && |s.masked| == |s.text| && s.end <= |s.text| && s.objects != []
    && s.start <= s.predicate_.start < s.predicate_.end <= s.objects[0].start
    && (s.subject.Some? ==> s.start <= s.subject.value.start < s.subject.value.end <= s.predicate_.start)
    && (forall i {:trigger s.objects[i]} :: 0 <= i < |s.objects| ==> s.objects[i].start < s.objects[i].end <= s.end)
    && (forall i, j {:trigger s.objects[i], s.objects[j]} :: 0 <= i < j < |s.objects| ==>
          s.objects[i].end <= s.objects[j].start)
  }

  function First(s: Site): nat requires Placed(s) { s.objects[0].start }

  function Last(s: Site): nat requires Placed(s) { s.objects[|s.objects| - 1].end }

  // ----- the tokens that go -----

  /** Every comma in a stretch of the masked view. */
  function CommaEdits(masked: string, lo: nat, hi: nat): seq<Edit>
    requires hi <= |masked|
    decreases hi - lo
  {
    if lo >= hi then []
    else (if masked[lo] == ',' then [Edit(lo, lo + 1)] else []) + CommaEdits(masked, lo + 1, hi)
  }

  /** The last `c` before `hi`. */
  function FindBack(masked: string, c: char, lo: nat, hi: nat): (found: Option<nat>)
    requires hi <= |masked|
    ensures found.Some? ==> lo <= found.value < hi && masked[found.value] == c
    decreases hi
  {
    if lo >= hi then None else if masked[hi - 1] == c then Some(hi - 1) else FindBack(masked, c, lo, hi - 1)
  }

  function PunctuationEdit(position: Option<nat>): seq<Edit> {
    match position
    case None => []
    case Some(k) => [Edit(k, k + 1)]
  }

  function Ahead(s: Site, wanted: bool): seq<Edit>
    requires Placed(s)
  {
    if wanted then PunctuationEdit(FindBack(s.masked, ';', s.start, s.predicate_.start)) else []
  }

  function Behind(s: Site, c: char, wanted: bool): seq<Edit>
    requires Placed(s)
  {
    if wanted then PunctuationEdit(Find(s.masked, c, Last(s), s.end)) else []
  }

  function Subject(s: Site, wanted: bool): seq<Edit> {
    if wanted && s.subject.Some? then [s.subject.value] else []
  }

  /** `_full_removal_tokens` */
  function Tokens(s: Site, seps: Separators): seq<Edit>
    requires Placed(s)
  {
    ObjectList(s) + [s.predicate_] + Neighbours(s, seps)
  }

  /** `_neighbour_edits` */
  function Neighbours(s: Site, seps: Separators): seq<Edit>
    requires Placed(s)
  {
    Ahead(s, seps.preceding) + Behind(s, ';', seps.following) + Subject(s, seps.subject)
    + Behind(s, '.', seps.terminator)
  }

  function ObjectList(s: Site): seq<Edit>
    requires Placed(s)
  {
    s.objects + CommaEdits(s.masked, s.objects[0].end, s.objects[|s.objects| - 1].start)
  }

  /** `_end_boundary` */
  function EndBoundary(s: Site, seps: Separators): (boundary: nat)
    requires Placed(s)
  {
    if seps.terminator || !seps.preceding || seps.following then s.end
    else
      match Find(s.masked, '.', Last(s), s.end)
      case None => s.end
      case Some(k) => k
  }

  /** The plain gaps before, between and after tokens in order. */
  function Gaps(text: string, cursor: nat, spans: seq<Edit>, boundary: nat): seq<Edit>
    decreases |spans|
  {
    if spans == [] then GapEdit(text, cursor, boundary)
    else GapEdit(text, cursor, spans[0].start) + Gaps(text, spans[0].end, spans[1..], boundary)
  }

  /** `_full_removal_edits` */
  function FullEdits(s: Site, seps: Separators): seq<Edit>
    requires Placed(s)
  {
    var tokens := Tokens(s, seps);
    tokens + Gaps(s.text, s.start, Sort(SpanBefore, tokens), EndBoundary(s, seps))
  }

  // ----- when the tokens stay apart -----

  predicate Across(a: seq<Edit>, b: seq<Edit>) {
    forall i, j {:trigger Apart(a[i], b[j])} :: 0 <= i < |a| && 0 <= j < |b| ==> Apart(a[i], b[j])
  }

  lemma {:induction false} DisjointSum(a: seq<Edit>, b: seq<Edit>)
    ensures Disjoint(a + b) <==> Disjoint(a) && Disjoint(b) && Across(a, b)
  {
    var s := a + b;
    if Disjoint(s) {
      forall i, j | 0 <= i < j < |a| ensures Apart(a[i], a[j]) { assert Apart(s[i], s[j]); }
      forall i, j | 0 <= i < j < |b| ensures Apart(b[i], b[j]) { assert Apart(s[|a| + i], s[|a| + j]); }
      forall i, j | 0 <= i < |a| && 0 <= j < |b| ensures Apart(a[i], b[j]) { assert Apart(s[i], s[|a| + j]); }
    }
    if Disjoint(a) && Disjoint(b) && Across(a, b) {
      forall i, j | 0 <= i < j < |s| ensures Apart(s[i], s[j]) {
        if j < |a| {
          assert Apart(a[i], a[j]);
        } else if i < |a| {
          assert Apart(a[i], b[j - |a|]);
        } else {
          assert Apart(b[i - |a|], b[j - |a|]);
        }
      }
    }
  }

  /** Edits on the two sides of a position never overlap. */
  lemma {:induction false} SidesApart(a: seq<Edit>, b: seq<Edit>, start: nat, at: nat, end: nat)
    requires Fits(a, start, at) && Fits(b, at, end)
    ensures Across(a, b) && Across(b, a)
  {
  }

  lemma {:induction false} CommasAscend(masked: string, lo: nat, hi: nat)
    requires hi <= |masked|
    ensures Ascending(CommaEdits(masked, lo, hi), lo)
    decreases hi - lo
  {
    if lo < hi {
      CommasAscend(masked, lo + 1, hi);
      var rest := CommaEdits(masked, lo + 1, hi);
      assert ([Edit(lo, lo + 1)] + rest)[1..] == rest && [] + rest == rest;
    }
  }

  lemma {:induction false} CommasShow(masked: string, lo: nat, hi: nat, j: nat)
    requires hi <= |masked| && j < |CommaEdits(masked, lo, hi)|
    ensures var c := CommaEdits(masked, lo, hi)[j];
            lo <= c.start < hi && c.end == c.start + 1 && masked[c.start] == ','
    decreases hi - lo
  {
    if masked[lo] != ',' {
      CommasShow(masked, lo + 1, hi, j);
    } else if j > 0 {
      CommasShow(masked, lo + 1, hi, j - 1);
    }
  }

  lemma {:induction false} CommaListed(masked: string, lo: nat, hi: nat, k: nat) returns (j: nat)
    requires lo <= k < hi <= |masked| && masked[k] == ','
    ensures j < |CommaEdits(masked, lo, hi)| && CommaEdits(masked, lo, hi)[j] == Edit(k, k + 1)
    decreases hi - lo
  {
    if k == lo {
      j := 0;
    } else {
      j := CommaListed(masked, lo + 1, hi, k);
      if masked[lo] == ',' { j := j + 1; }
    }
  }

  lemma {:induction false} CommasFit(masked: string, lo: nat, hi: nat)
    requires hi <= |masked|
    ensures Disjoint(CommaEdits(masked, lo, hi)) && Fits(CommaEdits(masked, lo, hi), lo, if lo <= hi then hi else lo)
  {
    var commas := CommaEdits(masked, lo, hi);
    CommasAscend(masked, lo, hi);
    AscendingApart(commas, lo);
    forall j | 0 <= j < |commas| ensures lo <= commas[j].start < commas[j].end <= hi { CommasShow(masked, lo, hi, j); }
  }

  /** No comma shows inside an object with objects on both sides. */
  predicate InteriorClean(s: Site) {
    |s.masked| == |s.text| &&
    forall i, k {:trigger s.objects[i], s.masked[k]} ::
      0 < i < |s.objects| - 1 && s.objects[i].start <= k < s.objects[i].end && k < |s.masked| ==> s.masked[k] != ','
  }

  lemma {:induction false} ObjectsApart(s: Site)
    requires Placed(s)
    ensures Disjoint(s.objects) && Fits(s.objects, First(s), Last(s))
  {
    forall i, j | 0 <= i < j < |s.objects| ensures Apart(s.objects[i], s.objects[j]) {}
    var last := s.objects[|s.objects| - 1];
    assert s.objects[0].start < s.objects[0].end && last.start < last.end;
  }

  lemma {:induction false} AcrossAt(a: seq<Edit>, b: seq<Edit>, i: nat, j: nat)
    requires Across(a, b) && i < |a| && j < |b|
    ensures Apart(a[i], b[j])
  {
  }

  lemma {:induction false} CleanApart(s: Site, commas: seq<Edit>)
    requires Placed(s) && InteriorClean(s)
    requires commas == CommaEdits(s.masked, s.objects[0].end, s.objects[|s.objects| - 1].start)
    ensures Across(s.objects, commas)
  {
    forall i, j | 0 <= i < |s.objects| && 0 <= j < |commas| ensures Apart(s.objects[i], commas[j]) {
      CommasShow(s.masked, s.objects[0].end, s.objects[|s.objects| - 1].start, j);
    }
  }

  lemma {:induction false} ApartClean(s: Site, commas: seq<Edit>)
    requires Placed(s) && Across(s.objects, commas)
    requires commas == CommaEdits(s.masked, s.objects[0].end, s.objects[|s.objects| - 1].start)
    ensures InteriorClean(s)
  {
    var n := |s.objects|;
    forall i, k | 0 < i < n - 1 && s.objects[i].start <= k < s.objects[i].end && k < |s.masked|
      ensures s.masked[k] != ','
    {
      assert s.objects[0].end <= s.objects[i].start && s.objects[i].end <= s.objects[n - 1].start;
      if s.masked[k] == ',' {
        var j := CommaListed(s.masked, s.objects[0].end, s.objects[n - 1].start, k);
        AcrossAt(s.objects, commas, i, j);
      }
    }
  }

  lemma {:induction false} ObjectListApart(s: Site)
    requires Placed(s)
    ensures Disjoint(ObjectList(s)) <==> InteriorClean(s)
    ensures Fits(ObjectList(s), First(s), Last(s))
  {
    var commas := CommaEdits(s.masked, s.objects[0].end, s.objects[|s.objects| - 1].start);
    CommasFit(s.masked, s.objects[0].end, s.objects[|s.objects| - 1].start);
    ObjectsApart(s);
    DisjointSum(s.objects, commas);
    if InteriorClean(s) { CleanApart(s, commas); }
    if Across(s.objects, commas) { ApartClean(s, commas); }
  }

  lemma {:induction false} NeighboursFit(s: Site, seps: Separators)
    requires Placed(s)
    ensures Fits(Ahead(s, seps.preceding), s.start, s.predicate_.start)
    ensures Fits(Subject(s, seps.subject), s.start, s.predicate_.start)
    ensures Fits(Behind(s, ';', seps.following), Last(s), s.end)
    ensures Fits(Behind(s, '.', seps.terminator), Last(s), s.end)
  {
    FindFirst(s.masked, ';', Last(s), s.end);
    FindFirst(s.masked, '.', Last(s), s.end);
  }

  /** Two marks behind the objects stand at different places. */
  lemma {:induction false} MarksApart(s: Site, seps: Separators)
    requires Placed(s)
    ensures Across(Behind(s, ';', seps.following), Behind(s, '.', seps.terminator))
  {
    FindFirst(s.masked, ';', Last(s), s.end);
    FindFirst(s.masked, '.', Last(s), s.end);
  }

  lemma {:induction false} SidesJoined(a: seq<Edit>, b: seq<Edit>, c: seq<Edit>, d: seq<Edit>, middle: seq<Edit>,
      start: nat, from: nat, to: nat, end: nat)
    requires start <= from <= to <= end && (a == [] || c == []) && |a| <= 1 && |b| <= 1 && |c| <= 1 && |d| <= 1
    requires Fits(a, start, from) && Fits(c, start, from) && Fits(b, to, end) && Fits(d, to, end)
    requires Across(b, d) && Fits(middle, from, to)
    ensures Disjoint(a + b + c + d) && Fits(a + b + c + d, start, end) && Across(middle, a + b + c + d)
  {
  }

  /** The neighbours never overlap each other: the `;` in front and the subject
      are never both removed. */
  lemma {:induction false} NeighboursApart(s: Site, seps: Separators)
    requires Placed(s) && !(seps.preceding && seps.subject)
    ensures Disjoint(Neighbours(s, seps)) && Fits(Neighbours(s, seps), s.start, s.end)
    ensures Across(ObjectList(s) + [s.predicate_], Neighbours(s, seps))
  {
    NeighboursFit(s, seps);
    MarksApart(s, seps);
    ObjectListApart(s);
    SidesJoined(Ahead(s, seps.preceding), Behind(s, ';', seps.following), Subject(s, seps.subject),
        Behind(s, '.', seps.terminator),
                ObjectList(s) + [s.predicate_], s.start, s.predicate_.start, Last(s), s.end);
  }

  /** A list, a token in front of it, and tokens apart from both. */
  lemma {:induction false} ThreeParts(list: seq<Edit>, p: Edit, near: seq<Edit>, start: nat, at: nat, end: nat)
    requires Fits(list, at, end) && Fits([p], start, at) && Disjoint(near) && Across(list + [p], near)
    ensures Disjoint(list + [p] + near) <==> Disjoint(list)
  {
    SidesApart([p], list, start, at, end);
    DisjointSum(list, [p]);
    DisjointSum(list + [p], near);
  }

  lemma {:induction false} FitsJoined(a: seq<Edit>, b: seq<Edit>, c: seq<Edit>, start: nat, end: nat)
    requires Fits(a, start, end) && Fits(b, start, end) && Fits(c, start, end)
    ensures Fits(a + b + c, start, end)
  {
  }

  lemma {:induction false} TokensApart(s: Site, seps: Separators)
    requires Placed(s) && !(seps.preceding && seps.subject)
    ensures Disjoint(Tokens(s, seps)) <==> InteriorClean(s)
    ensures Fits(Tokens(s, seps), s.start, s.end)
  {
    ObjectListApart(s);
    NeighboursApart(s, seps);
    ThreeParts(ObjectList(s), s.predicate_, Neighbours(s, seps), s.start, First(s), s.end);
    FitsJoined(ObjectList(s), [s.predicate_], Neighbours(s, seps), s.start, s.end);
  }

  // ----- what is left -----

  /** Tokens and the plain gaps around them, in text order. */
  function Woven(text: string, cursor: nat, spans: seq<Edit>, boundary: nat): seq<Edit>
    decreases |spans|
  {
    if spans == [] then GapEdit(text, cursor, boundary)
    else GapEdit(text, cursor, spans[0].start) + ([spans[0]] + Woven(text, spans[0].end, spans[1..], boundary))
  }

  function GapLeft(text: string, cursor: nat, next: nat): string
    requires cursor <= next <= |text|
  {
    if Plain(text, cursor, next) then "" else text[cursor..next]
  }

  /** The gaps that hold a comment, and what follows the boundary. */
  function Remaining(text: string, cursor: nat, spans: seq<Edit>, boundary: nat, end: nat): string
    requires Ascending(spans, cursor) && cursor <= end <= |text| && boundary <= end
    requires forall i :: 0 <= i < |spans| ==> spans[i].end <= end
    decreases |spans|
  {
    if spans == [] then
      if cursor <= boundary then GapLeft(text, cursor, boundary) + text[boundary..end] else text[cursor..end]
    else
      GapLeft(text, cursor, spans[0].start) + Remaining(text, spans[0].end, spans[1..], boundary, end)
  }

  lemma {:induction false} WovenApplies(text: string, cursor: nat, spans: seq<Edit>, boundary: nat, end: nat)
    requires Ascending(spans, cursor) && cursor <= end <= |text| && boundary <= end
    requires Fits(spans, cursor, end)
    ensures Applied(text, cursor, end, Woven(text, cursor, spans, boundary))
        == Ok(Remaining(text, cursor, spans, boundary, end))
    decreases |spans|
  {
    if spans == [] {
      if cursor <= boundary { Cut(text, cursor, boundary, end); }
      if Plain(text, cursor, boundary) {
        AppliedCons(text, cursor, end, Edit(cursor, boundary), []);
        assert [Edit(cursor, boundary)] + [] == [Edit(cursor, boundary)];
      }
    } else {
      var first, more := spans[0], Woven(text, spans[0].end, spans[1..], boundary);
      assert Fits(spans[1..], first.end, end) by { AscendingApart(spans, cursor); }
      WovenApplies(text, first.end, spans[1..], boundary, end);
      var rest := Remaining(text, first.end, spans[1..], boundary, end);
      if Plain(text, cursor, first.start) {
        AppliedCons(text, first.start, end, first, more);
        AppliedCons(text, cursor, end, Edit(cursor, first.start), [first] + more);
        assert text[first.start..first.start] + rest == rest && text[cursor..cursor] + rest == "" + rest;
      } else {
        AppliedCons(text, cursor, end, first, more);
        assert [] + ([first] + more) == [first] + more;
      }
    }
  }

  lemma {:induction false} GapsFit(text: string, start: nat, cursor: nat, spans: seq<Edit>, boundary: nat, end: nat)
    requires start <= cursor && boundary <= end && Fits(spans, start, end)
    ensures Fits(Gaps(text, cursor, spans, boundary), start, end)
    decreases |spans|
  {
    if spans != [] { GapsFit(text, start, spans[0].end, spans[1..], boundary, end); }
  }

  lemma {:induction false} WovenFits(text: string, start: nat, cursor: nat, spans: seq<Edit>, boundary: nat, end: nat)
    requires start <= cursor && boundary <= end && Fits(spans, start, end)
    ensures Fits(Woven(text, cursor, spans, boundary), start, end)
    decreases |spans|
  {
    if spans != [] { WovenFits(text, start, spans[0].end, spans[1..], boundary, end); }
  }

  lemma {:induction false} WovenHolds(text: string, cursor: nat, spans: seq<Edit>, boundary: nat)
    ensures multiset(Woven(text, cursor, spans, boundary))
        == multiset(spans) + multiset(Gaps(text, cursor, spans, boundary))
    decreases |spans|
  {
    if spans != [] {
      WovenHolds(text, spans[0].end, spans[1..], boundary);
      Interleaved(spans[0], spans[1..], spans, GapEdit(text, cursor, spans[0].start),
          Gaps(text, spans[0].end, spans[1..], boundary),
                  Woven(text, spans[0].end, spans[1..], boundary));
    }
  }

  lemma {:induction false} Interleaved<T>(x: T, rest: seq<T>, all: seq<T>, gap: seq<T>, gaps: seq<T>, woven: seq<T>)
    requires all == [x] + rest && multiset(woven) == multiset(rest) + multiset(gaps)
    ensures multiset(gap + ([x] + woven)) == multiset(all) + multiset(gap + gaps)
  {
  }

  /** With the tokens apart, the edits in order are the woven ones. */
  lemma {:induction false} SortedEdits(s: Site, seps: Separators)
    requires Placed(s) && Fits(Tokens(s, seps), s.start, s.end) && Disjoint(Tokens(s, seps))
    requires EndBoundary(s, seps) <= s.end && s.start <= s.end
    ensures var spans := Sort(SpanBefore, Tokens(s, seps));
            && Ascending(spans, s.start) && Fits(spans, s.start, s.end)
            && Applied(s.text, s.start, s.end, Sort(SpanBefore, FullEdits(s, seps)))
               == Ok(Remaining(s.text, s.start, spans, EndBoundary(s, seps), s.end))
  {
    var tokens, boundary := Tokens(s, seps), EndBoundary(s, seps);
    var spans := Sort(SpanBefore, tokens);
    SpanOrderStrict();
    SortFits(tokens, s.start, s.end);
    SortSorts(SpanBefore, tokens);
    SortKeepsApart(tokens);
    ApartAscending(spans, s.start, s.end, s.start);
    WovenSorts(s.text, s.start, s.end, tokens, spans, boundary);
  }

  lemma {:induction false} WovenSorts(text: string, start: nat, end: nat, tokens: seq<Edit>, spans: seq<Edit>,
      boundary: nat)
    requires start <= end <= |text| && boundary <= end && spans == Sort(SpanBefore, tokens)
    requires Ascending(spans, start) && Fits(spans, start, end)
    ensures Applied(text, start, end, Sort(SpanBefore, tokens + Gaps(text, start, spans, boundary)))
         == Ok(Remaining(text, start, spans, boundary, end))
  {
    var edits, woven := tokens + Gaps(text, start, spans, boundary), Woven(text, start, spans, boundary);
    SpanOrderStrict();
    SortPermutes(SpanBefore, tokens);
    WovenHolds(text, start, spans, boundary);
    assert multiset(edits) == multiset(tokens) + multiset(Gaps(text, start, spans, boundary));
    WovenApplies(text, start, spans, boundary, end);
    WovenFits(text, start, start, spans, boundary, end);
    AscendingSorted(text, start, end, woven);
    SortPermutes(SpanBefore, edits);
    SortSorts(SpanBefore, edits);
    SortedUnique(SpanBefore, Sort(SpanBefore, edits), woven);
  }

  lemma {:induction false} AscendingSorted(text: string, start: nat, end: nat, edits: seq<Edit>)
    requires start <= end <= |text| && Fits(edits, start, end) && Applied(text, start, end, edits).Ok?
    ensures Sorted(SpanBefore, edits)
  {
    AscendingApplies(text, start, end, edits);
    AscendingApart(edits, start);
  }

  lemma {:induction false} BoundaryInside(s: Site, seps: Separators)
    requires Placed(s)
    ensures EndBoundary(s, seps) <= s.end && s.start <= s.end
  {
    FindFirst(s.masked, '.', Last(s), s.end);
  }

  lemma {:induction false} EditsFit(s: Site, seps: Separators)
    requires Placed(s) && Fits(Tokens(s, seps), s.start, s.end) && EndBoundary(s, seps) <= s.end
    ensures Fits(FullEdits(s, seps), s.start, s.end)
  {
    var tokens := Tokens(s, seps);
    SortFits(tokens, s.start, s.end);
    GapsFit(s.text, s.start, s.start, Sort(SpanBefore, tokens), EndBoundary(s, seps), s.end);
  }

  /** The edits apply exactly when no comma shows inside an interior object. */
  lemma {:induction false} FullRemovalExact(s: Site, seps: Separators)
    requires Placed(s) && !(seps.preceding && seps.subject)
    ensures s.start <= s.end
    ensures Applied(s.text, s.start, s.end, Sort(SpanBefore, FullEdits(s, seps))).Ok? <==> InteriorClean(s)
  {
    TokensApart(s, seps);
    BoundaryInside(s, seps);
    EditsFit(s, seps);
    AppliesExactly(s.text, s.start, s.end, FullEdits(s, seps));
    if InteriorClean(s) {
      SortedEdits(s, seps);
    } else {
      DisjointSum(Tokens(s, seps), Gaps(s.text, s.start, Sort(SpanBefore, Tokens(s, seps)), EndBoundary(s, seps)));
    }
  }

  /** Full removal goes through exactly when no comma shows inside an interior
      object, and then leaves only gaps that hold a comment, and what follows the
      boundary. */
  method RemoveAll(s: Site, seps: Separators) returns (result: Result<string>)
    requires Placed(s) && !(seps.preceding && seps.subject)
    ensures result.Ok? <==> InteriorClean(s)
    ensures result.Ok? ==>
              var spans := Sort(SpanBefore, Tokens(s, seps));
              && s.start <= s.end && Ascending(spans, s.start) && EndBoundary(s, seps) <= s.end
                  && Fits(spans, s.start, s.end)
              && result.value == Remaining(s.text, s.start, spans, EndBoundary(s, seps), s.end)
  {
    var edits := FullEdits(s, seps);
    FullRemovalExact(s, seps);
    TokensApart(s, seps);
    BoundaryInside(s, seps);
    EditsFit(s, seps);
    if InteriorClean(s) { SortedEdits(s, seps); }
    result := ApplyEdits(s.text, s.start, s.end, edits);
  }

  // ----- a list that is refused -----

  predicate Unmarked(s: string) {
    forall k :: 0 <= k < |s| ==> s[k] != '#' && s[k] != '"' && s[k] != '\''
  }

  /** A text without comment marks and quotes is its own view. */
  lemma {:induction false} NothingMasked(s: string)
    requires Unmarked(s)
    ensures Mask(s) == s
  {
  }

  const LISTED := "owl:imports <a>,<b,c>,<d>;"

  lemma {:induction false} ListedUnmarked()
    ensures Unmarked(LISTED)
  {
  }

  /** Three imports, the middle one with a comma in its IRI. */
  function WithComma(): Site {
    Site(LISTED, LISTED, 0, 26, Edit(0, 11), None, [Edit(12, 15), Edit(16, 21), Edit(22, 25)])
  }

  lemma {:induction false} WithCommaPlaced()
    ensures Placed(WithComma())
  {
  }

  lemma {:induction false} WithCommaMasked(s: Site)
    requires s.text == LISTED && s.masked == s.text
    ensures s.masked == Mask(s.text)
  {
    ListedUnmarked();
    NothingMasked(s.text);
  }

  lemma {:induction false} WithCommaUnclean()
    ensures !InteriorClean(WithComma())
  {
    var s := WithComma();
    assert s.masked[18] == ',' && s.objects[1] == Edit(16, 21);
  }

  /** The middle object shows a comma, and full removal is refused. */
  lemma {:induction false} CommaRefused(s: Site, seps: Separators)
    requires s == WithComma() && !(seps.preceding && seps.subject)
    ensures Placed(s) && s.masked == Mask(s.text) && !InteriorClean(s) && s.start <= s.end
    ensures Applied(s.text, s.start, s.end, Sort(SpanBefore, FullEdits(s, seps))) == Refused
  {
    WithCommaPlaced();
    WithCommaMasked(s);
    WithCommaUnclean();
    RefusedUnclean(s, seps);
  }

  lemma {:induction false} RefusedUnclean(s: Site, seps: Separators)
    requires Placed(s) && !(seps.preceding && seps.subject) && !InteriorClean(s)
    ensures s.start <= s.end && Applied(s.text, s.start, s.end, Sort(SpanBefore, FullEdits(s, seps))) == Refused
  {
    FullRemovalExact(s, seps);
  }

  // ----- comments survive -----

  function Hashes(s: string): nat {
    if s == [] then 0 else Hashes(s[..|s| - 1]) + if s[|s| - 1] == '#' then 1 else 0
  }

  lemma {:induction false} HashSum(a: string, b: string)
    ensures Hashes(a + b) == Hashes(a) + Hashes(b)
    decreases |b|
  {
    if b == [] {
      assert a + b == a;
    } else {
      HashSum(a, b[..|b| - 1]);
      assert (a + b)[..|a + b| - 1] == a + b[..|b| - 1];
    }
  }

  lemma {:induction false} NoHash(s: string)
    requires forall k :: 0 <= k < |s| ==> s[k] != '#'
    ensures Hashes(s) == 0
  {
    if s != [] { NoHash(s[..|s| - 1]); }
  }

  lemma {:induction false} GapKeepsHashes(text: string, cursor: nat, next: nat)
    requires cursor <= next <= |text|
    ensures Hashes(GapLeft(text, cursor, next)) == Hashes(text[cursor..next])
  {
    if Plain(text, cursor, next) { NoHash(text[cursor..next]); }
  }

  function HashesIn(text: string, spans: seq<Edit>): nat
    requires forall i :: 0 <= i < |spans| ==> spans[i].start <= spans[i].end <= |text|
  {
    if spans == [] then 0 else Hashes(text[spans[0].start..spans[0].end]) + HashesIn(text, spans[1..])
  }

  /** Of the comment marks, exactly those inside removed tokens (the fragments of
      their IRIs) go. */
  lemma {:induction false} CommentsSurvive(text: string, cursor: nat, spans: seq<Edit>, boundary: nat, end: nat)
    requires Ascending(spans, cursor) && cursor <= end <= |text| && boundary <= end && Fits(spans, cursor, end)
    ensures Hashes(Remaining(text, cursor, spans, boundary, end)) + HashesIn(text, spans) == Hashes(text[cursor..end])
    decreases |spans|
  {
    if spans == [] {
      if cursor <= boundary {
        GapKeepsHashes(text, cursor, boundary);
        HashSum(GapLeft(text, cursor, boundary), text[boundary..end]);
        HashSum(text[cursor..boundary], text[boundary..end]);
        Cut(text, cursor, boundary, end);
      }
    } else {
      var first := spans[0];
      assert Fits(spans[1..], first.end, end) by { AscendingApart(spans, cursor); }
      CommentsSurvive(text, first.end, spans[1..], boundary, end);
      GapKeepsHashes(text, cursor, first.start);
      HashSum(GapLeft(text, cursor, first.start), Remaining(text, first.end, spans[1..], boundary, end));
      SplitHashes(text, cursor, first, end);
    }
  }

  lemma {:induction false} SplitHashes(text: string, cursor: nat, e: Edit, end: nat)
    requires cursor <= e.start <= e.end <= end <= |text|
    ensures Hashes(text[cursor..end])
        == Hashes(text[cursor..e.start]) + Hashes(text[e.start..e.end]) + Hashes(text[e.end..end])
  {
    HashSum(text[cursor..e.start], text[e.start..end]);
    HashSum(text[e.start..e.end], text[e.end..end]);
    Cut(text, cursor, e.start, end);
    Cut(text, e.start, e.end, end);
  }

  lemma {:induction false} Cut<T>(s: seq<T>, lo: nat, at: nat, hi: nat)
    requires lo <= at <= hi <= |s|
    ensures s[lo..hi] == s[lo..at] + s[at..hi]
  {
  }
}
