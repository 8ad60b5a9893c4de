/** What shows after a full removal: the view of the new text is the old view with the
    same characters deleted, and nothing of the list shows where the match stood. */
module TurtleFullView {
  import opened Common
  import opened Sorting
  import opened TurtleMask
  import opened TurtleEdits
  import opened TurtleRewrite
  import opened TurtleFullRemoval
  import opened TurtleView
  import opened TurtleRemask

  // ----- what a match shows -----

  /** A prefixed name, or an IRI. */
  predicate ShowsItem(masked: string, e: Edit) {
    || ShowsIri(masked, e)
    || (e.start < e.end <= |masked| && forall k :: e.start <= k < e.end ==> NameChar(masked[k]))
  }

  predicate NameChar(c: char) { GapChar(c) && c != '#' && c != ' ' && c != '\n' }

  predicate Item(s: Site, e: Edit) {
    e == s.predicate_ || s.subject == Some(e) || e in s.objects
  }

  /** No item covers position `k`. */
  ghost predicate Free(s: Site, k: nat) {
    forall e {:trigger Item(s, e)} :: Item(s, e) ==> !(e.start <= k < e.end)
  }

  /** What the patterns match in the view: a predicate and objects, perhaps behind a
      subject, with no other IRI and no literal between them. The match starts a token,
      not behind a comment; behind a literal, no quote follows the match. */
  ghost predicate FullySited(s: Site) {
    && Placed(s) && s.masked == Mask(s.text) && s.start < s.end && Boundary(s.text, s.start)
    && (forall e {:trigger Item(s, e)} :: Item(s, e) ==> ShowsItem(s.masked, e))
    && (forall k {:trigger Free(s, k)} :: s.start <= k < s.end && Free(s, k) ==> GapChar(s.masked[k]))
    && s.masked[s.start] != '\n'
    && (s.start > 0 && s.masked[s.start - 1] == BLANK && s.end < |s.text| ==> !Quote(s.text[s.end]))
  }

  predicate Quote(c: char) { c == '"' || c == '\'' }

  // ----- which characters stay -----

  /** Behind `cursor`, of spans and the gaps around them, a gap with a comment mark
      stays, and what follows the boundary. */
  predicate RowStays(text: string, cursor: nat, spans: seq<Edit>, boundary: nat, k: nat)
    decreases |spans|
  {
    if spans == [] then boundary <= k || !Plain(text, cursor, boundary)
    else if k < spans[0].start then !Plain(text, cursor, spans[0].start)
    else k >= spans[0].end && RowStays(text, spans[0].end, spans[1..], boundary, k)
  }

  lemma {:induction false} WovenStays(text: string, cursor: nat, spans: seq<Edit>, boundary: nat, end: nat, k: nat)
    requires Ascending(spans, cursor) && Fits(spans, cursor, end) && boundary <= end && cursor <= k
    ensures Stays(Woven(text, cursor, spans, boundary), k) <==> RowStays(text, cursor, spans, boundary, k)
    decreases |spans|
  {
    if spans == [] {
      if Plain(text, cursor, boundary) { StaysOne(Edit(cursor, boundary), k); }
    } else {
      var e, more := spans[0], Woven(text, spans[0].end, spans[1..], boundary);
      AscendingApart(spans, cursor);
      StaysSum(GapEdit(text, cursor, e.start), [e] + more, k);
      StaysSum([e], more, k);
      StaysOne(e, k);
      if Plain(text, cursor, e.start) { StaysOne(Edit(cursor, e.start), k); }
      if k < e.end {
        WovenFits(text, e.end, e.end, spans[1..], boundary, end);
        StaysOutside(more, e.end, end, k);
      } else {
        WovenStays(text, e.end, spans[1..], boundary, end, k);
      }
    }
  }

  lemma {:induction false} SpanGone(text: string, cursor: nat, spans: seq<Edit>, boundary: nat, k: nat)
    requires Ascending(spans, cursor) && !Stays(spans, k)
    ensures !RowStays(text, cursor, spans, boundary, k)
    decreases |spans|
  {
    var i :| 0 <= i < |spans| && spans[i].start <= k < spans[i].end;
    AscendingApart(spans, cursor);
    if i > 0 {
      StaysTail(spans, k);
      SpanGone(text, spans[0].end, spans[1..], boundary, k);
    }
  }

  // ----- whole tokens go -----

  ghost predicate Whole(s: string, e: Edit) {
    && e.start < e.end <= |s| && Boundary(s, e.start) && Boundary(s, e.end)
    && Mask(s)[e.start] != '\n' && Mask(s)[e.start] != ' '
  }

  ghost predicate AllWhole(s: string, spans: seq<Edit>) {
    forall i {:trigger spans[i]} :: 0 <= i < |spans| ==> Whole(s, spans[i])
  }

  /** A comment outside the spans stays, with the character behind it. */
  lemma {:induction false} CommentKept(s: string, cursor: nat, spans: seq<Edit>, boundary: nat, at: nat)
    requires Ascending(spans, cursor) && AllWhole(s, spans) && cursor <= at < |s| && Stays(spans, at)
    requires Boundary(s, at) && KindAt(s, at).Comment?
    ensures forall k :: at <= k <= TokenEnd(s, at) ==> RowStays(s, cursor, spans, boundary, k)
    decreases |spans|
  {
    if spans != [] {
      if at < spans[0].start {
        NoStraddle(s, at, spans[0].start);
        if TokenEnd(s, at) < |s| { CommentBefore(s, at); }
      } else {
        StaysTail(spans, at);
        CommentKept(s, spans[0].end, spans[1..], boundary, at);
      }
    }
  }

  /** What stays behind something that goes starts a token. */
  lemma {:induction false} Resumes(s: string, cursor: nat, spans: seq<Edit>, boundary: nat, k: nat)
    requires Ascending(spans, cursor) && AllWhole(s, spans) && cursor < k
    requires RowStays(s, cursor, spans, boundary, k) && !RowStays(s, cursor, spans, boundary, k - 1)
    ensures k == boundary || Boundary(s, k)
    decreases |spans|
  {
    if spans != [] && k > spans[0].end { Resumes(s, spans[0].end, spans[1..], boundary, k); }
  }

  /** Spans of whole tokens, with gaps between them that show neither IRIs nor literals. */
  ghost predicate Row(s: string, start: nat, spans: seq<Edit>, boundary: nat, end: nat) {
    && start < end <= |s| && boundary <= end && Boundary(s, start)
    && Ascending(spans, start) && Fits(spans, start, end) && AllWhole(s, spans)
    && (forall k {:trigger Stays(spans, k)} :: start <= k < end && Stays(spans, k) ==> GapChar(Mask(s)[k]))
    && (boundary < end ==> Boundary(s, boundary))
    && Mask(s)[start] != '\n'
    && (start > 0 && Mask(s)[start - 1] == BLANK && end < |s| ==> !Quote(s[end]))
  }

  ghost predicate RowFlags(s: string, start: nat, spans: seq<Edit>, boundary: nat, end: nat, stay: seq<bool>) {
    && |stay| == |s|
    && forall k :: 0 <= k < |s| ==>
         (stay[k] <==> k < start || end <= k || RowStays(s, start, spans, boundary, k))
  }

  /** Outside the spans a token is a single character or a comment. */
  lemma {:induction false} FreeToken(s: string, start: nat, spans: seq<Edit>, boundary: nat, end: nat, at: nat)
    requires Row(s, start, spans, boundary, end) && start <= at < end && Stays(spans, at) && Boundary(s, at)
    ensures KindAt(s, at).Other? || KindAt(s, at).Comment?
    ensures !Quote(s[at])
  {
    TokenView(s, at, at);
  }

  lemma {:induction false} CutsSpan(s: string, start: nat, spans: seq<Edit>, boundary: nat, end: nat,
      stay: seq<bool>, at: nat)
    requires Row(s, start, spans, boundary, end) && RowFlags(s, start, spans, boundary, end, stay)
    requires start <= at < end && Boundary(s, at) && !Stays(spans, at)
    ensures CutsToken(s, stay, at)
  {
    var i :| 0 <= i < |spans| && spans[i].start <= at < spans[i].end;
    assert Whole(s, spans[i]);
    NoStraddle(s, at, spans[i].end);
    forall k | at <= k < TokenEnd(s, at) ensures !stay[k] {
      assert !Stays(spans, k);
      SpanGone(s, start, spans, boundary, k);
    }
  }

  lemma {:induction false} CutsFree(s: string, start: nat, spans: seq<Edit>, boundary: nat, end: nat,
      stay: seq<bool>, at: nat)
    requires Row(s, start, spans, boundary, end) && RowFlags(s, start, spans, boundary, end, stay)
    requires start <= at < end && Boundary(s, at) && Stays(spans, at)
    ensures CutsToken(s, stay, at)
  {
    FreeToken(s, start, spans, boundary, end, at);
    if KindAt(s, at).Comment? { CommentKept(s, start, spans, boundary, at); }
  }

  lemma {:induction false} NextBy(stay: seq<bool>, k: nat, end: nat)
    requires k <= end < |stay| && stay[end]
    ensures NextStay(stay, k) <= end
  {
  }

  /** What follows the front of the match in what is left is no quote. */
  lemma {:induction false} NoQuoteNext(s: string, start: nat, spans: seq<Edit>, boundary: nat, end: nat,
      stay: seq<bool>)
    requires Row(s, start, spans, boundary, end) && RowFlags(s, start, spans, boundary, end, stay)
    requires start > 0 && Mask(s)[start - 1] == BLANK
    ensures var next := NextStay(stay, start); next == start || (next < |s| ==> !Quote(s[next]))
  {
    var next := NextStay(stay, start);
    if end < |s| { NextBy(stay, start, end); }
    if start < next < end {
      assert !stay[next - 1] && stay[next];
      Resumes(s, start, spans, boundary, next);
      if !Stays(spans, next) { SpanGone(s, start, spans, boundary, next); }
      FreeToken(s, start, spans, boundary, end, next);
    }
  }

  lemma {:induction false} CutsFront(s: string, start: nat, spans: seq<Edit>, boundary: nat, end: nat,
      stay: seq<bool>, at: nat)
    requires Row(s, start, spans, boundary, end) && RowFlags(s, start, spans, boundary, end, stay)
    requires at < start && Boundary(s, at)
    ensures CutsToken(s, stay, at)
  {
    NoStraddle(s, at, start);
    if TokenEnd(s, at) == start {
      TokenView(s, at, start - 1);
      if KindAt(s, at).Comment? { CommentBefore(s, at); }
      if KindAt(s, at).Literal? {
        LiteralLast(s, at);
        NoQuoteNext(s, start, spans, boundary, end, stay);
      }
    }
  }

  /** Deleting a row deletes whole tokens. */
  lemma {:induction false} RowCuts(s: string, start: nat, spans: seq<Edit>, boundary: nat, end: nat, stay: seq<bool>)
    requires Row(s, start, spans, boundary, end) && RowFlags(s, start, spans, boundary, end, stay)
    ensures CutsTokens(s, stay)
  {
    forall at | 0 <= at < |s| && Boundary(s, at) ensures CutsToken(s, stay, at) {
      if at < start {
        CutsFront(s, start, spans, boundary, end, stay, at);
      } else if at < end {
        if Stays(spans, at) {
          CutsFree(s, start, spans, boundary, end, stay, at);
        } else {
          CutsSpan(s, start, spans, boundary, end, stay, at);
        }
      }
    }
  }

  // ----- the tokens of a match are whole -----

  lemma {:induction false} NameToken(s: string, at: nat)
    requires Boundary(s, at) && at < |s| && NameChar(Mask(s)[at])
    ensures Boundary(s, at + 1)
  {
    TokenView(s, at, at);
    NextBoundary(s, at);
  }

  lemma {:induction false} NameEnds(s: string, lo: nat, hi: nat)
    requires Boundary(s, lo) && lo <= hi <= |s| && forall k :: lo <= k < hi ==> NameChar(Mask(s)[k])
    ensures Boundary(s, hi)
    decreases hi - lo
  {
    if lo < hi {
      NameToken(s, lo);
      NameEnds(s, lo + 1, hi);
    }
  }

  lemma {:induction false} ItemWhole(s: string, e: Edit)
    requires Boundary(s, e.start) && ShowsItem(Mask(s), e)
    ensures Whole(s, e)
  {
    if ShowsIri(Mask(s), e) {
      IriToken(s, e);
    } else {
      NameEnds(s, e.start, e.end);
    }
  }

  lemma {:induction false} ItemsApart(s: Site, e: Edit, f: Edit)
    requires Placed(s) && Item(s, e) && Item(s, f) && e != f
    ensures Apart(e, f)
  {
  }

  ghost predicate Edge(s: Site, k: nat) {
    forall e {:trigger Item(s, e)} :: Item(s, e) ==> !(e.start < k < e.end)
  }

  lemma {:induction false} EndIsEdge(s: Site, e: Edit)
    requires Placed(s) && Item(s, e)
    ensures Edge(s, e.end) && Edge(s, e.start)
  {
    forall f | Item(s, f) ensures !(f.start < e.end < f.end) && !(f.start < e.start < f.end) {
      if f != e { ItemsApart(s, e, f); }
    }
  }

  /** One token on, in a gap. */
  lemma {:induction false} FreeStep(s: Site, at: nat, k: nat)
    requires FullySited(s) && s.start <= at < k <= s.end && Boundary(s.text, at) && Free(s, at)
    requires k < |s.text| ==> s.masked[k] != ' '
    ensures Boundary(s.text, TokenEnd(s.text, at)) && TokenEnd(s.text, at) <= k && Edge(s, TokenEnd(s.text, at))
  {
    var next := TokenEnd(s.text, at);
    TokenView(s.text, at, at);
    NextBoundary(s.text, at);
    if k < next { TokenView(s.text, at, k); }
    forall e | Item(s, e) ensures !(e.start < next < e.end) {
      if e.start < next < e.end {
        assert ShowsItem(s.masked, e);
        TokenView(s.text, at, e.start);
      }
    }
  }

  /** One item on. */
  lemma {:induction false} ItemStep(s: Site, e: Edit, k: nat)
    requires FullySited(s) && Item(s, e) && Boundary(s.text, e.start) && e.start < k && Edge(s, k)
    ensures Boundary(s.text, e.end) && e.start < e.end <= k && Edge(s, e.end)
  {
    assert ShowsItem(s.masked, e);
    ItemWhole(s.text, e);
    EndIsEdge(s, e);
  }

  lemma {:induction false} ItemAt(s: Site, at: nat) returns (e: Edit)
    requires !Free(s, at) && Edge(s, at)
    ensures Item(s, e) && e.start == at
  {
    e :| Item(s, e) && e.start <= at < e.end;
  }

  /** The next token that is not inside an item. */
  lemma {:induction false} Onward(s: Site, at: nat, k: nat) returns (next: nat)
    requires FullySited(s) && s.start <= at < k <= s.end && Boundary(s.text, at) && Edge(s, at) && Edge(s, k)
    requires k < |s.text| ==> s.masked[k] != ' '
    ensures at < next <= k && Boundary(s.text, next) && Edge(s, next)
  {
    if Free(s, at) {
      FreeStep(s, at, k);
      next := TokenEnd(s.text, at);
    } else {
      var e := ItemAt(s, at);
      ItemStep(s, e, k);
      next := e.end;
    }
  }

  /** A token starts wherever something visible stands that is not inside an item. */
  lemma {:induction false} Reaches(s: Site, at: nat, k: nat)
    requires FullySited(s) && s.start <= at <= k <= s.end && Boundary(s.text, at) && Edge(s, at) && Edge(s, k)
    requires k < |s.text| ==> s.masked[k] != ' '
    ensures Boundary(s.text, k)
    decreases k - at
  {
    if at < k {
      var next := Onward(s, at, k);
      Reaches(s, next, k);
    }
  }

  lemma {:induction false} StartIsEdge(s: Site)
    requires Placed(s)
    ensures Edge(s, s.start)
  {
  }

  lemma {:induction false} SiteItemWhole(s: Site, e: Edit)
    requires FullySited(s) && Item(s, e)
    ensures Whole(s.text, e)
  {
    StartIsEdge(s);
    EndIsEdge(s, e);
    assert ShowsItem(s.masked, e);
    Reaches(s, s.start, e.start);
    ItemWhole(s.text, e);
  }

  /** A separator in a gap. */
  ghost predicate IsMark(s: Site, e: Edit) {
    && s.start <= e.start < s.end <= |s.masked| && e.end == e.start + 1 && Free(s, e.start)
    && s.masked[e.start] in {',', ';', '.'}
  }

  lemma {:induction false} MarkWhole(s: Site, e: Edit)
    requires FullySited(s) && IsMark(s, e)
    ensures Whole(s.text, e)
  {
    StartIsEdge(s);
    Reaches(s, s.start, e.start);
    TokenView(s.text, e.start, e.start);
    NextBoundary(s.text, e.start);
  }

  /** Only what goes stands in the match beside the gaps. */
  ghost predicate Asked(s: Site, seps: Separators) {
    !(seps.preceding && seps.subject) && (s.subject.Some? ==> seps.subject)
  }

  lemma {:induction false} CommaIsMark(s: Site, e: Edit)
    requires Placed(s) && InteriorClean(s)
    requires e in CommaEdits(s.masked, s.objects[0].end, s.objects[|s.objects| - 1].start)
    ensures IsMark(s, e)
  {
    var lo, hi := s.objects[0].end, s.objects[|s.objects| - 1].start;
    var j :| 0 <= j < |CommaEdits(s.masked, lo, hi)| && CommaEdits(s.masked, lo, hi)[j] == e;
    CommasShow(s.masked, lo, hi, j);
    forall o | Item(s, o) ensures !(o.start <= e.start < o.end) {
      if o in s.objects { CommaOutside(s, o, e.start); }
    }
  }

  lemma {:induction false} CommaOutside(s: Site, o: Edit, k: nat)
    requires Placed(s) && InteriorClean(s) && o in s.objects && k < |s.masked| && s.masked[k] == ','
    requires s.objects[0].end <= k < s.objects[|s.objects| - 1].start
    ensures !(o.start <= k < o.end)
  {
    var i :| 0 <= i < |s.objects| && s.objects[i] == o;
  }

  lemma {:induction false} AheadIsMark(s: Site, e: Edit)
    requires Placed(s) && s.subject == None && e in Ahead(s, true)
    ensures IsMark(s, e)
  {
  }

  lemma {:induction false} BehindIsMark(s: Site, c: char, e: Edit)
    requires Placed(s) && c in {';', '.'} && e in Behind(s, c, true)
    ensures IsMark(s, e)
  {
    FindFirst(s.masked, c, Last(s), s.end);
  }

  lemma {:induction false} InSum<T>(a: seq<T>, b: seq<T>, x: T)
    ensures x in a + b <==> x in a || x in b
  {
  }

  lemma {:induction false} NeighbourIsMark(s: Site, seps: Separators, e: Edit)
    requires Placed(s) && Asked(s, seps) && e in Neighbours(s, seps)
    ensures Item(s, e) || IsMark(s, e)
  {
    var a, b, c := Ahead(s, seps.preceding), Behind(s, ';', seps.following), Subject(s, seps.subject);
    InSum(a + b + c, Behind(s, '.', seps.terminator), e);
    InSum(a + b, c, e);
    InSum(a, b, e);
    if e in a {
      AheadIsMark(s, e);
    } else if e in b {
      BehindIsMark(s, ';', e);
    } else if e !in c {
      BehindIsMark(s, '.', e);
    }
  }

  lemma {:induction false} TokenKind(s: Site, seps: Separators, e: Edit)
    requires Placed(s) && InteriorClean(s) && Asked(s, seps) && e in Tokens(s, seps)
    ensures Item(s, e) || IsMark(s, e)
  {
    var commas := CommaEdits(s.masked, s.objects[0].end, s.objects[|s.objects| - 1].start);
    InSum(ObjectList(s) + [s.predicate_], Neighbours(s, seps), e);
    InSum(ObjectList(s), [s.predicate_], e);
    InSum(s.objects, commas, e);
    if e in Neighbours(s, seps) {
      NeighbourIsMark(s, seps, e);
    } else if e in commas {
      CommaIsMark(s, e);
    }
  }

  lemma {:induction false} ItemGoes(s: Site, seps: Separators, e: Edit)
    requires Placed(s) && Asked(s, seps) && Item(s, e)
    ensures e in Tokens(s, seps)
  {
    if s.subject == Some(e) { assert e in Subject(s, seps.subject); }
  }

  lemma {:induction false} SameMembers<T>(a: seq<T>, b: seq<T>, x: T)
    requires multiset(a) == multiset(b)
    ensures x in a <==> x in b
  {
    assert x in a <==> x in multiset(a);
    assert x in b <==> x in multiset(b);
  }

  lemma {:induction false} SpansWhole(s: Site, seps: Separators, spans: seq<Edit>)
    requires FullySited(s) && InteriorClean(s) && Asked(s, seps) && multiset(spans) == multiset(Tokens(s, seps))
    ensures AllWhole(s.text, spans)
    ensures forall k {:trigger Stays(spans, k)} :: s.start <= k < s.end && Stays(spans, k) ==> GapChar(s.masked[k])
  {
    forall i | 0 <= i < |spans| ensures Whole(s.text, spans[i]) {
      SameMembers(spans, Tokens(s, seps), spans[i]);
      TokenKind(s, seps, spans[i]);
      if Item(s, spans[i]) { SiteItemWhole(s, spans[i]); } else { MarkWhole(s, spans[i]); }
    }
    forall k | s.start <= k < s.end && Stays(spans, k) ensures GapChar(s.masked[k]) {
      forall e | Item(s, e) ensures !(e.start <= k < e.end) {
        ItemGoes(s, seps, e);
        SameMembers(spans, Tokens(s, seps), e);
      }
      assert Free(s, k);
    }
  }

  lemma {:induction false} BoundaryWhole(s: Site, seps: Separators)
    requires FullySited(s) && EndBoundary(s, seps) < s.end
    ensures Boundary(s.text, EndBoundary(s, seps))
  {
    var at := EndBoundary(s, seps);
    BehindIsMark(s, '.', Edit(at, at + 1));
    MarkWhole(s, Edit(at, at + 1));
  }

  lemma {:induction false} SiteRow(s: Site, seps: Separators, spans: seq<Edit>)
    requires FullySited(s) && InteriorClean(s) && Asked(s, seps) && spans == Sort(SpanBefore, Tokens(s, seps))
    ensures Row(s.text, s.start, spans, EndBoundary(s, seps), s.end)
  {
    TokensApart(s, seps);
    BoundaryInside(s, seps);
    SortedEdits(s, seps);
    SpanOrderStrict();
    SortPermutes(SpanBefore, Tokens(s, seps));
    SpansWhole(s, seps, spans);
    if EndBoundary(s, seps) < s.end { BoundaryWhole(s, seps); }
  }

  // ----- the rewritten document -----

  /** Which characters of the document stay. */
  ghost function FullFlags(s: Site, seps: Separators): (stay: seq<bool>)
    requires Placed(s)
    ensures |stay| == |s.text|
  {
    Flags(Woven(s.text, s.start, Sort(SpanBefore, Tokens(s, seps)), EndBoundary(s, seps)), |s.text|)
  }

  lemma {:induction false} FlagsAreRow(s: Site, seps: Separators, spans: seq<Edit>)
    requires Placed(s) && spans == Sort(SpanBefore, Tokens(s, seps))
    requires Row(s.text, s.start, spans, EndBoundary(s, seps), s.end)
    ensures RowFlags(s.text, s.start, spans, EndBoundary(s, seps), s.end, FullFlags(s, seps))
  {
    var woven := Woven(s.text, s.start, spans, EndBoundary(s, seps));
    WovenFits(s.text, s.start, s.start, spans, EndBoundary(s, seps), s.end);
    forall k | 0 <= k < |s.text|
      ensures FullFlags(s, seps)[k] <==>
                k < s.start || s.end <= k || RowStays(s.text, s.start, spans, EndBoundary(s, seps), k)
    {
      if k < s.start || s.end <= k {
        StaysOutside(woven, s.start, s.end, k);
      } else {
        WovenStays(s.text, s.start, spans, EndBoundary(s, seps), s.end, k);
      }
    }
  }

  /** Full removal leaves the characters that stay. */
  lemma {:induction false} FullLeaves(s: Site, seps: Separators, result: string)
    requires FullySited(s) && Asked(s, seps)
    requires Applied(s.text, s.start, s.end, Sort(SpanBefore, FullEdits(s, seps))) == Ok(result)
    ensures InteriorClean(s) && result == Left(s.text, FullFlags(s, seps), s.start, s.end)
    ensures forall k :: 0 <= k < |s.text| && (k < s.start || s.end <= k) ==> FullFlags(s, seps)[k]
  {
    var spans, boundary := Sort(SpanBefore, Tokens(s, seps)), EndBoundary(s, seps);
    var woven := Woven(s.text, s.start, spans, boundary);
    FullRemovalExact(s, seps);
    SiteRow(s, seps, spans);
    FlagsAreRow(s, seps, spans);
    TokensApart(s, seps);
    SortedEdits(s, seps);
    WovenApplies(s.text, s.start, spans, boundary, s.end);
    WovenFits(s.text, s.start, s.start, spans, boundary, s.end);
    AscendingApplies(s.text, s.start, s.end, woven);
    AppliedLeaves(s.text, s.start, s.end, woven, FullFlags(s, seps));
  }

  /** The document after the removal. */
  function Afterwards(s: Site, result: string): string
    requires s.start <= s.end <= |s.text|
  {
    s.text[..s.start] + result + s.text[s.end..]
  }

  /** What stays around a stretch and inside it. */
  lemma {:induction false} LeftAround(s: string, stay: seq<bool>, lo: nat, hi: nat)
    requires lo <= hi <= |s| == |stay| && forall k :: 0 <= k < |s| && (k < lo || hi <= k) ==> stay[k]
    ensures Left(s, stay, 0, |s|) == s[..lo] + Left(s, stay, lo, hi) + s[hi..]
  {
    LeftAll(s, stay, 0, lo);
    LeftAll(s, stay, hi, |s|);
    LeftSum(s, stay, 0, lo, |s|);
    LeftSum(s, stay, lo, hi, |s|);
    Associates(s[..lo], Left(s, stay, lo, hi), s[hi..]);
  }

  /** Masking the document after a full removal gives the view with the same characters
      deleted. */
  lemma {:induction false} FullView(s: Site, seps: Separators, result: string)
    requires FullySited(s) && Asked(s, seps)
    requires Applied(s.text, s.start, s.end, Sort(SpanBefore, FullEdits(s, seps))) == Ok(result)
    ensures Mask(Afterwards(s, result)) == Left(s.masked, FullFlags(s, seps), 0, |s.text|)
  {
    var spans, stay := Sort(SpanBefore, Tokens(s, seps)), FullFlags(s, seps);
    FullLeaves(s, seps, result);
    LeftAround(s.text, stay, s.start, s.end);
    SiteRow(s, seps, spans);
    FlagsAreRow(s, seps, spans);
    RowCuts(s.text, s.start, spans, EndBoundary(s, seps), s.end, stay);
    MaskOfLeft(s.text, stay);
  }

  /** What stays of a row shows no IRI. */
  lemma {:induction false} RowShows(s: string, start: nat, spans: seq<Edit>, boundary: nat, end: nat, stay: seq<bool>)
    requires Row(s, start, spans, boundary, end) && RowFlags(s, start, spans, boundary, end, stay)
    ensures forall k :: start <= k < end && stay[k] ==> GapChar(Mask(s)[k])
  {
    forall k | start <= k < end && stay[k] ensures GapChar(Mask(s)[k]) {
      if !Stays(spans, k) { SpanGone(s, start, spans, boundary, k); }
    }
  }

  lemma {:induction false} StaysPlain(s: Site, seps: Separators)
    requires FullySited(s) && Asked(s, seps) && InteriorClean(s)
    ensures forall k :: s.start <= k < s.end && FullFlags(s, seps)[k] ==> GapChar(s.masked[k])
  {
    var spans := Sort(SpanBefore, Tokens(s, seps));
    SiteRow(s, seps, spans);
    FlagsAreRow(s, seps, spans);
    RowShows(s.text, s.start, spans, EndBoundary(s, seps), s.end, FullFlags(s, seps));
  }

  lemma {:induction false} LeftGapChars(s: string, stay: seq<bool>, lo: nat, hi: nat)
    requires lo <= hi <= |s| == |stay| && forall k :: lo <= k < hi && stay[k] ==> GapChar(s[k])
    ensures forall p :: 0 <= p < |Left(s, stay, lo, hi)| ==> GapChar(Left(s, stay, lo, hi)[p])
    decreases hi
  {
    if lo < hi { LeftGapChars(s, stay, lo, hi - 1); }
  }

  lemma {:induction false} SameLength(s: string, m: string, stay: seq<bool>, lo: nat, hi: nat)
    requires lo <= hi <= |s| == |m| == |stay|
    ensures |Left(s, stay, lo, hi)| == |Left(m, stay, lo, hi)|
    decreases hi
  {
    if lo < hi { SameLength(s, m, stay, lo, hi - 1); }
  }

  lemma {:induction false} ShownAround(m: string, stay: seq<bool>, lo: nat, hi: nat, view: string, n: nat)
    requires lo <= hi <= |m| == |stay| && forall k :: 0 <= k < |m| && (k < lo || hi <= k) ==> stay[k]
    requires forall k :: lo <= k < hi && stay[k] ==> GapChar(m[k])
    requires view == Left(m, stay, 0, |m|) && n == |Left(m, stay, lo, hi)|
    ensures |view| == |m| - (hi - lo) + n && view[..lo] == m[..lo] && view[lo + n..] == m[hi..]
    ensures forall p :: lo <= p < lo + n ==> GapChar(view[p])
  {
    LeftGapChars(m, stay, lo, hi);
    LeftAround(m, stay, lo, hi);
    AroundMiddle(m[..lo], Left(m, stay, lo, hi), m[hi..]);
  }

  lemma {:induction false} AroundMiddle<T>(a: seq<T>, b: seq<T>, c: seq<T>)
    ensures var all := a + b + c;
            && all[..|a|] == a && all[|a| + |b|..] == c
            && forall p :: |a| <= p < |a| + |b| ==> all[p] == b[p - |a|]
  {
  }

  lemma {:induction false} ShownAfter(s: Site, stay: seq<bool>, result: string, view: string)
    requires s.start <= s.end <= |s.text| == |s.masked| == |stay|
    requires result == Left(s.text, stay, s.start, s.end) && view == Left(s.masked, stay, 0, |s.text|)
    requires forall k :: 0 <= k < |s.text| && (k < s.start || s.end <= k) ==> stay[k]
    requires forall k :: s.start <= k < s.end && stay[k] ==> GapChar(s.masked[k])
    ensures |view| == |s.text| - (s.end - s.start) + |result|
    ensures view[..s.start] == s.masked[..s.start] && view[s.start + |result|..] == s.masked[s.end..]
    ensures forall p :: s.start <= p < s.start + |result| ==> GapChar(view[p])
  {
    SameLength(s.text, s.masked, stay, s.start, s.end);
    ShownAround(s.masked, stay, s.start, s.end, view, |result|);
  }

  /** Where the match stood, neither an IRI nor a literal shows, and around it the view
      is as before. */
  lemma {:induction false} NothingShown(s: Site, seps: Separators, result: string)
    requires FullySited(s) && Asked(s, seps)
    requires Applied(s.text, s.start, s.end, Sort(SpanBefore, FullEdits(s, seps))) == Ok(result)
    ensures var view := Mask(Afterwards(s, result));
            && |view| == |s.text| - (s.end - s.start) + |result|
            && view[..s.start] == s.masked[..s.start] && view[s.start + |result|..] == s.masked[s.end..]
            && forall p :: s.start <= p < s.start + |result| ==> GapChar(view[p])
  {
    FullLeaves(s, seps, result);
    FullView(s, seps, result);
    StaysPlain(s, seps);
    ShownAfter(s, FullFlags(s, seps), result, Mask(Afterwards(s, result)));
  }
}
