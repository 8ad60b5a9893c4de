/** Which characters a full removal takes, told by positions alone: the tokens that go,
    and the gaps between them that hold no comment. */
module TurtleFullExact {
  import opened Common
  import opened Sorting
  import opened TurtleEdits
  import opened TurtleRewrite
  import opened TurtleFullRemoval
  import opened TurtleFullView

  // ----- the tokens that go -----

  /** The first `c` behind the objects. */
  predicate FirstBehind(s: Site, c: char, k: nat)
    requires Placed(s)
  {
    Last(s) <= k < s.end && s.masked[k] == c && forall p :: Last(s) <= p < k ==> s.masked[p] != c
  }

  /** The last `;` in front of the predicate. */
  predicate LastAhead(s: Site, k: nat)
    requires Placed(s)
  {
    && s.start <= k < s.predicate_.start && s.masked[k] == ';'
    && forall p :: k < p < s.predicate_.start ==> s.masked[p] != ';'
  }

  predicate CommaBetween(s: Site, k: nat)
    requires Placed(s)
  {
    s.objects[0].end <= k < s.objects[|s.objects| - 1].start && s.masked[k] == ','
  }

  /** A mark that goes along: a comma of the list, or a neighbour that was asked for. */
  predicate MarkGoes(s: Site, seps: Separators, k: nat)
    requires Placed(s)
  {
    || CommaBetween(s, k)
    || (seps.preceding && LastAhead(s, k))
    || (seps.following && FirstBehind(s, ';', k))
    || (seps.terminator && FirstBehind(s, '.', k))
  }

  ghost predicate Goes(s: Site, seps: Separators, e: Edit)
    requires Placed(s)
  {
    || e in s.objects || e == s.predicate_ || (seps.subject && s.subject == Some(e))
    || (e.end == e.start + 1 && MarkGoes(s, seps, e.start))
  }

  lemma {:induction false} FindLast(masked: string, c: char, lo: nat, hi: nat)
    requires hi <= |masked|
    ensures match FindBack(masked, c, lo, hi)
            case Some(k) => lo <= k < hi && masked[k] == c && forall j :: k < j < hi ==> masked[j] != c
            case None => forall j :: lo <= j < hi ==> masked[j] != c
    decreases hi
  {
    if lo < hi && masked[hi - 1] != c { FindLast(masked, c, lo, hi - 1); }
  }

  lemma {:induction false} AheadExact(s: Site, wanted: bool, e: Edit)
    requires Placed(s)
    ensures e in Ahead(s, wanted) <==> wanted && e.end == e.start + 1 && LastAhead(s, e.start)
  {
    FindLast(s.masked, ';', s.start, s.predicate_.start);
  }

  lemma {:induction false} BehindExact(s: Site, c: char, wanted: bool, e: Edit)
    requires Placed(s)
    ensures e in Behind(s, c, wanted) <==> wanted && e.end == e.start + 1 && FirstBehind(s, c, e.start)
  {
    FindFirst(s.masked, c, Last(s), s.end);
  }

  lemma {:induction false} CommasExact(s: Site, e: Edit)
    requires Placed(s)
    ensures e in CommaEdits(s.masked, s.objects[0].end, s.objects[|s.objects| - 1].start) <==>
              e.end == e.start + 1 && CommaBetween(s, e.start)
  {
    var lo, hi := s.objects[0].end, s.objects[|s.objects| - 1].start;
    var commas := CommaEdits(s.masked, lo, hi);
    if e in commas {
      var j :| 0 <= j < |commas| && commas[j] == e;
      CommasShow(s.masked, lo, hi, j);
    }
    if e.end == e.start + 1 && CommaBetween(s, e.start) {
      var j := CommaListed(s.masked, lo, hi, e.start);
    }
  }

  /** The tokens that go are the objects, their commas, the predicate, and of the
      neighbours those that were asked for and are there. */
  lemma {:induction false} TokensExact(s: Site, seps: Separators, e: Edit)
    requires Placed(s)
    ensures e in Tokens(s, seps) <==> Goes(s, seps, e)
  {
    CommasExact(s, e);
    AheadExact(s, seps.preceding, e);
    BehindExact(s, ';', seps.following, e);
    BehindExact(s, '.', seps.terminator, e);
  }

  // ----- the characters that stay -----

  ghost predicate Covered(spans: seq<Edit>, k: nat) {
    exists i :: 0 <= i < |spans| && spans[i].start <= k < spans[i].end
  }

  /** No span lies between two positions, nor covers one. */
  ghost predicate Clear(spans: seq<Edit>, j: nat, k: nat) {
    forall p :: (j <= p <= k || k <= p <= j) ==> !Covered(spans, p)
  }

  /** A comment mark in the gap around `k`. */
  ghost predicate Commented(text: string, spans: seq<Edit>, lo: nat, boundary: nat, k: nat) {
    exists j :: lo <= j < boundary && j < |text| && text[j] == '#' && Clear(spans, j, k)
  }

  lemma {:induction false} CoveredFirst(spans: seq<Edit>, k: nat)
    requires spans != []
    ensures Covered(spans, k) <==> spans[0].start <= k < spans[0].end || Covered(spans[1..], k)
  {
    if i :| 0 <= i < |spans| && spans[i].start <= k < spans[i].end {
      if i > 0 { assert spans[1..][i - 1] == spans[i]; }
    }
    if i :| 0 <= i < |spans[1..]| && spans[1..][i].start <= k < spans[1..][i].end {
      assert spans[1..][i] == spans[i + 1];
    }
  }

  lemma {:induction false} NotBefore(spans: seq<Edit>, cursor: nat, k: nat)
    requires Ascending(spans, cursor) && k < cursor
    ensures !Covered(spans, k)
  {
    AscendingApart(spans, cursor);
  }

  /** In front of the first span the gap is what precedes it. */
  lemma {:induction false} GapAhead(text: string, cursor: nat, spans: seq<Edit>, boundary: nat, k: nat)
    requires Ascending(spans, cursor) && spans != [] && spans[0].start < spans[0].end <= boundary <= |text|
    requires cursor <= k < spans[0].start
    ensures !Covered(spans, k)
    ensures Commented(text, spans, cursor, boundary, k) <==> !Plain(text, cursor, spans[0].start)
  {
    var e := spans[0];
    forall p | cursor <= p < e.start ensures !Covered(spans, p) {
      CoveredFirst(spans, p);
      NotBefore(spans[1..], e.end, p);
    }
    if Commented(text, spans, cursor, boundary, k) {
      var j :| cursor <= j < boundary && j < |text| && text[j] == '#' && Clear(spans, j, k);
      assert Covered(spans, e.start);
      assert j < e.start;
    }
    if !Plain(text, cursor, e.start) {
      var j :| cursor <= j < e.start && text[j] == '#';
      assert Clear(spans, j, k);
    }
  }

  /** Behind the first span it does not matter. */
  lemma {:induction false} GapBehind(text: string, cursor: nat, spans: seq<Edit>, boundary: nat, k: nat)
    requires Ascending(spans, cursor) && spans != [] && spans[0].start < spans[0].end <= k
    ensures Covered(spans, k) <==> Covered(spans[1..], k)
    ensures Commented(text, spans, cursor, boundary, k) <==> Commented(text, spans[1..], spans[0].end, boundary, k)
  {
    var e, rest := spans[0], spans[1..];
    CoveredFirst(spans, k);
    forall p | e.end <= p ensures Covered(spans, p) <==> Covered(rest, p) { CoveredFirst(spans, p); }
    if Commented(text, spans, cursor, boundary, k) {
      var j :| cursor <= j < boundary && j < |text| && text[j] == '#' && Clear(spans, j, k);
      assert Covered(spans, e.start) && Covered(spans, e.end - 1);
      assert e.end <= j;
      assert Clear(rest, j, k);
    }
    if Commented(text, rest, e.end, boundary, k) {
      var j :| e.end <= j < boundary && j < |text| && text[j] == '#' && Clear(rest, j, k);
      assert Clear(spans, j, k);
    }
  }

  lemma {:induction false} RowExact(text: string, cursor: nat, spans: seq<Edit>, boundary: nat, k: nat)
    requires Ascending(spans, cursor) && cursor <= k && boundary <= |text|
    requires forall i :: 0 <= i < |spans| ==> spans[i].start < spans[i].end <= boundary
    ensures RowStays(text, cursor, spans, boundary, k) <==>
              !Covered(spans, k) && (boundary <= k || Commented(text, spans, cursor, boundary, k))
    decreases |spans|
  {
    if spans == [] {
      if j :| cursor <= j < boundary && text[j] == '#' { assert Clear(spans, j, k); }
    } else if k < spans[0].start {
      GapAhead(text, cursor, spans, boundary, k);
    } else if k < spans[0].end {
      assert Covered(spans, k);
    } else {
      GapBehind(text, cursor, spans, boundary, k);
      RowExact(text, spans[0].end, spans[1..], boundary, k);
    }
  }

  // ----- over the site -----

  /** The statement's full stop, and what follows it, when the removal keeps it: with a
      `;` taken in front and nothing behind. */
  predicate Past(s: Site, seps: Separators, k: nat)
    requires Placed(s)
  {
    && seps.preceding && !seps.following && !seps.terminator
    && exists d :: 0 <= d <= k && FirstBehind(s, '.', d)
  }

  ghost predicate Taken(s: Site, seps: Separators, k: nat)
    requires Placed(s)
  {
    exists e :: Goes(s, seps, e) && e.start <= k < e.end
  }

  /** Without a token that goes in between, a comment mark stands in front of the full
      stop that is kept. */
  ghost predicate NearComment(s: Site, seps: Separators, k: nat)
    requires Placed(s)
  {
    exists j :: s.start <= j < s.end && !Past(s, seps, j) && s.text[j] == '#' && Untaken(s, seps, j, k)
  }

  ghost predicate Untaken(s: Site, seps: Separators, j: nat, k: nat)
    requires Placed(s)
  {
    forall p :: (j <= p <= k || k <= p <= j) ==> !Taken(s, seps, p)
  }

  lemma {:induction false} TakenIsCovered(s: Site, seps: Separators, spans: seq<Edit>, k: nat)
    requires Placed(s) && multiset(spans) == multiset(Tokens(s, seps))
    ensures Covered(spans, k) <==> Taken(s, seps, k)
  {
    if i :| 0 <= i < |spans| && spans[i].start <= k < spans[i].end {
      assert spans[i] in multiset(spans);
      TokensExact(s, seps, spans[i]);
    }
    if e :| Goes(s, seps, e) && e.start <= k < e.end {
      TokensExact(s, seps, e);
      assert e in multiset(spans);
      var i :| 0 <= i < |spans| && spans[i] == e;
    }
  }

  lemma {:induction false} PastExact(s: Site, seps: Separators, k: nat)
    requires Placed(s) && s.start <= k < s.end
    ensures EndBoundary(s, seps) <= k <==> Past(s, seps, k)
    ensures EndBoundary(s, seps) <= s.end
  {
    FindFirst(s.masked, '.', Last(s), s.end);
    var found := Find(s.masked, '.', Last(s), s.end);
    if found.Some? { assert FirstBehind(s, '.', found.value); }
  }

  lemma {:induction false} SpansInside(s: Site, seps: Separators, e: Edit)
    requires Placed(s) && Goes(s, seps, e)
    ensures e.start < e.end <= EndBoundary(s, seps)
  {
    FindFirst(s.masked, '.', Last(s), s.end);
    var last := s.objects[|s.objects| - 1];
    assert last.start < last.end && s.objects[0].start <= last.start;
    if e in s.objects {
      var i :| 0 <= i < |s.objects| && s.objects[i] == e;
      if i < |s.objects| - 1 { assert s.objects[i].end <= last.start; }
    }
  }

  lemma {:induction false} CommentedIs(s: Site, seps: Separators, spans: seq<Edit>, k: nat)
    requires Placed(s) && multiset(spans) == multiset(Tokens(s, seps)) && s.start <= k < s.end
    ensures Commented(s.text, spans, s.start, EndBoundary(s, seps), k) <==> NearComment(s, seps, k)
  {
    forall p: nat ensures Covered(spans, p) <==> Taken(s, seps, p) { TakenIsCovered(s, seps, spans, p); }
    PastExact(s, seps, k);
    if j :| s.start <= j < EndBoundary(s, seps) && j < |s.text| && s.text[j] == '#' && Clear(spans, j, k) {
      PastExact(s, seps, j);
    }
    if j :| s.start <= j < s.end && !Past(s, seps, j) && s.text[j] == '#' && Untaken(s, seps, j, k) {
      PastExact(s, seps, j);
      assert Clear(spans, j, k);
    }
  }

  /** A character of the match stays exactly when no token that goes covers it, and it
      is past the statement's kept end or in a gap with a comment. */
  lemma {:induction false} StaysExact(s: Site, seps: Separators, k: nat)
    requires FullySited(s) && InteriorClean(s) && Asked(s, seps) && s.start <= k < s.end
    ensures FullFlags(s, seps)[k] <==>
              !Taken(s, seps, k) && (Past(s, seps, k) || NearComment(s, seps, k))
  {
    var spans := Sort(SpanBefore, Tokens(s, seps));
    SiteRow(s, seps, spans);
    FlagsAreRow(s, seps, spans);
    SpansOf(s, seps, spans);
    PastExact(s, seps, k);
    RowExact(s.text, s.start, spans, EndBoundary(s, seps), k);
    TakenIsCovered(s, seps, spans, k);
    CommentedIs(s, seps, spans, k);
  }

  lemma {:induction false} SpansOf(s: Site, seps: Separators, spans: seq<Edit>)
    requires Placed(s) && spans == Sort(SpanBefore, Tokens(s, seps))
    ensures multiset(spans) == multiset(Tokens(s, seps))
    ensures forall i :: 0 <= i < |spans| ==> spans[i].start < spans[i].end <= EndBoundary(s, seps)
  {
    SortPermutes(SpanBefore, Tokens(s, seps));
    forall i | 0 <= i < |spans| ensures spans[i].start < spans[i].end <= EndBoundary(s, seps) {
      assert spans[i] in multiset(spans);
      TokensExact(s, seps, spans[i]);
      SpansInside(s, seps, spans[i]);
    }
  }
}
