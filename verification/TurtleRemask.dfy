/** What shows after a partial removal: the view of the new text is the old view with
    the same characters deleted, and exactly one comma shows between neighbours. */
module TurtleRemask {
  import opened Common
  import opened TurtleMask
  import opened TurtleEdits
  import opened TurtleRewrite
  import opened TurtleRemoval
  import opened TurtleView

  // ----- what a match shows -----

  /** Neither a literal nor the start of an IRI. */
  predicate GapChar(c: char) { c != BLANK && c != '<' }

  /** An object shows as an IRI: no angle bracket inside. */
  predicate ShowsIri(masked: string, o: Edit) {
    && o.start + 1 < o.end <= |masked| && masked[o.start] == '<' && masked[o.end - 1] == '>'
    && forall k :: o.start < k < o.end - 1 ==> masked[k] != '<' && masked[k] != '>'
  }

  predicate ShowsGap(masked: string, lo: nat, hi: nat) {
    lo <= hi <= |masked| && forall k :: lo <= k < hi ==> GapChar(masked[k])
  }

  predicate ObjectShows(loc: Located, l: Layout, i: nat) {
    i < |l.objects| && ShowsIri(loc.masked, l.objects[i])
  }

  predicate GapShows(loc: Located, l: Layout, i: nat) {
    i + 1 < |l.objects| && ShowsGap(loc.masked, l.objects[i].end, l.objects[i + 1].start)
  }

  /** What the patterns match in the view: objects as IRIs, with no other IRI and no
      literal between them; the first one starts a token, not right behind a literal. */
  ghost predicate Sited(loc: Located, l: Layout) {
    && WellMatched(loc, l) && loc.masked == Mask(loc.text)
    && (forall i {:trigger ObjectShows(loc, l, i)} :: 0 <= i < |l.objects| ==> ObjectShows(loc, l, i))
    && (forall i {:trigger GapShows(loc, l, i)} :: 0 <= i < |l.commas| ==> GapShows(loc, l, i))
    && Boundary(loc.text, l.objects[0].start)
    && (l.objects[0].start > 0 ==> loc.masked[l.objects[0].start - 1] != BLANK)
  }

  // ----- tokens of a match -----

  /** No token goes across the start of another. */
  lemma {:induction false} NoStraddle(s: string, at: nat, b: nat)
    requires Boundary(s, at) && Boundary(s, b) && at < b
    ensures TokenEnd(s, at) <= b
  {
    if b < TokenEnd(s, at) {
      TokenOf(s, at, b);
      TokenOf(s, b, b);
    }
  }

  lemma {:induction false} TokenOf(s: string, at: nat, k: nat)
    requires Boundary(s, at) && at <= k < |s| && k < TokenEnd(s, at)
    ensures TokenFrom(s, 0, k) == at
  {
    assert TokenFrom(s, at, k) == at;
  }

  /** What shows as an IRI at the start of a token is that token. */
  lemma {:induction false} IriToken(s: string, o: Edit)
    requires Boundary(s, o.start) && ShowsIri(Mask(s), o)
    ensures KindAt(s, o.start).Iri? && TokenEnd(s, o.start) == o.end
    ensures Boundary(s, o.end)
  {
    IriShows(s, o.start);
    SameBracket(s, Mask(s), o);
    NextBoundary(s, o.start);
  }

  /** The characters from `lo` up to `hi` show as they are. */
  ghost predicate AsTheyAre(s: string, m: string, lo: nat, hi: nat) {
    |m| == |s| && hi <= |s| && forall k :: lo <= k < hi ==> m[k] == s[k]
  }

  /** A token that shows a bracket is an IRI, and shows as it is. */
  lemma {:induction false} IriShows(s: string, at: nat)
    requires Boundary(s, at) && at < |s| && Mask(s)[at] == '<'
    ensures KindAt(s, at).Iri? && AsTheyAre(s, Mask(s), at, TokenEnd(s, at))
  {
    TokenView(s, at, at);
    forall k | at <= k < TokenEnd(s, at) ensures Mask(s)[k] == s[k] { TokenView(s, at, k); }
  }

  /** What shows as an IRI ends where the text closes its bracket first. */
  lemma {:induction false} SameBracket(s: string, m: string, o: Edit)
    requires ShowsIri(m, o) && o.start < |s| && KindAt(s, o.start).Iri?
    requires AsTheyAre(s, m, o.start, TokenEnd(s, o.start))
    ensures TokenEnd(s, o.start) == o.end
  {
    IriStops(s, o.start + 1);
  }

  /** A gap holds white space, commas and whole comments. */
  lemma {:induction false} GapTokens(s: string, lo: nat, hi: nat)
    requires Boundary(s, lo) && ShowsGap(Mask(s), lo, hi) && (Boundary(s, hi) || (hi < |s| && Mask(s)[hi] != ' '))
    ensures Boundary(s, hi)
    ensures forall at {:trigger KindAt(s, at)} :: lo <= at < hi && Boundary(s, at) ==>
              KindAt(s, at).Other? || KindAt(s, at).Comment?
    decreases hi - lo
  {
    if lo < hi {
      var end := TokenEnd(s, lo);
      TokenView(s, lo, lo);
      if Boundary(s, hi) {
        NoStraddle(s, lo, hi);
      } else if hi < end {
        TokenView(s, lo, hi);
      }
      NextBoundary(s, lo);
      GapTokens(s, end, hi);
      forall at | lo < at < hi && Boundary(s, at) ensures end <= at { NoStraddle(s, lo, at); }
    }
  }

  /** Behind a gap an object is a token. */
  lemma {:induction false} NextToken(s: string, lo: nat, o: Edit)
    requires Boundary(s, lo) && ShowsGap(Mask(s), lo, o.start) && ShowsIri(Mask(s), o)
    ensures Boundary(s, o.start) && IsToken(s, o)
  {
    GapTokens(s, lo, o.start);
    IriToken(s, o);
  }

  ghost predicate IsToken(s: string, o: Edit) {
    && o.start < |s| && KindAt(s, o.start).Iri? && TokenEnd(s, o.start) == o.end
    && Boundary(s, o.start) && Boundary(s, o.end)
  }

  /** An object, and the gap in front of it, as they show. */
  predicate SeenAt(s: string, objects: seq<Edit>, i: nat)
    requires i < |objects|
  {
    ShowsIri(Mask(s), objects[i]) && (i > 0 ==> ShowsGap(Mask(s), objects[i - 1].end, objects[i].start))
  }

  lemma {:induction false} ListTokens(s: string, objects: seq<Edit>, i: nat)
    requires i < |objects| && Boundary(s, objects[0].start)
    requires forall j {:trigger SeenAt(s, objects, j)} :: 0 <= j <= i ==> SeenAt(s, objects, j)
    ensures IsToken(s, objects[i])
  {
    assert SeenAt(s, objects, i);
    if i > 0 {
      ListTokens(s, objects, i - 1);
      NextToken(s, objects[i - 1].end, objects[i]);
    } else {
      IriToken(s, objects[0]);
    }
  }

  /** Objects are tokens. */
  lemma {:induction false} ObjectToken(loc: Located, l: Layout, i: nat)
    requires Sited(loc, l) && i < |l.objects|
    ensures ShowsIri(Mask(loc.text), l.objects[i]) && IsToken(loc.text, l.objects[i])
  {
    forall j | 0 <= j <= i ensures SeenAt(loc.text, l.objects, j) {
      assert ObjectShows(loc, l, j);
      if j > 0 { assert GapShows(loc, l, j - 1); }
    }
    assert SeenAt(loc.text, l.objects, i);
    ListTokens(loc.text, l.objects, i);
  }

  // ----- whole tokens go -----

  /** A comment never ends where a visible character other than a line break stands. */
  lemma {:induction false} CommentBefore(s: string, at: nat)
    requires Boundary(s, at) && at < |s| && KindAt(s, at).Comment? && TokenEnd(s, at) < |s|
    ensures Mask(s)[TokenEnd(s, at)] == '\n'
  {
    CommentStops(s, at + 1);
    MaskKeeps(s, TokenEnd(s, at));
  }

  /** In front of the list no literal ends. */
  lemma {:induction false} CutsBefore(s: string, stay: seq<bool>, lo: nat, at: nat)
    requires |stay| == |s| && Boundary(s, at) && Boundary(s, lo) && at < lo < |s|
    requires Mask(s)[lo] == '<' && Mask(s)[lo - 1] != BLANK && forall k :: 0 <= k < lo ==> stay[k]
    ensures CutsToken(s, stay, at)
  {
    var end := TokenEnd(s, at);
    NoStraddle(s, at, lo);
    if end == lo {
      TokenView(s, at, end - 1);
      if KindAt(s, at).Comment? { CommentBefore(s, at); }
      if KindAt(s, at).Literal? { LiteralLast(s, at); }
    }
  }

  lemma {:induction false} LiteralLast(s: string, at: nat)
    requires at < |s| && KindAt(s, at).Literal? && TokenEnd(s, at) < |s|
    ensures Blanked(s[TokenEnd(s, at) - 1]) == BLANK
  {
    var d := KindAt(s, at).opening;
    QuotedWide(s, at + d.Width(), d);
  }

  lemma {:induction false} CutsObject(s: string, stay: seq<bool>, o: Edit, at: nat)
    requires |stay| == |s| && IsToken(s, o) && o.start <= at < o.end && Boundary(s, at)
    requires forall k :: o.start <= k < o.end ==> stay[k] == stay[o.start]
    ensures CutsToken(s, stay, at)
  {
    if o.start < at { NoStraddle(s, o.start, at); }
  }

  lemma {:induction false} CutsGap(s: string, stay: seq<bool>, lo: nat, comma: nat, hi: nat, drops: bool,
      dropsGap: bool, at: nat)
    requires |stay| == |s| && Boundary(s, lo) && Boundary(s, at) && lo <= at < hi < |s| && lo <= comma < hi
    requires ShowsGap(Mask(s), lo, hi) && Mask(s)[hi] == '<' && Mask(s)[comma] == ','
    requires forall k :: lo <= k < hi ==> (stay[k] <==> GapStays(s, comma, hi, drops, dropsGap, k))
    ensures CutsToken(s, stay, at)
  {
    GapTokens(s, lo, hi);
    NoStraddle(s, at, hi);
    if KindAt(s, at).Comment? { CommentStaysWhole(s, at, comma, hi); }
  }

  /** A comment in a gap does not touch the comma, and keeps the gap behind it. */
  lemma {:induction false} CommentStaysWhole(s: string, at: nat, comma: nat, next: nat)
    requires Boundary(s, at) && at < |s| && KindAt(s, at).Comment? && TokenEnd(s, at) <= next < |s| && comma < next
    requires Mask(s)[next] == '<' && Mask(s)[comma] == ','
    ensures TokenEnd(s, at) < next
    ensures TokenEnd(s, at) < comma || (at > comma && !Plain(s, comma + 1, next))
  {
    var end := TokenEnd(s, at);
    CommentBefore(s, at);
    if at <= comma < end { TokenView(s, at, comma); }
  }

  lemma {:induction false} CutsInside(loc: Located, l: Layout, removed: seq<bool>, stay: seq<bool>, at: nat)
    requires Sited(loc, l) && |l.objects| == |removed| && stay == KeptFlags(l, removed)
    requires Boundary(loc.text, at) && l.objects[0].start <= at < l.objects[|removed| - 1].end
    ensures at < |loc.text| && CutsToken(loc.text, stay, at)
  {
    var i := PlaceOf(l, at, |removed|);
    if l.objects[i].start <= at {
      CutsAt(loc, l, removed, stay, i, at);
    } else {
      CutsBetween(loc, l, removed, stay, i - 1, at);
    }
  }

  lemma {:induction false} CutsAt(loc: Located, l: Layout, removed: seq<bool>, stay: seq<bool>, i: nat, at: nat)
    requires Sited(loc, l) && i < |l.objects| == |removed| && stay == KeptFlags(l, removed)
    requires Boundary(loc.text, at) && l.objects[i].start <= at < l.objects[i].end
    ensures at < |loc.text| && CutsToken(loc.text, stay, at)
  {
    var o := l.objects[i];
    ObjectToken(loc, l, i);
    forall k | o.start <= k < o.end ensures stay[k] == !removed[i] {
      StaysInObject(l, removed, i, k);
      PiecesKeep(l, removed, k);
    }
    CutsObject(loc.text, stay, o, at);
  }

  lemma {:induction false} CutsBetween(loc: Located, l: Layout, removed: seq<bool>, stay: seq<bool>, i: nat, at: nat)
    requires Sited(loc, l) && i + 1 < |l.objects| == |removed| && stay == KeptFlags(l, removed)
    requires Boundary(loc.text, at) && l.objects[i].end <= at < l.objects[i + 1].start
    ensures at < |loc.text| && CutsToken(loc.text, stay, at)
  {
    var lo, comma, hi := l.objects[i].end, l.commas[i], l.objects[i + 1].start;
    ObjectToken(loc, l, i);
    ObjectToken(loc, l, i + 1);
    assert GapShows(loc, l, i) && OnlyComma(loc.masked, comma, lo, hi);
    forall k | lo <= k < hi
      ensures stay[k] <==> GapStays(loc.text, comma, hi, DropsComma(removed, i), DropsGap(removed, i), k)
    {
      StaysInGap(l, removed, i, k);
      PiecesKeep(l, removed, k);
    }
    CutsGap(loc.text, stay, lo, comma, hi, DropsComma(removed, i), DropsGap(removed, i), at);
  }

  /** Partial removal deletes whole tokens. */
  lemma {:induction false} PartialCuts(loc: Located, l: Layout, removed: seq<bool>)
    requires Sited(loc, l) && |removed| == |l.objects|
    ensures CutsTokens(loc.text, KeptFlags(l, removed))
  {
    var s, stay := loc.text, KeptFlags(l, removed);
    var lo, hi := l.objects[0].start, l.objects[|removed| - 1].end;
    forall k | 0 <= k < |s| && (k < lo || hi <= k) ensures stay[k] {
      StaysElsewhere(l, removed, k);
      PiecesKeep(l, removed, k);
    }
    ObjectToken(loc, l, 0);
    forall at | 0 <= at < |s| && Boundary(s, at) ensures CutsToken(s, stay, at) {
      if at < lo {
        CutsBefore(s, stay, lo, at);
      } else if at < hi {
        CutsInside(loc, l, removed, stay, at);
      }
    }
  }

  // ----- the rewritten document -----

  /** The document after the partial removal. */
  ghost function Rewritten(loc: Located, l: Layout, removed: seq<bool>): string
    requires WellMatched(loc, l) && |removed| == |l.objects|
  {
    loc.text[..loc.start] + Left(loc.text, KeptFlags(l, removed), loc.start, loc.end) + loc.text[loc.end..]
  }

  lemma {:induction false} RewrittenIsLeft(loc: Located, l: Layout, removed: seq<bool>)
    requires WellMatched(loc, l) && |removed| == |l.objects|
    ensures Rewritten(loc, l, removed) == Left(loc.text, KeptFlags(l, removed), 0, |loc.text|)
  {
    var s, stay := loc.text, KeptFlags(l, removed);
    var lo, hi := l.objects[0].start, l.objects[|removed| - 1].end;
    assert loc.start <= lo && hi <= loc.end;
    forall k | 0 <= k < |s| && (k < lo || hi <= k) ensures stay[k] {
      StaysElsewhere(l, removed, k);
      PiecesKeep(l, removed, k);
    }
    LeftAll(s, stay, 0, loc.start);
    LeftAll(s, stay, loc.end, |s|);
    LeftSum(s, stay, 0, loc.start, |s|);
    LeftSum(s, stay, loc.start, loc.end, |s|);
    Associates(s[..loc.start], Left(s, stay, loc.start, loc.end), s[loc.end..]);
  }

  /** Masking the rewritten document gives the view with the same characters deleted. */
  lemma {:induction false} RewrittenView(loc: Located, l: Layout, removed: seq<bool>)
    requires Sited(loc, l) && |removed| == |l.objects|
    ensures Mask(Rewritten(loc, l, removed))
         == Left(loc.masked, KeptFlags(l, removed), 0, |loc.text|)
  {
    RewrittenIsLeft(loc, l, removed);
    PartialCuts(loc, l, removed);
    MaskOfLeft(loc.text, KeptFlags(l, removed));
  }

  // ----- the commas that show -----

  function CommasIn(s: string): nat {
    if s == [] then 0 else CommasIn(s[..|s| - 1]) + if s[|s| - 1] == ',' then 1 else 0
  }

  lemma {:induction false} CommasSum(a: string, b: string)
    ensures CommasIn(a + b) == CommasIn(a) + CommasIn(b)
    decreases |b|
  {
    if b == [] {
      assert a + b == a;
    } else {
      CommasSum(a, b[..|b| - 1]);
      assert (a + b)[..|a + b| - 1] == a + b[..|b| - 1];
    }
  }

  lemma {:induction false} NoCommas(s: string, stay: seq<bool>, lo: nat, hi: nat)
    requires lo <= hi <= |s| == |stay| && forall k :: lo <= k < hi ==> s[k] != ','
    ensures CommasIn(Left(s, stay, lo, hi)) == 0
    decreases hi
  {
    if lo < hi {
      NoCommas(s, stay, lo, hi - 1);
      CommasSum(Left(s, stay, lo, hi - 1), if stay[hi - 1] then [s[hi - 1]] else "");
    }
  }

  lemma {:induction false} CommasSplit(s: string, stay: seq<bool>, lo: nat, mid: nat, hi: nat)
    requires lo <= mid <= hi <= |s| == |stay|
    ensures CommasIn(Left(s, stay, lo, hi)) == CommasIn(Left(s, stay, lo, mid)) + CommasIn(Left(s, stay, mid, hi))
  {
    LeftSum(s, stay, lo, mid, hi);
    CommasSum(Left(s, stay, lo, mid), Left(s, stay, mid, hi));
  }

  /** A stretch with one comma shows it exactly when it stays. */
  lemma {:induction false} CommaShown(s: string, stay: seq<bool>, here: nat, comma: nat, next: nat)
    requires here <= comma < next <= |s| == |stay| && OnlyComma(s, comma, here, next)
    ensures CommasIn(Left(s, stay, here, next)) == if stay[comma] then 1 else 0
  {
    CommasSplit(s, stay, here, comma, next);
    CommasSplit(s, stay, comma, comma + 1, next);
    NoCommas(s, stay, here, comma);
    NoCommas(s, stay, comma + 1, next);
    assert Left(s, stay, comma, comma) == "" && Left(s, stay, comma, comma + 1) == if stay[comma] then [s[comma]]
        else "";
    assert CommasIn(",") == CommasIn("") + 1;
  }

  /** What a gap and an object show: a gap its comma, exactly when that is not dropped,
      and a removed object nothing. */
  ghost predicate PlaceShows(view: string, stay: seq<bool>, l: Layout, removed: seq<bool>, i: nat)
    requires |view| == |stay| && |removed| == |l.objects|
  {
    && (i < |l.objects| ==> l.objects[i].start <= l.objects[i].end <= |view|)
    && (i < |l.objects| && removed[i] ==> Left(view, stay, l.objects[i].start, l.objects[i].end) == "")
    && (i + 1 < |l.objects| ==>
          && l.objects[i].end <= l.objects[i + 1].start <= |view|
          && CommasIn(Left(view, stay, l.objects[i].end, l.objects[i + 1].start)) == if DropsComma(removed, i) then 0
              else 1)
  }

  ghost predicate PlacesShow(view: string, stay: seq<bool>, l: Layout, removed: seq<bool>) {
    && |view| == |stay| && |removed| == |l.objects| > 0
    && forall i {:trigger PlaceShows(view, stay, l, removed, i)} :: 0 <= i < |removed| ==>
        PlaceShows(view, stay, l, removed, i)
  }

  lemma {:induction false} GapShown(loc: Located, l: Layout, removed: seq<bool>, stay: seq<bool>, i: nat)
    requires WellMatched(loc, l) && i + 1 < |l.objects| == |removed|
    requires stay == KeptFlags(l, removed)
    ensures l.objects[i].end <= l.objects[i + 1].start <= |loc.masked|
    ensures CommasIn(Left(loc.masked, stay, l.objects[i].end, l.objects[i + 1].start))
         == if DropsComma(removed, i) then 0 else 1
  {
    assert OnlyComma(loc.masked, l.commas[i], l.objects[i].end, l.objects[i + 1].start);
    StaysInGap(l, removed, i, l.commas[i]);
    PiecesKeep(l, removed, l.commas[i]);
    CommaShown(loc.masked, stay, l.objects[i].end, l.commas[i], l.objects[i + 1].start);
  }

  lemma {:induction false} RemovedShowsNothing(loc: Located, l: Layout, removed: seq<bool>, stay: seq<bool>, i: nat)
    requires WellMatched(loc, l) && i < |l.objects| == |removed|
    requires stay == KeptFlags(l, removed)
    ensures l.objects[i].start <= l.objects[i].end <= |loc.masked|
    ensures removed[i] ==> Left(loc.masked, stay, l.objects[i].start, l.objects[i].end) == ""
  {
    var o := l.objects[i];
    if removed[i] {
      forall k | o.start <= k < o.end ensures !stay[k] {
      StaysInObject(l, removed, i, k);
      PiecesKeep(l, removed, k);
    }
      LeftNone(loc.masked, stay, o.start, o.end);
    }
  }

  lemma {:induction false} AllPlacesShow(loc: Located, l: Layout, removed: seq<bool>, stay: seq<bool>)
    requires WellMatched(loc, l) && |l.objects| == |removed|
    requires stay == KeptFlags(l, removed)
    ensures PlacesShow(loc.masked, stay, l, removed)
  {
    forall i | 0 <= i < |removed| ensures PlaceShows(loc.masked, stay, l, removed, i) {
      RemovedShowsNothing(loc, l, removed, stay, i);
      if i + 1 < |removed| { GapShown(loc, l, removed, stay, i); }
    }
  }

  /** A stretch, then nothing, then a stretch. */
  lemma {:induction false} AroundNothing(s: string, stay: seq<bool>, lo: nat, a: nat, b: nat, hi: nat)
    requires lo <= a <= b <= hi <= |s| == |stay| && Left(s, stay, a, b) == ""
    ensures CommasIn(Left(s, stay, lo, hi)) == CommasIn(Left(s, stay, lo, a)) + CommasIn(Left(s, stay, b, hi))
  {
    CommasSplit(s, stay, lo, a, hi);
    CommasSplit(s, stay, a, b, hi);
  }

  /** Behind object `a`, up to object `b`, the commas of the gaps that keep theirs show. */
  lemma {:induction false} ShownBetween(view: string, stay: seq<bool>, l: Layout, removed: seq<bool>, a: nat, b: nat)
    requires PlacesShow(view, stay, l, removed) && a < b < |removed| && forall i :: a < i < b ==> removed[i]
    ensures l.objects[a].end <= l.objects[b].start <= |view|
    ensures CommasIn(Left(view, stay, l.objects[a].end, l.objects[b].start)) == KeptCommas(removed, a, b)
    decreases b
  {
    assert PlaceShows(view, stay, l, removed, b - 1) && PlaceShows(view, stay, l, removed, b);
    if a < b - 1 {
      ShownBetween(view, stay, l, removed, a, b - 1);
      AroundNothing(view, stay, l.objects[a].end, l.objects[b - 1].start, l.objects[b - 1].end, l.objects[b].start);
    } else {
      assert KeptCommas(removed, a, a) == 0;
    }
  }

  lemma {:induction false} NothingInFront(view: string, stay: seq<bool>, l: Layout, removed: seq<bool>, a: nat)
    requires PlacesShow(view, stay, l, removed) && a < |removed| && !removed[a] && forall i :: 0 <= i < a ==> removed[i]
    ensures l.objects[0].start <= l.objects[a].start <= |view|
    ensures CommasIn(Left(view, stay, l.objects[0].start, l.objects[a].start)) == 0
  {
    assert PlaceShows(view, stay, l, removed, 0);
    if a > 0 {
      forall i | 0 <= i < a ensures Leading(removed, i) {}
      NoCommaThrough(removed, 0, a);
      ShownBetween(view, stay, l, removed, 0, a);
      CommasSplit(view, stay, l.objects[0].start, l.objects[0].end, l.objects[a].start);
    }
  }

  lemma {:induction false} NothingBehind(view: string, stay: seq<bool>, l: Layout, removed: seq<bool>, b: nat)
    requires PlacesShow(view, stay, l, removed) && b < |removed| && forall i :: b < i < |removed| ==> removed[i]
    ensures l.objects[b].end <= l.objects[|removed| - 1].end <= |view|
    ensures CommasIn(Left(view, stay, l.objects[b].end, l.objects[|removed| - 1].end)) == 0
  {
    var n := |removed| - 1;
    assert PlaceShows(view, stay, l, removed, n);
    if b < n {
      NoCommaThrough(removed, b, n);
      ShownBetween(view, stay, l, removed, b, n);
      CommasSplit(view, stay, l.objects[b].end, l.objects[n].start, l.objects[n].end);
    }
  }

  /** A stretch of what is left, found by the number of characters in front of it. */
  function Stretch(view: string, stay: seq<bool>, lo: nat, hi: nat): string
    requires lo <= hi <= |stay| && Count(stay, |stay|) == |view|
  {
    CountMono(stay, lo, hi);
    CountMono(stay, hi, |stay|);
    view[Count(stay, lo)..Count(stay, hi)]
  }

  lemma {:induction false} StretchIs(s: string, stay: seq<bool>, lo: nat, hi: nat)
    requires lo <= hi <= |s| == |stay|
    ensures Count(stay, |s|) == |Left(s, stay, 0, |s|)|
    ensures Stretch(Left(s, stay, 0, |s|), stay, lo, hi) == Left(s, stay, lo, hi)
  {
    LeftSum(s, stay, 0, lo, |s|);
    LeftSum(s, stay, lo, hi, |s|);
    LeftSum(s, stay, 0, lo, hi);
    LeftLength(s, stay, lo);
    LeftLength(s, stay, hi);
    LeftLength(s, stay, |s|);
  }

  /** Between kept neighbours exactly one comma shows in the rewritten document. */
  lemma {:induction false} OneCommaShown(loc: Located, l: Layout, removed: seq<bool>, a: nat, b: nat)
    requires Sited(loc, l) && a < b < |l.objects| == |removed|
    requires !removed[a] && !removed[b] && forall i :: a < i < b ==> removed[i]
    ensures var view, stay := Mask(Rewritten(loc, l, removed)), KeptFlags(l, removed);
            && l.objects[a].end <= l.objects[b].start <= |stay| && Count(stay, |stay|) == |view|
            && CommasIn(Stretch(view, stay, l.objects[a].end, l.objects[b].start)) == 1
  {
    var stay := KeptFlags(l, removed);
    OneCommaBetween(removed, a, b);
    AllPlacesShow(loc, l, removed, stay);
    ShownBetween(loc.masked, stay, l, removed, a, b);
    RewrittenView(loc, l, removed);
    StretchIs(loc.masked, stay, l.objects[a].end, l.objects[b].start);
  }

  /** None shows between the start of the list and the first kept object, nor between
      the last and the end. */
  lemma {:induction false} NoCommaShownOutside(loc: Located, l: Layout, removed: seq<bool>, a: nat, b: nat)
    requires Sited(loc, l) && a <= b < |l.objects| == |removed| && !removed[a] && !removed[b]
    requires (forall i :: 0 <= i < a ==> removed[i]) && (forall i :: b < i < |removed| ==> removed[i])
    ensures var view, stay := Mask(Rewritten(loc, l, removed)), KeptFlags(l, removed);
            var last := l.objects[|removed| - 1].end;
            && l.objects[0].start <= l.objects[a].start <= |stay| && l.objects[b].end <= last <= |stay|
            && Count(stay, |stay|) == |view|
            && CommasIn(Stretch(view, stay, l.objects[0].start, l.objects[a].start)) == 0
            && CommasIn(Stretch(view, stay, l.objects[b].end, last)) == 0
  {
    var stay := KeptFlags(l, removed);
    AllPlacesShow(loc, l, removed, stay);
    NothingInFront(loc.masked, stay, l, removed, a);
    NothingBehind(loc.masked, stay, l, removed, b);
    RewrittenView(loc, l, removed);
    StretchIs(loc.masked, stay, l.objects[0].start, l.objects[a].start);
    StretchIs(loc.masked, stay, l.objects[b].end, l.objects[|removed| - 1].end);
  }
}
