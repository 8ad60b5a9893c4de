/** The tokens of a Turtle text and their view, told by the characters alone. */
module TurtleTokens {
  import opened TurtleMask

  /** `width` quote characters in a row. */
  predicate QuotesAt(s: string, p: nat, quote: char, width: nat) {
    p + width <= |s| && forall k :: p <= k < p + width ==> s[k] == quote
  }

  /** From one to the next unit of a literal: a character, or a backslash and the
      character behind it. */
  predicate NextUnit(s: string, a: nat, b: nat) {
    a < |s| && b == if s[a] == '\\' && a + 1 < |s| then a + 2 else a + 1
  }

  ghost predicate UnitAt(s: string, units: seq<nat>, quote: char, width: nat, j: nat) {
    j + 1 < |units| && NextUnit(s, units[j], units[j + 1]) && !QuotesAt(s, units[j], quote, width)
  }

  /** The units from `from` on, none of them the closing quotes, up to `last`. */
  ghost predicate Units(s: string, units: seq<nat>, quote: char, width: nat, from: nat, last: nat) {
    && units != [] && units[0] == from && units[|units| - 1] == last
    && forall j {:trigger UnitAt(s, units, quote, width, j)} ::
         0 <= j < |units| - 1 ==> UnitAt(s, units, quote, width, j)
  }

  ghost predicate ClosedBy(s: string, units: seq<nat>, quote: char, width: nat, from: nat, last: nat, end: nat) {
    && Units(s, units, quote, width, from, last)
    && if QuotesAt(s, last, quote, width) then end == last + width else last == |s| && end == last
  }

  /** A literal that is opened at `from` ends at `end`: behind the first unit at which
      its quotes stand again, or with the text. */
  ghost predicate LiteralSpan(s: string, quote: char, width: nat, from: nat, end: nat) {
    exists units, last: nat :: ClosedBy(s, units, quote, width, from, last, end)
  }

  function WidthAt(s: string, a: nat, quote: char): nat { if QuotesAt(s, a, quote, 3) then 3 else 1 }

  /** The token at `a` reaches to `b`: a comment to its line break, an IRI through its
      bracket, a literal through its quotes, and anything else is one character. */
  ghost predicate TokenSpan(s: string, a: nat, b: nat)
    requires a < |s|
  {
    match s[a]
    case '#' => a < b <= |s| && (forall k :: a < k < b ==> s[k] != '\n') && (b < |s| ==> s[b] == '\n')
    case '<' =>
      a < b <= |s| && (forall k :: a < k < b - 1 ==> s[k] != '>')
      && (if b < |s| then b - 1 > a && s[b - 1] == '>' else true)
    case '"' => LiteralSpan(s, '"', WidthAt(s, a, '"'), a + WidthAt(s, a, '"'), b)
    case '\'' => LiteralSpan(s, '\'', WidthAt(s, a, '\''), a + WidthAt(s, a, '\''), b)
    case _ => b == a + 1
  }

  /** What shows of the character at `k` of the token at `a`. */
  function Shown(s: string, a: nat, k: nat): char
    requires a <= k < |s|
  {
    match s[a]
    case '#' => if k == a then '#' else ' '
    case '"' => if s[k] == '\n' then '\n' else BLANK
    case '\'' => if s[k] == '\n' then '\n' else BLANK
    case _ => s[k]
  }

  // ----- every token is such a span -----

  lemma {:induction false} SameQuotes(s: string, i: nat, d: Delimiter)
    ensures QuoteAt(s, i, d) <==> QuotesAt(s, i, d.quote, d.Width())
  {
    if QuotesAt(s, i, d.quote, d.Width()) && d.triple { assert s[i + 1] == d.quote && s[i + 2] == d.quote; }
  }

  lemma {:induction false} UnitAhead(s: string, units: seq<nat>, quote: char, width: nat, from: nat, last: nat, a: nat)
    requires Units(s, units, quote, width, from, last) && NextUnit(s, a, from) && !QuotesAt(s, a, quote, width)
    ensures Units(s, [a] + units, quote, width, a, last)
  {
    var more := [a] + units;
    forall j | 0 <= j < |more| - 1 ensures UnitAt(s, more, quote, width, j) {
      if j > 0 { assert UnitAt(s, units, quote, width, j - 1); }
    }
  }

  lemma {:induction false} QuotedSpan(s: string, i: nat, d: Delimiter)
    requires i <= |s|
    ensures LiteralSpan(s, d.quote, d.Width(), i, QuotedEnd(s, i, d))
    decreases |s| - i
  {
    SameQuotes(s, i, d);
    if i == |s| || QuoteAt(s, i, d) {
      assert ClosedBy(s, [i], d.quote, d.Width(), i, i, QuotedEnd(s, i, d));
    } else {
      var next := if s[i] == '\\' && i + 1 < |s| then i + 2 else i + 1;
      QuotedSpan(s, next, d);
      var units, last: nat :| ClosedBy(s, units, d.quote, d.Width(), next, last, QuotedEnd(s, next, d));
      UnitAhead(s, units, d.quote, d.Width(), next, last, i);
      assert ClosedBy(s, [i] + units, d.quote, d.Width(), i, last, QuotedEnd(s, i, d));
    }
  }

  lemma {:induction false} TokenIsSpan(s: string, a: nat)
    requires a < |s|
    ensures TokenSpan(s, a, TokenEnd(s, a))
  {
    match KindAt(s, a)
    case Comment => CommentStops(s, a + 1);
    case Iri => IriStops(s, a + 1);
    case Literal(d) =>
      SameQuotes(s, a, Delimiter(s[a], true));
      QuotedSpan(s, a + d.Width(), d);
    case Other =>
  }

  // ----- and no token is any other -----

  lemma {:induction false} SameUnits(s: string, us: seq<nat>, vs: seq<nat>, quote: char, width: nat, from: nat,
      p: nat, q: nat, j: nat)
    requires Units(s, us, quote, width, from, p) && Units(s, vs, quote, width, from, q)
    requires j < |us| && j < |vs|
    ensures us[j] == vs[j]
  {
    if j > 0 {
      SameUnits(s, us, vs, quote, width, from, p, q, j - 1);
      assert UnitAt(s, us, quote, width, j - 1) && UnitAt(s, vs, quote, width, j - 1);
    }
  }

  lemma {:induction false} UnitInside(s: string, units: seq<nat>, quote: char, width: nat, from: nat, last: nat, j: nat)
    requires Units(s, units, quote, width, from, last) && j + 1 < |units|
    ensures units[j] < |s| && !QuotesAt(s, units[j], quote, width)
  {
    assert UnitAt(s, units, quote, width, j);
  }

  lemma {:induction false} NotLonger(s: string, us: seq<nat>, vs: seq<nat>, quote: char, width: nat, from: nat, p: nat,
      q: nat, b: nat, c: nat)
    requires ClosedBy(s, us, quote, width, from, p, b) && ClosedBy(s, vs, quote, width, from, q, c)
    ensures |vs| <= |us|
  {
    if |us| < |vs| {
      SameUnits(s, us, vs, quote, width, from, p, q, |us| - 1);
      UnitInside(s, vs, quote, width, from, q, |us| - 1);
    }
  }

  lemma {:induction false} LiteralUnique(s: string, quote: char, width: nat, from: nat, b: nat, c: nat)
    requires LiteralSpan(s, quote, width, from, b) && LiteralSpan(s, quote, width, from, c)
    ensures b == c
  {
    var us, p: nat :| ClosedBy(s, us, quote, width, from, p, b);
    var vs, q: nat :| ClosedBy(s, vs, quote, width, from, q, c);
    NotLonger(s, us, vs, quote, width, from, p, q, b, c);
    NotLonger(s, vs, us, quote, width, from, q, p, c, b);
    SameUnits(s, us, vs, quote, width, from, p, q, |us| - 1);
  }

  /** The characters determine where a token ends. */
  lemma {:induction false} SpanUnique(s: string, a: nat, b: nat, c: nat)
    requires a < |s| && TokenSpan(s, a, b) && TokenSpan(s, a, c)
    ensures b == c
  {
    if s[a] == '"' || s[a] == '\'' {
      LiteralUnique(s, s[a], WidthAt(s, a, s[a]), a + WidthAt(s, a, s[a]), b, c);
    }
  }

  // ----- the view of a whole text -----

  ghost predicate Starts(s: string, starts: seq<nat>, from: nat) {
    && starts != [] && starts[0] == from && starts[|starts| - 1] == |s|
    && forall j {:trigger TokenAt(s, starts, j)} :: 0 <= j < |starts| - 1 ==> TokenAt(s, starts, j)
  }

  ghost predicate TokenAt(s: string, starts: seq<nat>, j: nat) {
    j + 1 < |starts| && starts[j] < |s| && TokenSpan(s, starts[j], starts[j + 1])
  }

  ghost predicate ShowsToken(s: string, m: string, starts: seq<nat>, j: nat) {
    && j + 1 < |starts| && |m| == |s| && starts[j + 1] <= |s|
    && forall k :: starts[j] <= k < starts[j + 1] ==> m[k] == Shown(s, starts[j], k)
  }

  /** From any place where a token starts, the rest of the text falls into such tokens,
      and the view shows each as told. */
  lemma {:induction false} RestExact(s: string, from: nat) returns (starts: seq<nat>)
    requires Boundary(s, from)
    ensures Starts(s, starts, from)
    ensures forall j {:trigger ShowsToken(s, Mask(s), starts, j)} ::
              0 <= j < |starts| - 1 ==> ShowsToken(s, Mask(s), starts, j)
    decreases |s| - from
  {
    starts := [from];
    if from < |s| {
      var end := TokenEnd(s, from);
      NextBoundary(s, from);
      var rest := RestExact(s, end);
      starts := starts + rest;
      TokenIsSpan(s, from);
      forall k | from <= k < end ensures Mask(s)[k] == Shown(s, from, k) { TokenView(s, from, k); }
      forall j | 0 <= j < |starts| - 1
        ensures TokenAt(s, starts, j) && ShowsToken(s, Mask(s), starts, j)
      {
        if j > 0 { assert TokenAt(s, rest, j - 1) && ShowsToken(s, Mask(s), rest, j - 1); }
      }
    }
  }

  /** Every text falls into tokens, in one way only, and its view shows each as told:
      comments as spaces, literals blank but for line breaks, the rest as it is. */
  lemma {:induction false} MaskExact(s: string) returns (starts: seq<nat>)
    ensures Starts(s, starts, 0)
    ensures forall j {:trigger ShowsToken(s, Mask(s), starts, j)} ::
              0 <= j < |starts| - 1 ==> ShowsToken(s, Mask(s), starts, j)
  {
    starts := RestExact(s, 0);
  }
}
