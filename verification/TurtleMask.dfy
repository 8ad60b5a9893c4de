/** The position-preserving lexical view of a Turtle text: comments and quoted
    literals are blanked, everything else stays where it is. */
module TurtleMask {
  const BLANK: char := '\0'

  // ----- tokens, by position -----

  /** Up to, but not including, the end of the line. */
  function CommentEnd(s: string, i: nat): (end: nat)
    requires i <= |s|
    ensures i <= end <= |s|
    decreases |s| - i
  {
    if i == |s| || s[i] == '\n' then i else CommentEnd(s, i + 1)
  }

  /** Through the closing `>`, or to the end. */
  function IriEnd(s: string, i: nat): (end: nat)
    requires i <= |s|
    ensures i <= end <= |s|
    decreases |s| - i
  {
    if i == |s| then i else if s[i] == '>' then i + 1 else IriEnd(s, i + 1)
  }

  /** One quote character, or three of them. */
  datatype Delimiter = Delimiter(quote: char, triple: bool) {
    function Width(): nat { if triple then 3 else 1 }
  }

  predicate QuoteAt(s: string, i: nat, d: Delimiter) {
    i + d.Width() <= |s| && s[i] == d.quote && (d.triple ==> s[i + 1] == d.quote && s[i + 2] == d.quote)
  }

  /** Through the closing delimiter, or to the end; a backslash takes the next
      character with it. */
  function QuotedEnd(s: string, i: nat, d: Delimiter): (end: nat)
    requires i <= |s|
    ensures i <= end <= |s|
    decreases |s| - i
  {
    if i == |s| then i
    else if QuoteAt(s, i, d) then i + d.Width()
    else if s[i] == '\\' && i + 1 < |s| then QuotedEnd(s, i + 2, d)
    else QuotedEnd(s, i + 1, d)
  }

  datatype Kind = Comment | Iri | Literal(opening: Delimiter) | Other

  function KindAt(s: string, i: nat): (kind: Kind)
    requires i < |s|
    ensures kind.Literal? ==> QuoteAt(s, i, kind.opening)
  {
    if s[i] == '#' then Comment
    else if s[i] == '<' then Iri
    else if s[i] != '"' && s[i] != '\'' then Other
    else Literal(Delimiter(s[i], QuoteAt(s, i, Delimiter(s[i], true))))
  }

  function TokenEnd(s: string, i: nat): (end: nat)
    requires i < |s|
    ensures i < end <= |s|
  {
    match KindAt(s, i)
    case Comment => CommentEnd(s, i + 1)
    case Iri => IriEnd(s, i + 1)
    case Literal(d) => QuotedEnd(s, i + d.Width(), d)
    case Other => i + 1
  }

  /** Where the token that covers position `k` starts, when one starts at `at`. */
  function TokenFrom(s: string, at: nat, k: nat): (start: nat)
    requires at <= k < |s|
    ensures at <= start <= k < TokenEnd(s, start)
    decreases |s| - at
  {
    if k < TokenEnd(s, at) then at else TokenFrom(s, TokenEnd(s, at), k)
  }

  // ----- the view -----

  function Blanked(c: char): char { if c == '\n' then c else BLANK }

  /** One character of the view, by the token that covers it. */
  function View(s: string, start: nat, k: nat): char
    requires start <= k < |s|
  {
    match KindAt(s, start)
    case Comment => if k == start then s[k] else ' '
    case Literal(_) => Blanked(s[k])
    case _ => s[k]
  }

  /** The view of a whole text. */
  function Mask(s: string): (m: string)
    ensures |m| == |s|
    ensures forall k :: 0 <= k < |s| ==> m[k] == View(s, TokenFrom(s, 0, k), k)
  {
    seq(|s|, k requires 0 <= k < |s| => View(s, TokenFrom(s, 0, k), k))
  }

  /** A comment stops at the first line break. */
  lemma {:induction false} CommentStops(s: string, i: nat)
    requires i <= |s|
    ensures forall k :: i <= k < CommentEnd(s, i) ==> s[k] != '\n'
    ensures CommentEnd(s, i) < |s| ==> s[CommentEnd(s, i)] == '\n'
    decreases |s| - i
  {
    if i < |s| && s[i] != '\n' { CommentStops(s, i + 1); }
  }

  /** An IRI stops at the first closing bracket. */
  lemma {:induction false} IriStops(s: string, i: nat)
    requires i <= |s|
    ensures forall k :: i <= k < IriEnd(s, i) - 1 ==> s[k] != '>'
    ensures IriEnd(s, i) == |s| || (IriEnd(s, i) > i && s[IriEnd(s, i) - 1] == '>')
    decreases |s| - i
  {
    if i < |s| && s[i] != '>' { IriStops(s, i + 1); }
  }

  /** Line breaks stay, none appear, and a character changes only inside a
      comment, behind its `#`, or inside a quoted literal, where nothing but line
      breaks stays visible. */
  lemma {:induction false} MaskKeeps(s: string, k: nat)
    requires k < |s|
    ensures Mask(s)[k] == '\n' <==> s[k] == '\n'
    ensures var start := TokenFrom(s, 0, k);
            && (Mask(s)[k] != s[k] ==> KindAt(s, start).Literal? || (KindAt(s, start).Comment? && k > start))
            && (KindAt(s, start).Literal? && s[k] != '\n' ==> Mask(s)[k] == BLANK)
  {
    var start := TokenFrom(s, 0, k);
    if KindAt(s, start).Comment? && k > start { CommentStops(s, start + 1); }
  }

  // ----- where tokens start -----

  /** A token starts at `at`, or the text ends there. */
  ghost predicate Boundary(s: string, at: nat) {
    at <= |s| && forall k {:trigger TokenFrom(s, at, k)} :: at <= k < |s| ==> TokenFrom(s, 0, k) == TokenFrom(s, at, k)
  }

  lemma {:induction false} NextBoundary(s: string, at: nat)
    requires Boundary(s, at) && at < |s|
    ensures Boundary(s, TokenEnd(s, at))
  {
    var next := TokenEnd(s, at);
    forall k | next <= k < |s| ensures TokenFrom(s, 0, k) == TokenFrom(s, next, k) {
      assert TokenFrom(s, at, k) == TokenFrom(s, next, k);
    }
  }

  lemma {:induction false} TokenView(s: string, at: nat, k: nat)
    requires Boundary(s, at) && at <= k < |s| && k < TokenEnd(s, at)
    ensures Mask(s)[k] == View(s, at, k)
  {
    assert TokenFrom(s, at, k) == at;
  }

  // ----- masking again changes nothing -----

  /** A comment of the view ends where it ended in the text. */
  lemma {:induction false} SpacesEnd(m: string, i: nat, end: nat)
    requires i <= end <= |m| && (forall k :: i <= k < end ==> m[k] != '\n') && (end < |m| ==> m[end] == '\n')
    ensures CommentEnd(m, i) == end
    decreases end - i
  {
    if i < end { SpacesEnd(m, i + 1, end); }
  }

  lemma {:induction false} SameIri(s: string, m: string, i: nat)
    requires i <= |s| == |m| && forall k :: i <= k < IriEnd(s, i) ==> m[k] == s[k]
    ensures IriEnd(m, i) == IriEnd(s, i)
    decreases |s| - i
  {
    if i < |s| && s[i] != '>' { SameIri(s, m, i + 1); }
  }

  /** Blanked characters and line breaks are tokens of their own. */
  lemma {:induction false} BlanksAlone(m: string, at: nat, end: nat, k: nat)
    requires at <= end <= |m| && at <= k < |m| && forall p :: at <= p < end ==> m[p] == BLANK || m[p] == '\n'
    ensures if k < end then TokenFrom(m, at, k) == k && View(m, k, k) == m[k]
            else TokenFrom(m, at, k) == TokenFrom(m, end, k)
    decreases end - at
  {
    if at < end {
      assert KindAt(m, at) == Other;
      if k > at { BlanksAlone(m, at + 1, end, k); }
    }
  }

  /** A token that is not a literal keeps its kind and its end. */
  lemma {:induction false} SameToken(s: string, m: string, at: nat)
    requires m == Mask(s) && Boundary(s, at) && at < |s| && !KindAt(s, at).Literal?
    ensures KindAt(m, at) == KindAt(s, at) && TokenEnd(m, at) == TokenEnd(s, at)
  {
    var end := TokenEnd(s, at);
    forall k | at <= k < end ensures m[k] == View(s, at, k) { TokenView(s, at, k); }
    if KindAt(s, at).Comment? {
      CommentStops(s, at + 1);
      if end < |s| { MaskKeeps(s, end); }
      SpacesEnd(m, at + 1, end);
    } else if KindAt(s, at).Iri? {
      SameIri(s, m, at + 1);
    }
  }

  lemma {:induction false} MaskStill(s: string, m: string, at: nat, k: nat)
    requires m == Mask(s) && Boundary(s, at) && at <= k < |s|
    ensures View(m, TokenFrom(m, at, k), k) == m[k]
    decreases |s| - at
  {
    var end := TokenEnd(s, at);
    if k >= end {
      NextBoundary(s, at);
      MaskStill(s, m, end, k);
    }
    if KindAt(s, at).Literal? {
      forall p | at <= p < end ensures m[p] == BLANK || m[p] == '\n' { TokenView(s, at, p); }
      BlanksAlone(m, at, end, k);
    } else {
      SameToken(s, m, at);
      if k < end { TokenView(s, at, k); }
    }
  }

  lemma {:induction false} MaskIdempotent(s: string)
    ensures Mask(Mask(s)) == Mask(s)
  {
    var m := Mask(s);
    forall k | 0 <= k < |s| ensures Mask(m)[k] == m[k] { MaskStill(s, m, 0, k); }
  }

  // ----- the scanner, writing over a character list in place -----

  method MaskComment(text: string, masked: array<char>, start: nat) returns (index: nat)
    requires masked.Length == |text| && start < |text|
    modifies masked
    ensures index == CommentEnd(text, start + 1)
    ensures forall k :: 0 <= k < |text| ==> masked[k] == if start < k < index then ' ' else old(masked[k])
  {
    index := start + 1;
    while index < |text| && text[index] != '\n'
      invariant start < index <= |text| && CommentEnd(text, index) == CommentEnd(text, start + 1)
      invariant forall k :: 0 <= k < |text| ==> masked[k] == if start < k < index then ' ' else old(masked[k])
    {
      masked[index] := ' ';
      index := index + 1;
    }
  }

  method SkipIri(text: string, start: nat) returns (index: nat)
    requires start < |text|
    ensures index == IriEnd(text, start + 1)
  {
    index := start + 1;
    while index < |text|
      invariant start < index <= |text| && IriEnd(text, index) == IriEnd(text, start + 1)
    {
      if text[index] == '>' { return index + 1; }
      index := index + 1;
    }
  }

  /** Blank the characters from `start` up to `end`. */
  method BlankRange(text: string, masked: array<char>, start: nat, end: nat)
    requires masked.Length == |text| && start <= end <= |text|
    modifies masked
    ensures Erased(text, old(masked[..]), masked[..], start, end)
  {
    for index := start to end
      invariant forall k :: 0 <= k < |text| ==>
        masked[k] == if start <= k < index && text[k] != '\n' then BLANK else old(masked[k])
    {
      if text[index] != '\n' { masked[index] := BLANK; }
    }
  }

  /** The characters from `start` up to `end` blanked. */
  predicate Erased(text: string, before: seq<char>, after: seq<char>, start: nat, end: nat) {
    && |before| == |after| == |text|
    && forall k :: 0 <= k < |text| ==> after[k] == if start <= k < end then Erase(text[k], before[k]) else before[k]
  }

  function Erase(c: char, was: char): char { if c != '\n' then BLANK else was }

  lemma {:induction false} ErasedOn(text: string, before: string, mid: string, after: string, start: nat, index: nat,
      end: nat)
    requires start <= index <= end && Erased(text, before, mid, start, index) && Erased(text, mid, after, index, end)
    ensures Erased(text, before, after, start, end)
  {
  }

  method MaskLiteral(text: string, masked: array<char>, start: nat, d: Delimiter) returns (index: nat)
    requires masked.Length == |text| && QuoteAt(text, start, d)
    modifies masked
    ensures index == QuotedEnd(text, start + d.Width(), d)
    ensures Erased(text, old(masked[..]), masked[..], start, index)
  {
    ghost var before := masked[..];
    var width := d.Width();
    BlankRange(text, masked, start, start + width);
    index := start + width;
    while index < |text|
      invariant start + width <= index <= |text| && QuotedEnd(text, index, d) == QuotedEnd(text, start + width, d)
      invariant Erased(text, before, masked[..], start, index)
    {
      ghost var mid := masked[..];
      var closes := QuoteAt(text, index, d);
      var next := index + if closes then width else if text[index] == '\\' && index + 1 < |text| then 2 else 1;
      BlankRange(text, masked, index, next);
      ErasedOn(text, before, mid, masked[..], start, index, next);
      index := next;
      if closes { return index; }
    }
  }

  /** The token at `start` is replaced by its view, and nothing else changes. */
  ghost predicate Rewritten(text: string, before: string, after: string, start: nat)
    requires start < |text|
  {
    && |before| == |after| == |text|
    && forall k :: 0 <= k < |text| ==>
         after[k] == if start <= k < TokenEnd(text, start) then View(text, start, k) else before[k]
  }

  /** `_scan`: one token. */
  method Scan(text: string, masked: array<char>, start: nat) returns (index: nat)
    requires masked.Length == |text| && start < |text|
    requires forall k :: start <= k < |text| ==> masked[k] == text[k]
    modifies masked
    ensures index == TokenEnd(text, start)
    ensures Rewritten(text, old(masked[..]), masked[..], start)
  {
    if text[start] == '#' {
      index := MaskComment(text, masked, start);
    } else if text[start] == '<' {
      index := SkipIri(text, start);
    } else {
      var kind := KindAt(text, start);
      if kind.Other? { return start + 1; }
      index := MaskLiteral(text, masked, start, kind.opening);
    }
  }

  /** The part before `index` is already the view, the rest still the text. */
  ghost predicate Scanned(text: string, masked: string, index: nat) {
    && |masked| == |text| && Boundary(text, index)
    && forall k :: 0 <= k < |text| ==> masked[k] == if k < index then Mask(text)[k] else text[k]
  }

  lemma {:induction false} ScanOnce(text: string, before: string, after: string, start: nat)
    requires start < |text| && Scanned(text, before, start) && Rewritten(text, before, after, start)
    ensures Scanned(text, after, TokenEnd(text, start))
  {
    NextBoundary(text, start);
    var end := TokenEnd(text, start);
    forall k | 0 <= k < |text| ensures after[k] == if k < end then Mask(text)[k] else text[k] {
      if start <= k < end { TokenView(text, start, k); }
    }
  }

  method MaskTurtle(text: string) returns (view: string)
    ensures view == Mask(text)
  {
    var masked := new char[|text|](i requires 0 <= i < |text| => text[i]);
    var index: nat := 0;
    while index < |text|
      invariant Scanned(text, masked[..], index)
      decreases |text| - index
    {
      ghost var before := masked[..];
      assert forall k :: index <= k < |text| ==> before[k] == text[k];
      var next := Scan(text, masked, index);
      ScanOnce(text, before, masked[..], index);
      index := next;
    }
    view := masked[..];
  }
}
