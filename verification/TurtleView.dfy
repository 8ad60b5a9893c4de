/** Deleting tokens commutes with masking: the view of a rewritten text is the view
    of the text with the same characters deleted. The rewriter masks its own results
    again before it looks for the next pattern. */
module TurtleView {
  import opened TurtleMask
  import opened TurtleEdits

  // ----- what is left, by position -----

  function Count(stay: seq<bool>, k: nat): (n: nat)
    requires k <= |stay|
    ensures n <= k
  {
    if k == 0 then 0 else Count(stay, k - 1) + if stay[k - 1] then 1 else 0
  }

  /** Each character that stays is found again behind those in front of it. */
  lemma {:induction false} LeftAt(s: string, stay: seq<bool>, k: nat, hi: nat)
    requires k < hi <= |s| == |stay|
    ensures |Left(s, stay, 0, hi)| == Count(stay, hi)
    ensures Count(stay, k) <= Count(stay, hi)
    ensures stay[k] ==> Count(stay, k) < Count(stay, hi) && Left(s, stay, 0, hi)[Count(stay, k)] == s[k]
    decreases hi
  {
    if hi == 1 {
      assert Left(s, stay, 0, 0) == "";
    } else {
      LeftAt(s, stay, if k < hi - 1 then k else hi - 2, hi - 1);
    }
  }

  lemma {:induction false} LeftLength(s: string, stay: seq<bool>, hi: nat)
    requires hi <= |s| == |stay|
    ensures |Left(s, stay, 0, hi)| == Count(stay, hi)
  {
    if hi > 0 { LeftAt(s, stay, 0, hi); }
  }

  lemma {:induction false} CountMono(stay: seq<bool>, k: nat, hi: nat)
    requires k <= hi <= |stay|
    ensures Count(stay, k) <= Count(stay, hi)
    decreases hi
  {
    if k < hi { CountMono(stay, k, hi - 1); }
  }

  lemma {:induction false} CountSame(stay: seq<bool>, lo: nat, hi: nat, flag: bool)
    requires lo <= hi <= |stay| && forall k :: lo <= k < hi ==> stay[k] == flag
    ensures Count(stay, hi) == Count(stay, lo) + if flag then hi - lo else 0
    decreases hi
  {
    if lo < hi { CountSame(stay, lo, hi - 1, flag); }
  }

  // ----- scanning a copy of a token -----

  /** From `p` on, `r` repeats the `n` characters of `s` from `at` on. */
  predicate Copied(s: string, at: nat, r: string, p: nat, n: nat) {
    at + n <= |s| && p + n <= |r| && forall k {:trigger s[k]} :: at <= k < at + n ==> r[p + (k - at)] == s[k]
  }

  /** Both texts end behind the copy, or go on with the same character. */
  predicate SameNext(s: string, at: nat, r: string, p: nat, n: nat)
    requires Copied(s, at, r, p, n)
  {
    if at + n == |s| then p + n == |r| else p + n < |r| && r[p + n] == s[at + n]
  }

  lemma {:induction false} CommentCopied(s: string, i: nat, r: string, j: nat, n: nat)
    requires i <= |s| && n == CommentEnd(s, i) - i && Copied(s, i, r, j, n) && SameNext(s, i, r, j, n)
    ensures CommentEnd(r, j) == j + n
    decreases n
  {
    if n == 0 {
      CommentStops(s, i);
    } else {
      assert s[i] == r[j];
      CommentCopied(s, i + 1, r, j + 1, n - 1);
    }
  }

  lemma {:induction false} IriCopied(s: string, i: nat, r: string, j: nat, n: nat)
    requires i <= |s| && n == IriEnd(s, i) - i && Copied(s, i, r, j, n) && (i + n == |s| ==> j + n == |r|)
    ensures IriEnd(r, j) == j + n
    decreases n
  {
    if n > 0 {
      assert s[i] == r[j];
      if s[i] != '>' {
        IriCopied(s, i + 1, r, j + 1, n - 1);
      }
    }
  }

  lemma {:induction false} QuoteCopied(s: string, i: nat, r: string, j: nat, n: nat, d: Delimiter)
    requires Copied(s, i, r, j, n) && (d.Width() <= n || (i + n == |s| && j + n == |r|))
    ensures QuoteAt(s, i, d) <==> QuoteAt(r, j, d)
  {
    if n > 0 { assert s[i] == r[j]; }
    if n > 1 { assert s[i + 1] == r[j + 1]; }
    if n > 2 { assert s[i + 2] == r[j + 2]; }
  }

  /** Behind `m` characters of a copy the rest is copied too. */
  lemma {:induction false} CopiedRest(s: string, i: nat, r: string, j: nat, n: nat, m: nat)
    requires Copied(s, i, r, j, n) && m <= n
    ensures Copied(s, i + m, r, j + m, n - m)
  {
  }

  lemma {:induction false} QuotedCopied(s: string, i: nat, r: string, j: nat, n: nat, d: Delimiter)
    requires i <= |s| && n == QuotedEnd(s, i, d) - i && Copied(s, i, r, j, n) && (i + n == |s| ==> j + n == |r|)
    ensures QuotedEnd(r, j, d) == j + n
    decreases n
  {
    if n > 0 {
      QuotedWide(s, i, d);
      QuoteCopied(s, i, r, j, n, d);
      assert s[i] == r[j];
      if !QuoteAt(s, i, d) {
        var step := if s[i] == '\\' && i + 1 < |s| then 2 else 1;
        CopiedRest(s, i, r, j, n, step);
        QuotedCopied(s, i + step, r, j + step, n - step, d);
      }
    }
  }

  /** A literal that is not cut off by the end of the text has room for its delimiter. */
  lemma {:induction false} QuotedWide(s: string, i: nat, d: Delimiter)
    requires i <= |s|
    ensures QuotedEnd(s, i, d) == |s| || (QuotedEnd(s, i, d) - i >= d.Width() && s[QuotedEnd(s, i, d) - 1] == d.quote)
    decreases |s| - i
  {
    if i < |s| && !QuoteAt(s, i, d) { QuotedWide(s, if s[i] == '\\' && i + 1 < |s| then i + 2 else i + 1, d); }
  }

  /** A literal still ends where it did: behind an empty one no third quote comes up. */
  predicate ClosedNext(s: string, at: nat, r: string, p: nat, n: nat)
    requires Copied(s, at, r, p, n) && at < |s|
  {
    at + n < |s| && p + n < |r| ==> r[p + n] == s[at + n] || r[p + n] != s[at]
  }

  /** A copied token is a token of the same kind and length. */
  lemma {:induction false} TokenCopied(s: string, at: nat, r: string, p: nat, n: nat)
    requires at < |s| && n == TokenEnd(s, at) - at && Copied(s, at, r, p, n)
    requires at + n == |s| ==> p + n == |r|
    requires KindAt(s, at).Comment? ==> SameNext(s, at, r, p, n)
    requires KindAt(s, at).Literal? ==> ClosedNext(s, at, r, p, n)
    ensures KindAt(r, p) == KindAt(s, at) && TokenEnd(r, p) == p + n
  {
    assert s[at] == r[p];
    match KindAt(s, at)
    case Comment =>
      CopiedRest(s, at, r, p, n, 1);
      CommentCopied(s, at + 1, r, p + 1, n - 1);
    case Iri =>
      CopiedRest(s, at, r, p, n, 1);
      IriCopied(s, at + 1, r, p + 1, n - 1);
    case Literal(d) =>
      OpeningCopied(s, at, r, p, n);
      CopiedRest(s, at, r, p, n, d.Width());
      QuotedCopied(s, at + d.Width(), r, p + d.Width(), n - d.Width(), d);
    case Other =>
  }

  /** The character behind an empty literal tells it from a triple quote. */
  lemma {:induction false} OpeningCopied(s: string, at: nat, r: string, p: nat, n: nat)
    requires at < |s| && KindAt(s, at).Literal? && n == TokenEnd(s, at) - at
    requires Copied(s, at, r, p, n) && (at + n == |s| ==> p + n == |r|) && ClosedNext(s, at, r, p, n)
    ensures KindAt(r, p) == KindAt(s, at)
  {
    var d := KindAt(s, at).opening;
    QuotedWide(s, at + d.Width(), d);
    assert s[at] == r[p];
    if n > 1 { assert s[at + 1] == r[p + 1]; }
    if n > 2 { assert s[at + 2] == r[p + 2]; }
  }

  // ----- whole tokens deleted -----

  /** The next position that stays. */
  function NextStay(stay: seq<bool>, k: nat): (n: nat)
    requires k <= |stay|
    ensures k <= n <= |stay| && (n < |stay| ==> stay[n]) && forall i :: k <= i < n ==> !stay[i]
    decreases |stay| - k
  {
    if k == |stay| || stay[k] then k else NextStay(stay, k + 1)
  }

  /** The token at `at` stays or goes as a whole. Behind a comment that stays, the next
      character stays; behind a literal that stays, its own quote does not move up. */
  ghost predicate CutsToken(s: string, stay: seq<bool>, at: nat)
    requires at < |s| == |stay|
  {
    var end := TokenEnd(s, at);
    && (forall k :: at <= k < end ==> stay[k] == stay[at])
    && (stay[at] && KindAt(s, at).Comment? && end < |s| ==> stay[end])
    && (stay[at] && KindAt(s, at).Literal? && end < |s| ==>
          var next := NextStay(stay, end);
          next == end || (next < |s| ==> s[next] != s[at]))
  }

  ghost predicate CutsTokens(s: string, stay: seq<bool>) {
    && |stay| == |s|
    && forall at {:trigger CutsToken(s, stay, at)} :: 0 <= at < |s| && Boundary(s, at) ==> CutsToken(s, stay, at)
  }

  /** What comes next in what is left. */
  lemma {:induction false} NextLeft(s: string, stay: seq<bool>, end: nat)
    requires end <= |s| == |stay|
    ensures var r, p, next := Left(s, stay, 0, |s|), Count(stay, end), NextStay(stay, end);
            && p <= |r| && (p < |r| <==> next < |s|) && (next < |s| ==> r[p] == s[next])
  {
    var next := NextStay(stay, end);
    LeftLength(s, stay, |s|);
    CountSame(stay, end, next, false);
    if next < |s| { LeftAt(s, stay, next, |s|); }
  }

  /** A stretch that stays as a whole is copied. */
  lemma {:induction false} StretchCopied(s: string, stay: seq<bool>, at: nat, end: nat)
    requires at <= end <= |s| == |stay| && forall k :: at <= k < end ==> stay[k]
    ensures Copied(s, at, Left(s, stay, 0, |s|), Count(stay, at), end - at)
    ensures Count(stay, end) == Count(stay, at) + (end - at)
    ensures forall k {:trigger Count(stay, k)} :: at <= k < end ==> Count(stay, k) == Count(stay, at) + (k - at)
  {
    var r, p := Left(s, stay, 0, |s|), Count(stay, at);
    LeftLength(s, stay, |s|);
    CountSame(stay, at, end, true);
    CountMono(stay, end, |s|);
    forall k {:trigger s[k]} {:trigger Count(stay, k)} | at <= k < end
      ensures Count(stay, k) == p + (k - at) && r[p + (k - at)] == s[k]
    {
      CountSame(stay, at, k, true);
      LeftAt(s, stay, k, |s|);
    }
  }

  /** What follows a token that stays decides nothing else in what is left. */
  lemma {:induction false} NextAgrees(s: string, stay: seq<bool>, at: nat, r: string, p: nat, n: nat)
    requires at < |s| == |stay| && n == TokenEnd(s, at) - at && CutsToken(s, stay, at) && stay[at]
    requires r == Left(s, stay, 0, |s|) && p + n == Count(stay, at + n) && Copied(s, at, r, p, n)
    ensures at + n == |s| ==> p + n == |r|
    ensures KindAt(s, at).Comment? ==> SameNext(s, at, r, p, n)
    ensures KindAt(s, at).Literal? ==> ClosedNext(s, at, r, p, n)
  {
    LeftLength(s, stay, |s|);
    NextLeft(s, stay, at + n);
  }

  /** A token that stays is a token of what is left. */
  lemma {:induction false} TokenStays(s: string, stay: seq<bool>, at: nat)
    requires CutsTokens(s, stay) && Boundary(s, at) && at < |s| && stay[at]
    ensures var r, p := Left(s, stay, 0, |s|), Count(stay, at);
            && p < |r| && KindAt(r, p) == KindAt(s, at)
            && TokenEnd(r, p) == Count(stay, TokenEnd(s, at)) == p + (TokenEnd(s, at) - at)
            && Copied(s, at, r, p, TokenEnd(s, at) - at)
            && (forall k {:trigger Count(stay, k)} :: at <= k < TokenEnd(s, at) ==> Count(stay, k) == p + (k - at))
  {
    var r, p, n := Left(s, stay, 0, |s|), Count(stay, at), TokenEnd(s, at) - at;
    assert CutsToken(s, stay, at);
    StretchCopied(s, stay, at, at + n);
    NextAgrees(s, stay, at, r, p, n);
    TokenCopied(s, at, r, p, n);
  }

  lemma {:induction false} ViewStays(s: string, stay: seq<bool>, at: nat, k: nat)
    requires CutsTokens(s, stay) && Boundary(s, at) && at <= k < |s| && k < TokenEnd(s, at) && stay[at]
    requires Boundary(Left(s, stay, 0, |s|), Count(stay, at))
    ensures var r := Left(s, stay, 0, |s|);
            Count(stay, k) < |r| && Mask(r)[Count(stay, k)] == Mask(s)[k]
  {
    var r, p := Left(s, stay, 0, |s|), Count(stay, at);
    TokenStays(s, stay, at);
    CountMono(stay, k, TokenEnd(s, at));
    TokenView(s, at, k);
    TokenView(r, p, p + (k - at));
  }

  /** From a token boundary on, the view of what is left is what is left of the view. */
  lemma {:induction false} LeftMasked(s: string, stay: seq<bool>, at: nat, k: nat)
    requires CutsTokens(s, stay) && Boundary(s, at) && at <= k < |s| && stay[k]
    requires Boundary(Left(s, stay, 0, |s|), Count(stay, at))
    ensures var r := Left(s, stay, 0, |s|);
            Count(stay, k) < |r| && Mask(r)[Count(stay, k)] == Mask(s)[k]
    decreases |s| - at
  {
    var end := TokenEnd(s, at);
    assert CutsToken(s, stay, at);
    if stay[at] && k < end {
      ViewStays(s, stay, at, k);
    } else {
      NextBoundary(s, at);
      if stay[at] {
        TokenStays(s, stay, at);
        NextBoundary(Left(s, stay, 0, |s|), Count(stay, at));
      } else {
        CountSame(stay, at, end, false);
      }
      LeftMasked(s, stay, end, k);
    }
  }

  /** Deleting whole tokens and masking commute. */
  lemma {:induction false} MaskOfLeft(s: string, stay: seq<bool>)
    requires CutsTokens(s, stay)
    ensures Mask(Left(s, stay, 0, |s|)) == Left(Mask(s), stay, 0, |s|)
  {
    var r, m := Left(s, stay, 0, |s|), Left(Mask(s), stay, 0, |s|);
    LeftLength(s, stay, |s|);
    LeftLength(Mask(s), stay, |s|);
    forall p | 0 <= p < |r| ensures Mask(r)[p] == m[p] {
      var k := Source(stay, p, |s|);
      LeftMasked(s, stay, 0, k);
      LeftAt(Mask(s), stay, k, |s|);
    }
  }

  /** Where the character behind `p` others comes from. */
  lemma {:induction false} Source(stay: seq<bool>, p: nat, hi: nat) returns (k: nat)
    requires hi <= |stay| && p < Count(stay, hi)
    ensures k < hi && stay[k] && Count(stay, k) == p
  {
    if stay[hi - 1] && p == Count(stay, hi - 1) {
      k := hi - 1;
    } else {
      k := Source(stay, p, hi - 1);
    }
  }
}
