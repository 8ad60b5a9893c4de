/** Writing a string as a JSON literal and reading it back with two replacements
    (section 7 of RFC 8259). */
module TurtleText {
  import opened Common

  /** The characters a JSON literal must escape besides `"` and `\`. */
  predicate Control(c: char) { c < ' ' }

  function Hex(n: nat): char
    requires n < 16
  {
    "0123456789abcdef"[n]
  }

  function ControlEscape(c: char): (e: string)
    requires Control(c)
    ensures |e| >= 2 && e[0] == '\\' && e[1] != '\\' && e[1] != '"'
    ensures forall i :: 1 <= i < |e| ==> e[i] != '\\' && e[i] != '"' && e[i] != '\n'
  {
    if c == '\n' then "\\n"
    else if c == '\r' then "\\r"
    else if c == '\t' then "\\t"
    else if c == '\U{8}' then "\\b"
    else if c == '\U{c}' then "\\f"
    else
      var n := c as int;
      assert n < 32;
      ['\\', 'u', '0', '0', Hex(n / 16), Hex(n % 16)]
  }

  /** `json.dumps` of one character, without the quotes around a literal. */
  function Escape(c: char): string {
    if c == '"' then "\\\"" else if c == '\\' then "\\\\" else if Control(c) then ControlEscape(c) else [c]
  }

  function Encode(s: string): string {
    if s == [] then [] else Escape(s[0]) + Encode(s[1..])
  }

  // ----- what a literal says to a JSON reader -----

  function HexValue(c: char): Option<nat> {
    if '0' <= c <= '9' then Some(c as int - '0' as int)
    else if 'a' <= c <= 'f' then Some(c as int - 'a' as int + 10)
    else if 'A' <= c <= 'F' then Some(c as int - 'A' as int + 10)
    else None
  }

  /** The character that a letter after `\` stands for. */
  function ShortEscape(c: char): Option<char> {
    match c
    case '"' => Some('"')
    case '\\' => Some('\\')
    case '/' => Some('/')
    case 'b' => Some('\U{8}')
    case 'f' => Some('\U{c}')
    case 'n' => Some('\n')
    case 'r' => Some('\r')
    case 't' => Some('\t')
    case _ => None
  }

  /** The character that `\u00` and two hex digits stand for. */
  function Coded(s: string): Option<char>
    requires |s| >= 6
  {
    var high, low := HexValue(s[4]), HexValue(s[5]);
    if s[2] == '0' && s[3] == '0' && high.Some? && low.Some? then Some((16 * high.value + low.value) as char)
    else None
  }

  function Prepended(c: Option<char>, rest: Option<string>): Option<string> {
    if c.Some? && rest.Some? then Some([c.value] + rest.value) else None
  }

  /** The string that the body of a literal denotes (section 7 of RFC 8259); only the
      escapes of characters below U+0100 are read. */
  function Denoted(s: string): Option<string> {
    if s == [] then Some([])
    else if s[0] == '"' || Control(s[0]) then None
    else if s[0] != '\\' then Prepended(Some(s[0]), Denoted(s[1..]))
    else if |s| >= 6 && s[1] == 'u' then Prepended(Coded(s), Denoted(s[6..]))
    else if |s| >= 2 then Prepended(ShortEscape(s[1]), Denoted(s[2..]))
    else None
  }

  lemma {:induction false} EscapeDenotes(c: char, rest: string)
    ensures Denoted(Escape(c) + rest) == Prepended(Some(c), Denoted(rest))
  {
    var e := Escape(c);
    var s := e + rest;
    assert s[|e|..] == rest;
    if Control(c) && |e| == 6 {
      assert e[2] == '0' && e[3] == '0' && HexValue(e[4]) == Some(c as int / 16)
          && HexValue(e[5]) == Some(c as int % 16);
      assert Coded(s) == Some(c);
    }
  }

  /** Every string is written as a literal that denotes it. */
  lemma {:induction false} EncodeDenotes(s: string)
    ensures Denoted(Encode(s)) == Some(s)
  {
    if s != [] {
      EncodeDenotes(s[1..]);
      EscapeDenotes(s[0], Encode(s[1..]));
      assert s == [s[0]] + s[1..];
    }
  }

  /** `str.replace` of a pair of characters by one, from left to right. */
  function Replace(s: string, a: char, b: char, put: char): string {
    if s == [] then []
    else if |s| > 1 && s[0] == a && s[1] == b then [put] + Replace(s[2..], a, b, put)
    else [s[0]] + Replace(s[1..], a, b, put)
  }

  /** The reader's two replacements. */
  function Decode(s: string): string {
    Replace(Replace(s, '\\', '"', '"'), '\\', '\\', '\\')
  }

  /** What the first replacement leaves of a character. */
  function Half(c: char): string { if c == '"' then "\"" else Escape(c) }

  /** What both leave: a control character stays escaped. */
  function Shown(c: char): string { if Control(c) then ControlEscape(c) else [c] }

  function Each(s: string, f: char -> string): string {
    if s == [] then [] else f(s[0]) + Each(s[1..], f)
  }

  lemma {:induction false} ReplaceStep(c: char, rest: string, a: char, b: char, put: char)
    requires c != a || rest == [] || rest[0] != b
    ensures Replace([c] + rest, a, b, put) == [c] + Replace(rest, a, b, put)
  {
    assert ([c] + rest)[1..] == rest;
  }

  lemma {:induction false} ReplacePair(rest: string, a: char, b: char, put: char)
    ensures Replace([a, b] + rest, a, b, put) == [put] + Replace(rest, a, b, put)
  {
    assert ([a, b] + rest)[2..] == rest;
  }

  /** Characters other than the first of the pair go through. */
  lemma {:induction false} ReplaceThrough(s: string, rest: string, a: char, b: char, put: char)
    requires forall i :: 0 <= i < |s| ==> s[i] != a
    ensures Replace(s + rest, a, b, put) == s + Replace(rest, a, b, put)
  {
    if s == [] {
      assert s + rest == rest;
    } else {
      assert s + rest == [s[0]] + (s[1..] + rest);
      ReplaceStep(s[0], s[1..] + rest, a, b, put);
      ReplaceThrough(s[1..], rest, a, b, put);
      assert [s[0]] + (s[1..] + Replace(rest, a, b, put)) == s + Replace(rest, a, b, put);
    }
  }

  /** A control escape goes through, because no `\` or `"` follows its `\`. */
  lemma {:induction false} EscapeThrough(c: char, rest: string, b: char, put: char)
    requires Control(c) && (b == '"' || b == '\\')
    ensures Replace(ControlEscape(c) + rest, '\\', b, put) == ControlEscape(c) + Replace(rest, '\\', b, put)
  {
    var e := ControlEscape(c);
    assert e + rest == ['\\'] + (e[1..] + rest);
    ReplaceStep('\\', e[1..] + rest, '\\', b, put);
    ReplaceThrough(e[1..], rest, '\\', b, put);
    assert ['\\'] + (e[1..] + Replace(rest, '\\', b, put)) == e + Replace(rest, '\\', b, put);
  }

  /** Encoded text never starts with a bare quote. */
  lemma {:induction false} EncodedStart(s: string)
    ensures Encode(s) != [] ==> Encode(s)[0] != '"'
  {
    if s != [] { assert Encode(s)[0] == Escape(s[0])[0]; }
  }

  lemma {:induction false} FirstPass(s: string)
    ensures Replace(Encode(s), '\\', '"', '"') == Each(s, Half)
  {
    if s != [] {
      var c, rest := s[0], Encode(s[1..]);
      FirstPass(s[1..]);
      EncodedStart(s[1..]);
      if c == '"' {
        ReplacePair(rest, '\\', '"', '"');
      } else if c == '\\' {
        assert "\\\\" + rest == ['\\'] + (['\\'] + rest);
        ReplaceStep('\\', ['\\'] + rest, '\\', '"', '"');
        ReplaceStep('\\', rest, '\\', '"', '"');
      } else if Control(c) {
        EscapeThrough(c, rest, '"', '"');
      } else {
        ReplaceStep(c, rest, '\\', '"', '"');
      }
    }
  }

  lemma {:induction false} SecondPass(s: string)
    ensures Replace(Each(s, Half), '\\', '\\', '\\') == Each(s, Shown)
  {
    if s != [] {
      var c, rest := s[0], Each(s[1..], Half);
      SecondPass(s[1..]);
      if c == '\\' {
        ReplacePair(rest, '\\', '\\', '\\');
      } else if Control(c) {
        EscapeThrough(c, rest, '\\', '\\');
      } else {
        assert Half(c) == [c];
        ReplaceStep(c, rest, '\\', '\\', '\\');
      }
    }
  }

  lemma {:induction false} ShownExactly(s: string)
    ensures |Each(s, Shown)| >= |s|
    ensures Each(s, Shown) == s <==> forall i :: 0 <= i < |s| ==> !Control(s[i])
  {
    if s != [] {
      ShownExactly(s[1..]);
      assert s == [s[0]] + s[1..];
      if Control(s[0]) {
        assert |Each(s, Shown)| > |s|;
      } else {
        assert Each(s, Shown) == [s[0]] + Each(s[1..], Shown);
        if Each(s, Shown) == s { assert Each(s, Shown)[1..] == s[1..]; }
        assert forall i :: 0 <= i < |s[1..]| ==> s[1..][i] == s[i + 1];
      }
    }
  }

  /** Reading back a written literal gives the text exactly when it has no control
      characters. */
  lemma {:induction false} LiteralRoundTrip(s: string)
    ensures Decode(Encode(s)) == s <==> forall i :: 0 <= i < |s| ==> !Control(s[i])
  {
    FirstPass(s);
    SecondPass(s);
    ShownExactly(s);
  }

  // ----- where a literal ends -----

  /** How much of a text the body of a literal takes, up to its closing quote. */
  function BodyLength(s: string): Option<nat> {
    if s == [] || s[0] == '\n' then None
    else if s[0] == '"' then Some(0)
    else if s[0] == '\\' then
      if |s| < 2 || s[1] == '\n' then None
      else
        match BodyLength(s[2..])
        case None => None
        case Some(n) => Some(n + 2)
    else
      match BodyLength(s[1..])
      case None => None
      case Some(n) => Some(n + 1)
  }

  /** Plain characters belong to the body. */
  lemma {:induction false} BodyThrough(e: string, rest: string)
    requires forall i :: 0 <= i < |e| ==> e[i] != '\\' && e[i] != '"' && e[i] != '\n'
    ensures BodyLength(e + rest) == match BodyLength(rest)
                                    case None => None
                                    case Some(n) => Some(n + |e|)
  {
    if e == [] {
      assert e + rest == rest;
    } else {
      assert (e + rest)[1..] == e[1..] + rest;
      BodyThrough(e[1..], rest);
    }
  }

  lemma {:induction false} BodyEscape(c: char, rest: string)
    ensures BodyLength(Escape(c) + rest) == match BodyLength(rest)
                                            case None => None
                                            case Some(n) => Some(n + |Escape(c)|)
  {
    var e := Escape(c);
    if c == '"' || c == '\\' {
      assert (e + rest)[2..] == rest;
    } else if Control(c) {
      assert (e + rest)[2..] == e[2..] + rest && e[1] != '\n';
      BodyThrough(e[2..], rest);
    } else {
      BodyThrough(e, rest);
    }
  }

  /** A written literal ends at its own closing quote, whatever follows it. */
  lemma {:induction false} LiteralEnds(s: string, rest: string)
    ensures BodyLength(Encode(s) + ("\"" + rest)) == Some(|Encode(s)|)
  {
    var tail := "\"" + rest;
    if s == [] {
      assert Encode(s) + tail == tail;
    } else {
      LiteralEnds(s[1..], rest);
      BodyEscape(s[0], Encode(s[1..]) + tail);
      Associates(Escape(s[0]), Encode(s[1..]), tail);
    }
  }
}
