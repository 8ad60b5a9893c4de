/** What the strings of the canonical JSON text denote to a reader (sections 7 and 8.2
    of RFC 8259): every character, those beyond U+FFFF as surrogate pairs. */
module JsonStrings {
  import opened Common
  import opened JsonText

  function HexValue(c: char): Option<nat> {
    if '0' <= c <= '9' then Some(c as int - '0' as int)
    else if 'a' <= c <= 'f' then Some(c as int - 'a' as int + 10)
    else if 'A' <= c <= 'F' then Some(c as int - 'A' as int + 10)
    else None
  }

  /** The code unit that stands at the beginning as `\u` and four digits. */
  function UnitAhead(s: string): (unit: Option<nat>)
    ensures unit.Some? ==> |s| >= 6 && unit.value < 0x10000
  {
    if |s| < 6 || s[0] != '\\' || s[1] != 'u' then None
    else
      var a, b, c, d := HexValue(s[2]), HexValue(s[3]), HexValue(s[4]), HexValue(s[5]);
      if a.Some? && b.Some? && c.Some? && d.Some?
      then Some(0x1000 * a.value + 0x100 * b.value + 16 * c.value + d.value)
      else None
  }

  /** The character that a letter behind a backslash stands for. */
  function Meant(c: char): Option<char> {
    match c
    case '"' => Some('"')
    case '\\' => Some('\\')
    case '/' => Some('/')
    case 'b' => Some('\U{8}')
    case 'f' => Some('\U{c}')
    case 'n' => Some('\n')
    case 'r' => Some('\r')
    case 't' => Some('\t')
    case _ => None
  }

  /** The first character of a literal's body, and the body behind it. */
  function CharRead(s: string): (read: Option<(char, string)>)
    ensures read.Some? ==> |read.value.1| < |s|
  {
    if s == [] || s[0] == '"' || s[0] < ' ' then None
    else if s[0] != '\\' then Some((s[0], s[1..]))
    else if UnitAhead(s).Some? then
      var high, low := UnitAhead(s).value, UnitAhead(s[6..]);
      if !(0xD800 <= high < 0xE000) then Some((high as char, s[6..]))
      else if high < 0xDC00 && low.Some? && 0xDC00 <= low.value < 0xE000
      then Some(((0x10000 + 0x400 * (high - 0xD800) + (low.value - 0xDC00)) as char, s[12..]))
      else None
    else if |s| >= 2 && Meant(s[1]).Some? then Some((Meant(s[1]).value, s[2..]))
    else None
  }

  /** The string up to the closing quote, and what stands behind it. */
  function BodyRead(s: string): Option<(string, string)>
    decreases |s|
  {
    if s != [] && s[0] == '"' then Some(([], s[1..]))
    else
      match CharRead(s)
      case None => None
      case Some((c, more)) =>
        match BodyRead(more)
        case None => None
        case Some((text, rest)) => Some(([c] + text, rest))
  }

  lemma {:induction false} UnitIsAhead(n: nat, rest: string)
    requires n < 0x10000
    ensures UnitAhead(Unit(n, rest)) == Some(n) && Unit(n, rest)[6..] == rest && |Unit(n, rest)| == 6 + |rest|
    ensures Unit(n, rest)[0] == '\\'
  {
    var s := Unit(n, rest);
    HexRead(n / 0x1000);
    HexRead(n / 0x100 % 16);
    HexRead(n / 16 % 16);
    HexRead(n % 16);
    Digits4(n);
    assert s[2] == Hex(n / 0x1000) && s[3] == Hex(n / 0x100 % 16) && s[4] == Hex(n / 16 % 16) && s[5] == Hex(n % 16);
  }

  lemma {:induction false} HexRead(n: nat)
    requires n < 16
    ensures HexValue(Hex(n)) == Some(n)
  {
  }

  /** A printed character reads as itself. */
  lemma {:induction false} PrintedChar(c: char, rest: string)
    ensures CharRead(PrintChar(c, rest)) == Some((c, rest)) && PrintChar(c, rest)[0] != '"'
  {
    if Printable(c) {
      assert PrintChar(c, rest)[1..] == rest;
    } else if Short(c) != c || c == '"' || c == '\\' {
      assert PrintChar(c, rest)[2..] == rest;
    } else {
      UnitPrinted(c, rest);
    }
  }

  lemma {:induction false} UnitPrinted(c: char, rest: string)
    requires Escaped(c)
    ensures CharRead(PrintChar(c, rest)) == Some((c, rest)) && PrintChar(c, rest)[0] != '"'
  {
    var s := PrintChar(c, rest);
    UnitIsAhead(First(c), More(c, rest));
    if c as int >= 0x10000 {
      UnitIsAhead(Second(c), rest);
      assert s[12..] == s[6..][6..];
      Surrogates(c as int);
    }
  }

  lemma {:induction false} Surrogates(n: int)
    requires 0x10000 <= n < 0x110000
    ensures var high, low := 0xD800 + (n - 0x10000) / 0x400, 0xDC00 + (n - 0x10000) % 0x400;
            && 0xD800 <= high < 0xDC00 <= low < 0xE000
            && 0x10000 + 0x400 * (high - 0xD800) + (low - 0xDC00) == n
  {
  }

  /** Every string, as a value or as a key, is written as a literal that denotes it. */
  lemma {:induction false} StringRead(text: string, rest: string)
    ensures BodyRead(PrintBody(text, rest)) == Some((text, rest))
    ensures PrintString(text, rest)[0] == '"' && PrintString(text, rest)[1..] == PrintBody(text, rest)
  {
    if text != [] {
      StringRead(text[1..], rest);
      PrintedChar(text[0], PrintBody(text[1..], rest));
      assert text == [text[0]] + text[1..];
    }
  }

  predicate Ascii(s: string) { forall i :: 0 <= i < |s| ==> ' ' <= s[i] <= '~' }

  /** Printable ASCII without quotes and backslashes. */
  predicate Simple(s: string) { forall i :: 0 <= i < |s| ==> ' ' <= s[i] <= '~' && s[i] != '"' && s[i] != '\\' }

  /** The text is printable ASCII, and a string of such characters but quotes and
      backslashes is written as it is. */
  lemma {:induction false} StringShown(text: string, rest: string)
    requires Ascii(rest)
    ensures Ascii(PrintBody(text, rest))
    ensures Simple(text) ==> PrintBody(text, rest) == text + ['"'] + rest
  {
    if text != [] {
      StringShown(text[1..], rest);
      CharShown(text[0], PrintBody(text[1..], rest));
      if Simple(text) { SimpleStep(text, rest, PrintBody(text[1..], rest)); }
    }
  }

  lemma {:induction false} SimpleStep(text: string, rest: string, body: string)
    requires text != [] && Simple(text)
    ensures Simple(text[1..]) && ' ' <= text[0] <= '~' && text[0] != '"' && text[0] != '\\'
    ensures body == text[1..] + ['"'] + rest ==> [text[0]] + body == text + ['"'] + rest
  {
    assert text == [text[0]] + text[1..];
    assert forall i :: 0 <= i < |text| - 1 ==> text[1..][i] == text[i + 1];
  }

  lemma {:induction false} CharShown(c: char, rest: string)
    requires Ascii(rest)
    ensures Ascii(PrintChar(c, rest))
    ensures ' ' <= c <= '~' && c != '"' && c != '\\' ==> PrintChar(c, rest) == [c] + rest
  {
    if Escaped(c) && c as int >= 0x10000 {
      UnitShown(Second(c), rest);
    }
    if Escaped(c) { UnitShown(First(c), More(c, rest)); }
  }

  lemma {:induction false} UnitShown(n: nat, rest: string)
    requires n < 0x10000 && Ascii(rest)
    ensures Ascii(Unit(n, rest))
  {
  }
}
