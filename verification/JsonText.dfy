/** Canonical JSON text: keys sorted, no spaces, everything but printable ASCII
    escaped (section 7 of RFC 8259). Different values never share a text. */
module JsonText {
  import opened Sorting
  import opened Json

  // ----- characters -----

  function Hex(n: nat): char
    requires n < 16
  {
    (if n < 10 then '0' as int + n else 'a' as int + n - 10) as char
  }

  /** A 16-bit code unit as four digits, in front of `rest`. */
  function Unit(n: nat, rest: string): string
    requires n < 0x10000
  {
    ['\\', 'u', Hex(n / 0x1000), Hex(n / 0x100 % 16), Hex(n / 16 % 16), Hex(n % 16)] + rest
  }

  predicate Printable(c: char) { ' ' <= c <= '~' && c != '"' && c != '\\' }

  /** The second character of a short escape. */
  function Short(c: char): char {
    if c == '\n' then 'n' else if c == '\r' then 'r' else if c == '\t' then 't'
    else if c == '\U{8}' then 'b' else if c == '\U{c}' then 'f' else c
  }

  /** `json.dumps` of one character inside a literal, in front of `rest`. */
  function PrintChar(c: char, rest: string): string {
    if Printable(c) then [c] + rest
    else if Short(c) != c || c == '"' || c == '\\' then ['\\', Short(c)] + rest
    else Unit(First(c), More(c, rest))
  }

  /** The one code unit of a character, or its high surrogate. */
  function First(c: char): (n: nat)
    ensures n < 0x10000
    ensures 0xD800 <= n < 0xDC00 <==> c as int >= 0x10000
  {
    if c as int < 0x10000 then c as int else 0xD800 + (c as int - 0x10000) / 0x400
  }

  /** Its low surrogate. */
  function Second(c: char): (n: nat)
    requires c as int >= 0x10000
    ensures n < 0x10000
  {
    0xDC00 + (c as int - 0x10000) % 0x400
  }

  function More(c: char, rest: string): string { if c as int < 0x10000 then rest else Unit(Second(c), rest) }

  lemma {:induction false} UnitApart(m: nat, n: nat, x: string, y: string)
    requires m < 0x10000 && n < 0x10000 && Unit(m, x) == Unit(n, y)
    ensures m == n && x == y
  {
    var a, b := Unit(m, x), Unit(n, y);
    assert a[6..] == x && b[6..] == y;
    HexApart(m / 0x1000, n / 0x1000, a[2]);
    HexApart(m / 0x100 % 16, n / 0x100 % 16, b[3]);
    HexApart(m / 16 % 16, n / 16 % 16, b[4]);
    HexApart(m % 16, n % 16, b[5]);
    Digits4(m);
    Digits4(n);
  }

  lemma {:induction false} HexApart(m: nat, n: nat, c: char)
    requires m < 16 && n < 16 && Hex(m) == c == Hex(n)
    ensures m == n
  {
  }

  lemma {:induction false} Digits4(n: nat)
    requires n < 0x10000
    ensures n == 0x1000 * (n / 0x1000) + 0x100 * (n / 0x100 % 16) + 16 * (n / 16 % 16) + n % 16
  {
    assert n / 0x100 == (n / 16) / 16 && n / 0x1000 == (n / 0x100) / 16;
  }

  lemma {:induction false} CharApart(c: char, d: char, x: string, y: string)
    requires PrintChar(c, x) == PrintChar(d, y)
    ensures c == d && x == y
  {
    var a, b := PrintChar(c, x), PrintChar(d, y);
    assert a[0] == b[0];
    if Printable(c) {
      assert a[1..] == x && b[1..] == y;
    } else {
      assert a[1] == b[1];
      if a[1] != 'u' {
        assert a[2..] == x && b[2..] == y;
      } else {
        UnitsApart(c, d, x, y);
      }
    }
  }

  /** The characters written as one code unit or as a pair of surrogates. */
  predicate Escaped(c: char) { !Printable(c) && Short(c) == c && c != '"' && c != '\\' }

  lemma {:induction false} UnitsApart(c: char, d: char, x: string, y: string)
    requires Escaped(c) && Escaped(d) && PrintChar(c, x) == PrintChar(d, y)
    ensures c == d && x == y
  {
    UnitApart(First(c), First(d), More(c, x), More(d, y));
    if c as int >= 0x10000 { UnitApart(Second(c), Second(d), x, y); }
  }

  // ----- strings -----

  function PrintBody(s: string, rest: string): string {
    if s == [] then ['"'] + rest else PrintChar(s[0], PrintBody(s[1..], rest))
  }

  function PrintString(s: string, rest: string): string { ['"'] + PrintBody(s, rest) }

  lemma {:induction false} BodyApart(s: string, t: string, x: string, y: string)
    requires PrintBody(s, x) == PrintBody(t, y)
    ensures s == t && x == y
  {
    var a, b := PrintBody(s, x), PrintBody(t, y);
    assert a[0] == b[0];
    if s == [] {
      assert t == [];
      assert a[1..] == x && b[1..] == y;
    } else {
      assert t != [];
      CharApart(s[0], t[0], PrintBody(s[1..], x), PrintBody(t[1..], y));
      BodyApart(s[1..], t[1..], x, y);
      assert s == [s[0]] + s[1..] && t == [t[0]] + t[1..];
    }
  }

  lemma {:induction false} StringApart(s: string, t: string, x: string, y: string)
    requires PrintString(s, x) == PrintString(t, y)
    ensures s == t && x == y
  {
    assert PrintString(s, x)[1..] == PrintBody(s, x) && PrintString(t, y)[1..] == PrintBody(t, y);
    BodyApart(s, t, x, y);
  }

  // ----- numbers -----

  predicate Digit(c: char) { '0' <= c <= '9' }

  predicate Numeral(c: char) { Digit(c) || c in "+-.eE" }

  function Digits(n: nat): (text: string)
    ensures text != [] && forall i :: 0 <= i < |text| ==> Digit(text[i])
  {
    if n < 10 then [Hex(n)] else Digits(n / 10) + [Hex(n % 10)]
  }

  function IntText(i: int): string { if i < 0 then ['-'] + Digits(-i) else Digits(i) }

  lemma {:induction false} DigitsApart(m: nat, n: nat)
    requires Digits(m) == Digits(n)
    ensures m == n
  {
    var a, b := Digits(m), Digits(n);
    assert a[|a| - 1] == b[|b| - 1];
    if m >= 10 && n >= 10 {
      assert a[..|a| - 1] == Digits(m / 10) && b[..|b| - 1] == Digits(n / 10);
      DigitsApart(m / 10, n / 10);
    }
  }

  lemma {:induction false} IntApart(i: int, j: int)
    requires IntText(i) == IntText(j)
    ensures i == j
  {
    assert IntText(i)[0] == IntText(j)[0];
    if i < 0 {
      assert IntText(i)[1..] == Digits(-i) && IntText(j)[1..] == Digits(-j);
      DigitsApart(-i, -j);
    } else {
      DigitsApart(i, j);
    }
  }

  /** How floats are written, taken as given. */
  type Repr = Number -> string

  /** A numeral that no integer shares. */
  predicate FloatText(text: string) {
    && text != [] && (Digit(text[0]) || text[0] == '-')
    && (forall i :: 0 <= i < |text| ==> Numeral(text[i]))
    && (exists i :: 0 <= i < |text| && text[i] in ".eE")
  }

  ghost predicate Numerals(repr: Repr) {
    && (forall x {:trigger repr(x)} :: FloatText(repr(x)))
    && (forall x, y :: repr(x) == repr(y) ==> x == y)
  }

  /** A value's text is followed by the end, or by the punctuation of a list or object. */
  predicate Delimited(rest: string) { rest == [] || rest[0] in ",]}" }

  lemma {:induction false} NumeralApart(a: string, b: string, x: string, y: string)
    requires forall i :: 0 <= i < |a| ==> Numeral(a[i])
    requires forall i :: 0 <= i < |b| ==> Numeral(b[i])
    requires Delimited(x) && Delimited(y) && a + x == b + y
    ensures a == b && x == y
  {
    if |a| < |b| { Ahead(a, b, x, y); }
    if |b| < |a| { Ahead(b, a, y, x); }
    SameSplit(a, b, x, y);
  }

  /** Where the shorter of two beginnings ends, the longer goes on. */
  lemma {:induction false} Ahead(a: string, b: string, x: string, y: string)
    requires a + x == b + y && |a| < |b|
    ensures x != [] && x[0] == b[|a|]
  {
    assert (b + y)[|a|] == b[|a|];
    assert (a + x)[|a|] == x[0];
  }

  lemma {:induction false} SameSplit(a: string, b: string, x: string, y: string)
    requires a + x == b + y && |a| == |b|
    ensures a == b && x == y
  {
    assert (a + x)[..|a|] == a && (b + y)[..|b|] == b;
    assert (a + x)[|a|..] == x && (b + y)[|b|..] == y;
  }

  // ----- values -----

  /** `json.dumps` of a value, in front of `rest`. */
  ghost function Print(v: Value, repr: Repr, rest: string): string
    decreases v, 1
  {
    match v
    case Null => "null" + rest
    case Bool(flag) => (if flag then "true" else "false") + rest
    case Int(i) => IntText(i) + rest
    case Float(x) => repr(x) + rest
    case Str(text) => PrintString(text, rest)
    case Arr(_) => ['['] + PrintItems(v, 0, repr, rest)
    case Obj(fields) => ['{'] + PrintFields(v, InOrder(fields.Keys), 0, repr, rest)
  }

  ghost function PrintItems(v: Value, n: nat, repr: Repr, rest: string): string
    requires v.Arr? && n <= |v.items|
    decreases v, 0, |v.items| - n
  {
    if n == |v.items| then [']'] + rest
    else Comma(n, Print(v.items[n], repr, PrintItems(v, n + 1, repr, rest)))
  }

  ghost function PrintFields(v: Value, keys: seq<string>, n: nat, repr: Repr, rest: string): string
    requires v.Obj? && n <= |keys| && forall key :: key in keys ==> key in v.fields
    decreases v, 0, |keys| - n
  {
    if n == |keys| then ['}'] + rest
    else
      var more := Print(v.fields[keys[n]], repr, PrintFields(v, keys, n + 1, repr, rest));
      Comma(n, PrintString(keys[n], [':'] + more))
  }

  /** All entries but the first stand behind a comma. */
  function Comma(n: nat, text: string): string { if n == 0 then text else [','] + text }

  predicate Starts(v: Value, c: char) {
    match v
    case Null => c == 'n'
    case Bool(flag) => c == if flag then 't' else 'f'
    case Int(_) => Digit(c) || c == '-'
    case Float(_) => Digit(c) || c == '-'
    case Str(_) => c == '"'
    case Arr(_) => c == '['
    case Obj(_) => c == '{'
  }

  lemma {:induction false} FirstChar(v: Value, repr: Repr, rest: string)
    requires Numerals(repr)
    ensures Print(v, repr, rest) != [] && Starts(v, Print(v, repr, rest)[0])
  {
    if v.Float? { assert FloatText(repr(v.x)); }
  }

  lemma {:induction false} ItemsDelimited(v: Value, n: nat, repr: Repr, rest: string)
    requires v.Arr? && 0 < n <= |v.items|
    ensures Delimited(PrintItems(v, n, repr, rest))
  {
  }

  lemma {:induction false} FieldsDelimited(v: Value, keys: seq<string>, n: nat, repr: Repr, rest: string)
    requires v.Obj? && 0 < n <= |keys| && forall key :: key in keys ==> key in v.fields
    ensures Delimited(PrintFields(v, keys, n, repr, rest))
  {
  }

  /** The text of a value tells the value and where it ends. */
  lemma {:induction false} PrintApart(a: Value, b: Value, repr: Repr, x: string, y: string)
    requires Numerals(repr) && Delimited(x) && Delimited(y) && Print(a, repr, x) == Print(b, repr, y)
    ensures a == b && x == y
    decreases a, 1
  {
    FirstChar(a, repr, x);
    FirstChar(b, repr, y);
    var s, t := Print(a, repr, x), Print(b, repr, y);
    match a
    case Null => assert s[4..] == x && t[4..] == y;
    case Bool(flag) => var n := if flag then 4 else 5; assert s[n..] == x && t[n..] == y;
    case Str(text) => StringApart(text, b.text, x, y);
    case Arr(items) =>
      assert s[1..] == PrintItems(a, 0, repr, x) && t[1..] == PrintItems(b, 0, repr, y);
      ItemsApart(a, b, 0, repr, x, y);
      assert a.items == b.items;
    case Obj(fields) =>
      var k, l := InOrder(fields.Keys), InOrder(b.fields.Keys);
      assert s[1..] == PrintFields(a, k, 0, repr, x) && t[1..] == PrintFields(b, l, 0, repr, y);
      FieldsApart(a, b, k, l, 0, repr, x, y);
      SameFields(a, b, k, l);
    case _ => NumbersApart(a, b, repr, x, y);
  }

  lemma {:induction false} NumbersApart(a: Value, b: Value, repr: Repr, x: string, y: string)
    requires (a.Int? || a.Float?) && (b.Int? || b.Float?)
    requires Numerals(repr) && Delimited(x) && Delimited(y) && Print(a, repr, x) == Print(b, repr, y)
    ensures a == b && x == y
  {
    var m := if a.Int? then IntText(a.i) else repr(a.x);
    var n := if b.Int? then IntText(b.i) else repr(b.x);
    if a.Float? { assert FloatText(repr(a.x)); }
    if b.Float? { assert FloatText(repr(b.x)); }
    NumeralApart(m, n, x, y);
    if a.Int? && b.Int? { IntApart(a.i, b.i); }
  }

  lemma {:induction false} ItemsApart(a: Value, b: Value, n: nat, repr: Repr, x: string, y: string)
    requires a.Arr? && b.Arr? && n <= |a.items| && n <= |b.items|
    requires Numerals(repr) && PrintItems(a, n, repr, x) == PrintItems(b, n, repr, y)
    ensures |a.items| == |b.items| && x == y
    ensures forall i :: n <= i < |a.items| ==> a.items[i] == b.items[i]
    decreases a, 0, |a.items| - n
  {
    ItemsEnd(a, b, n, repr, x, y);
    if n < |a.items| {
      var u, v := PrintItems(a, n + 1, repr, x), PrintItems(b, n + 1, repr, y);
      CommaApart(n, Print(a.items[n], repr, u), Print(b.items[n], repr, v));
      ItemsDelimited(a, n + 1, repr, x);
      ItemsDelimited(b, n + 1, repr, y);
      PrintApart(a.items[n], b.items[n], repr, u, v);
      ItemsApart(a, b, n + 1, repr, x, y);
    }
  }

  /** Two lists with one text end together. */
  lemma {:induction false} ItemsEnd(a: Value, b: Value, n: nat, repr: Repr, x: string, y: string)
    requires a.Arr? && b.Arr? && n <= |a.items| && n <= |b.items|
    requires Numerals(repr) && PrintItems(a, n, repr, x) == PrintItems(b, n, repr, y)
    ensures n == |a.items| <==> n == |b.items|
    ensures n == |a.items| ==> x == y
  {
    ItemsStart(a, n, repr, x);
    ItemsStart(b, n, repr, y);
    if n == |a.items| { assert PrintItems(a, n, repr, x)[1..] == x && PrintItems(b, n, repr, y)[1..] == y; }
  }

  lemma {:induction false} ItemsStart(v: Value, n: nat, repr: Repr, rest: string)
    requires Numerals(repr) && v.Arr? && n <= |v.items|
    ensures PrintItems(v, n, repr, rest) != [] && (PrintItems(v, n, repr, rest)[0] == ']' <==> n == |v.items|)
  {
    if n < |v.items| { FirstChar(v.items[n], repr, PrintItems(v, n + 1, repr, rest)); }
  }

  lemma {:induction false} CommaApart(n: nat, s: string, t: string)
    requires Comma(n, s) == Comma(n, t)
    ensures s == t
  {
    if n > 0 { assert Comma(n, s)[1..] == s && Comma(n, t)[1..] == t; }
  }

  lemma {:induction false} FieldsApart(a: Value, b: Value, k: seq<string>, l: seq<string>, n: nat, repr: Repr,
      x: string, y: string)
    requires a.Obj? && b.Obj? && n <= |k| && n <= |l|
    requires (forall key :: key in k ==> key in a.fields) && forall key :: key in l ==> key in b.fields
    requires Numerals(repr) && PrintFields(a, k, n, repr, x) == PrintFields(b, l, n, repr, y)
    ensures |k| == |l| && x == y
    ensures forall i :: n <= i < |k| ==> k[i] == l[i] && a.fields[k[i]] == b.fields[l[i]]
    decreases a, 0, |k| - n
  {
    FieldsEnd(a, b, k, l, n, repr, x, y);
    if n < |k| {
      var u, v := PrintFields(a, k, n + 1, repr, x), PrintFields(b, l, n + 1, repr, y);
      FieldStep(a, b, k, l, n, repr, x, y);
      FieldsDelimited(a, k, n + 1, repr, x);
      FieldsDelimited(b, l, n + 1, repr, y);
      PrintApart(a.fields[k[n]], b.fields[l[n]], repr, u, v);
      FieldsApart(a, b, k, l, n + 1, repr, x, y);
    }
  }

  /** Two objects with one text end together. */
  lemma {:induction false} FieldsEnd(a: Value, b: Value, k: seq<string>, l: seq<string>, n: nat, repr: Repr, x: string,
      y: string)
    requires a.Obj? && b.Obj? && n <= |k| && n <= |l|
    requires (forall key :: key in k ==> key in a.fields) && forall key :: key in l ==> key in b.fields
    requires PrintFields(a, k, n, repr, x) == PrintFields(b, l, n, repr, y)
    ensures n == |k| <==> n == |l|
    ensures n == |k| ==> x == y
  {
    var s, t := PrintFields(a, k, n, repr, x), PrintFields(b, l, n, repr, y);
    assert s[0] == t[0];
    if n == |k| { assert s[1..] == x && t[1..] == y; }
  }

  lemma {:induction false} FieldStep(a: Value, b: Value, k: seq<string>, l: seq<string>, n: nat, repr: Repr, x: string,
      y: string)
    requires a.Obj? && b.Obj? && n < |k| && n < |l|
    requires (forall key :: key in k ==> key in a.fields) && forall key :: key in l ==> key in b.fields
    requires PrintFields(a, k, n, repr, x) == PrintFields(b, l, n, repr, y)
    ensures k[n] == l[n]
    ensures Print(a.fields[k[n]], repr, PrintFields(a, k, n + 1, repr, x))
         == Print(b.fields[l[n]], repr, PrintFields(b, l, n + 1, repr, y))
  {
    var p := Print(a.fields[k[n]], repr, PrintFields(a, k, n + 1, repr, x));
    var q := Print(b.fields[l[n]], repr, PrintFields(b, l, n + 1, repr, y));
    CommaApart(n, PrintString(k[n], [':'] + p), PrintString(l[n], [':'] + q));
    EntryApart(k[n], l[n], p, q);
  }

  lemma {:induction false} EntryApart(k: string, l: string, p: string, q: string)
    requires PrintString(k, [':'] + p) == PrintString(l, [':'] + q)
    ensures k == l && p == q
  {
    StringApart(k, l, [':'] + p, [':'] + q);
    assert ([':'] + p)[1..] == p && ([':'] + q)[1..] == q;
  }

  lemma {:induction false} SameFields(a: Value, b: Value, k: seq<string>, l: seq<string>)
    requires a.Obj? && b.Obj? && |k| == |l|
    requires (forall key :: key in k <==> key in a.fields) && forall key :: key in l <==> key in b.fields
    requires forall i :: 0 <= i < |k| ==> k[i] == l[i] && a.fields[k[i]] == b.fields[l[i]]
    ensures a == b
  {
    assert k == l;
    assert a.fields.Keys == b.fields.Keys;
    forall key | key in a.fields ensures a.fields[key] == b.fields[key] { assert key in k; }
    assert a.fields == b.fields;
  }

  // ----- the canonical printer -----

  ghost function Text(repr: Repr): Value -> string { (v: Value) => Print(v, repr, "") }

  /** Different values have different texts. */
  lemma {:induction false} TextExact(repr: Repr, a: Value, b: Value)
    requires Numerals(repr)
    ensures Text(repr)(a) == Text(repr)(b) <==> a == b
  {
    if Text(repr)(a) == Text(repr)(b) { PrintApart(a, b, repr, "", ""); }
  }

  /** Floats can be written so. */
  lemma {:induction false} NumeralsExist() returns (repr: Repr)
    ensures Numerals(repr)
  {
    repr := (x: Number) => IntText(x.significand) + ("e" + Digits(x.scale));
    forall x ensures FloatText(repr(x)) {
      var n := |IntText(x.significand)|;
      assert repr(x)[n] == 'e';
    }
    forall x, y | repr(x) == repr(y) ensures x == y { PairApart(x, y); }
  }

  lemma {:induction false} PairApart(x: Number, y: Number)
    requires IntText(x.significand) + ("e" + Digits(x.scale)) == IntText(y.significand) + ("e" + Digits(y.scale))
    ensures x == y
  {
    var a, b := IntText(x.significand), IntText(y.significand);
    var s, t := "e" + Digits(x.scale), "e" + Digits(y.scale);
    assert a + s == b + t;
    if |a| < |b| { Ahead(a, b, s, t); }
    if |b| < |a| { Ahead(b, a, t, s); }
    SameSplit(a, b, s, t);
    assert s[1..] == Digits(x.scale) && t[1..] == Digits(y.scale);
    IntApart(x.significand, y.significand);
    DigitsApart(x.scale, y.scale);
  }
}
