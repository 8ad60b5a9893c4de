/** The flat Turtle reader over tokens, and the statements it reads back. */
module TurtleReader {
  import opened Common
  import opened TurtleText

  const RDF_TYPE := "http:" + "//www.w3.org/1999/02/22-rdf-syntax-ns#type"

  /** A name is kept as its prefix and its local part, a literal as its body. */
  datatype Token =
    | Iri(iri: string) | Literal(body: string) | Number(n: int) | PrefixWord
    | Name(prefix: string, local: string) | A | Mark(c: char)

  datatype Term = Text(text: string) | Num(n: int)

  datatype Triple = Triple(subject: string, predicate_: string, value: Term)

  function Decimal(n: nat): string {
    if n < 10 then ["0123456789"[n]] else Decimal(n / 10) + ["0123456789"[n % 10]]
  }

  /** `str` of a term. */
  function Spelled(t: Term): string {
    match t
    case Text(text) => text
    case Num(n) => if n < 0 then "-" + Decimal(-n) else Decimal(n)
  }

  /** The number that a decimal numeral denotes. */
  function Denoting(digits: string): int {
    if digits == [] then 0
    else 10 * Denoting(digits[..|digits| - 1]) + (digits[|digits| - 1] as int - '0' as int)
  }

  /** A number is spelled by a numeral that denotes it, with digits only and no
      needless zero in front. */
  lemma {:induction false} DecimalDenotes(n: nat)
    ensures Denoting(Decimal(n)) == n && Decimal(n) != []
    ensures forall i :: 0 <= i < |Decimal(n)| ==> '0' <= Decimal(n)[i] <= '9'
    ensures n > 0 ==> Decimal(n)[0] != '0'
  {
    if n >= 10 {
      DecimalDenotes(n / 10);
      assert Decimal(n)[..|Decimal(n)| - 1] == Decimal(n / 10);
    }
  }

  /** A term that is a number is spelled with its sign. */
  lemma {:induction false} SpelledDenotes(n: int)
    ensures var text := Spelled(Num(n));
            if n < 0 then text != [] && text[0] == '-' && Denoting(text[1..]) == -n
            else text != [] && text[0] != '-' && Denoting(text) == n
  {
    DecimalDenotes(if n < 0 then -n else n);
    if n < 0 { assert Spelled(Num(n))[1..] == Decimal(-n); }
  }

  // ----- the grammar: what a run of tokens reads as -----

  function Meaning(t: Token, prefixes: map<string, string>): Result<Term> {
    match t
    case Iri(iri) => Ok(Text(iri))
    case A => Ok(Text(RDF_TYPE))
    case Name(prefix, local) => if prefix in prefixes then Ok(Text(prefixes[prefix] + local)) else Refused
    case Literal(body) => Ok(Text(Decode(body)))
    case Number(n) => Ok(Num(n))
    case _ => Refused
  }

  function TermOf(ts: seq<Token>, prefixes: map<string, string>): Result<Term> {
    if ts == [] then Refused else Meaning(ts[0], prefixes)
  }

  /** Triples read, the token that ended them, and the tokens after it. */
  datatype Parsed = Parsed(triples: seq<Triple>, stop: Token, rest: seq<Token>)

  /** Objects separated by commas. */
  function Objects(ts: seq<Token>, prefixes: map<string, string>, s: string, p: string): (r: Result<Parsed>)
    ensures r.Ok? ==> |r.value.rest| < |ts|
  {
    match TermOf(ts, prefixes)
    case Refused => Refused
    case Ok(value) =>
      if |ts| < 2 then Refused
      else if ts[1] == Mark(',') then
        match Objects(ts[2..], prefixes, s, p)
        case Refused => Refused
        case Ok(more) => Ok(more.(triples := [Triple(s, p, value)] + more.triples))
      else Ok(Parsed([Triple(s, p, value)], ts[1], ts[2..]))
  }

  /** Predicates with their objects, separated by semicolons. */
  function Predicates(ts: seq<Token>, prefixes: map<string, string>, s: string): (r: Result<Parsed>)
    ensures r.Ok? ==> |r.value.rest| < |ts|
    decreases |ts|
  {
    match TermOf(ts, prefixes)
    case Refused => Refused
    case Ok(p) =>
      match Objects(ts[1..], prefixes, s, Spelled(p))
      case Refused => Refused
      case Ok(first) =>
        if first.stop == Mark(';') then
          match Predicates(first.rest, prefixes, s)
          case Refused => Refused
          case Ok(more) => Ok(more.(triples := first.triples + more.triples))
        else Ok(first)
  }

  function Statement(ts: seq<Token>, prefixes: map<string, string>): (r: Result<Parsed>)
    ensures r.Ok? ==> |r.value.rest| < |ts|
  {
    match TermOf(ts, prefixes)
    case Refused => Refused
    case Ok(s) =>
      match Predicates(ts[1..], prefixes, Spelled(s))
      case Refused => Refused
      case Ok(all) => if all.stop == Mark('.') then Ok(all) else Refused
  }

  predicate Declares(ts: seq<Token>) {
    |ts| >= 4 && ts[1].Name? && ts[1].local == "" && ts[2].Iri? && ts[3] == Mark('.')
  }

  function Read(ts: seq<Token>, prefixes: map<string, string>): Result<seq<Triple>>
    decreases |ts|
  {
    if ts == [] then Ok([])
    else if ts[0] == PrefixWord then
      if Declares(ts) then Read(ts[4..], prefixes[ts[1].prefix := ts[2].iri]) else Refused
    else
      match Statement(ts, prefixes)
      case Refused => Refused
      case Ok(one) =>
        match Read(one.rest, prefixes)
        case Refused => Refused
        case Ok(more) => Ok(one.triples + more)
  }

  // ----- the reader -----

  class Reader {
    const toks: seq<Token>
    var pos: nat
    var prefixes: map<string, string>
    var triples: seq<Triple>

    ghost predicate Valid()
      reads this
    {
      pos <= |toks|
    }

    ghost function Ahead(): seq<Token>
      requires Valid()
      reads this
    {
      toks[pos..]
    }

    constructor (toks: seq<Token>)
      ensures Valid() && Ahead() == toks && this.toks == toks && prefixes == map[] && triples == []
    {
      this.toks, pos, prefixes, triples := toks, 0, map[], [];
    }

    method Next() returns (token: Result<Token>)
      requires Valid()
      modifies this`pos
      ensures Valid() && (token.Ok? <==> old(Ahead()) != [])
      ensures token.Ok? ==> token.value == old(Ahead())[0] && Ahead() == old(Ahead())[1..] && pos == old(pos) + 1
    {
      if pos >= |toks| { return Refused; }
      DropNext(toks, pos);
      token := Ok(toks[pos]);
      pos := pos + 1;
    }

    method ReadTerm() returns (term: Result<Term>)
      requires Valid()
      modifies this`pos
      ensures Valid() && term == TermOf(old(Ahead()), prefixes)
      ensures term.Ok? ==> Ahead() == old(Ahead())[1..]
    {
      var token := Next();
      if token.Refused? { return Refused; }
      term := Meaning(token.value, prefixes);
    }

    /** One object and the token behind it. */
    method ReadObject(s: string, p: string) returns (sep: Result<Token>, ghost t: Triple)
      requires Valid()
      modifies this`pos, this`triples
      ensures Valid() && (sep.Ok? ==> pos > old(pos) && triples == old(triples) + [t])
      ensures Objects(old(Ahead()), prefixes, s, p)
           == if sep.Refused? then Refused
              else if sep.value != Mark(',') then Ok(Parsed([t], sep.value, Ahead()))
              else match Objects(Ahead(), prefixes, s, p)
                   case Refused => Refused
                   case Ok(more) => Ok(more.(triples := [t] + more.triples))
    {
      ghost var ts := Ahead();
      t := Triple(s, p, Num(0));
      var value := ReadTerm();
      if value.Refused? { return Refused, t; }
      t := Triple(s, p, value.value);
      triples := triples + [Triple(s, p, value.value)];
      sep := Next();
      assert |ts| > 1 ==> ts[1..][0] == ts[1] && ts[1..][1..] == ts[2..];
    }

    /** The objects of one predicate. */
    method ReadObjects(s: string, p: string) returns (stop: Result<Token>)
      requires Valid()
      modifies this`pos, this`triples
      ensures Valid()
      ensures var parsed := Objects(old(Ahead()), prefixes, s, p);
              && (stop.Ok? <==> parsed.Ok?)
              && (stop.Ok? ==>
                    stop.value == parsed.value.stop && Ahead() == parsed.value.rest
                        && triples == old(triples) + parsed.value.triples)
    {
      ghost var whole, added: seq<Triple> := Objects(Ahead(), prefixes, s, p), [];
      var sep := Mark(',');
      Begins(whole, triples);
      while sep == Mark(',')
        invariant Valid() && prefixes == old(prefixes) && triples == old(triples) + added
        invariant sep == Mark(',') ==> Continues(whole, Objects(Ahead(), prefixes, s, p), added)
        invariant sep != Mark(',') ==> whole == Ok(Parsed(added, sep, Ahead()))
        decreases sep == Mark(','), |toks| - pos
      {
        ghost var t;
        var token;
        token, t := ReadObject(s, p);
        if token.Refused? { return Refused; }
        sep := token.value;
        GoesOn(old(triples), added, [t], Objects(Ahead(), prefixes, s, p));
        added := added + [t];
      }
      stop := Ok(sep);
    }

    /** One predicate with its objects, and the token behind them. */
    method ReadPredicate(s: string) returns (sep: Result<Token>, ghost added: seq<Triple>)
      requires Valid()
      modifies this`pos, this`triples
      ensures Valid() && (sep.Ok? ==> pos > old(pos) && triples == old(triples) + added)
      ensures Predicates(old(Ahead()), prefixes, s)
           == if sep.Refused? then Refused
              else if sep.value != Mark(';') then Ok(Parsed(added, sep.value, Ahead()))
              else match Predicates(Ahead(), prefixes, s)
                   case Refused => Refused
                   case Ok(more) => Ok(more.(triples := added + more.triples))
    {
      ghost var ts := Ahead();
      added := [];
      var p := ReadTerm();
      if p.Refused? { return Refused, []; }
      sep := ReadObjects(s, Spelled(p.value));
      if sep.Ok? { added := Objects(ts[1..], prefixes, s, Spelled(p.value)).value.triples; }
    }

    /** The predicates of one subject. */
    method ReadPredicates(s: string) returns (stop: Result<Token>)
      requires Valid()
      modifies this`pos, this`triples
      ensures Valid()
      ensures var parsed := Predicates(old(Ahead()), prefixes, s);
              && (stop.Ok? <==> parsed.Ok?)
              && (stop.Ok? ==>
                    stop.value == parsed.value.stop && Ahead() == parsed.value.rest
                        && triples == old(triples) + parsed.value.triples)
    {
      ghost var whole, added: seq<Triple> := Predicates(Ahead(), prefixes, s), [];
      var sep := Mark(';');
      Begins(whole, triples);
      while sep == Mark(';')
        invariant Valid() && prefixes == old(prefixes) && triples == old(triples) + added
        invariant sep == Mark(';') ==> Continues(whole, Predicates(Ahead(), prefixes, s), added)
        invariant sep != Mark(';') ==> whole == Ok(Parsed(added, sep, Ahead()))
        decreases sep == Mark(';'), |toks| - pos
      {
        ghost var more;
        var token;
        token, more := ReadPredicate(s);
        if token.Refused? { return Refused; }
        sep := token.value;
        GoesOn(old(triples), added, more, Predicates(Ahead(), prefixes, s));
        added := added + more;
      }
      stop := Ok(sep);
    }

    method ReadStatement() returns (ok: bool)
      requires Valid()
      modifies this`pos, this`triples
      ensures Valid()
      ensures var parsed := Statement(old(Ahead()), prefixes);
              (ok <==> parsed.Ok?) && (ok ==>
                  Ahead() == parsed.value.rest && triples == old(triples) + parsed.value.triples)
    {
      var s := ReadTerm();
      if s.Refused? { return false; }
      var stop := ReadPredicates(Spelled(s.value));
      ok := stop == Ok(Mark('.'));
    }

    method ReadPrefix() returns (ok: bool)
      requires Valid() && Ahead() != []
      modifies this`pos, this`prefixes
      ensures Valid()
      ensures var ts := old(Ahead());
              (ok <==> Declares(ts)) && (ok ==>
                  Ahead() == ts[4..] && prefixes == old(prefixes)[ts[1].prefix := ts[2].iri])
    {
      ghost var ts := Ahead();
      pos := pos + 1;
      DropNext(toks, pos - 1);
      var name := Next();
      if name.Refused? { return false; }
      var iri := Next();
      if iri.Refused? { return false; }
      assert ts[1..][0] == ts[1] && ts[1..][1..] == ts[2..] && ts[2..][0] == ts[2] && ts[2..][1..] == ts[3..];
      if !name.value.Name? || name.value.local != "" || !iri.value.Iri? { return false; }
      prefixes := prefixes[name.value.prefix := iri.value.iri];
      var stop := Next();
      ok := stop == Ok(Mark('.'));
      if stop.Ok? { assert ts[3..][0] == ts[3] && ts[3..][1..] == ts[4..]; }
    }

    /** One prefix declaration or one statement. */
    method ReadItem() returns (ok: bool, ghost added: seq<Triple>)
      requires Valid() && pos < |toks|
      modifies this
      ensures Valid() && (ok ==> pos > old(pos) && triples == old(triples) + added)
      ensures Read(old(Ahead()), old(prefixes))
           == if !ok then Refused
              else match Read(Ahead(), prefixes)
                   case Refused => Refused
                   case Ok(more) => Ok(added + more)
    {
      ghost var ts := Ahead();
      DropNext(toks, pos);
      added := [];
      if toks[pos] == PrefixWord {
        ok := ReadPrefix();
        if ok && Read(Ahead(), prefixes).Ok? {
          assert [] + Read(Ahead(), prefixes).value == Read(Ahead(), prefixes).value;
        }
        assert triples + [] == triples;
      } else {
        ok := ReadStatement();
        if ok { added := Statement(ts, prefixes).value.triples; }
      }
    }

    /** `read` */
    method ReadAll() returns (ok: bool)
      requires Valid() && triples == []
      modifies this
      ensures Valid()
      ensures ok <==> Read(old(Ahead()), old(prefixes)).Ok?
      ensures ok ==> triples == Read(old(Ahead()), old(prefixes)).value
    {
      ghost var whole := Read(Ahead(), prefixes);
      Prepend([], [], whole);
      while pos < |toks|
        invariant Valid()
        invariant whole == match Read(Ahead(), prefixes)
                           case Refused => Refused
                           case Ok(more) => Ok(triples + more)
        decreases |toks| - pos
      {
        ghost var sofar := triples;
        ghost var added;
        ok, added := ReadItem();
        if !ok { return; }
        Prepend(sofar, added, Read(Ahead(), prefixes));
      }
      assert Ahead() == [] && triples + [] == triples;
      ok := true;
    }
  }

  lemma {:induction false} Prepend(a: seq<Triple>, b: seq<Triple>, more: Result<seq<Triple>>)
    ensures more.Ok? ==> a + (b + more.value) == a + b + more.value && [] + more.value == more.value
  {
  }

  /** What is still ahead completes what was added so far. */
  ghost predicate Continues(whole: Result<Parsed>, ahead: Result<Parsed>, added: seq<Triple>) {
    whole == match ahead
             case Refused => Refused
             case Ok(parsed) => Ok(parsed.(triples := added + parsed.triples))
  }

  lemma {:induction false} Begins(whole: Result<Parsed>, before: seq<Triple>)
    ensures Continues(whole, whole, []) && before + [] == before
  {
    if whole.Ok? { assert [] + whole.value.triples == whole.value.triples; }
  }

  lemma {:induction false} GoesOn(before: seq<Triple>, added: seq<Triple>, more: seq<Triple>, ahead: Result<Parsed>)
    ensures before + added + more == before + (added + more)
    ensures ahead.Ok? ==> added + (more + ahead.value.triples) == added + more + ahead.value.triples
  {
  }
}
