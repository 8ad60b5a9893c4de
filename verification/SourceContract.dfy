/** Printing descriptors as access contracts and reading them back. */
module SourceContract {
  import opened Common
  import opened Sorting
  import opened TurtleText
  import opened TurtleReader

  const AC := "https:" + "//knuckles-team.github.io/agent-connector-sdk/access#"
  const ACCESS := "#access"

  // ----- statements and their tokens -----

  datatype Entry = Entry(predicate_: Token, values: seq<Token>)

  datatype Stmt = Stmt(subject: Token, entries: seq<Entry>)

  predicate Readable(t: Token, prefixes: map<string, string>) { Meaning(t, prefixes).Ok? }

  predicate EntryReadable(e: Entry, prefixes: map<string, string>) {
    Readable(e.predicate_, prefixes) && e.values != []
    && forall i :: 0 <= i < |e.values| ==> Readable(e.values[i], prefixes)
  }

  predicate StmtReadable(s: Stmt, prefixes: map<string, string>) {
    Readable(s.subject, prefixes) && s.entries != []
    && forall i :: 0 <= i < |s.entries| ==> EntryReadable(s.entries[i], prefixes)
  }

  function PrintValues(values: seq<Token>): seq<Token>
    requires values != []
  {
    if |values| == 1 then [values[0]] else [values[0], Mark(',')] + PrintValues(values[1..])
  }

  function PrintEntries(entries: seq<Entry>): seq<Token>
    requires entries != [] && forall i :: 0 <= i < |entries| ==> entries[i].values != []
  {
    var first := [entries[0].predicate_] + PrintValues(entries[0].values);
    if |entries| == 1 then first else first + [Mark(';')] + PrintEntries(entries[1..])
  }

  function Print(s: Stmt): seq<Token>
    requires s.entries != [] && forall i :: 0 <= i < |s.entries| ==> s.entries[i].values != []
  {
    [s.subject] + PrintEntries(s.entries) + [Mark('.')]
  }

  function ValueTriples(s: string, p: string, values: seq<Token>, prefixes: map<string, string>): seq<Triple>
    requires forall i :: 0 <= i < |values| ==> Readable(values[i], prefixes)
  {
    if values == [] then []
    else
      assert Readable(values[0], prefixes);
      [Triple(s, p, Meaning(values[0], prefixes).value)] + ValueTriples(s, p, values[1..], prefixes)
  }

  function EntryTriples(s: string, entries: seq<Entry>, prefixes: map<string, string>): seq<Triple>
    requires forall i :: 0 <= i < |entries| ==> EntryReadable(entries[i], prefixes)
  {
    if entries == [] then []
    else
      assert EntryReadable(entries[0], prefixes);
      ValueTriples(s, Spelled(Meaning(entries[0].predicate_, prefixes).value), entries[0].values, prefixes)
      + EntryTriples(s, entries[1..], prefixes)
  }

  function StmtTriples(s: Stmt, prefixes: map<string, string>): seq<Triple>
    requires StmtReadable(s, prefixes)
  {
    EntryTriples(Spelled(Meaning(s.subject, prefixes).value), s.entries, prefixes)
  }

  // ----- the statement reader recovers every triple -----

  lemma {:induction false} ObjectsRead(s: string, p: string, values: seq<Token>, prefixes: map<string, string>,
      stop: Token, rest: seq<Token>)
    requires values != [] && stop != Mark(',') && forall i :: 0 <= i < |values| ==> Readable(values[i], prefixes)
    ensures Objects(PrintValues(values) + [stop] + rest, prefixes, s, p)
         == Ok(Parsed(ValueTriples(s, p, values, prefixes), stop, rest))
  {
    var ts := PrintValues(values) + [stop] + rest;
    assert Readable(values[0], prefixes);
    if |values| == 1 {
      assert ts == [values[0], stop] + rest;
      assert ts[2..] == rest && ts[1] == stop;
      var t := Triple(s, p, Meaning(values[0], prefixes).value);
      assert ValueTriples(s, p, values[1..], prefixes) == [] && [t] + [] == [t];
    } else {
      assert ts[2..] == PrintValues(values[1..]) + [stop] + rest && ts[1] == Mark(',');
      ObjectsRead(s, p, values[1..], prefixes, stop, rest);
    }
  }

  lemma {:induction false} PredicatesRead(s: string, entries: seq<Entry>, prefixes: map<string, string>,
      rest: seq<Token>)
    requires entries != [] && forall i :: 0 <= i < |entries| ==>
        EntryReadable(entries[i], prefixes) && entries[i].values != []
    ensures Predicates(PrintEntries(entries) + [Mark('.')] + rest, prefixes, s)
         == Ok(Parsed(EntryTriples(s, entries, prefixes), Mark('.'), rest))
  {
    var ts := PrintEntries(entries) + [Mark('.')] + rest;
    var e := entries[0];
    assert EntryReadable(e, prefixes);
    var p := Spelled(Meaning(e.predicate_, prefixes).value);
    if |entries| == 1 {
      assert ts[1..] == PrintValues(e.values) + [Mark('.')] + rest;
      ObjectsRead(s, p, e.values, prefixes, Mark('.'), rest);
      var t := ValueTriples(s, p, e.values, prefixes);
      assert EntryTriples(s, entries[1..], prefixes) == [] && t + [] == t;
    } else {
      var tail := PrintEntries(entries[1..]) + [Mark('.')] + rest;
      assert ts[1..] == PrintValues(e.values) + [Mark(';')] + tail;
      ObjectsRead(s, p, e.values, prefixes, Mark(';'), tail);
      PredicatesRead(s, entries[1..], prefixes, rest);
    }
  }

  lemma {:induction false} StatementRead(s: Stmt, prefixes: map<string, string>, rest: seq<Token>)
    requires StmtReadable(s, prefixes)
    ensures Statement(Print(s) + rest, prefixes) == Ok(Parsed(StmtTriples(s, prefixes), Mark('.'), rest))
  {
    assert (Print(s) + rest)[1..] == PrintEntries(s.entries) + [Mark('.')] + rest;
    PredicatesRead(Spelled(Meaning(s.subject, prefixes).value), s.entries, prefixes, rest);
  }

  predicate AllReadable(stmts: seq<Stmt>, prefixes: map<string, string>) {
    forall i :: 0 <= i < |stmts| ==> StmtReadable(stmts[i], prefixes)
  }

  function PrintAll(stmts: seq<Stmt>, prefixes: map<string, string>): seq<Token>
    requires AllReadable(stmts, prefixes)
  {
    if stmts == [] then [] else Print(stmts[0]) + PrintAll(stmts[1..], prefixes)
  }

  function AllTriples(stmts: seq<Stmt>, prefixes: map<string, string>): seq<Triple>
    requires AllReadable(stmts, prefixes)
  {
    if stmts == [] then [] else StmtTriples(stmts[0], prefixes) + AllTriples(stmts[1..], prefixes)
  }

  /** Printed statements read back as their triples, in order. */
  lemma {:induction false} DocumentRead(stmts: seq<Stmt>, prefixes: map<string, string>)
    requires AllReadable(stmts, prefixes)
    ensures Read(PrintAll(stmts, prefixes), prefixes) == Ok(AllTriples(stmts, prefixes))
  {
    if stmts != [] {
      var rest := PrintAll(stmts[1..], prefixes);
      StatementRead(stmts[0], prefixes, rest);
      DocumentRead(stmts[1..], prefixes);
      assert (Print(stmts[0]) + rest)[0] == stmts[0].subject;
    }
  }

  // ----- blocks of facts -----

  /** What one line of a contract states of its subject: its class, a link, or a value. */
  datatype Fact = Kind(class_: string) | Link(name: string, iri: string) | Field(name: string, value: Term)

  datatype Block = Block(subject: string, facts: seq<Fact>)

  function Key(f: Fact): string { if f.Kind? then RDF_TYPE else AC + f.name }

  function Object(f: Fact): Term {
    match f
    case Kind(class_) => Text(AC + class_)
    case Link(_, iri) => Text(iri)
    case Field(_, value) => value
  }

  function Written(t: Term): Token {
    match t
    case Text(text) => Literal(Encode(text))
    case Num(n) => Number(n)
  }

  function EntryOf(f: Fact): Entry {
    match f
    case Kind(class_) => Entry(A, [Name("ac", class_)])
    case Link(name, iri) => Entry(Name("ac", name), [Iri(iri)])
    case Field(name, value) => Entry(Name("ac", name), [Written(value)])
  }

  predicate PlainText(s: string) { forall i :: 0 <= i < |s| ==> !Control(s[i]) }

  /** The value holds no control character. */
  predicate Plain(f: Fact) { f.Field? && f.value.Text? ==> PlainText(f.value.text) }

  function PREFIXES(): map<string, string> { map["ac" := AC] }

  function Entries(facts: seq<Fact>): seq<Entry> {
    if facts == [] then [] else [EntryOf(facts[0])] + Entries(facts[1..])
  }

  function Rendered(b: Block): Stmt { Stmt(Iri(b.subject), Entries(b.facts)) }

  /** What facts declare of a subject. */
  function FactTriples(s: string, facts: seq<Fact>): seq<Triple> {
    if facts == [] then [] else [Triple(s, Key(facts[0]), Object(facts[0]))] + FactTriples(s, facts[1..])
  }

  predicate PlainFacts(facts: seq<Fact>) { forall i :: 0 <= i < |facts| ==> Plain(facts[i]) }

  lemma {:induction false} EntriesReadable(facts: seq<Fact>)
    ensures |Entries(facts)| == |facts|
    ensures forall i :: 0 <= i < |facts| ==> EntryReadable(Entries(facts)[i], PREFIXES())
  {
    if facts != [] {
      EntriesReadable(facts[1..]);
      assert EntryReadable(EntryOf(facts[0]), PREFIXES());
    }
  }

  lemma {:induction false} FactMeans(f: Fact)
    ensures EntryReadable(EntryOf(f), PREFIXES())
    ensures Spelled(Meaning(EntryOf(f).predicate_, PREFIXES()).value) == Key(f)
    ensures Meaning(EntryOf(f).values[0], PREFIXES()) == Ok(Object(f)) <==> Plain(f)
  {
    if f.Field? && f.value.Text? { LiteralRoundTrip(f.value.text); }
  }

  lemma {:induction false} FactRead(s: string, f: Fact)
    requires EntryReadable(EntryOf(f), PREFIXES())
    ensures ValueTriples(s, Key(f), EntryOf(f).values, PREFIXES())
         == [Triple(s, Key(f), Meaning(EntryOf(f).values[0], PREFIXES()).value)]
  {
    var values := EntryOf(f).values;
    assert ValueTriples(s, Key(f), values[1..], PREFIXES()) == [];
  }

  /** Facts read back as declared exactly when no value holds a control character. */
  lemma {:induction false} FactsRead(s: string, facts: seq<Fact>)
    requires forall i :: 0 <= i < |Entries(facts)| ==> EntryReadable(Entries(facts)[i], PREFIXES())
    ensures EntryTriples(s, Entries(facts), PREFIXES()) == FactTriples(s, facts) <==> PlainFacts(facts)
    ensures |EntryTriples(s, Entries(facts), PREFIXES())| == |FactTriples(s, facts)|
  {
    if facts != [] {
      var f, rest := facts[0], Entries(facts[1..]);
      assert Entries(facts)[0] == EntryOf(f) && Entries(facts)[1..] == rest;
      EntriesReadable(facts[1..]);
      FactsRead(s, facts[1..]);
      FactMeans(f);
      FactRead(s, f);
      var read := Triple(s, Key(f), Meaning(EntryOf(f).values[0], PREFIXES()).value);
      assert EntryTriples(s, Entries(facts), PREFIXES()) == [read] + EntryTriples(s, rest, PREFIXES());
      Heads(read, EntryTriples(s, rest, PREFIXES()), Triple(s, Key(f), Object(f)), FactTriples(s, facts[1..]));
      PlainNext(facts);
    }
  }

  lemma {:induction false} PlainNext(facts: seq<Fact>)
    requires facts != []
    ensures PlainFacts(facts) <==> Plain(facts[0]) && PlainFacts(facts[1..])
  {
    if Plain(facts[0]) && PlainFacts(facts[1..]) {
      forall i | 0 <= i < |facts| ensures Plain(facts[i]) { if i > 0 { assert facts[i] == facts[1..][i - 1]; } }
    }
  }

  lemma {:induction false} Heads<T>(a: T, s: seq<T>, b: T, t: seq<T>)
    ensures [a] + s == [b] + t <==> a == b && s == t
  {
    if [a] + s == [b] + t { assert ([a] + s)[1..] == ([b] + t)[1..] && ([a] + s)[0] == ([b] + t)[0]; }
  }

  lemma {:induction false} BlockReadable(b: Block)
    requires b.facts != []
    ensures StmtReadable(Rendered(b), PREFIXES())
  {
    EntriesReadable(b.facts);
  }

  /** A statement reads back as declared exactly when no value holds a control character. */
  lemma {:induction false} BlockRoundTrip(b: Block)
    requires b.facts != [] && StmtReadable(Rendered(b), PREFIXES())
    ensures StmtTriples(Rendered(b), PREFIXES()) == FactTriples(b.subject, b.facts) <==> PlainFacts(b.facts)
    ensures |StmtTriples(Rendered(b), PREFIXES())| == |FactTriples(b.subject, b.facts)|
  {
    EntriesReadable(b.facts);
    FactsRead(b.subject, b.facts);
  }

  function RenderAll(blocks: seq<Block>): seq<Stmt> {
    if blocks == [] then [] else [Rendered(blocks[0])] + RenderAll(blocks[1..])
  }

  function TriplesOf(blocks: seq<Block>): seq<Triple> {
    if blocks == [] then [] else FactTriples(blocks[0].subject, blocks[0].facts) + TriplesOf(blocks[1..])
  }

  predicate Filled(blocks: seq<Block>) { forall i :: 0 <= i < |blocks| ==> blocks[i].facts != [] }

  predicate PlainBlocks(blocks: seq<Block>) { forall i :: 0 <= i < |blocks| ==> PlainFacts(blocks[i].facts) }

  lemma {:induction false} AllRendered(blocks: seq<Block>)
    requires Filled(blocks)
    ensures AllReadable(RenderAll(blocks), PREFIXES())
  {
    if blocks != [] {
      AllRendered(blocks[1..]);
      BlockReadable(blocks[0]);
      MoreReadable(Rendered(blocks[0]), RenderAll(blocks[1..]));
    }
  }

  lemma {:induction false} MoreReadable(s: Stmt, stmts: seq<Stmt>)
    requires StmtReadable(s, PREFIXES()) && AllReadable(stmts, PREFIXES())
    ensures AllReadable([s] + stmts, PREFIXES())
  {
    forall i | 0 <= i < |[s] + stmts| ensures StmtReadable(([s] + stmts)[i], PREFIXES()) {
      if i > 0 { assert StmtReadable(stmts[i - 1], PREFIXES()); }
    }
  }

  lemma {:induction false} SplitEqual<T>(a: seq<T>, b: seq<T>, c: seq<T>, d: seq<T>)
    requires |a| == |c|
    ensures a + b == c + d <==> a == c && b == d
  {
    if a + b == c + d {
      assert (a + b)[..|a|] == a && (c + d)[..|c|] == c;
      assert (a + b)[|a|..] == b && (c + d)[|c|..] == d;
    }
  }

  lemma {:induction false} AllDeclared(blocks: seq<Block>)
    requires Filled(blocks) && AllReadable(RenderAll(blocks), PREFIXES())
    ensures AllTriples(RenderAll(blocks), PREFIXES()) == TriplesOf(blocks) <==> PlainBlocks(blocks)
  {
    if blocks != [] {
      var b, rest := blocks[0], blocks[1..];
      assert RenderAll(blocks)[1..] == RenderAll(rest) && RenderAll(blocks)[0] == Rendered(b);
      AllRendered(rest);
      BlockReadable(b);
      BlockRoundTrip(b);
      AllDeclared(rest);
      SplitEqual(StmtTriples(Rendered(b), PREFIXES()), AllTriples(RenderAll(rest), PREFIXES()),
                 FactTriples(b.subject, b.facts), TriplesOf(rest));
      BlocksNext(blocks);
    }
  }

  lemma {:induction false} BlocksNext(blocks: seq<Block>)
    requires blocks != []
    ensures PlainBlocks(blocks) <==> PlainFacts(blocks[0].facts) && PlainBlocks(blocks[1..])
  {
    if PlainFacts(blocks[0].facts) && PlainBlocks(blocks[1..]) {
      forall i | 0 <= i < |blocks| ensures PlainFacts(blocks[i].facts) {
        if i > 0 { assert blocks[i] == blocks[1..][i - 1]; }
      }
    }
  }

  // ----- descriptors -----

  /** A field of the source, and the ontology property it is bound to. */
  datatype Column = Column(name: string, property: Option<string>)

  /** A descriptor's declared terms, by name, in the order they are printed, and its
      fields. */
  datatype Descriptor = Descriptor(uri: string, terms: seq<(string, Term)>, columns: seq<Column>)

  /** `urllib.parse.quote`, taken as given. */
  type Quote = string -> string

  ghost predicate Injective(quote: Quote) { forall a, b :: quote(a) == quote(b) ==> a == b }

  predicate Bound(f: Column) { f.property.Some? && f.property.value != "" }

  function Identity(d: Descriptor): string { d.uri + ACCESS }

  function TermFacts(terms: seq<(string, Term)>): seq<Fact> {
    if terms == [] then [] else [Field(terms[0].0, terms[0].1)] + TermFacts(terms[1..])
  }

  /** The contract's own statement. */
  function ContractBlock(d: Descriptor): Block { Block(Identity(d), [Kind("AccessContract")] + TermFacts(d.terms)) }

  function BindingSubject(d: Descriptor, f: Column, quote: Quote): string {
    d.uri + (ACCESS + ("/field/" + quote(f.name)))
  }

  function BindingFacts(d: Descriptor, f: Column): seq<Fact>
    requires Bound(f)
  {
    [Kind("PropertyBinding"), Link("contract", Identity(d)), Field("property", Text(f.property.value)),
     Field("field", Text(f.name))]
  }

  /** The statements of the bound fields. */
  function BindingBlocks(d: Descriptor, columns: seq<Column>, quote: Quote): seq<Block> {
    if columns == [] then []
    else
      (if Bound(columns[0]) then [Block(BindingSubject(d, columns[0], quote), BindingFacts(d, columns[0]))] else [])
      + BindingBlocks(d, columns[1..], quote)
  }

  predicate ByName(a: Column, b: Column) { Before(a.name, b.name) }

  /** The fields in the order they are printed. */
  function Printed(d: Descriptor): seq<Column> { Sort(ByName, d.columns) }

  /** Bindings are printed by field name, each field of the descriptor in its turn. */
  lemma {:induction false} PrintedInOrder(d: Descriptor)
    ensures multiset(Printed(d)) == multiset(d.columns)
    ensures forall i, j :: 0 <= i < j < |Printed(d)| ==> !Before(Printed(d)[j].name, Printed(d)[i].name)
  {
    BeforeIsStrict();
    assert WeakOrder(ByName) by {
      forall a, b, c: Column | ByName(a, c) ensures ByName(a, b) || ByName(b, c) { BeforeTotal(a.name, b.name); }
    }
    SortPermutes(ByName, d.columns);
    SortSortsWeakly(ByName, d.columns);
    forall i, j | 0 <= i < j < |Printed(d)| ensures !Before(Printed(d)[j].name, Printed(d)[i].name) {
      assert !ByName(Printed(d)[j], Printed(d)[i]);
    }
  }

  /** `_render_descriptor` */
  function BlocksFor(d: Descriptor, quote: Quote): seq<Block> {
    [ContractBlock(d)] + BindingBlocks(d, Printed(d), quote)
  }

  function BlocksOf(ds: seq<Descriptor>, quote: Quote): (blocks: seq<Block>)
    ensures Filled(blocks)
  {
    if ds == [] then []
    else
      BindingsFilled(ds[0], Printed(ds[0]), quote);
      BlocksFor(ds[0], quote) + BlocksOf(ds[1..], quote)
  }

  lemma {:induction false} BindingsFilled(d: Descriptor, columns: seq<Column>, quote: Quote)
    ensures Filled(BindingBlocks(d, columns, quote))
  {
    if columns != [] { BindingsFilled(d, columns[1..], quote); }
  }

  // ----- the whole document -----

  function Header(): seq<Token> { [PrefixWord, Name("ac", ""), Iri(AC), Mark('.')] }

  /** The printed document, as tokens. */
  function Document(ds: seq<Descriptor>, quote: Quote): seq<Token> {
    AllRendered(BlocksOf(ds, quote));
    Header() + PrintAll(RenderAll(BlocksOf(ds, quote)), PREFIXES())
  }

  lemma {:induction false} HeaderRead(body: seq<Token>)
    ensures Read(Header() + body, map[]) == Read(body, PREFIXES())
  {
    assert (Header() + body)[4..] == body;
    assert map[]["ac" := AC] == PREFIXES();
  }

  /** No term, property or name holds a control character. */
  predicate AllPlain(ds: seq<Descriptor>, quote: Quote) { PlainBlocks(BlocksOf(ds, quote)) }

  /** A printed document always reads. What it reads as is what was declared, contracts
      and bindings, exactly when no value holds a control character. */
  lemma {:induction false} DocumentRoundTrip(ds: seq<Descriptor>, quote: Quote)
    ensures Read(Document(ds, quote), map[]).Ok?
    ensures Read(Document(ds, quote), map[]).value == TriplesOf(BlocksOf(ds, quote)) <==> AllPlain(ds, quote)
  {
    var blocks := BlocksOf(ds, quote);
    AllRendered(blocks);
    HeaderRead(PrintAll(RenderAll(blocks), PREFIXES()));
    DocumentRead(RenderAll(blocks), PREFIXES());
    AllDeclared(blocks);
  }

  // ----- the graph that was read -----

  /** The objects of a subject's predicate, in order. */
  function Values(triples: seq<Triple>, s: string, p: string): seq<Term> {
    if triples == [] then []
    else (if triples[0].subject == s && triples[0].predicate_ == p then [triples[0].value] else [])
         + Values(triples[1..], s, p)
  }

  lemma {:induction false} ValuesSum(a: seq<Triple>, b: seq<Triple>, s: string, p: string)
    ensures Values(a + b, s, p) == Values(a, s, p) + Values(b, s, p)
  {
    if a == [] {
      assert a + b == b;
    } else {
      assert (a + b)[1..] == a[1..] + b;
      ValuesSum(a[1..], b, s, p);
    }
  }

  function FactValues(facts: seq<Fact>, p: string): seq<Term> {
    if facts == [] then [] else (if Key(facts[0]) == p then [Object(facts[0])] else []) + FactValues(facts[1..], p)
  }

  lemma {:induction false} ValuesOfFacts(t: string, facts: seq<Fact>, s: string, p: string)
    ensures Values(FactTriples(t, facts), s, p) == if s == t then FactValues(facts, p) else []
  {
    if facts != [] {
      assert FactTriples(t, facts)[1..] == FactTriples(t, facts[1..]);
      ValuesOfFacts(t, facts[1..], s, p);
    }
  }

  lemma {:induction false} FirstBlock(blocks: seq<Block>, s: string, p: string)
    requires blocks != []
    ensures Values(TriplesOf(blocks), s, p)
         == (if blocks[0].subject == s then FactValues(blocks[0].facts, p) else [])
             + Values(TriplesOf(blocks[1..]), s, p)
  {
    ValuesSum(FactTriples(blocks[0].subject, blocks[0].facts), TriplesOf(blocks[1..]), s, p);
    ValuesOfFacts(blocks[0].subject, blocks[0].facts, s, p);
  }

  predicate Apart(blocks: seq<Block>) {
    forall i, j :: 0 <= i < j < |blocks| ==> blocks[i].subject != blocks[j].subject
  }

  lemma {:induction false} NoBlock(blocks: seq<Block>, s: string, p: string)
    requires forall i :: 0 <= i < |blocks| ==> blocks[i].subject != s
    ensures Values(TriplesOf(blocks), s, p) == []
  {
    if blocks != [] {
      FirstBlock(blocks, s, p);
      NoBlock(blocks[1..], s, p);
    }
  }

  /** A block whose subject no other block has. */
  predicate Alone(blocks: seq<Block>, i: nat)
    requires i < |blocks|
  {
    forall j :: 0 <= j < |blocks| && j != i ==> blocks[j].subject != blocks[i].subject
  }

  lemma {:induction false} ApartAlone(blocks: seq<Block>, i: nat)
    requires Apart(blocks) && i < |blocks|
    ensures Alone(blocks, i)
  {
  }

  /** The values of such a subject are those of its block. */
  lemma {:induction false} OwnValues(blocks: seq<Block>, i: nat, p: string)
    requires i < |blocks| && Alone(blocks, i)
    ensures Values(TriplesOf(blocks), blocks[i].subject, p) == FactValues(blocks[i].facts, p)
  {
    var s := blocks[i].subject;
    FirstBlock(blocks, s, p);
    if i == 0 {
      NoBlock(blocks[1..], s, p);
      assert FactValues(blocks[0].facts, p) + [] == FactValues(blocks[0].facts, p);
    } else {
      OwnValues(blocks[1..], i - 1, p);
    }
  }

  /** A block adds its values to those of its subject. */
  lemma {:induction false} BlockAdds(blocks: seq<Block>, i: nat, p: string)
    requires i < |blocks|
    ensures forall v :: v in FactValues(blocks[i].facts, p) ==> v in Values(TriplesOf(blocks), blocks[i].subject, p)
    ensures |Values(TriplesOf(blocks), blocks[i].subject, p)| >= |FactValues(blocks[i].facts, p)|
  {
    var s := blocks[i].subject;
    FirstBlock(blocks, s, p);
    if i > 0 { BlockAdds(blocks[1..], i - 1, p); }
  }

  lemma {:induction false} FirstCounts(blocks: seq<Block>, s: string, p: string)
    requires blocks != []
    ensures |Values(TriplesOf(blocks), s, p)|
         == (if blocks[0].subject == s then |FactValues(blocks[0].facts, p)| else 0)
            + |Values(TriplesOf(blocks[1..]), s, p)|
  {
    FirstBlock(blocks, s, p);
  }

  lemma {:induction false} BlockCounts(blocks: seq<Block>, i: nat, p: string)
    requires i < |blocks|
    ensures |Values(TriplesOf(blocks), blocks[i].subject, p)| >= |FactValues(blocks[i].facts, p)|
  {
    BlockAdds(blocks, i, p);
  }

  lemma {:induction false} TwoBlocksAdd(blocks: seq<Block>, i: nat, j: nat, p: string)
    requires i < j < |blocks| && blocks[i].subject == blocks[j].subject
    ensures |Values(TriplesOf(blocks), blocks[i].subject, p)|
         >= |FactValues(blocks[i].facts, p)| + |FactValues(blocks[j].facts, p)|
  {
    var s := blocks[i].subject;
    var rest := blocks[1..];
    assert rest[j - 1] == blocks[j];
    FirstCounts(blocks, s, p);
    if i > 0 {
      assert rest[i - 1] == blocks[i];
      TwoBlocksAdd(rest, i - 1, j - 1, p);
    } else {
      BlockCounts(rest, j - 1, p);
    }
  }

  // ----- subjects are apart -----

  /** The names of the terms a contract can declare. */
  const TERM_NAMES: set<string> := {
    "classIri", "sourceId", "entity", "keyField", "accessKind", "operation", "pagination", "recordsPath",
    "paginationParam", "nextCursorPath", "pageSize", "pageSizeParam", "completion", "startPage", "startOffset",
    "authRef"
  }

  /** A descriptor with a canonical URI, as `_validate_identity` demands, and each term once. */
  predicate Canonical(d: Descriptor) {
    && AboveHash(d.uri)
    && (forall i, j :: 0 <= i < j < |d.terms| ==> d.terms[i].0 != d.terms[j].0)
    && (forall i :: 0 <= i < |d.terms| ==> d.terms[i].0 in TERM_NAMES)
  }

  /** Each bound field has its own name. */
  predicate OwnBindings(columns: seq<Column>) {
    forall i, j :: 0 <= i < j < |columns| && Bound(columns[i]) && Bound(columns[j]) ==>
        columns[i].name != columns[j].name
  }

  predicate OwnUris(ds: seq<Descriptor>) {
    forall i, j :: 0 <= i < j < |ds| ==> ds[i].uri != ds[j].uri
  }

  /** A subject of the contract at a URI, or of one of its bindings. */
  predicate Owned(s: string, uri: string) {
    |uri| + |ACCESS| <= |s| && s[..|uri|] == uri && s[|uri|] == '#'
  }

  lemma {:induction false} FirstHash(s: string, uri: string)
    requires AboveHash(uri) && Owned(s, uri)
    ensures |uri| < |s| && s[|uri|] == '#' && forall k :: 0 <= k < |uri| ==> s[k] > '#'
  {
    forall k | 0 <= k < |uri| ensures s[k] > '#' { assert s[..|uri|][k] == uri[k]; }
  }

  lemma {:induction false} OwnedOnce(s: string, a: string, b: string)
    requires AboveHash(a) && AboveHash(b) && Owned(s, a) && Owned(s, b)
    ensures a == b
  {
    FirstHash(s, a);
    FirstHash(s, b);
  }

  lemma {:induction false} SubjectOwned(uri: string, tail: string)
    ensures Owned(uri + (ACCESS + tail), uri) && Owned(uri + ACCESS, uri)
  {
    assert (uri + (ACCESS + tail))[..|uri|] == uri && (uri + ACCESS)[..|uri|] == uri;
  }

  lemma {:induction false} BindingApart(d: Descriptor, f: Column, g: Column, quote: Quote)
    requires Injective(quote)
    ensures BindingSubject(d, f, quote) == BindingSubject(d, g, quote) <==> f.name == g.name
    ensures BindingSubject(d, f, quote) != Identity(d)
  {
    var a, b := ACCESS + ("/field/" + quote(f.name)), ACCESS + ("/field/" + quote(g.name));
    SameTail(d.uri, a, b);
    SameTail(ACCESS, "/field/" + quote(f.name), "/field/" + quote(g.name));
    SameTail("/field/", quote(f.name), quote(g.name));
  }

  lemma {:induction false} SameTail(a: string, b: string, c: string)
    ensures a + b == a + c <==> b == c
  {
    if a + b == a + c { assert (a + b)[|a|..] == b && (a + c)[|a|..] == c; }
  }

  predicate AllOwned(blocks: seq<Block>, uri: string) {
    forall i :: 0 <= i < |blocks| ==> Owned(blocks[i].subject, uri)
  }

  /** The blocks of bound fields, and the field each stands for. */
  lemma {:induction false} BindingAt(d: Descriptor, columns: seq<Column>, quote: Quote, k: nat) returns (i: nat)
    requires k < |BindingBlocks(d, columns, quote)|
    ensures i < |columns| && Bound(columns[i])
    ensures BindingBlocks(d, columns, quote)[k]
        == Block(BindingSubject(d, columns[i], quote), BindingFacts(d, columns[i]))
  {
    if Bound(columns[0]) && k == 0 {
      i := 0;
    } else {
      var j := BindingAt(d, columns[1..], quote, if Bound(columns[0]) then k - 1 else k);
      i := j + 1;
    }
  }

  lemma {:induction false} BindingsApart(d: Descriptor, columns: seq<Column>, quote: Quote)
    requires Injective(quote) && OwnBindings(columns)
    ensures Apart(BindingBlocks(d, columns, quote))
  {
    if columns != [] {
      var rest := BindingBlocks(d, columns[1..], quote);
      forall i, j | 0 <= i < j < |columns[1..]| && Bound(columns[1..][i]) && Bound(columns[1..][j])
        ensures columns[1..][i].name != columns[1..][j].name
      {
        assert columns[1..][i] == columns[i + 1] && columns[1..][j] == columns[j + 1];
      }
      BindingsApart(d, columns[1..], quote);
      forall k | 0 <= k < |rest| && Bound(columns[0]) ensures rest[k].subject != BindingSubject(d, columns[0], quote) {
        var i := BindingAt(d, columns[1..], quote, k);
        BindingApart(d, columns[0], columns[i + 1], quote);
      }
    }
  }

  lemma {:induction false} BlocksForApart(d: Descriptor, quote: Quote)
    requires Injective(quote)
    ensures AllOwned(BlocksFor(d, quote), d.uri) && Alone(BlocksFor(d, quote), 0)
    ensures OwnBindings(Printed(d)) ==> Apart(BlocksFor(d, quote))
  {
    var rest := BindingBlocks(d, Printed(d), quote);
    SubjectOwned(d.uri, "");
    forall k | 0 <= k < |rest| ensures Owned(rest[k].subject, d.uri) && rest[k].subject != Identity(d) {
      var i := BindingAt(d, Printed(d), quote, k);
      SubjectOwned(d.uri, "/field/" + quote(Printed(d)[i].name));
      BindingApart(d, Printed(d)[i], Printed(d)[i], quote);
    }
    if OwnBindings(Printed(d)) { BindingsApart(d, Printed(d), quote); }
  }

  predicate OwnedBySome(s: string, ds: seq<Descriptor>) { exists i :: 0 <= i < |ds| && Owned(s, ds[i].uri) }

  predicate CanonicalAll(ds: seq<Descriptor>) { forall i :: 0 <= i < |ds| ==> Canonical(ds[i]) }

  predicate OwnBindingsAll(ds: seq<Descriptor>) { forall i :: 0 <= i < |ds| ==> OwnBindings(Printed(ds[i])) }

  lemma {:induction false} BlocksApart(ds: seq<Descriptor>, quote: Quote)
    requires Injective(quote) && OwnUris(ds) && CanonicalAll(ds)
    ensures forall k :: 0 <= k < |BlocksOf(ds, quote)| ==> OwnedBySome(BlocksOf(ds, quote)[k].subject, ds)
    ensures OwnBindingsAll(ds) ==> Apart(BlocksOf(ds, quote))
  {
    if ds != [] {
      var first, rest := BlocksFor(ds[0], quote), BlocksOf(ds[1..], quote);
      BlocksForApart(ds[0], quote);
      assert forall i :: 0 <= i < |ds[1..]| ==> ds[1..][i] == ds[i + 1];
      BlocksApart(ds[1..], quote);
      forall k | 0 <= k < |rest| ensures OwnedBySome(rest[k].subject, ds) {
        var i :| 0 <= i < |ds[1..]| && Owned(rest[k].subject, ds[1..][i].uri);
        assert Owned(rest[k].subject, ds[i + 1].uri);
      }
      forall k | 0 <= k < |first|
        ensures OwnedBySome(first[k].subject, ds)
      {
        assert Owned(first[k].subject, ds[0].uri);
      }
      forall j, k | 0 <= j < |first| && 0 <= k < |rest| ensures first[j].subject != rest[k].subject {
        var i :| 0 <= i < |ds[1..]| && Owned(rest[k].subject, ds[1..][i].uri);
        assert Canonical(ds[0]) && Canonical(ds[i + 1]);
        if first[j].subject == rest[k].subject { OwnedOnce(rest[k].subject, ds[0].uri, ds[i + 1].uri); }
      }
    }
  }

  lemma {:induction false} AloneSum(a: seq<Block>, b: seq<Block>, m: nat)
    requires m < |a + b| && if m < |a| then Alone(a, m) else Alone(b, m - |a|)
    requires if m < |a| then Others(b, a[m].subject) else Others(a, b[m - |a|].subject)
    ensures Alone(a + b, m)
  {
  }

  /** Blocks of other subjects. */
  predicate Others(blocks: seq<Block>, s: string) { forall k :: 0 <= k < |blocks| ==> blocks[k].subject != s }

  lemma {:induction false} OthersOwned(blocks: seq<Block>, ds: seq<Descriptor>, s: string, uri: string)
    requires forall k :: 0 <= k < |blocks| ==> OwnedBySome(blocks[k].subject, ds)
    requires CanonicalAll(ds) && AboveHash(uri) && Owned(s, uri) && forall i :: 0 <= i < |ds| ==> ds[i].uri != uri
    ensures Others(blocks, s)
  {
    forall k | 0 <= k < |blocks| ensures blocks[k].subject != s {
      var i :| 0 <= i < |ds| && Owned(blocks[k].subject, ds[i].uri);
      assert Canonical(ds[i]);
      OwnedApart(blocks[k].subject, s, ds[i].uri, uri);
    }
  }

  lemma {:induction false} OwnedApart(s: string, t: string, a: string, b: string)
    requires AboveHash(a) && AboveHash(b) && Owned(s, a) && Owned(t, b) && a != b
    ensures s != t
  {
    if s == t { OwnedOnce(s, a, b); }
  }

  lemma {:induction false} LaterOthers(ds: seq<Descriptor>, quote: Quote)
    requires Injective(quote) && OwnUris(ds) && CanonicalAll(ds) && ds != []
    ensures Others(BlocksOf(ds[1..], quote), Identity(ds[0]))
  {
    assert Canonical(ds[0]);
    SubjectOwned(ds[0].uri, "");
    BlocksApart(ds[1..], quote);
    OthersOwned(BlocksOf(ds[1..], quote), ds[1..], Identity(ds[0]), ds[0].uri);
  }

  lemma {:induction false} EarlierOthers(d: Descriptor, quote: Quote, e: Descriptor)
    requires Injective(quote) && d.uri != e.uri && Canonical(d) && Canonical(e)
    ensures Others(BlocksFor(d, quote), Identity(e))
  {
    var first := BlocksFor(d, quote);
    BlocksForApart(d, quote);
    SubjectOwned(e.uri, "");
    forall k | 0 <= k < |first| ensures first[k].subject != Identity(e) {
      OwnedApart(first[k].subject, Identity(e), d.uri, e.uri);
    }
  }

  /** No other block has the subject of a contract. */
  lemma {:induction false} ContractAlone(ds: seq<Descriptor>, quote: Quote, i: nat) returns (m: nat)
    requires Injective(quote) && OwnUris(ds) && CanonicalAll(ds) && i < |ds|
    ensures m < |BlocksOf(ds, quote)| && BlocksOf(ds, quote)[m] == ContractBlock(ds[i])
    ensures Alone(BlocksOf(ds, quote), m)
  {
    if i == 0 {
      m := 0;
      BlocksForApart(ds[0], quote);
      LaterOthers(ds, quote);
    } else {
      var n := ContractAlone(ds[1..], quote, i - 1);
      m := |BlocksFor(ds[0], quote)| + n;
      EarlierOthers(ds[0], quote, ds[i]);
    }
    AloneSum(BlocksFor(ds[0], quote), BlocksOf(ds[1..], quote), m);
  }

  /** The blocks of one descriptor, between those of the others. */
  lemma {:induction false} BlocksSplit(ds: seq<Descriptor>, quote: Quote, i: nat)
      returns (before: seq<Block>, after: seq<Block>)
    requires i < |ds|
    ensures BlocksOf(ds, quote) == before + BlocksFor(ds[i], quote) + after
  {
    if i == 0 {
      before, after := [], BlocksOf(ds[1..], quote);
    } else {
      before, after := BlocksSplit(ds[1..], quote, i - 1);
      var first, own := BlocksFor(ds[0], quote), BlocksFor(ds[i], quote);
      assert first + (before + own + after) == first + before + own + after;
      before := first + before;
    }
  }

  // ----- what is recovered -----

  lemma {:induction false} OtherName(terms: seq<(string, Term)>, name: string)
    requires forall i :: 0 <= i < |terms| ==> terms[i].0 != name
    ensures FactValues(TermFacts(terms), AC + name) == []
  {
    if terms != [] {
      SameTail(AC, terms[0].0, name);
      OtherName(terms[1..], name);
    }
  }

  lemma {:induction false} TermValue(terms: seq<(string, Term)>, k: nat)
    requires (forall i, j :: 0 <= i < j < |terms| ==> terms[i].0 != terms[j].0) && k < |terms|
    ensures FactValues(TermFacts(terms), AC + terms[k].0) == [terms[k].1]
  {
    SameTail(AC, terms[0].0, terms[k].0);
    if k == 0 {
      OtherName(terms[1..], terms[0].0);
    } else {
      TermValue(terms[1..], k - 1);
    }
  }

  /** No name of the vocabulary is the type predicate. */
  lemma {:induction false} NotType(name: string)
    ensures AC + name != RDF_TYPE
  {
    assert (AC + name)[4] == 's' && RDF_TYPE[4] == ':';
  }

  lemma {:induction false} KindFirst(class_: string, facts: seq<Fact>, name: string)
    ensures FactValues([Kind(class_)] + facts, AC + name) == FactValues(facts, AC + name)
  {
    NotType(name);
    assert ([Kind(class_)] + facts)[1..] == facts;
  }

  /** Each field of each contract reads back as the one value that was declared. */
  lemma {:induction false} FieldRecovered(ds: seq<Descriptor>, quote: Quote, i: nat, k: nat)
    requires Injective(quote) && OwnUris(ds) && CanonicalAll(ds) && AllPlain(ds, quote)
    requires i < |ds| && k < |ds[i].terms|
    ensures Read(Document(ds, quote), map[]).Ok?
    ensures Values(Read(Document(ds, quote), map[]).value, Identity(ds[i]), AC + ds[i].terms[k].0) == [ds[i].terms[k].1]
  {
    var d := ds[i];
    DocumentRoundTrip(ds, quote);
    var m := ContractAlone(ds, quote, i);
    OwnValues(BlocksOf(ds, quote), m, AC + d.terms[k].0);
    KindFirst("AccessContract", TermFacts(d.terms), d.terms[k].0);
    assert Canonical(d);
    TermValue(d.terms, k);
  }

  // ----- bindings -----

  /** One non-blank text; `blank` says what `str.strip` leaves nothing of. */
  function One(values: seq<Term>, blank: string -> bool): Result<string> {
    if |values| == 1 && values[0].Text? && !blank(values[0].text) then Ok(values[0].text) else Refused
  }

  /** The subjects of a graph, in the order in which they first appear. */
  function SubjectsFrom(seen: seq<string>, triples: seq<Triple>): seq<string>
    decreases triples
  {
    if triples == [] then seen
    else SubjectsFrom(if triples[0].subject in seen then seen else seen + [triples[0].subject], triples[1..])
  }

  type Pair = (string, string)

  function Cons(first: Result<Pair>, more: Result<seq<Pair>>): Result<seq<Pair>> {
    if first.Ok? && more.Ok? then Ok([first.value] + more.value) else Refused
  }

  function PairOf(properties: seq<Term>, fields: seq<Term>, blank: string -> bool): Result<Pair> {
    var p, f := One(properties, blank), One(fields, blank);
    if p.Ok? && f.Ok? then Ok((p.value, f.value)) else Refused
  }

  function PairsOf(triples: seq<Triple>, subjects: seq<string>, contract: string,
      blank: string -> bool): Result<seq<Pair>> {
    if subjects == [] then Ok([])
    else
      var s, more := subjects[0], PairsOf(triples, subjects[1..], contract, blank);
      if Text(contract) !in Values(triples, s, AC + "contract") then more
      else Cons(PairOf(Values(triples, s, AC + "property"), Values(triples, s, AC + "field"), blank), more)
  }

  predicate PairBefore(a: Pair, b: Pair) { Before(a.0, b.0) || (a.0 == b.0 && Before(a.1, b.1)) }

  /** `bindings`: the sorted (property, field) pairs bound to a contract. */
  function Bindings(triples: seq<Triple>, contract: string, blank: string -> bool): Result<seq<Pair>> {
    match PairsOf(triples, SubjectsFrom([], triples), contract, blank)
    case Refused => Refused
    case Ok(pairs) => Ok(Sort(PairBefore, pairs))
  }

  /** Bindings come by property, and of one property by field. */
  lemma {:induction false} BindingsInOrder(triples: seq<Triple>, contract: string, blank: string -> bool, i: nat,
      j: nat)
    requires Bindings(triples, contract, blank).Ok? && i < j < |Bindings(triples, contract, blank).value|
    ensures var p, q := Bindings(triples, contract, blank).value[i], Bindings(triples, contract, blank).value[j];
            p == q || Before(p.0, q.0) || (p.0 == q.0 && Before(p.1, q.1))
  {
    var pairs := PairsOf(triples, SubjectsFrom([], triples), contract, blank).value;
    PairBeforeIsStrict();
    SortSorts(PairBefore, pairs);
    assert !PairBefore(Sort(PairBefore, pairs)[j], Sort(PairBefore, pairs)[i]);
  }

  function PairsAt(f: Column): seq<Pair> {
    if f.property.Some? && f.property.value != "" then [(f.property.value, f.name)] else []
  }

  /** The pairs of bound fields. */
  function Pairs(columns: seq<Column>): seq<Pair> {
    if columns == [] then [] else PairsAt(columns[0]) + Pairs(columns[1..])
  }

  predicate NoneBlank(columns: seq<Column>, blank: string -> bool) {
    forall c :: c in columns && c.property.Some? && c.property.value != "" ==>
      !blank(c.property.value) && !blank(c.name)
  }

  // Subjects, block by block.

  function SubjectsOf(blocks: seq<Block>): seq<string> {
    if blocks == [] then [] else [blocks[0].subject] + SubjectsOf(blocks[1..])
  }

  lemma {:induction false} SeenFacts(seen: seq<string>, s: string, facts: seq<Fact>, rest: seq<Triple>)
    requires s in seen
    ensures SubjectsFrom(seen, FactTriples(s, facts) + rest) == SubjectsFrom(seen, rest)
  {
    if facts == [] {
      assert [] + rest == rest;
    } else {
      assert (FactTriples(s, facts) + rest)[1..] == FactTriples(s, facts[1..]) + rest;
      SeenFacts(seen, s, facts[1..], rest);
    }
  }

  lemma {:induction false} NewFacts(seen: seq<string>, s: string, facts: seq<Fact>, rest: seq<Triple>)
    requires s !in seen && facts != []
    ensures SubjectsFrom(seen, FactTriples(s, facts) + rest) == SubjectsFrom(seen + [s], rest)
  {
    assert (FactTriples(s, facts) + rest)[1..] == FactTriples(s, facts[1..]) + rest;
    SeenFacts(seen + [s], s, facts[1..], rest);
  }

  lemma {:induction false} SubjectsAre(seen: seq<string>, blocks: seq<Block>)
    requires Filled(blocks) && Apart(blocks) && forall i :: 0 <= i < |blocks| ==> blocks[i].subject !in seen
    ensures SubjectsFrom(seen, TriplesOf(blocks)) == seen + SubjectsOf(blocks)
    decreases |blocks|
  {
    if blocks != [] {
      var b := blocks[0];
      NewFacts(seen, b.subject, b.facts, TriplesOf(blocks[1..]));
      SubjectsAre(seen + [b.subject], blocks[1..]);
      assert seen + [b.subject] + SubjectsOf(blocks[1..]) == seen + SubjectsOf(blocks);
    }
  }

  lemma {:induction false} SeenStays(seen: seq<string>, triples: seq<Triple>, s: string)
    requires s in seen
    ensures s in SubjectsFrom(seen, triples)
    decreases triples
  {
    if triples != [] {
      SeenStays(if triples[0].subject in seen then seen else seen + [triples[0].subject], triples[1..], s);
    }
  }

  /** Every subject with a value is listed. */
  lemma {:induction false} SubjectListed(seen: seq<string>, triples: seq<Triple>, s: string, p: string)
    requires Values(triples, s, p) != []
    ensures s in SubjectsFrom(seen, triples)
    decreases triples
  {
    var more := if triples[0].subject in seen then seen else seen + [triples[0].subject];
    if triples[0].subject == s { SeenStays(more, triples[1..], s); } else { SubjectListed(more, triples[1..], s, p); }
  }

  // Pairs, block by block.

  function BlockPairs(blocks: seq<Block>, contract: string, blank: string -> bool): Result<seq<Pair>> {
    if blocks == [] then Ok([])
    else
      var facts, more := blocks[0].facts, BlockPairs(blocks[1..], contract, blank);
      if Text(contract) !in FactValues(facts, AC + "contract") then more
      else Cons(PairOf(FactValues(facts, AC + "property"), FactValues(facts, AC + "field"), blank), more)
  }

  lemma {:induction false} PairsByBlock(blocks: seq<Block>, some: seq<Block>, contract: string, blank: string -> bool)
    requires Apart(blocks) && forall b :: b in some ==> b in blocks
    ensures PairsOf(TriplesOf(blocks), SubjectsOf(some), contract, blank) == BlockPairs(some, contract, blank)
    decreases |some|
  {
    if some != [] {
      assert some[0] in blocks;
      var i :| 0 <= i < |blocks| && blocks[i] == some[0];
      ApartAlone(blocks, i);
      OwnValues(blocks, i, AC + "contract");
      OwnValues(blocks, i, AC + "property");
      OwnValues(blocks, i, AC + "field");
      PairsByBlock(blocks, some[1..], contract, blank);
      assert SubjectsOf(some)[1..] == SubjectsOf(some[1..]);
    }
  }

  function Both(a: Result<seq<Pair>>, b: Result<seq<Pair>>): Result<seq<Pair>> {
    if a.Ok? && b.Ok? then Ok(a.value + b.value) else Refused
  }

  lemma {:induction false} BlockPairsSum(a: seq<Block>, b: seq<Block>, contract: string, blank: string -> bool)
    ensures BlockPairs(a + b, contract, blank) == Both(BlockPairs(a, contract, blank), BlockPairs(b, contract, blank))
  {
    if a == [] {
      assert a + b == b;
      if BlockPairs(b, contract, blank).Ok? {
        assert [] + BlockPairs(b, contract, blank).value == BlockPairs(b, contract, blank).value;
      }
    } else {
      assert (a + b)[1..] == a[1..] + b;
      BlockPairsSum(a[1..], b, contract, blank);
      var first := PairOf(FactValues(a[0].facts, AC + "property"), FactValues(a[0].facts, AC + "field"), blank);
      var more, last := BlockPairs(a[1..], contract, blank), BlockPairs(b, contract, blank);
      if first.Ok? && more.Ok? && last.Ok? { Associates([first.value], more.value, last.value); }
    }
  }

  lemma {:induction false} OneFact(g: Fact, p: string)
    ensures FactValues([g], p) == if Key(g) == p then [Object(g)] else []
  {
    assert FactValues([g][1..], p) == [];
  }

  lemma {:induction false} FirstFact(a: Fact, rest: seq<Fact>, p: string)
    ensures FactValues([a] + rest, p) == FactValues([a], p) + FactValues(rest, p)
  {
    OneFact(a, p);
    assert ([a] + rest)[1..] == rest;
  }

  lemma {:induction false} ThreeFacts(a: Fact, b: Fact, c: Fact, p: string)
    ensures FactValues([a, b, c], p) == FactValues([a], p) + FactValues([b], p) + FactValues([c], p)
  {
    assert [a, b, c] == [a] + [b, c] && [b, c] == [b] + [c];
    FirstFact(a, [b, c], p);
    FirstFact(b, [c], p);
    Associates(FactValues([a], p), FactValues([b], p), FactValues([c], p));
  }

  function Named(g: Fact, name: string): seq<Term>
    requires !g.Kind?
  {
    if g.name == name then [Object(g)] else []
  }

  lemma {:induction false} NamedFact(g: Fact, name: string)
    requires !g.Kind?
    ensures FactValues([g], AC + name) == Named(g, name)
  {
    SameTail(AC, g.name, name);
    OneFact(g, AC + name);
  }

  lemma {:induction false} NamedFacts(class_: string, a: Fact, b: Fact, c: Fact, name: string)
    requires !a.Kind? && !b.Kind? && !c.Kind?
    ensures FactValues([Kind(class_), a, b, c], AC + name) == Named(a, name) + Named(b, name) + Named(c, name)
  {
    assert [Kind(class_), a, b, c] == [Kind(class_)] + [a, b, c];
    KindFirst(class_, [a, b, c], name);
    ThreeFacts(a, b, c, AC + name);
    NamedFact(a, name);
    NamedFact(b, name);
    NamedFact(c, name);
  }

  lemma {:induction false} ThreeNames()
    ensures "contract" != "property" && "property" != "field" && "field" != "contract"
  {
    assert |"contract"| == 8 && |"field"| == 5 && "contract"[0] == 'c' && "property"[0] == 'p';
  }

  /** What a binding's statement holds. */
  lemma {:induction false} BindingHolds(d: Descriptor, f: Column)
    requires Bound(f)
    ensures FactValues(BindingFacts(d, f), AC + "contract") == [Text(Identity(d))]
    ensures FactValues(BindingFacts(d, f), AC + "property") == [Text(f.property.value)]
    ensures FactValues(BindingFacts(d, f), AC + "field") == [Text(f.name)]
  {
    var link, property, name :=
      Link("contract", Identity(d)), Field("property", Text(f.property.value)), Field("field", Text(f.name));
    ThreeNames();
    NamedFacts("PropertyBinding", link, property, name, "contract");
    NamedFacts("PropertyBinding", link, property, name, "property");
    NamedFacts("PropertyBinding", link, property, name, "field");
  }

  /** The contract's own statement binds nothing. */
  lemma {:induction false} ContractBindsNothing(d: Descriptor)
    requires Canonical(d)
    ensures FactValues(ContractBlock(d).facts, AC + "contract") == []
  {
    KindFirst("AccessContract", TermFacts(d.terms), "contract");
    assert "contract" !in TERM_NAMES;
    OtherName(d.terms, "contract");
  }

  lemma {:induction false} BindingFirst(d: Descriptor, f: Column, subject: string, rest: seq<Block>, contract: string,
      blank: string -> bool)
    requires Bound(f)
    ensures BlockPairs([Block(subject, BindingFacts(d, f))] + rest, contract, blank)
         == if contract != Identity(d) then BlockPairs(rest, contract, blank)
            else Cons(if blank(f.property.value) || blank(f.name) then Refused else Ok((f.property.value, f.name)),
                      BlockPairs(rest, contract, blank))
  {
    BindingHolds(d, f);
    assert ([Block(subject, BindingFacts(d, f))] + rest)[1..] == rest;
  }

  lemma {:induction false} NoneBlankNext(columns: seq<Column>, blank: string -> bool)
    requires columns != []
    ensures NoneBlank(columns, blank) <==>
      (Bound(columns[0]) ==> !blank(columns[0].property.value) && !blank(columns[0].name))
          && NoneBlank(columns[1..], blank)
  {
    assert columns == [columns[0]] + columns[1..];
  }

  lemma {:induction false} ColumnsPair(d: Descriptor, columns: seq<Column>, quote: Quote, contract: string,
      blank: string -> bool)
    ensures BlockPairs(BindingBlocks(d, columns, quote), contract, blank)
         == if contract != Identity(d) then Ok([]) else if NoneBlank(columns, blank) then Ok(Pairs(columns))
             else Refused
  {
    if columns != [] {
      var f, rest := columns[0], BindingBlocks(d, columns[1..], quote);
      ColumnsPair(d, columns[1..], quote, contract, blank);
      NoneBlankNext(columns, blank);
      if Bound(f) {
        BindingFirst(d, f, BindingSubject(d, f, quote), rest, contract, blank);
      } else {
        assert BindingBlocks(d, columns, quote) == rest;
        assert Pairs(columns) == Pairs(columns[1..]);
      }
    }
  }

  lemma {:induction false} DescriptorPairs(d: Descriptor, quote: Quote, contract: string, blank: string -> bool)
    requires Canonical(d)
    ensures BlockPairs(BlocksFor(d, quote), contract, blank)
         == if contract != Identity(d) then Ok([])
            else if NoneBlank(Printed(d), blank) then Ok(Pairs(Printed(d)))
            else Refused
  {
    ContractBindsNothing(d);
    ColumnsPair(d, Printed(d), quote, contract, blank);
    assert BlocksFor(d, quote)[1..] == BindingBlocks(d, Printed(d), quote);
  }

  /** Other descriptors bind nothing to a contract. */
  lemma {:induction false} OthersPair(ds: seq<Descriptor>, quote: Quote, uri: string, blank: string -> bool)
    requires CanonicalAll(ds) && forall i :: 0 <= i < |ds| ==> ds[i].uri != uri
    ensures BlockPairs(BlocksOf(ds, quote), uri + ACCESS, blank) == Ok([])
  {
    if ds != [] {
      assert Canonical(ds[0]) && forall i :: 0 <= i < |ds[1..]| ==> ds[1..][i] == ds[i + 1];
      SameHead(ds[0].uri, uri, ACCESS);
      DescriptorPairs(ds[0], quote, uri + ACCESS, blank);
      OthersPair(ds[1..], quote, uri, blank);
      BlockPairsSum(BlocksFor(ds[0], quote), BlocksOf(ds[1..], quote), uri + ACCESS, blank);
      var none: seq<Pair> := [];
      assert none + none == none;
    }
  }

  lemma {:induction false} SameHead(a: string, b: string, c: string)
    ensures a + c == b + c <==> a == b
  {
    if a + c == b + c { assert |a| == |b| && (a + c)[..|a|] == a && (b + c)[..|b|] == b; }
  }

  lemma {:induction false} AllPairs(ds: seq<Descriptor>, quote: Quote, i: nat, blank: string -> bool)
    requires CanonicalAll(ds) && OwnUris(ds) && i < |ds|
    ensures BlockPairs(BlocksOf(ds, quote), Identity(ds[i]), blank)
         == if NoneBlank(Printed(ds[i]), blank) then Ok(Pairs(Printed(ds[i]))) else Refused
  {
    var contract := Identity(ds[i]);
    assert Canonical(ds[0]) && forall j :: 0 <= j < |ds[1..]| ==> ds[1..][j] == ds[j + 1];
    DescriptorPairs(ds[0], quote, contract, blank);
    BlockPairsSum(BlocksFor(ds[0], quote), BlocksOf(ds[1..], quote), contract, blank);
    if i == 0 {
      OthersPair(ds[1..], quote, ds[0].uri, blank);
      assert Pairs(Printed(ds[0])) + [] == Pairs(Printed(ds[0]));
    } else {
      SameHead(ds[0].uri, ds[i].uri, ACCESS);
      AllPairs(ds[1..], quote, i - 1, blank);
      assert [] + Pairs(Printed(ds[i])) == Pairs(Printed(ds[i]));
    }
  }

  // Neither order of fields matters.

  lemma {:induction false} PairBeforeIsStrict()
    ensures StrictOrder(PairBefore)
  {
    BeforeIsStrict();
    forall a: Pair, b: Pair ensures a == b || PairBefore(a, b) || PairBefore(b, a) {
      assert a == (a.0, a.1) && b == (b.0, b.1);
    }
  }

  lemma {:induction false} PairsCons(f: Column, rest: seq<Column>)
    ensures Pairs([f] + rest) == PairsAt(f) + Pairs(rest)
  {
    assert ([f] + rest)[1..] == rest;
  }

  lemma {:induction false} Exchange<T>(a: seq<T>, b: seq<T>, x: seq<T>, y: seq<T>)
    requires multiset(x) == multiset(b + y)
    ensures multiset(a + x) == multiset(b + (a + y))
  {
  }

  lemma {:induction false} InsertPairs(f: Column, columns: seq<Column>)
    ensures multiset(Pairs(Insert(ByName, f, columns))) == multiset(PairsAt(f) + Pairs(columns))
  {
    if columns != [] && ByName(columns[0], f) {
      var inserted := Insert(ByName, f, columns[1..]);
      InsertPairs(f, columns[1..]);
      PairsCons(columns[0], inserted);
      Exchange(PairsAt(columns[0]), PairsAt(f), Pairs(inserted), Pairs(columns[1..]));
    } else {
      PairsCons(f, columns);
      assert columns == [] ==> [f] + columns == [f];
    }
  }

  lemma {:induction false} PrintedPairs(columns: seq<Column>)
    ensures multiset(Pairs(Sort(ByName, columns))) == multiset(Pairs(columns))
  {
    if columns != [] {
      PrintedPairs(columns[1..]);
      InsertPairs(columns[0], Sort(ByName, columns[1..]));
    }
  }

  lemma {:induction false} PrintedBlank(columns: seq<Column>, blank: string -> bool)
    ensures NoneBlank(Sort(ByName, columns), blank) <==> NoneBlank(columns, blank)
  {
    SortPermutes(ByName, columns);
    assert forall c :: c in columns <==> c in multiset(columns);
    assert forall c :: c in Sort(ByName, columns) <==> c in multiset(Sort(ByName, columns));
  }

  /** The bindings of a contract read back as its sorted (property, field) pairs, unless
      a bound property or name is blank; then they are refused. */
  lemma {:induction false} BindingsRecovered(ds: seq<Descriptor>, quote: Quote, i: nat, blank: string -> bool)
    requires Injective(quote) && OwnUris(ds) && CanonicalAll(ds) && OwnBindingsAll(ds) && AllPlain(ds, quote)
        && i < |ds|
    ensures Read(Document(ds, quote), map[]).Ok?
    ensures Bindings(Read(Document(ds, quote), map[]).value, Identity(ds[i]), blank)
         == if NoneBlank(ds[i].columns, blank) then Ok(Sort(PairBefore, Pairs(ds[i].columns))) else Refused
  {
    var d, blocks := ds[i], BlocksOf(ds, quote);
    DocumentRoundTrip(ds, quote);
    BlocksApart(ds, quote);
    SubjectsAre([], blocks);
    assert [] + SubjectsOf(blocks) == SubjectsOf(blocks);
    PairsByBlock(blocks, blocks, Identity(d), blank);
    AllPairs(ds, quote, i, blank);
    PrintedBlank(d.columns, blank);
    PrintedPairs(d.columns);
    PairBeforeIsStrict();
    SortUnique(PairBefore, Pairs(Printed(d)), Pairs(d.columns));
  }

  lemma {:induction false} BadSubject(triples: seq<Triple>, subjects: seq<string>, s: string, contract: string,
      blank: string -> bool)
    requires s in subjects && Text(contract) in Values(triples, s, AC + "contract")
    requires |Values(triples, s, AC + "property")| > 1
    ensures PairsOf(triples, subjects, contract, blank) == Refused
  {
    if subjects[0] != s { BadSubject(triples, subjects[1..], s, contract, blank); }
  }

  lemma {:induction false} BindingListed(d: Descriptor, columns: seq<Column>, quote: Quote, i: nat, j: nat)
      returns (m: nat, n: nat)
    requires i < j < |columns| && Bound(columns[i]) && Bound(columns[j])
    ensures m < n < |BindingBlocks(d, columns, quote)|
    ensures BindingBlocks(d, columns, quote)[m]
        == Block(BindingSubject(d, columns[i], quote), BindingFacts(d, columns[i]))
    ensures BindingBlocks(d, columns, quote)[n]
        == Block(BindingSubject(d, columns[j], quote), BindingFacts(d, columns[j]))
  {
    var shift := if Bound(columns[0]) then 1 else 0;
    if i > 0 {
      m, n := BindingListed(d, columns[1..], quote, i - 1, j - 1);
      m, n := m + shift, n + shift;
    } else {
      m := 0;
      n := BindingPlace(d, columns[1..], quote, j - 1);
      n := n + shift;
    }
  }

  lemma {:induction false} BindingPlace(d: Descriptor, columns: seq<Column>, quote: Quote, j: nat) returns (n: nat)
    requires j < |columns| && Bound(columns[j])
    ensures n < |BindingBlocks(d, columns, quote)|
    ensures BindingBlocks(d, columns, quote)[n]
        == Block(BindingSubject(d, columns[j], quote), BindingFacts(d, columns[j]))
  {
    if j == 0 {
      n := 0;
    } else {
      n := BindingPlace(d, columns[1..], quote, j - 1);
      n := n + if Bound(columns[0]) then 1 else 0;
    }
  }

  lemma {:induction false} SharedSubject(blocks: seq<Block>, k: nat, l: nat, d: Descriptor, f: Column, g: Column,
      blank: string -> bool)
    requires k < l < |blocks| && blocks[k].subject == blocks[l].subject && Bound(f) && Bound(g)
    requires blocks[k].facts == BindingFacts(d, f) && blocks[l].facts == BindingFacts(d, g)
    ensures Bindings(TriplesOf(blocks), Identity(d), blank) == Refused
  {
    var triples := TriplesOf(blocks);
    BindingHolds(d, f);
    BindingHolds(d, g);
    TwoBlocksAdd(blocks, k, l, AC + "property");
    BlockAdds(blocks, k, AC + "contract");
    assert Text(Identity(d)) in FactValues(blocks[k].facts, AC + "contract");
    SubjectListed([], triples, blocks[k].subject, AC + "contract");
    BadSubject(triples, SubjectsFrom([], triples), blocks[k].subject, Identity(d), blank);
  }

  /** Two bound fields of one name are refused when the document is read. */
  lemma {:induction false} SharedNameRefused(ds: seq<Descriptor>, quote: Quote, i: nat, blank: string -> bool)
    requires i < |ds| && !OwnBindings(Printed(ds[i])) && AllPlain(ds, quote)
    ensures Read(Document(ds, quote), map[]).Ok?
    ensures Bindings(Read(Document(ds, quote), map[]).value, Identity(ds[i]), blank) == Refused
  {
    DocumentRoundTrip(ds, quote);
    SharedNameFails(ds, quote, i, blank);
  }

  lemma {:induction false} SharedNameFails(ds: seq<Descriptor>, quote: Quote, i: nat, blank: string -> bool)
    requires i < |ds| && !OwnBindings(Printed(ds[i]))
    ensures Bindings(TriplesOf(BlocksOf(ds, quote)), Identity(ds[i]), blank) == Refused
  {
    var before, after := BlocksSplit(ds, quote, i);
    SharedInGroup(before, ds[i], quote, after, blank);
  }

  lemma {:induction false} SharedInGroup(before: seq<Block>, d: Descriptor, quote: Quote, after: seq<Block>,
      blank: string -> bool)
    requires !OwnBindings(Printed(d))
    ensures Bindings(TriplesOf(before + BlocksFor(d, quote) + after), Identity(d), blank) == Refused
  {
    var m, n, f, g := SharedBindings(d, Printed(d), quote);
    var bindings := BindingBlocks(d, Printed(d), quote);
    InTheMiddle(before, ContractBlock(d), bindings, after, m);
    InTheMiddle(before, ContractBlock(d), bindings, after, n);
    SharedSubject(before + BlocksFor(d, quote) + after, |before| + 1 + m, |before| + 1 + n, d, f, g, blank);
  }

  lemma {:induction false} SharedBindings(d: Descriptor, columns: seq<Column>, quote: Quote)
    returns (m: nat, n: nat, f: Column, g: Column)
    requires !OwnBindings(columns)
    ensures var blocks := BindingBlocks(d, columns, quote);
            && m < n < |blocks| && blocks[m].subject == blocks[n].subject && Bound(f) && Bound(g)
            && blocks[m].facts == BindingFacts(d, f) && blocks[n].facts == BindingFacts(d, g)
  {
    var a, b :| 0 <= a < b < |columns| && Bound(columns[a]) && Bound(columns[b]) && columns[a].name == columns[b].name;
    m, n := BindingListed(d, columns, quote, a, b);
    f, g := columns[a], columns[b];
  }

  lemma {:induction false} InTheMiddle<T>(before: seq<T>, x: T, s: seq<T>, after: seq<T>, m: nat)
    requires m < |s|
    ensures |before| + 1 + m < |before + ([x] + s) + after| && (before + ([x] + s) + after)[|before| + 1 + m] == s[m]
  {
  }

  // ----- a value that does not come back -----

  /** An operation with a tab in its name; every other term is as `_render_descriptor`
      prints it for a resource `n` of a connector `c`. */
  function Tabbed(): Descriptor {
    Descriptor("data:" + "//c/n",
               [("classIri", Text("urn:k")), ("sourceId", Text("c/n")), ("entity", Text("n")), ("keyField", Text("id")),
                ("accessKind", Text("mcp_tool")), ("operation", Text("a\tb")), ("pagination", Text("none"))],
               [])
  }

  lemma {:induction false} TermFact(terms: seq<(string, Term)>, k: nat)
    requires k < |terms|
    ensures k < |TermFacts(terms)| && TermFacts(terms)[k] == Field(terms[k].0, terms[k].1)
  {
    if k > 0 { TermFact(terms[1..], k - 1); }
  }

  lemma {:induction false} TabIsNotPlain(blocks: seq<Block>, k: nat)
    requires blocks != [] && k < |blocks[0].facts| && blocks[0].facts[k] == Field("operation", Text("a\tb"))
    ensures !PlainBlocks(blocks)
  {
    assert Control("a\tb"[1]);
    assert !PlainText("a\tb");
    assert !Plain(blocks[0].facts[k]);
    assert !PlainFacts(blocks[0].facts);
  }

  lemma {:induction false} TabbedCanonical()
    ensures Canonical(Tabbed())
  {
  }

  /** A tab in a value is read back as the two characters that escape it. */
  lemma {:induction false} TabNotRecovered(quote: Quote)
    ensures Canonical(Tabbed()) && !AllPlain([Tabbed()], quote)
    ensures Read(Document([Tabbed()], quote), map[]).Ok?
    ensures Read(Document([Tabbed()], quote), map[]).value != TriplesOf(BlocksOf([Tabbed()], quote))
  {
    var blocks := BlocksOf([Tabbed()], quote);
    DocumentRoundTrip([Tabbed()], quote);
    TabbedCanonical();
    TermFact(Tabbed().terms, 5);
    assert blocks[0] == ContractBlock(Tabbed());
    TabIsNotPlain(blocks, 6);
  }

  // ----- sorting -----

  /** All characters come after `#`, as in a canonical resource URI. */
  predicate AboveHash(s: string) { forall i :: 0 <= i < |s| ==> s[i] > '#' }

  lemma {:induction false} SuffixKeepsOrder(a: string, b: string)
    requires AboveHash(a) && AboveHash(b)
    ensures Before(a + ACCESS, b + ACCESS) <==> Before(a, b)
  {
    if a == [] && b == [] {
      BeforeIrreflexive(ACCESS);
    } else if a == [] {
      assert (a + ACCESS)[0] == '#' && (b + ACCESS)[0] == b[0];
    } else if b == [] {
      assert (a + ACCESS)[0] == a[0] && (b + ACCESS)[0] == '#';
    } else {
      assert (a + ACCESS)[1..] == a[1..] + ACCESS && (b + ACCESS)[1..] == b[1..] + ACCESS;
      SuffixKeepsOrder(a[1..], b[1..]);
    }
  }

  function Identities(uris: seq<string>): seq<string> {
    if uris == [] then [] else [uris[0] + ACCESS] + Identities(uris[1..])
  }

  lemma {:induction false} InsertIdentity(uri: string, uris: seq<string>)
    requires AboveHash(uri) && forall u :: u in uris ==> AboveHash(u)
    ensures Insert(Before, uri + ACCESS, Identities(uris)) == Identities(Insert(Before, uri, uris))
  {
    if uris != [] {
      SuffixKeepsOrder(uris[0], uri);
      assert Identities(uris)[1..] == Identities(uris[1..]) && Identities(uris)[0] == uris[0] + ACCESS;
      InsertIdentity(uri, uris[1..]);
      if Before(uris[0], uri) {
        assert ([uris[0]] + Insert(Before, uri, uris[1..]))[1..] == Insert(Before, uri, uris[1..]);
      } else {
        assert ([uri] + uris)[1..] == uris;
      }
    }
  }

  /** Sorting by resource URI and by contract IRI is the same. */
  lemma {:induction false} SortsAgree(uris: seq<string>)
    requires forall u :: u in uris ==> AboveHash(u)
    ensures Sort(Before, Identities(uris)) == Identities(Sort(Before, uris))
  {
    if uris != [] {
      SortsAgree(uris[1..]);
      assert Identities(uris)[1..] == Identities(uris[1..]);
      SortPermutes(Before, uris[1..]);
      forall u | u in Sort(Before, uris[1..]) ensures AboveHash(u) {
        assert u in multiset(Sort(Before, uris[1..]));
        assert u in uris[1..];
      }
      InsertIdentity(uris[0], Sort(Before, uris[1..]));
    }
  }
}
