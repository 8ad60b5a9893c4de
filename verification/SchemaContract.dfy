/** The canonical form of a source schema. */
module SchemaContract {
  import opened Common
  import opened Sorting
  import opened Json
  import opened JsonText
  import opened SchemaCompatibility
  import opened SchemaDrift
  import opened SchemaSoundness

  const PRESENTATION: set<string> := {"title", "description", "examples", "$comment", "default"}

  const SCHEMA_MAPS: set<string> := {"properties", "patternProperties", "$defs", "definitions", "dependentSchemas"}

  const SCHEMA_VALUES: set<string> := {
    "", "items", "additionalItems", "additionalProperties", "unevaluatedItems", "unevaluatedProperties",
    "propertyNames", "contains", "not", "if", "then", "else", "contentSchema", "allOf", "anyOf", "oneOf", "prefixItems"
  }

  const LISTS: set<string> := {"enum", "required", "type"}

  /** The canonical JSON text of a value, taken as given. Values sort by it. */
  type Printer = Value -> string

  ghost predicate Injective(print_: Printer) {
    forall a, b :: print_(a) == print_(b) ==> a == b
  }

  function TextOrder(print_: Printer): (Value, Value) -> bool {
    (a: Value, b: Value) => Before(print_(a), print_(b))
  }

  lemma {:induction false} TextOrderStrict(print_: Printer)
    requires Injective(print_)
    ensures StrictOrder(TextOrder(print_))
  {
    BeforeIsStrict();
  }

  // ----- _normalize -----

  function Normalize(value: Value, keyword: string, print_: Printer): Value
    decreases value, 1
  {
    if keyword in LISTS then
      if value.Arr? then Arr(Sort(TextOrder(print_), value.items)) else value
    else if keyword in SCHEMA_MAPS && value.Obj? then
      Obj(map key | key in value.fields :: Normalize(value.fields[key], "", print_))
    else if keyword !in SCHEMA_VALUES then value
    else NormalizeSchema(value, print_)
  }

  function NormalizeSchema(value: Value, print_: Printer): Value
    decreases value, 0
  {
    match value
    case Obj(fields) =>
      Obj(map key | key in fields && key !in PRESENTATION :: Normalize(fields[key], key, print_))
    case Arr(items) => Arr(seq(|items|, i requires 0 <= i < |items| => Normalize(items[i], "", print_)))
    case _ => value
  }

  /** What normalization ignores: the order of `enum`, `required` and `type`
      lists, and presentation keywords, both only where a schema stands. */
  ghost predicate Alike(a: Value, b: Value, keyword: string)
    decreases a, 1
  {
    if keyword in LISTS then
      a == b || (a.Arr? && b.Arr? && multiset(a.items) == multiset(b.items))
    else if keyword in SCHEMA_MAPS && a.Obj? && b.Obj? then
      a.fields.Keys == b.fields.Keys && forall key :: key in a.fields ==> Alike(a.fields[key], b.fields[key], "")
    else if keyword !in SCHEMA_VALUES then a == b
    else AlikeSchemas(a, b)
  }

  ghost predicate AlikeSchemas(a: Value, b: Value)
    decreases a, 0
  {
    if a.Obj? && b.Obj? then
      && a.fields.Keys - PRESENTATION == b.fields.Keys - PRESENTATION
      && forall key :: key in a.fields.Keys - PRESENTATION ==> Alike(a.fields[key], b.fields[key], key)
    else if a.Arr? && b.Arr? then
      |a.items| == |b.items| && forall i :: 0 <= i < |a.items| ==> Alike(a.items[i], b.items[i], "")
    else a == b
  }

  /** Two schemas have one canonical form exactly when they are alike. */
  lemma {:induction false} NormalizeExact(a: Value, b: Value, keyword: string, print_: Printer)
    requires Injective(print_)
    ensures Normalize(a, keyword, print_) == Normalize(b, keyword, print_) <==> Alike(a, b, keyword)
    decreases a, 1
  {
    if keyword in LISTS {
      if a.Arr? && b.Arr? { SortExact(a.items, b.items, print_); }
    } else if keyword in SCHEMA_MAPS {
      if a.Obj? && b.Obj? {
        forall key | key in a.fields && key in b.fields
          ensures Normalize(a.fields[key], "", print_) == Normalize(b.fields[key], "", print_)
             <==> Alike(a.fields[key], b.fields[key], "")
        {
          NormalizeExact(a.fields[key], b.fields[key], "", print_);
        }
        var x, y := Normalize(a, keyword, print_).fields, Normalize(b, keyword, print_).fields;
        assert x.Keys == a.fields.Keys && y.Keys == b.fields.Keys;
        MapsEqual(x, y);
      }
    } else if keyword in SCHEMA_VALUES {
      NormalizeSchemaExact(a, b, print_);
    }
  }

  lemma {:induction false} NormalizeSchemaExact(a: Value, b: Value, print_: Printer)
    requires Injective(print_)
    ensures NormalizeSchema(a, print_) == NormalizeSchema(b, print_) <==> AlikeSchemas(a, b)
    decreases a, 0
  {
    var x, y := NormalizeSchema(a, print_), NormalizeSchema(b, print_);
    if a.Obj? && b.Obj? {
      assert x.fields.Keys == a.fields.Keys - PRESENTATION && y.fields.Keys == b.fields.Keys - PRESENTATION;
      forall key | key in x.fields && key in y.fields
        ensures x.fields[key] == y.fields[key] <==> Alike(a.fields[key], b.fields[key], key)
      {
        NormalizeExact(a.fields[key], b.fields[key], key, print_);
      }
      MapsEqual(x.fields, y.fields);
    } else if a.Arr? && b.Arr? {
      forall i | 0 <= i < |a.items| && i < |b.items|
        ensures x.items[i] == y.items[i] <==> Alike(a.items[i], b.items[i], "")
      {
        NormalizeExact(a.items[i], b.items[i], "", print_);
      }
      assert x == y <==> x.items == y.items;
    }
  }

  lemma {:induction false} MapsEqual(x: map<string, Value>, y: map<string, Value>)
    ensures x == y <==> x.Keys == y.Keys && forall key :: key in x && key in y ==> x[key] == y[key]
  {
    if x.Keys == y.Keys && forall key :: key in x && key in y ==> x[key] == y[key] {
      assert forall key :: key in x <==> key in y;
    }
  }

  lemma {:induction false} SortExact(a: seq<Value>, b: seq<Value>, print_: Printer)
    requires Injective(print_)
    ensures Sort(TextOrder(print_), a) == Sort(TextOrder(print_), b) <==> multiset(a) == multiset(b)
  {
    TextOrderStrict(print_);
    SortPermutes(TextOrder(print_), a);
    SortPermutes(TextOrder(print_), b);
    if multiset(a) == multiset(b) { SortUnique(TextOrder(print_), a, b); }
  }

  /** A schema is alike its canonical form. */
  lemma {:induction false} AlikeCanonical(a: Value, keyword: string, print_: Printer)
    ensures Alike(Normalize(a, keyword, print_), a, keyword)
    decreases a, 1
  {
    if keyword in LISTS {
      if a.Arr? { SortPermutes(TextOrder(print_), a.items); }
    } else if keyword in SCHEMA_MAPS && a.Obj? {
      assert Normalize(a, keyword, print_).fields.Keys == a.fields.Keys;
      forall key | key in a.fields ensures Alike(Normalize(a.fields[key], "", print_), a.fields[key], "") {
        AlikeCanonical(a.fields[key], "", print_);
      }
    } else if keyword in SCHEMA_VALUES {
      var x := NormalizeSchema(a, print_);
      if a.Obj? {
        assert x.fields.Keys - PRESENTATION == a.fields.Keys - PRESENTATION;
        forall key | key in a.fields.Keys - PRESENTATION ensures Alike(x.fields[key], a.fields[key], key) {
          AlikeCanonical(a.fields[key], key, print_);
        }
      } else if a.Arr? {
        forall i | 0 <= i < |a.items| ensures Alike(x.items[i], a.items[i], "") {
          AlikeCanonical(a.items[i], "", print_);
        }
      }
    }
  }

  /** The canonical form is a fixed point. */
  lemma {:induction false} NormalizeFixed(a: Value, keyword: string, print_: Printer)
    requires Injective(print_)
    ensures Normalize(Normalize(a, keyword, print_), keyword, print_) == Normalize(a, keyword, print_)
  {
    AlikeCanonical(a, keyword, print_);
    NormalizeExact(Normalize(a, keyword, print_), a, keyword, print_);
  }

  // ----- the contract model -----

  /** JSON text and its parser, taken as given: parsing inverts printing. */
  datatype Codec = Codec(print_: Printer, parse: string -> Option<Value>)

  ghost predicate Faithful(codec: Codec) {
    forall v :: codec.parse(codec.print_(v)) == Some(v)
  }

  lemma {:induction false} FaithfulInjective(codec: Codec)
    requires Faithful(codec)
    ensures Injective(codec.print_)
  {
    forall a, b | codec.print_(a) == codec.print_(b) ensures a == b {
      assert codec.parse(codec.print_(a)) == Some(a);
      assert codec.parse(codec.print_(b)) == Some(b);
    }
  }

  /** The canonical text is such a printer, whatever numerals stand for floats, and
      a parser that undoes it exists. */
  lemma {:induction false} CanonicalCodec(repr: Repr) returns (codec: Codec)
    requires Numerals(repr)
    ensures codec.print_ == Text(repr) && Injective(codec.print_) && Faithful(codec)
  {
    var print_ := Text(repr);
    forall a, b | print_(a) == print_(b) ensures a == b { TextExact(repr, a, b); }
    codec := Codec(print_, Parser(print_));
    ParserReads(print_);
  }

  lemma {:induction false} ParserReads(print_: Printer)
    requires Injective(print_)
    ensures forall v :: Parser(print_)(print_(v)) == Some(v)
  {
  }

  ghost function Parser(print_: Printer): string -> Option<Value> {
    (text: string) =>
      if exists v :: print_(v) == text then
        var v :| print_(v) == text;
        Some(v)
      else None
  }

  /** The validator reads the text, insists on an object and normalizes again. */
  function Validated(codec: Codec, text: string): Result<string> {
    match codec.parse(text)
    case Some(Obj(fields)) => Ok(codec.print_(Normalize(Obj(fields), "", codec.print_)))
    case _ => Refused
  }

  /** `from_schema` up to the sorting of identifiers. */
  function FromSchema(codec: Codec, schema: Value): Result<string> {
    Validated(codec, codec.print_(Normalize(schema, "", codec.print_)))
  }

  /** What the validator accepts it leaves unchanged when it reads it again. */
  lemma {:induction false} ValidatedFixed(codec: Codec, text: string)
    requires Faithful(codec) && Validated(codec, text).Ok?
    ensures Validated(codec, Validated(codec, text).value) == Validated(codec, text)
  {
    FaithfulInjective(codec);
    NormalizeFixed(codec.parse(text).value, "", codec.print_);
  }

  /** Two schemas make the same contract text exactly when they are alike; only
      objects make a contract at all. */
  lemma {:induction false} FromSchemaExact(codec: Codec, a: Value, b: Value)
    requires Faithful(codec) && a.Obj? && b.Obj?
    ensures FromSchema(codec, a).Ok?
    ensures FromSchema(codec, a) == FromSchema(codec, b) <==> Alike(a, b, "")
  {
    FaithfulInjective(codec);
    NormalizeFixed(a, "", codec.print_);
    NormalizeFixed(b, "", codec.print_);
    NormalizeExact(a, b, "", codec.print_);
  }

  // ----- normalization and the comparison of contracts -----

  /** A sorted list has the elements it had. */
  lemma {:induction false} SortedMeans(a: Value, keyword: string, print_: Printer)
    requires keyword in LISTS
    ensures var x, y := Semantic(a), Semantic(Normalize(a, keyword, print_));
            if a.Arr? then x.SArr? && y.SArr? && Elements(x.items) == Elements(y.items) else x == y
  {
    if a.Arr? {
      SortPermutes(TextOrder(print_), a.items);
      var b := Sort(TextOrder(print_), a.items);
      forall v ensures v in a.items <==> v in b { assert v in multiset(a.items) <==> v in multiset(b); }
      assert forall m :: m in Meanings(a.items) <==> exists v :: v in a.items && Semantic(v) == m;
      assert forall m :: m in Meanings(b) <==> exists v :: v in b && Semantic(v) == m;
      ChoicesMean(a.items);
      ChoicesMean(b);
      assert a == Arr(a.items);
    }
  }

  /** Keywords compare by the elements of their lists. */
  lemma {:induction false} ByElements(x: Sem, y: Sem)
    requires x.SArr? && y.SArr? && Elements(x.items) == Elements(y.items)
    ensures forall v :: TypeAllows(x, v) <==> TypeAllows(y, v)
    ensures forall v :: v in x.items <==> v in y.items
    ensures DemandedBy(x) == DemandedBy(y)
  {
    forall v ensures v in x.items <==> v in y.items {
      assert v in x.items <==> v in Elements(x.items);
      assert v in y.items <==> v in Elements(y.items);
    }
    forall v ensures TypeAllows(x, v) <==> TypeAllows(y, v) {
      assert TypeAllows(x, v) <==> exists t :: t in x.items && t.SStr? && IsType(t.text, v);
      assert TypeAllows(y, v) <==> exists t :: t in y.items && t.SStr? && IsType(t.text, v);
    }
    forall name ensures name in DemandedBy(x) <==> name in DemandedBy(y) {
      assert name in DemandedBy(x) <==> SStr(name) in x.items;
      assert name in DemandedBy(y) <==> SStr(name) in y.items;
    }
  }

  /** Two keyword values that no record tells apart. */
  predicate LikeList(x: Sem, y: Sem) {
    x == y || (x.SArr? && y.SArr? && Elements(x.items) == Elements(y.items))
  }

  predicate LikeLeaf(k: map<string, Sem>, l: map<string, Sem>, key: string) {
    (key in k <==> key in l) && (key in k ==> LikeList(k[key], l[key]))
  }

  /** The parts of two schemas agree on a value. */
  predicate PartsAgree(k: map<string, Sem>, l: map<string, Sem>, v: Sem) {
    && (forall key :: key in LISTS ==> LikeLeaf(k, l, key))
    && ("const" in k <==> "const" in l) && ("const" in k ==> k["const"] == l["const"])
    && ("properties" in k <==> "properties" in l) && ("items" in k <==> "items" in l)
    && (v.SObj? && "properties" in k ==> MembersAgree(k["properties"], l["properties"], v))
    && (v.SArr? && "items" in k ==> forall i :: 0 <= i < |v.items| ==>
                                      (Valid(k["items"], v.items[i]) <==> Valid(l["items"], v.items[i])))
  }

  predicate MembersAgree(x: Sem, y: Sem, v: Sem)
    requires v.SObj?
  {
    && (x.SObj? <==> y.SObj?)
    && (x.SObj? ==>
          x.fields.Keys == y.fields.Keys
          && forall name :: name in x.fields && name in v.fields ==>
               (Valid(x.fields[name], v.fields[name]) <==> Valid(y.fields[name], v.fields[name])))
  }

  lemma {:induction false} PartsValid(k: map<string, Sem>, l: map<string, Sem>, v: Sem)
    requires PartsAgree(k, l, v) && Valid(SObj(k), v)
    ensures Valid(SObj(l), v)
  {
    assert LikeLeaf(k, l, "type") && LikeLeaf(k, l, "enum") && LikeLeaf(k, l, "required");
    if "type" in k && k["type"] != l["type"] { ByElements(k["type"], l["type"]); }
    if "enum" in k && k["enum"] != l["enum"] { ByElements(k["enum"], l["enum"]); }
    if "required" in k && k["required"] != l["required"] { ByElements(k["required"], l["required"]); }
  }

  /** What normalization makes of one keyword. */
  lemma {:induction false} NormalField(f: map<string, Value>, key: string, print_: Printer)
    requires key !in PRESENTATION
    ensures var k, l := Semantic(Obj(f)).fields, Semantic(NormalizeSchema(Obj(f), print_)).fields;
            && (key in k <==> key in f) && (key in l <==> key in f)
            && (key in f ==> k[key] == Semantic(f[key]) && l[key] == Semantic(Normalize(f[key], key, print_)))
  {
    var g := NormalizeSchema(Obj(f), print_).fields;
    assert key in g <==> key in f;
  }

  /** `l` holds, keyword by keyword, what normalization makes of `f`, and `k` what `f` means. */
  predicate NormalOf(f: map<string, Value>, k: map<string, Sem>, l: map<string, Sem>, key: string, print_: Printer) {
    && (key in k <==> key in f) && (key in l <==> key in f)
    && (key in f ==> k[key] == Semantic(f[key]) && l[key] == Semantic(Normalize(f[key], key, print_)))
  }

  lemma {:induction false} NormalFields(f: map<string, Value>, print_: Printer)
    ensures var k, l := Semantic(Obj(f)).fields, Semantic(NormalizeSchema(Obj(f), print_)).fields;
            forall key :: key !in PRESENTATION ==> NormalOf(f, k, l, key, print_)
  {
    var k, l := Semantic(Obj(f)).fields, Semantic(NormalizeSchema(Obj(f), print_)).fields;
    forall key | key !in PRESENTATION ensures NormalOf(f, k, l, key, print_) { NormalField(f, key, print_); }
  }

  lemma {:induction false} NormalConst(value: Value, print_: Printer)
    ensures Normalize(value, "const", print_) == value
  {
  }

  lemma {:induction false} NormalizeTop(schema: Value, keyword: string, print_: Printer)
    requires keyword == "" || keyword == "items"
    ensures Normalize(schema, keyword, print_) == NormalizeSchema(schema, print_)
  {
  }

  lemma {:induction false} NormalMembers(p: Value, print_: Printer)
    ensures if p.Obj?
            then var x, y := Semantic(p), Semantic(Normalize(p, "properties", print_));
                 && y.SObj? && x.fields.Keys == p.fields.Keys == y.fields.Keys
                 && forall name :: name in p.fields ==>
                      x.fields[name] == Semantic(p.fields[name])
                      && y.fields[name] == Semantic(NormalizeSchema(p.fields[name], print_))
            else Normalize(p, "properties", print_) == p
  {
    if p.Obj? {
      forall name | name in p.fields { NormalizeTop(p.fields[name], "", print_); }
    }
  }

  /** The canonical form admits the records the schema admits. */
  lemma {:induction false} NormalizeKeepsValid(schema: Value, v: Sem, print_: Printer)
    ensures Valid(Semantic(NormalizeSchema(schema, print_)), v) <==> Valid(Semantic(schema), v)
    decreases v, 2
  {
    if schema.Obj? {
      var k, l := Semantic(schema).fields, Semantic(NormalizeSchema(schema, print_)).fields;
      NormalFields(schema.fields, print_);
      NormalParts(schema.fields, k, l, v, print_);
      if Valid(SObj(k), v) { PartsValid(k, l, v); }
      if Valid(SObj(l), v) { PartsValid(l, k, v); }
    }
  }

  lemma {:induction false} NormalParts(f: map<string, Value>, k: map<string, Sem>, l: map<string, Sem>, v: Sem,
      print_: Printer)
    requires forall key :: key !in PRESENTATION ==> NormalOf(f, k, l, key, print_)
    ensures PartsAgree(k, l, v) && PartsAgree(l, k, v)
    decreases v, 1
  {
    forall key | key in LISTS ensures LikeLeaf(k, l, key) && LikeLeaf(l, k, key) {
      assert NormalOf(f, k, l, key, print_);
      if key in f { SortedMeans(f[key], key, print_); }
    }
    assert NormalOf(f, k, l, "const", print_) && NormalOf(f, k, l, "properties", print_);
    assert NormalOf(f, k, l, "items", print_);
    if "const" in f { NormalConst(f["const"], print_); }
    if v.SArr? && "items" in f { NormalItems(f["items"], v, print_); }
    if v.SObj? && "properties" in f { NormalProperties(f["properties"], v, print_); }
  }

  lemma {:induction false} NormalItems(schema: Value, v: Sem, print_: Printer)
    requires v.SArr?
    ensures var x, y := Semantic(schema), Semantic(Normalize(schema, "items", print_));
            forall i :: 0 <= i < |v.items| ==> (Valid(x, v.items[i]) <==> Valid(y, v.items[i]))
    decreases v, 0
  {
    NormalizeTop(schema, "items", print_);
    forall i | 0 <= i < |v.items| { NormalizeKeepsValid(schema, v.items[i], print_); }
  }

  lemma {:induction false} NormalProperties(p: Value, v: Sem, print_: Printer)
    requires v.SObj?
    ensures MembersAgree(Semantic(p), Semantic(Normalize(p, "properties", print_)), v)
    decreases v, 0
  {
    NormalMembers(p, print_);
    if p.Obj? {
      forall name | name in p.fields && name in v.fields {
        NormalizeKeepsValid(p.fields[name], v.fields[name], print_);
      }
    }
  }

  function ContractOf(schema: Value, identifiers: seq<string>, print_: Printer): Contract {
    Contract(Normalize(schema, "", print_), identifiers)
  }

  /** Alike schemas make one contract, so each accepts the other. */
  lemma {:induction false} AlikeAccepted(a: Value, b: Value, identifiers: seq<string>, print_: Printer)
    requires Injective(print_) && Alike(a, b, "")
    ensures ContractOf(a, identifiers, print_) == ContractOf(b, identifiers, print_)
    ensures Accepted(ContractOf(a, identifiers, print_), ContractOf(b, identifiers, print_))
  {
    NormalizeExact(a, b, "", print_);
    AcceptedExact(ContractOf(a, identifiers, print_), ContractOf(b, identifiers, print_));
  }

  lemma {:induction false} ContractKeepsValid(schema: Value, identifiers: seq<string>, v: Sem, print_: Printer)
    ensures Valid(Semantic(ContractOf(schema, identifiers, print_).schema), v) <==> Valid(Semantic(schema), v)
  {
    NormalizeTop(schema, "", print_);
    NormalizeKeepsValid(schema, v, print_);
  }

  /** From schemas as they are written to their records: after an accepted and safe
      change, records of the new schema are, once erased, records of the old one. */
  lemma {:induction false} EvolutionSound(a: Value, b: Value, identifiers: seq<string>, print_: Printer, record: Sem)
    requires var p, q := ContractOf(a, identifiers, print_), ContractOf(b, identifiers, print_);
             && Accepted(p, q) && Fragment(Semantic(p.schema)) && Fragment(Semantic(q.schema))
             && Safe(Semantic(p.schema), Semantic(q.schema))
    requires Valid(Semantic(b), record)
    ensures var p, q := ContractOf(a, identifiers, print_), ContractOf(b, identifiers, print_);
            Valid(Semantic(a), Erase(Semantic(p.schema), Semantic(q.schema), record))
  {
    ContractKeepsValid(b, identifiers, record, print_);
    var p, q := ContractOf(a, identifiers, print_), ContractOf(b, identifiers, print_);
    ErasedValid(p, q, record);
    ContractKeepsValid(a, identifiers, Erase(Semantic(p.schema), Semantic(q.schema), record), print_);
  }

  lemma {:induction false} ErasedValid(p: Contract, q: Contract, record: Sem)
    requires Accepted(p, q) && Fragment(Semantic(p.schema)) && Fragment(Semantic(q.schema))
    requires Safe(Semantic(p.schema), Semantic(q.schema)) && Valid(Semantic(q.schema), record)
    ensures Valid(Semantic(p.schema), Erase(Semantic(p.schema), Semantic(q.schema), record))
  {
    AcceptedIsSound(p, q);
  }
}
