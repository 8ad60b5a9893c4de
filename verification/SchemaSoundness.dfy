/** Why COMPATIBLE is safe: for the JSON Schema fragment the classifier
    understands, records valid under the new schema are, once the added fields
    are erased, valid under the old one. */
module SchemaSoundness {
  import opened Common
  import opened Json
  import opened SchemaDrift
  import opened SchemaCompatibility

  // ----- validity (JSON Schema Validation 2020-12, sections 6.1 and 6.5.3) -----

  predicate IsType(name: string, v: Sem) {
    match v
    case SNull => name == "null"
    case SBool(_) => name == "boolean"
    case SNum(n) => name == "number" || (name == "integer" && n.scale == 0)
    case SStr(_) => name == "string"
    case SArr(_) => name == "array"
    case SObj(_) => name == "object"
  }

  predicate TypeAllows(type_: Sem, v: Sem) {
    match type_
    case SStr(name) => IsType(name, v)
    case SArr(items) => exists i :: 0 <= i < |items| && items[i].SStr? && IsType(items[i].text, v)
    case _ => false
  }

  predicate Valid(schema: Sem, v: Sem)
    decreases schema
  {
    match schema
    case SBool(flag) => flag
    case SObj(k) =>
      && ("type" in k ==> TypeAllows(k["type"], v))
      && ("enum" in k ==> k["enum"].SArr? && v in k["enum"].items)
      && ("const" in k ==> v == k["const"])
      && ("required" in k && v.SObj? ==> forall name :: name in DemandedBy(k["required"]) ==> name in v.fields)
      && ("properties" in k && v.SObj? && k["properties"].SObj? ==>
            forall name :: name in k["properties"].fields && name in v.fields ==>
              Valid(k["properties"].fields[name], v.fields[name]))
      && ("items" in k && v.SArr? ==> forall i :: 0 <= i < |v.items| ==> Valid(k["items"], v.items[i]))
    case _ => false
  }

  function DemandedBy(required: Sem): set<string> {
    if required.SArr? then MeantTexts(required.items) else {}
  }

  /** Schemas built from `type`, `required`, `properties`, `items`, `enum` and `const`. */
  predicate Fragment(schema: Sem)
    decreases schema
  {
    match schema
    case SBool(_) => true
    case SObj(k) =>
      && k.Keys <= {"type", "required", "properties", "items", "enum", "const"}
      && ("required" in k ==> k["required"].SArr?)
      && ("properties" in k ==>
            (k["properties"].SObj?
             && forall name :: name in k["properties"].fields ==> Fragment(k["properties"].fields[name])))
      && ("items" in k ==> Fragment(k["items"]))
    case _ => false
  }

  // ----- erasing what the new schema adds -----

  function Under(schema: Sem): map<string, Sem> {
    if schema.SObj? && Members(schema.fields).SObj? then Members(schema.fields).fields else map[]
  }

  function Erase(prior: Sem, current: Sem, v: Sem): Sem
    decreases v
  {
    match v
    case SObj(fields) =>
      var before, after := Under(prior), Under(current);
      SObj(map name | name in fields && (name in after ==> name in before) ::
             if name in after then Erase(before[name], after[name], fields[name]) else fields[name])
    case SArr(items) =>
      if prior.SObj? && current.SObj? && "items" in prior.fields && "items" in current.fields then
        SArr(seq(|items|, i requires 0 <= i < |items| =>
            Erase(prior.fields["items"], current.fields["items"], items[i])))
      else v
    case _ => v
  }

  lemma {:induction false} ErasedType(prior: Sem, current: Sem, v: Sem, type_: Sem)
    ensures TypeAllows(type_, v) <==> TypeAllows(type_, Erase(prior, current, v))
  {
    var w := Erase(prior, current, v);
    assert forall name :: IsType(name, v) <==> IsType(name, w);
  }

  /** Erasing between a schema and itself removes nothing. */
  lemma {:induction false} EraseSame(schema: Sem, v: Sem)
    ensures Erase(schema, schema, v) == v
    decreases v
  {
    match v
    case SObj(fields) =>
      var members := Under(schema);
      forall name | name in fields && name in members
        ensures Erase(members[name], members[name], fields[name]) == fields[name]
      {
        EraseSame(members[name], fields[name]);
      }
      assert Erase(schema, schema, v).fields == fields;
    case SArr(items) =>
      if schema.SObj? && "items" in schema.fields {
        forall i | 0 <= i < |items|
          ensures Erase(schema.fields["items"], schema.fields["items"], items[i]) == items[i]
        {
          EraseSame(schema.fields["items"], items[i]);
        }
        assert Erase(schema, schema, v).items == items;
      }
    case _ =>
  }

  /** A schema without `properties` and `items` erases nothing. */
  lemma {:induction false} EraseLeaf(prior: Sem, current: Sem, v: Sem)
    requires prior.SObj? && current.SObj?
    requires "properties" !in current.fields && "items" !in prior.fields
    ensures Erase(prior, current, v) == v
  {
    if v.SObj? { assert Erase(prior, current, v).fields == v.fields; }
  }

  // ----- which schemas any value meets -----

  /** `enum` and `const` bound the values to a list. */
  predicate Bounded(k: map<string, Sem>) { "enum" in k || "const" in k }

  function Listed(k: map<string, Sem>): seq<Sem>
    requires Bounded(k)
  {
    if "enum" !in k then [k["const"]] else if k["enum"].SArr? then k["enum"].items else []
  }

  predicate Allows(k: map<string, Sem>, v: Sem) { "type" in k ==> TypeAllows(k["type"], v) }

  /** The member names a schema demands of an object. */
  function Wanted(k: map<string, Sem>): set<string> {
    if "required" in k then DemandedBy(k["required"]) else {}
  }

  const SAMPLES: seq<Sem> := [SNull, SBool(true), SNum(Fraction(0, 0)), SStr(""), SArr([])]

  /** Some value meets the schema, decided from the schema alone. */
  predicate Inhabited(schema: Sem)
    decreases schema
  {
    match schema
    case SBool(flag) => flag
    case SObj(k) =>
      if Bounded(k) then exists i :: 0 <= i < |Listed(k)| && Valid(schema, Listed(k)[i])
      else
        || (exists i :: 0 <= i < |SAMPLES| && Allows(k, SAMPLES[i]))
        || (Allows(k, SObj(map[]))
            && forall name :: name in Wanted(k) && name in Under(schema) ==> Inhabited(Under(schema)[name]))
    case _ => false
  }

  /** A value of each kind that `type` cannot tell from `v`. */
  function SampleOf(v: Sem): Sem {
    match v
    case SNull => SAMPLES[0]
    case SBool(_) => SAMPLES[1]
    case SNum(_) => SAMPLES[2]
    case SStr(_) => SAMPLES[3]
    case SArr(_) => SAMPLES[4]
    case SObj(_) => SObj(map[])
  }

  lemma {:induction false} SampleAllowed(k: map<string, Sem>, v: Sem)
    requires Allows(k, v)
    ensures Allows(k, SampleOf(v))
  {
    assert forall name :: IsType(name, v) ==> IsType(name, SampleOf(v));
  }

  lemma {:induction false} ValidInhabits(schema: Sem, v: Sem)
    requires Valid(schema, v)
    ensures Inhabited(schema)
    decreases v
  {
    if schema.SObj? {
      var k := schema.fields;
      if Bounded(k) {
        var i :| 0 <= i < |Listed(k)| && Listed(k)[i] == v;
      } else {
        SampleAllowed(k, v);
        if v.SObj? {
          forall name | name in Wanted(k) && name in Under(schema) ensures Inhabited(Under(schema)[name]) {
            ValidInhabits(Under(schema)[name], v.fields[name]);
          }
        }
      }
    }
  }

  ghost function Pick(schema: Sem): Sem {
    if exists v :: Valid(schema, v) then
      var v :| Valid(schema, v);
      v
    else SNull
  }

  /** A record with `v` as its member `name` and the members the schema demands. */
  ghost function Around(schema: Sem, name: string, v: Sem): Sem
    requires schema.SObj?
  {
    SObj(map n | n in Wanted(schema.fields) + {name} ::
           if n == name then v else if n in Under(schema) then Pick(Under(schema)[n]) else SNull)
  }

  /** A value that meets an inhabited schema. */
  lemma {:induction false} InhabitedIsMet(schema: Sem) returns (v: Sem)
    requires Inhabited(schema)
    ensures Valid(schema, v)
    decreases schema
  {
    v := SNull;
    if schema.SObj? {
      var k := schema.fields;
      if Bounded(k) {
        var i :| 0 <= i < |Listed(k)| && Valid(schema, Listed(k)[i]);
        v := Listed(k)[i];
      } else if i :| 0 <= i < |SAMPLES| && Allows(k, SAMPLES[i]) {
        v := SAMPLES[i];
      } else {
        v := SObj(map n | n in Wanted(k) :: if n in Under(schema) then Pick(Under(schema)[n]) else SNull);
        forall n | n in Wanted(k) && n in Under(schema) ensures Valid(Under(schema)[n], v.fields[n]) {
          var u := InhabitedIsMet(Under(schema)[n]);
        }
        assert forall name :: IsType(name, SObj(map[])) <==> IsType(name, v);
      }
    }
  }

  // ----- when an accepted change is sound -----

  /** Some record that meets the schema has any given valid value as this member. */
  predicate Reaches(schema: Sem, name: string)
    requires schema.SObj?
  {
    && Allows(schema.fields, SObj(map[]))
    && forall n :: n in Wanted(schema.fields) && n in Under(schema) && n != name ==> Inhabited(Under(schema)[n])
  }

  /** Wherever a record can have a listed value, erasing leaves a valid one. */
  predicate Safe(prior: Sem, current: Sem)
    decreases prior
  {
    || prior == current
    || (&& prior.SObj? && current.SObj?
        && if Bounded(current.fields) then
             forall v :: v in Listed(current.fields) && Valid(current, v) ==> Valid(prior, Erase(prior, current, v))
           else
             && (forall name :: name in Under(prior) && name in Under(current) && Reaches(current, name) ==>
                   Safe(Under(prior)[name], Under(current)[name]))
             && ("items" in prior.fields && "items" in current.fields && Allows(current.fields, SArr([])) ==>
                   Safe(prior.fields["items"], current.fields["items"])))
  }

  /** Erased, records of the new schema are records of the old one. */
  ghost predicate SoundFor(prior: Sem, current: Sem) {
    forall v {:trigger Valid(current, v)} :: Valid(current, v) ==> Valid(prior, Erase(prior, current, v))
  }

  lemma {:induction false} Sound(prior: Sem, current: Sem, v: Sem)
    requires Fragment(prior) && Fragment(current) && Compat(prior, current) && Safe(prior, current) && Valid(current, v)
    ensures Valid(prior, Erase(prior, current, v))
    decreases v
  {
    if prior == current {
      EraseSame(prior, v);
    } else if Bounded(current.fields) {
      assert v in Listed(current.fields);
    } else {
      var k, l, w := prior.fields, current.fields, Erase(prior, current, v);
      assert KeywordsCompat(prior, current) && MembersCompat(prior, current);
      LeavesSound(prior, current, v);
      if "properties" in k && v.SObj? { MembersSound(prior, current, v); }
      if "items" in k && v.SArr? {
        assert KeywordCompat(prior, current, "items");
        SampleAllowed(l, v);
        forall i | 0 <= i < |w.items| ensures Valid(k["items"], w.items[i]) {
          Sound(k["items"], l["items"], v.items[i]);
        }
      }
    }
  }

  /** The keywords that speak of the value itself. */
  lemma {:induction false} LeavesSound(prior: Sem, current: Sem, v: Sem)
    requires Fragment(prior) && Fragment(current) && prior.SObj? && current.SObj? && !Bounded(current.fields)
    requires KeywordsCompat(prior, current) && MembersCompat(prior, current) && Valid(current, v)
    ensures var k, w := prior.fields, Erase(prior, current, v);
            && !Bounded(k) && Allows(k, w)
            && (w.SObj? ==> forall name :: name in Wanted(k) ==> name in w.fields)
  {
    var k := prior.fields;
    SameKeys(prior, current, "enum");
    SameKeys(prior, current, "const");
    SameKeys(prior, current, "type");
    SameKeys(prior, current, "required");
    if "type" in k { ErasedType(prior, current, v, k["type"]); }
  }

  lemma {:induction false} MembersSound(prior: Sem, current: Sem, v: Sem)
    requires Fragment(prior) && Fragment(current) && prior.SObj? && current.SObj?
    requires !Bounded(current.fields) && Safe(prior, current) && prior != current
    requires MembersCompat(prior, current) && Valid(current, v)
    requires "properties" in prior.fields && v.SObj?
    ensures var w, before := Erase(prior, current, v), prior.fields["properties"].fields;
            w.SObj? && forall name :: name in before && name in w.fields ==> Valid(before[name], w.fields[name])
    decreases v, 0
  {
    var w, before := Erase(prior, current, v), prior.fields["properties"].fields;
    var after := Under(current);
    assert Under(prior) == before;
    SampleAllowed(current.fields, v);
    forall name | name in before && name in w.fields ensures Valid(before[name], w.fields[name]) {
      assert name in after && "properties" in current.fields;
      forall n | n in Wanted(current.fields) && n in after && n != name ensures Inhabited(after[n]) {
        ValidInhabits(after[n], v.fields[n]);
      }
      Sound(before[name], after[name], v.fields[name]);
    }
  }

  /** The condition is needed: a listed value that breaks sits in a record that
      breaks. */
  lemma {:induction false} SafeIfSound(prior: Sem, current: Sem)
    requires Fragment(prior) && Fragment(current) && Compat(prior, current) && SoundFor(prior, current)
    ensures Safe(prior, current)
    decreases prior
  {
    if prior != current && !Bounded(current.fields) {
      forall name | name in Under(prior) && name in Under(current) && Reaches(current, name)
        ensures Safe(Under(prior)[name], Under(current)[name])
      {
        MemberIsSound(prior, current, name);
        SafeIfSound(Under(prior)[name], Under(current)[name]);
      }
      if "items" in prior.fields && "items" in current.fields && Allows(current.fields, SArr([])) {
        assert KeywordCompat(prior, current, "items");
        ItemsAreSound(prior, current);
        SafeIfSound(prior.fields["items"], current.fields["items"]);
      }
    }
  }

  lemma {:induction false} MemberIsSound(prior: Sem, current: Sem, name: string)
    requires Fragment(prior) && Fragment(current) && prior.SObj? && current.SObj? && SoundFor(prior, current)
    requires !Bounded(current.fields) && name in Under(prior) && name in Under(current) && Reaches(current, name)
    ensures SoundFor(Under(prior)[name], Under(current)[name])
  {
    var before, after := Under(prior), Under(current);
    forall v | Valid(after[name], v) ensures Valid(before[name], Erase(before[name], after[name], v)) {
      var record := Around(current, name, v);
      AroundIsValid(current, name, v);
      var erased := Erase(prior, current, record);
      assert Valid(prior, erased);
      assert erased.fields[name] == Erase(before[name], after[name], v);
    }
  }

  lemma {:induction false} AroundIsValid(schema: Sem, name: string, v: Sem)
    requires Fragment(schema) && schema.SObj? && !Bounded(schema.fields)
    requires name in Under(schema) && Reaches(schema, name) && Valid(Under(schema)[name], v)
    ensures Valid(schema, Around(schema, name, v))
  {
    var k, record := schema.fields, Around(schema, name, v);
    assert forall t :: IsType(t, SObj(map[])) <==> IsType(t, record);
    forall n | n in Under(schema) && n in record.fields ensures Valid(Under(schema)[n], record.fields[n]) {
      if n != name { var u := InhabitedIsMet(Under(schema)[n]); }
    }
  }

  lemma {:induction false} ItemsAreSound(prior: Sem, current: Sem)
    requires prior.SObj? && current.SObj? && SoundFor(prior, current) && !Bounded(current.fields)
    requires "items" in prior.fields && "items" in current.fields && Allows(current.fields, SArr([]))
    ensures SoundFor(prior.fields["items"], current.fields["items"])
  {
    var before, after := prior.fields["items"], current.fields["items"];
    forall v | Valid(after, v) ensures Valid(before, Erase(before, after, v)) {
      var record := SArr([v]);
      assert forall t :: IsType(t, SArr([])) <==> IsType(t, record);
      assert Valid(current, record);
      var erased := Erase(prior, current, record);
      assert Valid(prior, erased);
      assert erased.items[0] == Erase(before, after, v);
    }
  }

  /** An accepted change is sound for every record exactly when it is safe. */
  lemma {:induction false} AcceptedIsSound(prior: Contract, current: Contract)
    requires Accepted(prior, current)
    requires Fragment(Semantic(prior.schema)) && Fragment(Semantic(current.schema))
    ensures SoundFor(Semantic(prior.schema), Semantic(current.schema))
       <==> Safe(Semantic(prior.schema), Semantic(current.schema))
  {
    var k, l := Semantic(prior.schema), Semantic(current.schema);
    AcceptedExact(prior, current);
    if Safe(k, l) {
      forall v | Valid(l, v) ensures Valid(k, Erase(k, l, v)) { Sound(k, l, v); }
    }
    if SoundFor(k, l) { SafeIfSound(k, l); }
  }

  // ----- schemas that list values only where no field can be added -----

  predicate Plain(schema: Sem)
    decreases schema
  {
    schema.SObj? ==>
      var k := schema.fields;
      && (Bounded(k) ==> "properties" !in k && "items" !in k)
      && (forall name :: name in Under(schema) ==> Plain(Under(schema)[name]))
      && ("items" in k ==> Plain(k["items"]))
  }

  /** Between such schemas every compatible change is safe. */
  lemma {:induction false} PlainIsSafe(prior: Sem, current: Sem)
    requires Fragment(prior) && Fragment(current) && Plain(prior) && Plain(current) && Compat(prior, current)
    ensures Safe(prior, current)
    decreases prior
  {
    if prior != current {
      if Bounded(current.fields) {
        forall v | Valid(current, v) ensures Valid(prior, Erase(prior, current, v)) { BoundedSound(prior, current, v); }
      } else {
        forall name | name in Under(prior) && name in Under(current)
          ensures Safe(Under(prior)[name], Under(current)[name])
        {
          PlainIsSafe(Under(prior)[name], Under(current)[name]);
        }
        if "items" in prior.fields && "items" in current.fields {
          assert KeywordCompat(prior, current, "items");
          PlainIsSafe(prior.fields["items"], current.fields["items"]);
        }
      }
    }
  }

  lemma {:induction false} BoundedSound(prior: Sem, current: Sem, v: Sem)
    requires Fragment(prior) && Fragment(current) && Plain(prior) && Plain(current)
    requires Compat(prior, current) && prior != current && Bounded(current.fields) && Valid(current, v)
    ensures Valid(prior, Erase(prior, current, v))
  {
    var k, l := prior.fields, current.fields;
    assert KeywordsCompat(prior, current) && MembersCompat(prior, current);
    SameKeys(prior, current, "enum");
    SameKeys(prior, current, "const");
    SameKeys(prior, current, "items");
    SameKeys(prior, current, "type");
    SameKeys(prior, current, "required");
    EraseLeaf(prior, current, v);
    if "enum" in k { assert v in Elements(l["enum"].items); }
  }

  // ----- an accepted change that is not sound -----

  function WithX(): Value { Obj(map["x" := Int(1)]) }

  /** A schema that lists one record, and the same with a member declared. */
  function ListsX(): Value { Obj(map["enum" := Arr([WithX()])]) }

  function DeclaresX(): Value { Obj(map["enum" := Arr([WithX()]), "properties" := Obj(map["x" := Bool(true)])]) }

  /** Declaring a member beside `enum` is accepted, yet the listed record, valid under
      the new schema, is not valid under the old one once the member is erased. */
  lemma {:induction false} AcceptedUnsound()
    ensures var prior, current := Contract(ListsX(), []), Contract(DeclaresX(), []);
            var k, l, record := Semantic(ListsX()), Semantic(DeclaresX()), Semantic(WithX());
            && Accepted(prior, current) && Fragment(k) && Fragment(l)
            && Valid(l, record) && !Valid(k, Erase(k, l, record)) && !Safe(k, l)
  {
    var record := SObj(map["x" := SNum(Fraction(1, 0))]);
    var k := SObj(map["enum" := SArr([record])]);
    var l := SObj(map["enum" := SArr([record]), "properties" := SObj(map["x" := SBool(true)])]);
    OneMeaning("x", Int(1));
    RecordMeans(record);
    ListsMeaning(record);
    DeclaresMeaning(record);
    ListedUnsound(record, k, l);
    AcceptedExact(Contract(ListsX(), []), Contract(DeclaresX(), []));
  }

  lemma {:induction false} OneMeaning(key: string, value: Value)
    ensures Semantic(Obj(map[key := value])) == SObj(map[key := Semantic(value)])
  {
    assert Semantic(Obj(map[key := value])).fields == map[key := Semantic(value)];
  }

  lemma {:induction false} RecordMeans(record: Sem)
    requires record == Semantic(WithX())
    ensures Semantic(Arr([WithX()])) == SArr([record])
  {
    assert Semantic(Arr([WithX()])).items == [record];
  }

  lemma {:induction false} ListsMeaning(record: Sem)
    requires Semantic(Arr([WithX()])) == SArr([record])
    ensures Semantic(ListsX()) == SObj(map["enum" := SArr([record])])
  {
    OneMeaning("enum", Arr([WithX()]));
  }

  lemma {:induction false} DeclaresMeaning(record: Sem)
    requires Semantic(Arr([WithX()])) == SArr([record])
    ensures Semantic(DeclaresX()) == SObj(map["enum" := SArr([record]), "properties" := SObj(map["x" := SBool(true)])])
  {
    var properties := Obj(map["x" := Bool(true)]);
    OneMeaning("x", Bool(true));
    assert Semantic(DeclaresX()).fields
        == map["enum" := Semantic(Arr([WithX()])), "properties" := Semantic(properties)];
  }

  lemma {:induction false} ListedUnsound(record: Sem, k: Sem, l: Sem)
    requires record == SObj(map["x" := SNum(Fraction(1, 0))]) && k == SObj(map["enum" := SArr([record])])
    requires l == SObj(map["enum" := SArr([record]), "properties" := SObj(map["x" := SBool(true)])])
    ensures Compat(k, l) && Fragment(k) && Fragment(l)
    ensures Valid(l, record) && !Valid(k, Erase(k, l, record)) && !Safe(k, l)
  {
    assert KeywordCompat(k, l, "enum");
    assert KeywordsCompat(k, l);
    assert Demanded(k.fields) == Some({}) && Demanded(l.fields) == Some({}) && Members(k.fields) == SObj(map[]);
    assert MembersCompat(k, l);
    var erased := Erase(k, l, record);
    assert "x" !in erased.fields && erased != record;
    assert [record][0] == record;
  }
}
