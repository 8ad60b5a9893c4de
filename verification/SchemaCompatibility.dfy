/** What COMPATIBLE means: the comparison depends only on what the schemas mean,
    it is a preorder, and records valid under the new schema stay valid under the
    old one once the added fields are erased. */
module SchemaCompatibility {
  import opened Common
  import opened Sorting
  import opened Json
  import opened SchemaDrift

  // ----- compatibility of meanings -----

  function Members(fields: map<string, Sem>): Sem {
    if "properties" in fields then fields["properties"] else SObj(map[])
  }

  function MeantTexts(items: seq<Sem>): set<string> {
    set i | 0 <= i < |items| && items[i].SStr? :: items[i].text
  }

  function Elements(items: seq<Sem>): set<Sem> {
    set i | 0 <= i < |items| :: items[i]
  }

  function MeantNames(value: Sem): Option<set<string>> {
    match value
    case SArr(items) =>
      if exists i :: 0 <= i < |items| && (items[i].SArr? || items[i].SObj?) then None
      else Some(MeantTexts(items))
    case SStr(text) => Some(set i | 0 <= i < |text| :: [text[i]])
    case SObj(fields) => Some(fields.Keys)
    case _ => None
  }

  function Demanded(fields: map<string, Sem>): Option<set<string>> {
    if "required" in fields then MeantNames(fields["required"]) else Some({})
  }

  /** Two values of one keyword compare equal. */
  predicate SameMeaning(key: string, a: Sem, b: Sem) {
    if key == "enum" && a.SArr? && b.SArr? then
      Elements(a.items) == Elements(b.items)
    else a == b
  }

  /** `b` may replace `a` without review when optional fields are permitted. */
  ghost predicate Compat(a: Sem, b: Sem)
    decreases a
  {
    || a == b
    || (a.SObj? && b.SObj? && MembersCompat(a, b) && KeywordsCompat(a, b))
  }

  ghost predicate MembersCompat(a: Sem, b: Sem)
    requires a.SObj? && b.SObj?
    decreases a, 0
  {
    var before, after := Members(a.fields), Members(b.fields);
    && before.SObj? && after.SObj?
    && Demanded(a.fields).Some? && Demanded(b.fields).Some?
    && (forall name :: name in before.fields ==>
          name in after.fields && Compat(before.fields[name], after.fields[name]))
    && (forall name :: name in after.fields && name !in before.fields ==>
          name !in Demanded(a.fields).value && name !in Demanded(b.fields).value)
  }

  ghost predicate KeywordsCompat(a: Sem, b: Sem)
    requires a.SObj? && b.SObj?
    decreases a, 1
  {
    forall key {:trigger KeywordCompat(a, b, key)} ::
      (key in a.fields || key in b.fields) && key != "properties" ==> KeywordCompat(a, b, key)
  }

  ghost predicate KeywordCompat(a: Sem, b: Sem, key: string)
    requires a.SObj? && b.SObj?
    decreases a, 0
  {
    && key in a.fields && key in b.fields
    && (SameMeaning(key, a.fields[key], b.fields[key]) || (key == "items" && Compat(a.fields[key], b.fields[key])))
  }

  // ----- the classifier computes it -----

  lemma {:induction false} HarmlessBoth(a: seq<Change>, b: seq<Change>)
    ensures Harmless(a + b) <==> Harmless(a) && Harmless(b)
  {
    if Harmless(a + b) {
      forall i | 0 <= i < |a| ensures a[i].level == Compatible { assert (a + b)[i] == a[i]; }
      forall i | 0 <= i < |b| ensures b[i].level == Compatible { assert (a + b)[|a| + i] == b[i]; }
    }
  }

  lemma {:induction false} HarmlessOne(change: Change)
    ensures Harmless([change]) <==> change.level == Compatible
  {
    assert [change][0] == change;
  }

  lemma {:induction false} NamesMean(value: Value)
    ensures NamesIn(value) == MeantNames(Semantic(value))
  {
    if value.Obj? { assert Semantic(value).fields.Keys == value.fields.Keys; }
    if value.Arr? {
      var items, meant := value.items, Semantic(value).items;
      forall i | 0 <= i < |items|
        ensures items[i].Arr? <==> meant[i].SArr?
        ensures items[i].Obj? <==> meant[i].SObj?
        ensures items[i].Str? <==> meant[i].SStr?
        ensures items[i].Str? ==> items[i].text == meant[i].text
      {
        assert meant[i] == Semantic(items[i]);
      }
      var x, y := Texts(items), MeantTexts(meant);
      forall text ensures text in x <==> text in y {
        if text in x {
          var i :| 0 <= i < |items| && items[i].Str? && items[i].text == text;
          assert meant[i].SStr? && meant[i].text == text;
        }
        if text in y {
          var i :| 0 <= i < |meant| && meant[i].SStr? && meant[i].text == text;
          assert items[i].Str? && items[i].text == text;
        }
      }
      assert x == y;
      assert (exists i :: 0 <= i < |items| && (items[i].Arr? || items[i].Obj?)) <==>
             (exists i :: 0 <= i < |meant| && (meant[i].SArr? || meant[i].SObj?));
    }
  }

  lemma {:induction false} ChoicesMean(items: seq<Value>)
    ensures Meanings(items) == Elements(Semantic(Arr(items)).items)
  {
    var meant := Semantic(Arr(items)).items;
    var x, y := Meanings(items), Elements(meant);
    forall value ensures value in x <==> value in y {
      if value in x {
        var i :| 0 <= i < |items| && Semantic(items[i]) == value;
        assert meant[i] == value;
      }
      if value in y {
        var i :| 0 <= i < |meant| && meant[i] == value;
        assert Semantic(items[i]) == value;
      }
    }
  }

  lemma {:induction false} KeywordMeans(key: string, a: Value, b: Value)
    ensures KeywordValue(a, key) == KeywordValue(b, key) <==> SameMeaning(key, Semantic(a), Semantic(b))
  {
    if a.Arr? {
      assert a == Arr(a.items);
      ChoicesMean(a.items);
    }
    if b.Arr? {
      assert b == Arr(b.items);
      ChoicesMean(b.items);
    }
  }

  ghost predicate NameHarmless(prior: Value, current: Value, name: string, required: set<string>, path: string,
      policy: Policy)
    requires prior.Obj? && current.Obj? && Properties(prior.fields).Obj? && Properties(current.fields).Obj?
    requires name in Properties(prior.fields).fields || name in Properties(current.fields).fields
  {
    Harmless(NameChanges(prior, current, name, required, path, policy))
  }

  lemma {:induction false} HarmlessNames(prior: Value, current: Value, names: seq<string>, required: set<string>,
      path: string, policy: Policy)
    requires prior.Obj? && current.Obj? && Properties(prior.fields).Obj? && Properties(current.fields).Obj?
    requires forall name :: name in names ==>
        name in Properties(prior.fields).fields || name in Properties(current.fields).fields
    ensures Harmless(NamesChanges(prior, current, names, required, path, policy)) <==>
      forall name :: name in names ==> NameHarmless(prior, current, name, required, path, policy)
    decreases |names|
  {
    if names != [] {
      var n := |names| - 1;
      HarmlessNames(prior, current, names[..n], required, path, policy);
      HarmlessBoth(NamesChanges(prior, current, names[..n], required, path, policy),
                   NameChanges(prior, current, names[n], required, path, policy));
      assert names == names[..n] + [names[n]];
      assert forall name :: name in names <==> name in names[..n] || name == names[n];
      assert NameHarmless(prior, current, names[n], required, path, policy)
        <==> Harmless(NameChanges(prior, current, names[n], required, path, policy));
    }
  }

  ghost predicate KeyHarmless(prior: Value, current: Value, key: string, path: string, policy: Policy)
    requires prior.Obj? && current.Obj?
  {
    Harmless(KeywordChanges(prior, current, key, path, policy))
  }

  lemma {:induction false} HarmlessKeywords(prior: Value, current: Value, keys: seq<string>, path: string,
      policy: Policy)
    requires prior.Obj? && current.Obj?
    ensures Harmless(KeywordsChanges(prior, current, keys, path, policy)) <==>
      forall key :: key in keys ==> KeyHarmless(prior, current, key, path, policy)
    decreases |keys|
  {
    if keys != [] {
      var n := |keys| - 1;
      HarmlessKeywords(prior, current, keys[..n], path, policy);
      HarmlessBoth(KeywordsChanges(prior, current, keys[..n], path, policy),
                   KeywordChanges(prior, current, keys[n], path, policy));
      assert keys == keys[..n] + [keys[n]];
      assert forall key :: key in keys <==> key in keys[..n] || key == keys[n];
      assert KeyHarmless(prior, current, keys[n], path, policy)
        <==> Harmless(KeywordChanges(prior, current, keys[n], path, policy));
    }
  }

  lemma {:induction false} MembersMean(fields: map<string, Value>)
    ensures Semantic(Properties(fields)) == Members(Semantic(Obj(fields)).fields)
    ensures RequiredIn(fields) == Demanded(Semantic(Obj(fields)).fields)
  {
    if "required" in fields { NamesMean(fields["required"]); }
    assert Semantic(Obj(map[])) == SObj(map[]);
  }

  /** A comparison reports nothing above COMPATIBLE exactly when the meanings are
      compatible. */
  lemma {:induction false} ChangesExact(prior: Value, current: Value, path: string)
    ensures Harmless(Changes(prior, current, path, OptionalFields)) <==> Compat(Semantic(prior), Semantic(current))
    decreases prior, 2
  {
    if Semantic(prior) != Semantic(current) {
      if prior.Obj? && current.Obj? {
        HarmlessBoth(PropertyChanges(prior, current, path, OptionalFields),
                     KeywordsChanges(prior, current, InOrder(prior.fields.Keys + current.fields.Keys), path,
                         OptionalFields));
        PropertiesExact(prior, current, path);
        KeywordsExact(prior, current, path);
      } else {
        HarmlessOne(Change(path, "UNKNOWN_SCHEMA_CHANGE", Review));
      }
    }
  }

  lemma {:induction false} NameExact(prior: Value, current: Value, name: string, required: set<string>, path: string)
    requires prior.Obj? && current.Obj? && Properties(prior.fields).Obj? && Properties(current.fields).Obj?
    requires name in Properties(prior.fields).fields || name in Properties(current.fields).fields
    ensures var before, after := Properties(prior.fields).fields, Properties(current.fields).fields;
            NameHarmless(prior, current, name, required, path, OptionalFields) <==>
              if name in before then name in after && Compat(Semantic(before[name]), Semantic(after[name]))
              else name !in required
    decreases prior, 0
  {
    var before, after := Properties(prior.fields).fields, Properties(current.fields).fields;
    var field := path + "/properties/" + name;
    if name !in after {
      HarmlessOne(Change(field, "FIELD_REMOVED", if name in required then Breaking else Review));
    } else if name !in before {
      HarmlessOne(Change(field, "FIELD_ADDED", AdditionLevel(name in required, OptionalFields)));
    } else {
      ChangesExact(before[name], after[name], field);
    }
  }

  lemma {:induction false} PropertiesExact(prior: Value, current: Value, path: string)
    requires prior.Obj? && current.Obj?
    ensures Harmless(PropertyChanges(prior, current, path, OptionalFields)) <==>
      MembersCompat(Semantic(prior), Semantic(current))
    decreases prior, 1
  {
    MembersMean(prior.fields);
    MembersMean(current.fields);
    var before, after := Properties(prior.fields), Properties(current.fields);
    var first, second := RequiredIn(prior.fields), RequiredIn(current.fields);
    if !before.Obj? || !after.Obj? {
      HarmlessOne(Change(path, "UNKNOWN_PROPERTIES", Review));
    } else if first.None? || second.None? {
      HarmlessOne(Change(path, "", Raised));
    } else {
      var names, required := InOrder(before.fields.Keys + after.fields.Keys), first.value + second.value;
      HarmlessNames(prior, current, names, required, path, OptionalFields);
      forall name | name in names { NameExact(prior, current, name, required, path); }
      MembersPointwise(before.fields, after.fields, required, Semantic(prior), Semantic(current));
    }
  }

  /** Compatible members, name by name. */
  lemma {:induction false} MembersPointwise(before: map<string, Value>, after: map<string, Value>,
      required: set<string>, a: Sem, b: Sem)
    requires a.SObj? && b.SObj?
    requires Members(a.fields) == Semantic(Obj(before)) && Members(b.fields) == Semantic(Obj(after))
    requires Demanded(a.fields).Some? && Demanded(b.fields).Some?
    requires required == Demanded(a.fields).value + Demanded(b.fields).value
    ensures MembersCompat(a, b) <==>
      forall name :: name in before || name in after ==>
        if name in before then name in after && Compat(Semantic(before[name]), Semantic(after[name]))
        else name !in required
  {
    assert forall name :: name in before ==> Members(a.fields).fields[name] == Semantic(before[name]);
    assert forall name :: name in after ==> Members(b.fields).fields[name] == Semantic(after[name]);
  }

  lemma {:induction false} KeywordExact(prior: Value, current: Value, key: string, path: string)
    requires prior.Obj? && current.Obj? && key != "properties"
    ensures KeyHarmless(prior, current, key, path, OptionalFields) <==>
      KeywordCompat(Semantic(prior), Semantic(current), key)
    decreases prior, 0
  {
    var field := path + "/" + key;
    if key in prior.fields && key in current.fields {
      KeywordMeans(key, prior.fields[key], current.fields[key]);
      if key == "items" { ChangesExact(prior.fields[key], current.fields[key], field); }
    }
    HarmlessOne(Change(field, "TYPE_CHANGED", Breaking));
    HarmlessOne(Change(field, KeywordReason(key), Review));
  }

  lemma {:induction false} KeywordsExact(prior: Value, current: Value, path: string)
    requires prior.Obj? && current.Obj?
    ensures Harmless(KeywordsChanges(prior, current, InOrder(prior.fields.Keys + current.fields.Keys), path,
        OptionalFields)) <==>
      KeywordsCompat(Semantic(prior), Semantic(current))
    decreases prior, 1
  {
    var keys := InOrder(prior.fields.Keys + current.fields.Keys);
    HarmlessKeywords(prior, current, keys, path, OptionalFields);
    forall key | key in keys && key != "properties" { KeywordExact(prior, current, key, path); }
  }

  // ----- a preorder -----

  lemma {:induction false} CompatTransitive(a: Sem, b: Sem, c: Sem)
    requires Compat(a, b) && Compat(b, c)
    ensures Compat(a, c)
    decreases a, 1
  {
    if a != b && b != c {
      MembersTransitive(a, b, c);
      forall key | (key in a.fields || key in c.fields) && key != "properties" ensures KeywordCompat(a, c, key) {
        KeywordTransitive(a, b, c, key);
      }
    }
  }

  lemma {:induction false} MembersTransitive(a: Sem, b: Sem, c: Sem)
    requires a.SObj? && b.SObj? && c.SObj? && a != b && b != c && Compat(a, b) && Compat(b, c)
    ensures MembersCompat(a, c)
    decreases a, 0
  {
    var x, y, z := Members(a.fields), Members(b.fields), Members(c.fields);
    forall name | name in x.fields ensures name in z.fields && Compat(x.fields[name], z.fields[name]) {
      assert "properties" in a.fields;
      CompatTransitive(x.fields[name], y.fields[name], z.fields[name]);
    }
    assert KeywordCompat(a, b, "required") || ("required" !in a.fields && "required" !in b.fields);
    assert KeywordCompat(b, c, "required") || ("required" !in b.fields && "required" !in c.fields);
  }

  lemma {:induction false} SameKeys(a: Sem, b: Sem, key: string)
    requires a.SObj? && b.SObj? && KeywordsCompat(a, b) && key != "properties"
    ensures key in a.fields <==> key in b.fields
    ensures key in a.fields ==> KeywordCompat(a, b, key)
  {
    if key in a.fields || key in b.fields { assert KeywordCompat(a, b, key); }
  }

  lemma {:induction false} KeywordTransitive(a: Sem, b: Sem, c: Sem, key: string)
    requires a.SObj? && b.SObj? && c.SObj? && KeywordsCompat(a, b) && KeywordsCompat(b, c)
    requires (key in a.fields || key in c.fields) && key != "properties"
    ensures KeywordCompat(a, c, key)
    decreases a, 0
  {
    SameKeys(a, b, key);
    SameKeys(b, c, key);
    var x, y, z := a.fields[key], b.fields[key], c.fields[key];
    if key == "items" {
      CompatTransitive(x, y, z);
    }
  }

  // ----- classify_schema_drift -----

  datatype Contract = Contract(schema: Value, identifiers: seq<string>)

  ghost function ContractChanges(prior: Option<Contract>, current: Option<Contract>, policy: Policy): seq<Change> {
    if prior.None? || current.None? then [Change("/", "MISSING_SCHEMA", Review)]
    else
      Changes(prior.value.schema, current.value.schema, "", policy)
      + if prior.value.identifiers != current.value.identifiers then [Change("/", "IDENTIFIER_CHANGED", Breaking)]
          else []
  }

  method Classify(prior: Option<Contract>, current: Option<Contract>, policy: Policy) returns (level: Level)
    ensures level == Classification(ContractChanges(prior, current, policy))
  {
    var changes := [Change("/", "MISSING_SCHEMA", Review)];
    if prior.None? || current.None? { return Classification(changes); }
    changes := FindChanges(prior.value.schema, current.value.schema, "", policy);
    if prior.value.identifiers != current.value.identifiers {
      changes := changes + [Change("/", "IDENTIFIER_CHANGED", Breaking)];
    } else {
      assert changes == changes + [];
    }
    level := Classification(changes);
  }

  ghost predicate Accepted(prior: Contract, current: Contract) {
    Classification(ContractChanges(Some(prior), Some(current), OptionalFields)) == Compatible
  }

  /** Exactly when a change of contract is accepted. */
  lemma {:induction false} AcceptedExact(prior: Contract, current: Contract)
    ensures Accepted(prior, current) <==>
      Compat(Semantic(prior.schema), Semantic(current.schema)) && prior.identifiers == current.identifiers
  {
    var changes := Changes(prior.schema, current.schema, "", OptionalFields);
    var more := if prior.identifiers != current.identifiers then [Change("/", "IDENTIFIER_CHANGED", Breaking)] else [];
    ClassifiedHarmless(changes + more);
    HarmlessBoth(changes, more);
    HarmlessOne(Change("/", "IDENTIFIER_CHANGED", Breaking));
    ChangesExact(prior.schema, current.schema, "");
  }

  /** A series of accepted evolutions is accepted end to end. */
  lemma {:induction false} AcceptedSeries(series: seq<Contract>)
    requires series != [] && forall i :: 0 < i < |series| ==> Accepted(series[i - 1], series[i])
    ensures Accepted(series[0], series[|series| - 1])
  {
    var n := |series| - 1;
    AcceptedExact(series[0], series[n]);
    if n > 0 {
      AcceptedSeries(series[..n]);
      assert series[..n][n - 1] == series[n - 1];
      AcceptedExact(series[0], series[n - 1]);
      assert Accepted(series[n - 1], series[n]);
      AcceptedExact(series[n - 1], series[n]);
      CompatTransitive(Semantic(series[0].schema), Semantic(series[n - 1].schema), Semantic(series[n].schema));
    }
  }
}
