/** Which changes a comparison lists, told by the positions at which the meanings of
    two schemas differ. */
module SchemaReport {
  import opened Common
  import opened Sorting
  import opened Json
  import opened SchemaDrift
  import opened SchemaCompatibility
  import opened SchemaLevels

  // ----- what is told at one position -----

  /** A property that only one of them has. */
  predicate ToldOfName(x: map<string, Sem>, y: map<string, Sem>, name: string, at: string, policy: Policy, c: Change) {
    && Members(x).SObj? && Members(y).SObj? && c.path == at + "/properties/" + name
    && var required := Requires(x, name) || Requires(y, name);
    || (name in Members(x).fields && name !in Members(y).fields
        && c.reason == "FIELD_REMOVED" && c.level == if required then Breaking else Review)
    || (name !in Members(x).fields && name in Members(y).fields
        && c.reason == "FIELD_ADDED" && c.level == if policy == OptionalFields && !required then Compatible else Review)
  }

  ghost predicate ToldOfMembers(x: map<string, Sem>, y: map<string, Sem>, at: string, policy: Policy, c: Change) {
    if !Members(x).SObj? || !Members(y).SObj? then c == Change(at, "UNKNOWN_PROPERTIES", Review)
    else exists name :: ToldOfName(x, y, name, at, policy, c)
  }

  /** A keyword that differs and is not followed further. */
  predicate ToldOfKey(x: map<string, Sem>, y: map<string, Sem>, key: string, at: string, c: Change) {
    && key != "properties" && (key in x || key in y)
    && (key in x && key in y ==> key != "items" && !SameMeaning(key, x[key], y[key]))
    && c.path == at + "/" + key
    && match c.reason
       case "TYPE_CHANGED" => key == "type" && c.level == Breaking
       case "REQUIREDNESS_CHANGED" => key == "required" && c.level == Review
       case "ENUM_CHANGED" => key in {"enum", "const"} && c.level == Review
       case "UNKNOWN_SCHEMA_CHANGE" => key !in {"type", "required", "enum", "const"} && c.level == Review
       case _ => false
  }

  ghost predicate ToldHere(a: Sem, b: Sem, at: string, policy: Policy, c: Change) {
    && a != b
    && if !a.SObj? || !b.SObj? then c == Change(at, "UNKNOWN_SCHEMA_CHANGE", Review)
       else ToldOfMembers(a.fields, b.fields, at, policy, c) || exists key :: ToldOfKey(a.fields, b.fields, key, at, c)
  }

  // ----- at any position -----

  function Along(path: string, hop: Hop): string {
    match hop
    case Property(name) => path + "/properties/" + name
    case Items => path + "/" + "items"
  }

  function PathTo(path: string, hops: seq<Hop>): string
    decreases |hops|
  {
    if hops == [] then path else PathTo(Along(path, hops[0]), hops[1..])
  }

  ghost predicate ToldAt(a: Sem, b: Sem, hops: seq<Hop>, path: string, policy: Policy, c: Change) {
    && Walk(a, hops).Some? && Walk(b, hops).Some?
    && ToldHere(Walk(a, hops).value, Walk(b, hops).value, PathTo(path, hops), policy, c)
  }

  /** The change is told at some position that both schemas have. */
  ghost predicate Told(a: Sem, b: Sem, path: string, policy: Policy, c: Change) {
    exists hops :: ToldAt(a, b, hops, path, policy, c)
  }

  ghost predicate ToldInMember(a: Sem, b: Sem, name: string, path: string, policy: Policy, c: Change) {
    && a.SObj? && b.SObj? && Members(a.fields).SObj? && Members(b.fields).SObj?
    && name in Members(a.fields).fields && name in Members(b.fields).fields
    && Told(Members(a.fields).fields[name], Members(b.fields).fields[name], Along(path, Property(name)), policy, c)
  }

  ghost predicate ToldInItems(a: Sem, b: Sem, path: string, policy: Policy, c: Change) {
    && a.SObj? && b.SObj? && "items" in a.fields && "items" in b.fields
    && Told(a.fields["items"], b.fields["items"], Along(path, Items), policy, c)
  }

  lemma {:induction false} ToldParts(a: Sem, b: Sem, path: string, policy: Policy, c: Change)
    ensures Told(a, b, path, policy, c) <==>
              || ToldHere(a, b, path, policy, c)
              || (exists name :: ToldInMember(a, b, name, path, policy, c))
              || ToldInItems(a, b, path, policy, c)
  {
    if hops :| ToldAt(a, b, hops, path, policy, c) {
      if hops != [] {
        var rest := hops[1..];
        match hops[0]
        case Property(name) =>
          assert ToldAt(Members(a.fields).fields[name], Members(b.fields).fields[name], rest, Along(path, hops[0]),
              policy, c);
          assert ToldInMember(a, b, name, path, policy, c);
        case Items => assert ToldAt(a.fields["items"], b.fields["items"], rest, Along(path, Items), policy, c);
      }
    }
    if ToldHere(a, b, path, policy, c) { assert ToldAt(a, b, [], path, policy, c); }
    if name :| ToldInMember(a, b, name, path, policy, c) {
      var hops :| ToldAt(Members(a.fields).fields[name], Members(b.fields).fields[name], hops,
          Along(path, Property(name)), policy, c);
      ToldFurther(a, b, Property(name), hops, path, policy, c);
    }
    if ToldInItems(a, b, path, policy, c) {
      var hops :| ToldAt(a.fields["items"], b.fields["items"], hops, Along(path, Items), policy, c);
      ToldFurther(a, b, Items, hops, path, policy, c);
    }
  }

  lemma {:induction false} ToldFurther(a: Sem, b: Sem, hop: Hop, hops: seq<Hop>, path: string, policy: Policy,
      c: Change)
    requires Walk(a, [hop]).Some? && Walk(b, [hop]).Some?
    requires ToldAt(Walk(a, [hop]).value, Walk(b, [hop]).value, hops, Along(path, hop), policy, c)
    ensures ToldAt(a, b, [hop] + hops, path, policy, c)
  {
    assert ([hop] + hops)[1..] == hops && [hop][1..] == [];
  }

  lemma {:induction false} NothingTold(a: Sem, path: string, policy: Policy, c: Change)
    ensures !Told(a, a, path, policy, c)
  {
  }

  // ----- what is listed -----

  ghost predicate NameLists(prior: Value, current: Value, name: string, required: set<string>, path: string,
      policy: Policy, c: Change)
    requires prior.Obj? && current.Obj? && Properties(prior.fields).Obj? && Properties(current.fields).Obj?
    requires name in Properties(prior.fields).fields || name in Properties(current.fields).fields
  {
    c in NameChanges(prior, current, name, required, path, policy)
  }

  lemma {:induction false} NamesList(prior: Value, current: Value, names: seq<string>, required: set<string>,
      path: string, policy: Policy, c: Change)
    requires prior.Obj? && current.Obj? && Properties(prior.fields).Obj? && Properties(current.fields).Obj?
    requires forall name :: name in names ==>
        name in Properties(prior.fields).fields || name in Properties(current.fields).fields
    ensures c in NamesChanges(prior, current, names, required, path, policy) <==>
      exists name :: name in names && NameLists(prior, current, name, required, path, policy, c)
    decreases |names|
  {
    if names != [] {
      var n := |names| - 1;
      NamesList(prior, current, names[..n], required, path, policy, c);
      assert names == names[..n] + [names[n]];
      assert forall name :: name in names <==> name in names[..n] || name == names[n];
      assert NameLists(prior, current, names[n], required, path, policy, c)
        <==> c in NameChanges(prior, current, names[n], required, path, policy);
    }
  }

  ghost predicate KeyLists(prior: Value, current: Value, key: string, path: string, policy: Policy, c: Change)
    requires prior.Obj? && current.Obj?
  {
    c in KeywordChanges(prior, current, key, path, policy)
  }

  lemma {:induction false} KeysList(prior: Value, current: Value, keys: seq<string>, path: string, policy: Policy,
      c: Change)
    requires prior.Obj? && current.Obj?
    ensures c in KeywordsChanges(prior, current, keys, path, policy) <==>
      exists key :: key in keys && KeyLists(prior, current, key, path, policy, c)
    decreases |keys|
  {
    if keys != [] {
      var n := |keys| - 1;
      KeysList(prior, current, keys[..n], path, policy, c);
      assert keys == keys[..n] + [keys[n]];
      assert forall key :: key in keys <==> key in keys[..n] || key == keys[n];
      assert KeyLists(prior, current, keys[n], path, policy, c)
        <==> c in KeywordChanges(prior, current, keys[n], path, policy);
    }
  }

  // ----- the two agree -----

  /** Unless it raises, a comparison lists exactly the changes told at some position
      that both schemas have. */
  lemma {:induction false} ListedExact(prior: Value, current: Value, path: string, policy: Policy, c: Change)
    requires !Below(Semantic(prior), Semantic(current), Raised)
    ensures c in Changes(prior, current, path, policy) <==> Told(Semantic(prior), Semantic(current), path, policy, c)
    decreases prior, 2
  {
    var a, b := Semantic(prior), Semantic(current);
    ToldParts(a, b, path, policy, c);
    if a == b {
      NothingTold(a, path, policy, c);
    } else if prior.Obj? && current.Obj? {
      ListedMembers(prior, current, path, policy, c);
      ListedKeys(prior, current, path, policy, c);
    }
  }

  ghost predicate MembersTell(a: Sem, b: Sem, path: string, policy: Policy, c: Change)
    requires a.SObj? && b.SObj?
  {
    ToldOfMembers(a.fields, b.fields, path, policy, c) || exists name :: ToldInMember(a, b, name, path, policy, c)
  }

  ghost predicate NameTells(a: Sem, b: Sem, name: string, path: string, policy: Policy, c: Change)
    requires a.SObj? && b.SObj?
  {
    ToldOfName(a.fields, b.fields, name, path, policy, c) || ToldInMember(a, b, name, path, policy, c)
  }

  lemma {:induction false} ListedMembers(prior: Value, current: Value, path: string, policy: Policy, c: Change)
    requires prior.Obj? && current.Obj? && Semantic(prior) != Semantic(current)
    requires !Below(Semantic(prior), Semantic(current), Raised)
    ensures c in PropertyChanges(prior, current, path, policy) <==>
              MembersTell(Semantic(prior), Semantic(current), path, policy, c)
    decreases prior, 1
  {
    var a, b := Semantic(prior), Semantic(current);
    MembersMean(prior.fields);
    MembersMean(current.fields);
    BelowParts(a, b, Raised);
    var before, after := Properties(prior.fields), Properties(current.fields);
    var first, second := RequiredIn(prior.fields), RequiredIn(current.fields);
    if before.Obj? && after.Obj? {
      var names, required := InOrder(before.fields.Keys + after.fields.Keys), first.value + second.value;
      NamesList(prior, current, names, required, path, policy, c);
      forall name | name in names { ListedName(prior, current, name, required, path, policy, c); }
      NamesTold(prior, current, names, required, path, policy, c);
    }
  }

  lemma {:induction false} NamesTold(prior: Value, current: Value, names: seq<string>, required: set<string>,
      path: string, policy: Policy, c: Change)
    requires prior.Obj? && current.Obj? && Properties(prior.fields).Obj? && Properties(current.fields).Obj?
    requires Members(Semantic(prior).fields) == Semantic(Properties(prior.fields))
    requires Members(Semantic(current).fields) == Semantic(Properties(current.fields))
    requires forall name :: name in names <==>
        name in Properties(prior.fields).fields || name in Properties(current.fields).fields
    requires forall name :: name in names ==>
      (NameLists(prior, current, name, required, path, policy, c) <==>
         NameTells(Semantic(prior), Semantic(current), name, path, policy, c))
    ensures (exists name :: name in names && NameLists(prior, current, name, required, path, policy, c)) <==>
              MembersTell(Semantic(prior), Semantic(current), path, policy, c)
  {
    var a, b := Semantic(prior), Semantic(current);
    if name :| name in names && NameLists(prior, current, name, required, path, policy, c) {
      assert NameTells(a, b, name, path, policy, c);
    }
    if name :| ToldInMember(a, b, name, path, policy, c) {
      assert name in names && NameTells(a, b, name, path, policy, c);
    }
    if name :| ToldOfName(a.fields, b.fields, name, path, policy, c) {
      assert name in names && NameTells(a, b, name, path, policy, c);
    }
  }

  lemma {:induction false} ListedName(prior: Value, current: Value, name: string, required: set<string>, path: string,
      policy: Policy, c: Change)
    requires prior.Obj? && current.Obj? && Properties(prior.fields).Obj? && Properties(current.fields).Obj?
    requires name in Properties(prior.fields).fields || name in Properties(current.fields).fields
    requires !Below(Semantic(prior), Semantic(current), Raised)
    requires RequiredIn(prior.fields).Some? && RequiredIn(current.fields).Some?
    requires required == RequiredIn(prior.fields).value + RequiredIn(current.fields).value
    ensures NameLists(prior, current, name, required, path, policy, c) <==>
              NameTells(Semantic(prior), Semantic(current), name, path, policy, c)
    decreases prior, 0
  {
    var a, b := Semantic(prior), Semantic(current);
    MembersMean(prior.fields);
    MembersMean(current.fields);
    var before, after := Properties(prior.fields).fields, Properties(current.fields).fields;
    if name in before && name in after {
      MemberQuiet(a, b, name);
      assert Members(a.fields).fields[name] == Semantic(before[name]);
      assert Members(b.fields).fields[name] == Semantic(after[name]);
      ListedExact(before[name], after[name], path + "/properties/" + name, policy, c);
    }
  }

  ghost predicate KeyTells(a: Sem, b: Sem, key: string, path: string, policy: Policy, c: Change)
    requires a.SObj? && b.SObj?
  {
    ToldOfKey(a.fields, b.fields, key, path, c) || (key == "items" && ToldInItems(a, b, path, policy, c))
  }

  lemma {:induction false} ListedKeys(prior: Value, current: Value, path: string, policy: Policy, c: Change)
    requires prior.Obj? && current.Obj? && !Below(Semantic(prior), Semantic(current), Raised)
    ensures c in KeywordsChanges(prior, current, InOrder(prior.fields.Keys + current.fields.Keys), path, policy) <==>
              (exists key :: ToldOfKey(Semantic(prior).fields, Semantic(current).fields, key, path, c))
              || ToldInItems(Semantic(prior), Semantic(current), path, policy, c)
    decreases prior, 1
  {
    var a, b := Semantic(prior), Semantic(current);
    var keys := InOrder(prior.fields.Keys + current.fields.Keys);
    KeysList(prior, current, keys, path, policy, c);
    forall key | key in keys
      ensures KeyLists(prior, current, key, path, policy, c) <==> KeyTells(a, b, key, path, policy, c)
    {
      ListedKey(prior, current, key, path, policy, c);
    }
    if key :| ToldOfKey(a.fields, b.fields, key, path, c) {
      assert key in keys && KeyTells(a, b, key, path, policy, c);
    }
    if ToldInItems(a, b, path, policy, c) { assert "items" in keys && KeyTells(a, b, "items", path, policy, c); }
  }

  lemma {:induction false} ListedKey(prior: Value, current: Value, key: string, path: string, policy: Policy, c: Change)
    requires prior.Obj? && current.Obj? && (key in prior.fields || key in current.fields)
    requires !Below(Semantic(prior), Semantic(current), Raised)
    ensures KeyLists(prior, current, key, path, policy, c) <==>
              KeyTells(Semantic(prior), Semantic(current), key, path, policy, c)
    decreases prior, 0
  {
    var a, b := Semantic(prior), Semantic(current);
    MemberQuiet(a, b, "");
    if key in prior.fields && key in current.fields {
      KeywordMeans(key, prior.fields[key], current.fields[key]);
      if key == "items" {
        NothingTold(a.fields[key], Along(path, Items), policy, c);
        ListedExact(prior.fields[key], current.fields[key], path + "/" + key, policy, c);
      }
    }
  }
}
