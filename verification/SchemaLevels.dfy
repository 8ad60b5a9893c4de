/** What the classification says, for both policies and every level: which differences
    of meaning break, which need a review, and which are none. */
module SchemaLevels {
  import opened Common
  import opened Sorting
  import opened Json
  import opened SchemaDrift
  import opened SchemaCompatibility

  // ----- positions in a schema -----

  datatype Hop = Property(name: string) | Items

  /** The subschema at a position. */
  function Walk(a: Sem, hops: seq<Hop>): Option<Sem>
    decreases |hops|
  {
    if hops == [] then Some(a)
    else if !a.SObj? then None
    else
      match hops[0]
      case Property(name) =>
        var members := Members(a.fields);
        if members.SObj? && name in members.fields then Walk(members.fields[name], hops[1..]) else None
      case Items => if "items" in a.fields then Walk(a.fields["items"], hops[1..]) else None
  }

  /** One of two schemas names a type, and not both the same. */
  predicate TypeDiffers(x: map<string, Sem>, y: map<string, Sem>) {
    ("type" in x || "type" in y) && !("type" in x && "type" in y && x["type"] == y["type"])
  }

  predicate Requires(x: map<string, Sem>, name: string) { Demanded(x).Some? && name in Demanded(x).value }

  /** A property that either schema requires is gone. */
  predicate Gone(x: map<string, Sem>, y: map<string, Sem>, name: string) {
    && Members(x).SObj? && Members(y).SObj? && name in Members(x).fields && name !in Members(y).fields
    && (Requires(x, name) || Requires(y, name))
  }

  ghost predicate RequiredGone(x: map<string, Sem>, y: map<string, Sem>) { exists name :: Gone(x, y, name) }

  /** The names one of them requires cannot be read. */
  predicate Unreadable(x: map<string, Sem>, y: map<string, Sem>) {
    Members(x).SObj? && Members(y).SObj? && (Demanded(x).None? || Demanded(y).None?)
  }

  /** Two schemas differ in this way themselves. */
  ghost predicate Here(x: Sem, y: Sem, level: Level) {
    && x.SObj? && y.SObj? && x != y
    && match level
       case Raised => Unreadable(x.fields, y.fields)
       case Breaking => TypeDiffers(x.fields, y.fields) || RequiredGone(x.fields, y.fields)
       case _ => false
  }

  ghost predicate FoundAt(a: Sem, b: Sem, hops: seq<Hop>, level: Level) {
    Walk(a, hops).Some? && Walk(b, hops).Some? && Here(Walk(a, hops).value, Walk(b, hops).value, level)
  }

  /** Or at some position that both have. */
  ghost predicate Below(a: Sem, b: Sem, level: Level) {
    exists hops :: FoundAt(a, b, hops, level)
  }

  ghost predicate BelowMember(a: Sem, b: Sem, name: string, level: Level) {
    && a.SObj? && b.SObj? && Members(a.fields).SObj? && Members(b.fields).SObj?
    && name in Members(a.fields).fields && name in Members(b.fields).fields
    && Below(Members(a.fields).fields[name], Members(b.fields).fields[name], level)
  }

  ghost predicate BelowItems(a: Sem, b: Sem, level: Level) {
    && a.SObj? && b.SObj? && "items" in a.fields && "items" in b.fields
    && Below(a.fields["items"], b.fields["items"], level)
  }

  /** A position is the schema itself, or lies in a property or in the items. */
  lemma {:induction false} BelowParts(a: Sem, b: Sem, level: Level)
    ensures Below(a, b, level) <==>
              Here(a, b, level) || (exists name :: BelowMember(a, b, name, level)) || BelowItems(a, b, level)
  {
    if hops :| FoundAt(a, b, hops, level) {
      if hops != [] {
        var rest := hops[1..];
        match hops[0]
        case Property(name) =>
          assert FoundAt(Members(a.fields).fields[name], Members(b.fields).fields[name], rest, level);
          assert BelowMember(a, b, name, level);
        case Items => assert FoundAt(a.fields["items"], b.fields["items"], rest, level);
      }
    }
    if Here(a, b, level) { assert FoundAt(a, b, [], level); }
    if name :| BelowMember(a, b, name, level) {
      var hops :| FoundAt(Members(a.fields).fields[name], Members(b.fields).fields[name], hops, level);
      HopAdded(a, b, Property(name), hops, level);
    }
    if BelowItems(a, b, level) {
      var hops :| FoundAt(a.fields["items"], b.fields["items"], hops, level);
      HopAdded(a, b, Items, hops, level);
    }
  }

  lemma {:induction false} HopAdded(a: Sem, b: Sem, hop: Hop, hops: seq<Hop>, level: Level)
    requires Walk(a, [hop]).Some? && Walk(b, [hop]).Some?
    requires FoundAt(Walk(a, [hop]).value, Walk(b, [hop]).value, hops, level)
    ensures FoundAt(a, b, [hop] + hops, level)
  {
    assert ([hop] + hops)[1..] == hops && [hop][1..] == [];
  }

  lemma {:induction false} NothingBelow(a: Sem, level: Level)
    ensures !Below(a, a, level)
  {
  }

  // ----- levels of change lists -----

  lemma {:induction false} HasBoth(a: seq<Change>, b: seq<Change>, level: Level)
    ensures Has(a + b, level) <==> Has(a, level) || Has(b, level)
  {
    if i :| 0 <= i < |a| && a[i].level == level { assert (a + b)[i] == a[i]; }
    if i :| 0 <= i < |b| && b[i].level == level { assert (a + b)[|a| + i] == b[i]; }
  }

  lemma {:induction false} HasOne(change: Change, level: Level)
    ensures Has([change], level) <==> change.level == level
  {
    assert [change][0] == change;
  }

  ghost predicate NameHas(prior: Value, current: Value, name: string, required: set<string>, path: string,
      policy: Policy, level: Level)
    requires prior.Obj? && current.Obj? && Properties(prior.fields).Obj? && Properties(current.fields).Obj?
    requires name in Properties(prior.fields).fields || name in Properties(current.fields).fields
  {
    Has(NameChanges(prior, current, name, required, path, policy), level)
  }

  lemma {:induction false} HasNames(prior: Value, current: Value, names: seq<string>, required: set<string>,
      path: string, policy: Policy, level: Level)
    requires prior.Obj? && current.Obj? && Properties(prior.fields).Obj? && Properties(current.fields).Obj?
    requires forall name :: name in names ==>
        name in Properties(prior.fields).fields || name in Properties(current.fields).fields
    ensures Has(NamesChanges(prior, current, names, required, path, policy), level) <==>
      exists name :: name in names && NameHas(prior, current, name, required, path, policy, level)
    decreases |names|
  {
    if names != [] {
      var n := |names| - 1;
      HasNames(prior, current, names[..n], required, path, policy, level);
      HasBoth(NamesChanges(prior, current, names[..n], required, path, policy),
              NameChanges(prior, current, names[n], required, path, policy), level);
      assert names == names[..n] + [names[n]];
      assert forall name :: name in names <==> name in names[..n] || name == names[n];
      assert NameHas(prior, current, names[n], required, path, policy, level)
        <==> Has(NameChanges(prior, current, names[n], required, path, policy), level);
    }
  }

  ghost predicate KeyHas(prior: Value, current: Value, key: string, path: string, policy: Policy, level: Level)
    requires prior.Obj? && current.Obj?
  {
    Has(KeywordChanges(prior, current, key, path, policy), level)
  }

  lemma {:induction false} HasKeywords(prior: Value, current: Value, keys: seq<string>, path: string, policy: Policy,
      level: Level)
    requires prior.Obj? && current.Obj?
    ensures Has(KeywordsChanges(prior, current, keys, path, policy), level) <==>
      exists key :: key in keys && KeyHas(prior, current, key, path, policy, level)
    decreases |keys|
  {
    if keys != [] {
      var n := |keys| - 1;
      HasKeywords(prior, current, keys[..n], path, policy, level);
      HasBoth(KeywordsChanges(prior, current, keys[..n], path, policy),
              KeywordChanges(prior, current, keys[n], path, policy), level);
      assert keys == keys[..n] + [keys[n]];
      assert forall key :: key in keys <==> key in keys[..n] || key == keys[n];
      assert KeyHas(prior, current, keys[n], path, policy, level)
        <==> Has(KeywordChanges(prior, current, keys[n], path, policy), level);
    }
  }

  // ----- the two exceptional levels -----

  predicate Exceptional(level: Level) { level == Raised || level == Breaking }

  /** A comparison raises, or finds a break, exactly when the meanings differ so at some
      position; a break is found only if nothing raises. */
  lemma {:induction false} LevelExact(prior: Value, current: Value, path: string, policy: Policy, level: Level)
    requires Exceptional(level)
    requires level == Breaking ==> !Below(Semantic(prior), Semantic(current), Raised)
    ensures Has(Changes(prior, current, path, policy), level) <==> Below(Semantic(prior), Semantic(current), level)
    decreases prior, 2
  {
    var a, b := Semantic(prior), Semantic(current);
    BelowParts(a, b, level);
    if a == b {
      NothingBelow(a, level);
    } else if !prior.Obj? || !current.Obj? {
      HasOne(Change(path, "UNKNOWN_SCHEMA_CHANGE", Review), level);
    } else {
      BelowParts(a, b, Raised);
      HasBoth(PropertyChanges(prior, current, path, policy),
              KeywordsChanges(prior, current, InOrder(prior.fields.Keys + current.fields.Keys), path, policy), level);
      PropertyLevel(prior, current, path, policy, level);
      KeywordsLevel(prior, current, path, policy, level);
    }
  }

  /** What the properties of two schemas contribute. */
  ghost predicate PropertyFound(a: Sem, b: Sem, level: Level)
    requires a.SObj? && b.SObj?
  {
    match level
    case Raised => Unreadable(a.fields, b.fields) || exists name :: BelowMember(a, b, name, level)
    case _ => RequiredGone(a.fields, b.fields) || exists name :: BelowMember(a, b, name, level)
  }

  lemma {:induction false} PropertyLevel(prior: Value, current: Value, path: string, policy: Policy, level: Level)
    requires prior.Obj? && current.Obj? && Exceptional(level) && Semantic(prior) != Semantic(current)
    requires level == Breaking ==> !Below(Semantic(prior), Semantic(current), Raised)
    ensures level == Raised && Unreadable(Semantic(prior).fields, Semantic(current).fields) ==>
              Has(PropertyChanges(prior, current, path, policy), level)
    ensures !(level == Raised && Unreadable(Semantic(prior).fields, Semantic(current).fields)) ==>
              (Has(PropertyChanges(prior, current, path, policy), level) <==>
                 PropertyFound(Semantic(prior), Semantic(current), level))
    decreases prior, 1
  {
    var a, b := Semantic(prior), Semantic(current);
    MembersMean(prior.fields);
    MembersMean(current.fields);
    BelowParts(a, b, Raised);
    var before, after := Properties(prior.fields), Properties(current.fields);
    var first, second := RequiredIn(prior.fields), RequiredIn(current.fields);
    if !before.Obj? || !after.Obj? {
      HasOne(Change(path, "UNKNOWN_PROPERTIES", Review), level);
    } else if first.None? || second.None? {
      HasOne(Change(path, "", Raised), level);
    } else {
      var names, required := InOrder(before.fields.Keys + after.fields.Keys), first.value + second.value;
      HasNames(prior, current, names, required, path, policy, level);
      forall name | name in names { NameLevel(prior, current, name, required, path, policy, level); }
      NamesFound(prior, current, names, required, path, policy, level);
    }
  }

  /** What one property contributes. */
  ghost predicate NameFound(a: Sem, b: Sem, name: string, level: Level)
    requires a.SObj? && b.SObj? && Members(a.fields).SObj? && Members(b.fields).SObj?
  {
    || BelowMember(a, b, name, level)
    || (level == Breaking && Gone(a.fields, b.fields, name))
  }

  lemma {:induction false} NamesFound(prior: Value, current: Value, names: seq<string>, required: set<string>,
      path: string, policy: Policy, level: Level)
    requires prior.Obj? && current.Obj? && Properties(prior.fields).Obj? && Properties(current.fields).Obj?
    requires Exceptional(level)
    requires Members(Semantic(prior).fields) == Semantic(Properties(prior.fields))
    requires Members(Semantic(current).fields) == Semantic(Properties(current.fields))
    requires Demanded(Semantic(prior).fields).Some? && Demanded(Semantic(current).fields).Some?
    requires forall name :: name in names <==>
        name in Properties(prior.fields).fields || name in Properties(current.fields).fields
    requires forall name :: name in names ==>
      (NameHas(prior, current, name, required, path, policy, level) <==>
         NameFound(Semantic(prior), Semantic(current), name, level))
    ensures (exists name :: name in names && NameHas(prior, current, name, required, path, policy, level)) <==>
              PropertyFound(Semantic(prior), Semantic(current), level)
  {
    var a, b := Semantic(prior), Semantic(current);
    if name :| name in names && NameHas(prior, current, name, required, path, policy, level) {
      assert NameFound(a, b, name, level);
    }
    if name :| BelowMember(a, b, name, level) {
      assert name in names && NameFound(a, b, name, level);
    }
    if level == Breaking && RequiredGone(a.fields, b.fields) {
      var name :| Gone(a.fields, b.fields, name);
      assert name in names && NameFound(a, b, name, level);
    }
  }

  lemma {:induction false} NameLevel(prior: Value, current: Value, name: string, required: set<string>, path: string,
      policy: Policy, level: Level)
    requires prior.Obj? && current.Obj? && Properties(prior.fields).Obj? && Properties(current.fields).Obj?
    requires name in Properties(prior.fields).fields || name in Properties(current.fields).fields
    requires Exceptional(level) && (level == Breaking ==> !Below(Semantic(prior), Semantic(current), Raised))
    requires RequiredIn(prior.fields).Some? && RequiredIn(current.fields).Some?
    requires required == RequiredIn(prior.fields).value + RequiredIn(current.fields).value
    ensures Members(Semantic(prior).fields).SObj? && Members(Semantic(current).fields).SObj?
    ensures NameHas(prior, current, name, required, path, policy, level) <==>
              NameFound(Semantic(prior), Semantic(current), name, level)
    decreases prior, 0
  {
    var a, b := Semantic(prior), Semantic(current);
    MembersMean(prior.fields);
    MembersMean(current.fields);
    var before, after := Properties(prior.fields).fields, Properties(current.fields).fields;
    var field := path + "/properties/" + name;
    if name !in after {
      HasOne(Change(field, "FIELD_REMOVED", if name in required then Breaking else Review), level);
    } else if name !in before {
      HasOne(Change(field, "FIELD_ADDED", AdditionLevel(name in required, policy)), level);
    } else {
      MemberQuiet(a, b, name);
      assert Members(a.fields).fields[name] == Semantic(before[name]);
      assert Members(b.fields).fields[name] == Semantic(after[name]);
      LevelExact(before[name], after[name], field, policy, level);
    }
  }

  lemma {:induction false} MemberQuiet(a: Sem, b: Sem, name: string)
    ensures !Below(a, b, Raised) ==> !BelowMember(a, b, name, Raised) && !BelowItems(a, b, Raised)
  {
    BelowParts(a, b, Raised);
  }

  /** What the other keywords contribute. */
  ghost predicate KeywordFound(a: Sem, b: Sem, level: Level)
    requires a.SObj? && b.SObj?
  {
    BelowItems(a, b, level) || (level == Breaking && TypeDiffers(a.fields, b.fields))
  }

  lemma {:induction false} KeywordsLevel(prior: Value, current: Value, path: string, policy: Policy, level: Level)
    requires prior.Obj? && current.Obj? && Exceptional(level)
    requires level == Breaking ==> !Below(Semantic(prior), Semantic(current), Raised)
    ensures Has(KeywordsChanges(prior, current, InOrder(prior.fields.Keys + current.fields.Keys), path, policy), level)
            <==> KeywordFound(Semantic(prior), Semantic(current), level)
    decreases prior, 1
  {
    var a, b := Semantic(prior), Semantic(current);
    var keys := InOrder(prior.fields.Keys + current.fields.Keys);
    HasKeywords(prior, current, keys, path, policy, level);
    forall key | key in keys
      ensures KeyHas(prior, current, key, path, policy, level) <==>
                (key == "items" && BelowItems(a, b, level))
                || (key == "type" && level == Breaking && TypeDiffers(a.fields, b.fields))
    {
      KeywordLevel(prior, current, key, path, policy, level);
    }
    assert BelowItems(a, b, level) ==> "items" in keys;
    assert TypeDiffers(a.fields, b.fields) ==> "type" in keys;
  }

  lemma {:induction false} KeywordLevel(prior: Value, current: Value, key: string, path: string, policy: Policy,
      level: Level)
    requires prior.Obj? && current.Obj? && Exceptional(level) && (key in prior.fields || key in current.fields)
    requires level == Breaking ==> !Below(Semantic(prior), Semantic(current), Raised)
    ensures KeyHas(prior, current, key, path, policy, level) <==>
              (key == "items" && BelowItems(Semantic(prior), Semantic(current), level))
              || (key == "type" && level == Breaking
                  && TypeDiffers(Semantic(prior).fields, Semantic(current).fields))
    decreases prior, 0
  {
    var a, b := Semantic(prior), Semantic(current);
    var field := path + "/" + key;
    MemberQuiet(a, b, "");
    HasOne(Change(field, "TYPE_CHANGED", Breaking), level);
    HasOne(Change(field, KeywordReason(key), Review), level);
    if key in prior.fields && key in current.fields {
      KeywordMeans(key, prior.fields[key], current.fields[key]);
      if key == "items" {
        NothingBelow(a.fields[key], level);
        LevelExact(prior.fields[key], current.fields[key], field, policy, level);
      }
    }
  }

  // ----- no difference -----

  /** Two schemas mean the same: they are equal up to the order and the repetition of
      `enum` entries and to absent or empty `properties`. The names that differing
      schemas require can be read. */
  ghost predicate Same(a: Sem, b: Sem)
    decreases a
  {
    || a == b
    || (a.SObj? && b.SObj? && SameMembers(a, b) && SameKeywords(a, b))
  }

  ghost predicate SameMembers(a: Sem, b: Sem)
    requires a.SObj? && b.SObj?
    decreases a, 0
  {
    var before, after := Members(a.fields), Members(b.fields);
    && before.SObj? && after.SObj? && before.fields.Keys == after.fields.Keys
    && Demanded(a.fields).Some? && Demanded(b.fields).Some?
    && forall name :: name in before.fields ==> Same(before.fields[name], after.fields[name])
  }

  ghost predicate SameKeywords(a: Sem, b: Sem)
    requires a.SObj? && b.SObj?
    decreases a, 1
  {
    forall key {:trigger KeywordSame(a, b, key)} ::
      (key in a.fields || key in b.fields) && key != "properties" ==> KeywordSame(a, b, key)
  }

  ghost predicate KeywordSame(a: Sem, b: Sem, key: string)
    requires a.SObj? && b.SObj?
    decreases a, 0
  {
    && key in a.fields && key in b.fields
    && (SameMeaning(key, a.fields[key], b.fields[key]) || (key == "items" && Same(a.fields[key], b.fields[key])))
  }

  lemma {:induction false} SameSymmetric(a: Sem, b: Sem)
    requires Same(a, b)
    ensures Same(b, a)
    decreases a
  {
    if a != b {
      var before, after := Members(a.fields), Members(b.fields);
      forall name | name in after.fields ensures Same(after.fields[name], before.fields[name]) {
        assert "properties" in a.fields;
        SameSymmetric(before.fields[name], after.fields[name]);
      }
      assert SameMembers(b, a);
      forall key | (key in a.fields || key in b.fields) && key != "properties" ensures KeywordSame(b, a, key) {
        assert KeywordSame(a, b, key);
        if key == "items" && !SameMeaning(key, a.fields[key], b.fields[key]) {
          SameSymmetric(a.fields[key], b.fields[key]);
        }
      }
      assert SameKeywords(b, a);
    }
  }

  /** What is the same may be replaced, in both directions. */
  lemma {:induction false} SameCompatible(a: Sem, b: Sem)
    requires Same(a, b)
    ensures Compat(a, b)
    decreases a
  {
    if a != b {
      var before, after := Members(a.fields), Members(b.fields);
      forall name | name in before.fields ensures Compat(before.fields[name], after.fields[name]) {
        assert "properties" in a.fields;
        SameCompatible(before.fields[name], after.fields[name]);
      }
      assert MembersCompat(a, b);
      forall key | (key in a.fields || key in b.fields) && key != "properties" ensures KeywordCompat(a, b, key) {
        assert KeywordSame(a, b, key);
        if key == "items" && !SameMeaning(key, a.fields[key], b.fields[key]) {
          SameCompatible(a.fields[key], b.fields[key]);
        }
      }
      assert KeywordsCompat(a, b);
    }
  }

  // ----- the strict policy accepts nothing else -----

  /** Under the default policy a comparison reports nothing exactly for the same
      meanings. */
  lemma {:induction false} ReviewExact(prior: Value, current: Value, path: string)
    ensures Harmless(Changes(prior, current, path, ReviewAll)) <==> Same(Semantic(prior), Semantic(current))
    decreases prior, 2
  {
    if Semantic(prior) != Semantic(current) {
      if prior.Obj? && current.Obj? {
        HarmlessBoth(PropertyChanges(prior, current, path, ReviewAll),
                     KeywordsChanges(prior, current, InOrder(prior.fields.Keys + current.fields.Keys), path,
                         ReviewAll));
        ReviewProperties(prior, current, path);
        ReviewKeywords(prior, current, path);
      } else {
        HarmlessOne(Change(path, "UNKNOWN_SCHEMA_CHANGE", Review));
      }
    }
  }

  lemma {:induction false} ReviewName(prior: Value, current: Value, name: string, required: set<string>, path: string)
    requires prior.Obj? && current.Obj? && Properties(prior.fields).Obj? && Properties(current.fields).Obj?
    requires name in Properties(prior.fields).fields || name in Properties(current.fields).fields
    ensures var before, after := Properties(prior.fields).fields, Properties(current.fields).fields;
            NameHarmless(prior, current, name, required, path, ReviewAll) <==>
              name in before && name in after && Same(Semantic(before[name]), Semantic(after[name]))
    decreases prior, 0
  {
    var before, after := Properties(prior.fields).fields, Properties(current.fields).fields;
    var field := path + "/properties/" + name;
    if name !in after {
      HarmlessOne(Change(field, "FIELD_REMOVED", if name in required then Breaking else Review));
    } else if name !in before {
      HarmlessOne(Change(field, "FIELD_ADDED", AdditionLevel(name in required, ReviewAll)));
    } else {
      ReviewExact(before[name], after[name], field);
    }
  }

  lemma {:induction false} ReviewProperties(prior: Value, current: Value, path: string)
    requires prior.Obj? && current.Obj?
    ensures Harmless(PropertyChanges(prior, current, path, ReviewAll)) <==>
      SameMembers(Semantic(prior), Semantic(current))
    decreases prior, 1
  {
    MembersMean(prior.fields);
    MembersMean(current.fields);
    var before, after := Properties(prior.fields), Properties(current.fields);
    var first, second := RequiredIn(prior.fields), RequiredIn(current.fields);
    if !before.Obj? || !after.Obj? {
      HarmlessOne(Change(path, "UNKNOWN_PROPERTIES", Review));
    } else if first.None? || second.None? {
      HarmlessOne(Change(path, "", Raised));
    } else {
      var names, required := InOrder(before.fields.Keys + after.fields.Keys), first.value + second.value;
      HarmlessNames(prior, current, names, required, path, ReviewAll);
      forall name | name in names { ReviewName(prior, current, name, required, path); }
      SamePointwise(before.fields, after.fields, Semantic(prior), Semantic(current));
    }
  }

  lemma {:induction false} SamePointwise(before: map<string, Value>, after: map<string, Value>, a: Sem, b: Sem)
    requires a.SObj? && b.SObj?
    requires Members(a.fields) == Semantic(Obj(before)) && Members(b.fields) == Semantic(Obj(after))
    requires Demanded(a.fields).Some? && Demanded(b.fields).Some?
    ensures SameMembers(a, b) <==>
      forall name :: name in before || name in after ==>
        name in before && name in after && Same(Semantic(before[name]), Semantic(after[name]))
  {
    var x, y := Members(a.fields).fields, Members(b.fields).fields;
    assert forall name :: name in before <==> name in x;
    assert forall name :: name in after <==> name in y;
    assert forall name :: name in before ==> x[name] == Semantic(before[name]);
    assert forall name :: name in after ==> y[name] == Semantic(after[name]);
    if forall name :: name in before || name in after ==> name in before && name in after {
      assert x.Keys == y.Keys;
    }
  }

  lemma {:induction false} ReviewKeyword(prior: Value, current: Value, key: string, path: string)
    requires prior.Obj? && current.Obj? && key != "properties"
    ensures KeyHarmless(prior, current, key, path, ReviewAll) <==>
      KeywordSame(Semantic(prior), Semantic(current), key)
    decreases prior, 0
  {
    var field := path + "/" + key;
    if key in prior.fields && key in current.fields {
      KeywordMeans(key, prior.fields[key], current.fields[key]);
      if key == "items" { ReviewExact(prior.fields[key], current.fields[key], field); }
    }
    HarmlessOne(Change(field, "TYPE_CHANGED", Breaking));
    HarmlessOne(Change(field, KeywordReason(key), Review));
  }

  lemma {:induction false} ReviewKeywords(prior: Value, current: Value, path: string)
    requires prior.Obj? && current.Obj?
    ensures Harmless(KeywordsChanges(prior, current, InOrder(prior.fields.Keys + current.fields.Keys), path,
        ReviewAll)) <==>
      SameKeywords(Semantic(prior), Semantic(current))
    decreases prior, 1
  {
    var keys := InOrder(prior.fields.Keys + current.fields.Keys);
    HarmlessKeywords(prior, current, keys, path, ReviewAll);
    forall key | key in keys && key != "properties" { ReviewKeyword(prior, current, key, path); }
  }

  // ----- the classification -----

  /** What the level of a change of contract says, by the meanings alone. */
  ghost predicate LevelMeans(prior: Contract, current: Contract, policy: Policy, level: Level) {
    var a, b := Semantic(prior.schema), Semantic(current.schema);
    if Below(a, b, Raised) then level == Raised
    else if Below(a, b, Breaking) || prior.identifiers != current.identifiers then level == Breaking
    else if (if policy == OptionalFields then Compat(a, b) else Same(a, b)) then level == Compatible
    else level == Review
  }

  lemma {:induction false} ChangesHarmless(prior: Value, current: Value, policy: Policy)
    ensures Harmless(Changes(prior, current, "", policy)) <==>
              if policy == OptionalFields then Compat(Semantic(prior), Semantic(current))
              else Same(Semantic(prior), Semantic(current))
  {
    if policy == OptionalFields { ChangesExact(prior, current, ""); } else { ReviewExact(prior, current, ""); }
  }

  /** Without a contract on both sides a change needs a review. With both it is breaking
      exactly when, at some position both have, the types differ or a property that
      either side requires is gone, or when the identifiers differ; and otherwise
      compatible exactly when the meanings are the same, or, where optional fields are
      permitted, compatible. */
  lemma {:induction false} ClassificationMeans(prior: Option<Contract>, current: Option<Contract>, policy: Policy)
    ensures var level := Classification(ContractChanges(prior, current, policy));
            if prior.None? || current.None? then level == Review
            else LevelMeans(prior.value, current.value, policy, level)
  {
    if prior.None? || current.None? {
      MissingReviewed();
    } else {
      var p, q := prior.value, current.value;
      var a, b := Semantic(p.schema), Semantic(q.schema);
      var changes := Changes(p.schema, q.schema, "", policy);
      var more := if p.identifiers != q.identifiers then [Change("/", "IDENTIFIER_CHANGED", Breaking)] else [];
      LevelExact(p.schema, q.schema, "", policy, Raised);
      if !Below(a, b, Raised) { LevelExact(p.schema, q.schema, "", policy, Breaking); }
      HasBoth(changes, more, Raised);
      HasBoth(changes, more, Breaking);
      HasOne(Change("/", "IDENTIFIER_CHANGED", Breaking), Raised);
      HasOne(Change("/", "IDENTIFIER_CHANGED", Breaking), Breaking);
      ChangesHarmless(p.schema, q.schema, policy);
      ClassifiedHarmless(changes + more);
      HarmlessBoth(changes, more);
    }
  }

  lemma {:induction false} MissingReviewed()
    ensures Classification([Change("/", "MISSING_SCHEMA", Review)]) == Review
  {
    var change := Change("/", "MISSING_SCHEMA", Review);
    HasOne(change, Raised);
    HasOne(change, Breaking);
    HasOne(change, Review);
  }

  /** The levels do not depend on which policy is asked, except for the compatible one. */
  lemma {:induction false} PolicyMatters(prior: Contract, current: Contract)
    ensures var strict := Classification(ContractChanges(Some(prior), Some(current), ReviewAll));
            var open := Classification(ContractChanges(Some(prior), Some(current), OptionalFields));
            strict == open || (strict == Review && open == Compatible)
  {
    ClassificationMeans(Some(prior), Some(current), ReviewAll);
    ClassificationMeans(Some(prior), Some(current), OptionalFields);
    var a, b := Semantic(prior.schema), Semantic(current.schema);
    if Same(a, b) { SameCompatible(a, b); }
  }
}
