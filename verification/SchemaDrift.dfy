/** Classifying how a source schema changed, and what the classes promise. */
module SchemaDrift {
  import opened Common
  import opened Sorting
  import opened Json

  /** `Raised` marks a comparison that failed on a malformed `required` list. */
  datatype Level = Compatible | Review | Breaking | Raised

  datatype Policy = ReviewAll | OptionalFields

  datatype Change = Change(path: string, reason: string, level: Level)

  function AdditionLevel(required: bool, policy: Policy): Level {
    if !required && policy == OptionalFields then Compatible else Review
  }

  /** `schema.get("properties", {})` */
  function Properties(fields: map<string, Value>): Value {
    if "properties" in fields then fields["properties"] else Obj(map[])
  }

  function Letters(text: string): set<string> {
    set i | 0 <= i < |text| :: [text[i]]
  }

  function Texts(items: seq<Value>): set<string> {
    set i | 0 <= i < |items| && items[i].Str? :: items[i].text
  }

  /** The member names a `required` value names; None when Python cannot make a
      set of it. A string gives its characters and an object its keys. */
  function NamesIn(value: Value): Option<set<string>> {
    match value
    case Arr(items) =>
      if exists i :: 0 <= i < |items| && (items[i].Arr? || items[i].Obj?) then None
      else Some(Texts(items))
    case Str(text) => Some(Letters(text))
    case Obj(fields) => Some(fields.Keys)
    case _ => None
  }

  function RequiredIn(fields: map<string, Value>): Option<set<string>> {
    if "required" in fields then NamesIn(fields["required"]) else Some({})
  }

  datatype Keyword = Plain(value: Sem) | Choices(values: set<Sem>)

  function Meanings(items: seq<Value>): set<Sem> {
    set i | 0 <= i < |items| :: Semantic(items[i])
  }

  /** `_keyword_value`: an `enum` list compares as a set. */
  function KeywordValue(value: Value, key: string): Keyword {
    if key == "enum" && value.Arr? then Choices(Meanings(value.items))
    else Plain(Semantic(value))
  }

  predicate SameKeyword(prior: map<string, Value>, current: map<string, Value>, key: string) {
    key in prior && key in current && KeywordValue(prior[key], key) == KeywordValue(current[key], key)
  }

  function KeywordReason(key: string): string {
    if key == "required" then "REQUIREDNESS_CHANGED"
    else if key == "enum" || key == "const" then "ENUM_CHANGED"
    else "UNKNOWN_SCHEMA_CHANGE"
  }

  // ----- names in sorted order -----

  method SortNames(names: set<string>) returns (ordered: seq<string>)
    ensures ordered == InOrder(names)
  {
    var rest := names;
    var listed: seq<string> := [];
    while rest != {}
      invariant multiset(listed) + multiset(rest) == multiset(names)
      decreases rest
    {
      var name :| name in rest;
      listed := listed + [name];
      rest := rest - {name};
    }
    ordered := Sort(Before, listed);
    BeforeIsStrict();
    SortUnique(Before, listed, Listing(names));
  }

  // ----- the changes between two schemas -----

  ghost function Changes(prior: Value, current: Value, path: string, policy: Policy): seq<Change>
    decreases prior, 3
  {
    if Semantic(prior) == Semantic(current) then []
    else if !prior.Obj? || !current.Obj? then [Change(path, "UNKNOWN_SCHEMA_CHANGE", Review)]
    else
      PropertyChanges(prior, current, path, policy)
      + KeywordsChanges(prior, current, InOrder(prior.fields.Keys + current.fields.Keys), path, policy)
  }

  ghost function PropertyChanges(prior: Value, current: Value, path: string, policy: Policy): seq<Change>
    requires prior.Obj? && current.Obj?
    decreases prior, 2
  {
    var before, after := Properties(prior.fields), Properties(current.fields);
    if !before.Obj? || !after.Obj? then [Change(path, "UNKNOWN_PROPERTIES", Review)]
    else
      var first, second := RequiredIn(prior.fields), RequiredIn(current.fields);
      if first.None? || second.None? then [Change(path, "", Raised)]
      else
        NamesChanges(prior, current, InOrder(before.fields.Keys + after.fields.Keys),
            first.value + second.value, path, policy)
  }

  ghost function NamesChanges(prior: Value, current: Value, names: seq<string>, required: set<string>, path: string,
      policy: Policy)
    : seq<Change>
    requires prior.Obj? && current.Obj? && Properties(prior.fields).Obj? && Properties(current.fields).Obj?
    requires forall name :: name in names ==>
        name in Properties(prior.fields).fields || name in Properties(current.fields).fields
    decreases prior, 1, |names|
  {
    if names == [] then []
    else
      var n := |names| - 1;
      NamesChanges(prior, current, names[..n], required, path, policy)
          + NameChanges(prior, current, names[n], required, path, policy)
  }

  /** One property: removed, added or compared. */
  ghost function NameChanges(prior: Value, current: Value, name: string, required: set<string>, path: string,
      policy: Policy)
    : seq<Change>
    requires prior.Obj? && current.Obj? && Properties(prior.fields).Obj? && Properties(current.fields).Obj?
    requires name in Properties(prior.fields).fields || name in Properties(current.fields).fields
    decreases prior, 1, 0
  {
    var before, after := Properties(prior.fields).fields, Properties(current.fields).fields;
    var field := path + "/properties/" + name;
    if name !in after then [Change(field, "FIELD_REMOVED", if name in required then Breaking else Review)]
    else if name !in before then [Change(field, "FIELD_ADDED", AdditionLevel(name in required, policy))]
    else Changes(before[name], after[name], field, policy)
  }

  ghost function KeywordsChanges(prior: Value, current: Value, keys: seq<string>, path: string,
      policy: Policy): seq<Change>
    requires prior.Obj? && current.Obj?
    decreases prior, 1, |keys|
  {
    if keys == [] then []
    else
      var n := |keys| - 1;
      KeywordsChanges(prior, current, keys[..n], path, policy) + KeywordChanges(prior, current, keys[n], path, policy)
  }

  /** One keyword that is not `properties` and does not compare equal. */
  ghost function KeywordChanges(prior: Value, current: Value, key: string, path: string, policy: Policy): seq<Change>
    requires prior.Obj? && current.Obj?
    decreases prior, 1, 0
  {
    var field := path + "/" + key;
    if key == "properties" || SameKeyword(prior.fields, current.fields, key) then []
    else if key == "items" && key in prior.fields && key in current.fields then
      Changes(prior.fields[key], current.fields[key], field, policy)
    else if key == "type" then [Change(field, "TYPE_CHANGED", Breaking)]
    else [Change(field, KeywordReason(key), Review)]
  }

  // The recursive comparison as the source runs it: lists extended in loops.

  method FindChanges(prior: Value, current: Value, path: string, policy: Policy) returns (changes: seq<Change>)
    ensures changes == Changes(prior, current, path, policy)
    decreases prior, 2
  {
    if Semantic(prior) == Semantic(current) { return []; }
    if !prior.Obj? || !current.Obj? { return [Change(path, "UNKNOWN_SCHEMA_CHANGE", Review)]; }
    var members := FindPropertyChanges(prior, current, path, policy);
    var keywords := FindKeywordsChanges(prior, current, path, policy);
    changes := members + keywords;
  }

  method FindKeywordsChanges(prior: Value, current: Value, path: string, policy: Policy) returns (changes: seq<Change>)
    requires prior.Obj? && current.Obj?
    ensures changes == KeywordsChanges(prior, current, InOrder(prior.fields.Keys + current.fields.Keys), path, policy)
    decreases prior, 1
  {
    var keys := SortNames(prior.fields.Keys + current.fields.Keys);
    changes := [];
    for n := 0 to |keys|
      invariant changes == KeywordsChanges(prior, current, keys[..n], path, policy)
    {
      assert keys[..n + 1][..n] == keys[..n];
      var more := FindKeywordChanges(prior, current, keys[n], path, policy);
      changes := changes + more;
    }
    assert keys[..|keys|] == keys;
  }

  method FindKeywordChanges(prior: Value, current: Value, key: string, path: string, policy: Policy)
    returns (changes: seq<Change>)
    requires prior.Obj? && current.Obj?
    ensures changes == KeywordChanges(prior, current, key, path, policy)
    decreases prior, 0
  {
    if key == "properties" || SameKeyword(prior.fields, current.fields, key) { return []; }
    var field := path + "/" + key;
    if key == "items" && key in prior.fields && key in current.fields {
      changes := FindChanges(prior.fields[key], current.fields[key], field, policy);
    } else if key == "type" {
      changes := [Change(field, "TYPE_CHANGED", Breaking)];
    } else {
      changes := [Change(field, KeywordReason(key), Review)];
    }
  }

  method FindPropertyChanges(prior: Value, current: Value, path: string, policy: Policy) returns (changes: seq<Change>)
    requires prior.Obj? && current.Obj?
    ensures changes == PropertyChanges(prior, current, path, policy)
    decreases prior, 1
  {
    var before, after := Properties(prior.fields), Properties(current.fields);
    if !before.Obj? || !after.Obj? { return [Change(path, "UNKNOWN_PROPERTIES", Review)]; }
    var first, second := RequiredIn(prior.fields), RequiredIn(current.fields);
    if first.None? || second.None? { return [Change(path, "", Raised)]; }
    var required := first.value + second.value;
    var names := SortNames(before.fields.Keys + after.fields.Keys);
    changes := [];
    for n := 0 to |names|
      invariant changes == NamesChanges(prior, current, names[..n], required, path, policy)
    {
      assert names[..n + 1][..n] == names[..n];
      assert names[n] in names;
      var more := FindNameChanges(prior, current, names[n], required, path, policy);
      changes := changes + more;
    }
    assert names[..|names|] == names;
  }

  method FindNameChanges(prior: Value, current: Value, name: string, required: set<string>, path: string,
      policy: Policy)
    returns (changes: seq<Change>)
    requires prior.Obj? && current.Obj? && Properties(prior.fields).Obj? && Properties(current.fields).Obj?
    requires name in Properties(prior.fields).fields || name in Properties(current.fields).fields
    ensures changes == NameChanges(prior, current, name, required, path, policy)
    decreases prior, 0
  {
    var before, after := Properties(prior.fields).fields, Properties(current.fields).fields;
    var field := path + "/properties/" + name;
    if name !in after {
      changes := [Change(field, "FIELD_REMOVED", if name in required then Breaking else Review)];
    } else if name !in before {
      changes := [Change(field, "FIELD_ADDED", AdditionLevel(name in required, policy))];
    } else {
      changes := FindChanges(before[name], after[name], field, policy);
    }
  }

  // ----- classification -----

  predicate Has(changes: seq<Change>, level: Level) {
    exists i :: 0 <= i < |changes| && changes[i].level == level
  }

  /** `_classification`, after any exception. */
  function Classification(changes: seq<Change>): Level {
    if Has(changes, Raised) then Raised
    else if Has(changes, Breaking) then Breaking
    else if Has(changes, Review) then Review
    else Compatible
  }

  predicate Harmless(changes: seq<Change>) {
    forall i :: 0 <= i < |changes| ==> changes[i].level == Compatible
  }

  lemma {:induction false} ClassifiedHarmless(changes: seq<Change>)
    ensures Classification(changes) == Compatible <==> Harmless(changes)
  {
    if Harmless(changes) {
      assert forall i :: 0 <= i < |changes| ==> changes[i].level == Compatible;
    } else {
      var i :| 0 <= i < |changes| && changes[i].level != Compatible;
      assert changes[i].level == Raised || changes[i].level == Breaking || changes[i].level == Review;
    }
  }
}
