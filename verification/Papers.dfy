/** Provider records, the merged paper records, and how a group of provider
    records becomes one of them. */
module Papers {
  import opened Common
  import opened Sorting

  /** Pydantic's `Identity` never admits the empty string. */
  type Identity = s: string | s != "" witness "x"

  datatype Evidence = Evidence(provider: Identity, source: Identity, location: Identity, document: Option<string>)

  datatype Reference = Reference(provider: Identity, record: Identity, original: Option<string>)

  datatype Offer = Offer(provider: Identity, url: string, mediaType: string)

  datatype Field = Title | Authors | Abstract | PublicationDate

  datatype Value = Text(text: string) | Names(names: seq<string>)

  datatype Paper = Paper(
    reference: Reference,
    doi: Option<string>,
    alias: Option<Identity>,
    revision: Option<Identity>,
    title: Option<string>,
    authors: seq<string>,
    abstract_: Option<string>,
    date: Option<string>,
    offers: seq<Offer>,
    provenance: map<Field, seq<Evidence>>)

  datatype Alternative = Alternative(value: Value, evidence: seq<Evidence>)

  datatype FieldOutcome = FieldOutcome(preferred: Option<Value>, evidence: seq<Evidence>, others: seq<Alternative>)

  datatype Record = Record(
    canonical: string,
    revision: Option<Identity>,
    fields: map<Field, FieldOutcome>,
    offers: seq<Offer>,
    references: seq<Reference>)

  /** Library behaviour taken as given: percent quoting, DOI normalisation (None
      when the DOI is invalid), the URL test for public offers, and the field
      limits of the output model. */
  datatype Env = Env(
    quote: string -> string,
    doi: string -> Option<string>,
    public: string -> bool,
    admits: Record -> bool)

  // ----- identity tokens -----

  function Tokens(env: Env, paper: Paper): Result<seq<string>> {
    var named := ["provider:" + env.quote(paper.reference.provider) + ":" + env.quote(paper.reference.record)];
    var aliased := if paper.alias.Some? then ["alias:" + paper.alias.value] else [];
    if paper.doi.None? then Ok(named + aliased)
    else
      match env.doi(paper.doi.value)
      case None => Refused
      case Some(doi) => Ok(named + ["doi:" + doi] + aliased)
  }

  /** The tokens of a record whose DOI is valid; none otherwise. */
  function TokensOf(env: Env, paper: Paper): seq<string> {
    match Tokens(env, paper)
    case Ok(tokens) => tokens
    case Refused => []
  }

  function AllTokens(env: Env, group: seq<Paper>): seq<string> {
    if group == [] then [] else TokensOf(env, group[0]) + AllTokens(env, group[1..])
  }

  lemma {:induction false} AllTokensExact(env: Env, group: seq<Paper>, token: string)
    ensures token in AllTokens(env, group) <==> exists i :: 0 <= i < |group| && token in TokensOf(env, group[i])
  {
    if group != [] {
      AllTokensExact(env, group[1..], token);
      if i :| 0 <= i < |group| && token in TokensOf(env, group[i]) {
        if i > 0 { assert group[i] == group[1..][i - 1]; }
      }
      if j :| 0 <= j < |group[1..]| && token in TokensOf(env, group[1..][j]) {
        assert group[1..][j] == group[j + 1];
      }
    }
  }

  function WithPrefix(prefix: string, tokens: seq<string>): seq<string> {
    if tokens == [] then []
    else (if prefix <= tokens[0] then [tokens[0]] else []) + WithPrefix(prefix, tokens[1..])
  }

  lemma {:induction false} WithPrefixExact(prefix: string, tokens: seq<string>, token: string)
    ensures token in WithPrefix(prefix, tokens) <==> token in tokens && prefix <= token
  {
    if tokens != [] {
      WithPrefixExact(prefix, tokens[1..], token);
      assert tokens == [tokens[0]] + tokens[1..];
    }
  }

  /** Every DOI is valid. */
  predicate Tokenized(env: Env, papers: seq<Paper>) {
    forall p :: p in papers ==> Tokens(env, p).Ok?
  }

  /** `_canonical`: the first DOI, else the first alias, else the first name. */
  function Canonical(env: Env, group: seq<Paper>): Option<string> {
    var tokens := AllTokens(env, group);
    var dois := Sort(Before, WithPrefix("doi:", tokens));
    var aliases := Sort(Before, WithPrefix("alias:", tokens));
    var names := Sort(Before, WithPrefix("provider:", tokens));
    if !Tokenized(env, group) then None
    else if dois != [] then Some(dois[0])
    else if aliases != [] then Some(aliases[0])
    else if names != [] then Some(names[0])
    else None
  }

  lemma {:induction false} FirstIsMember(prefix: string, tokens: seq<string>)
    requires Sort(Before, WithPrefix(prefix, tokens)) != []
    ensures Sort(Before, WithPrefix(prefix, tokens))[0] in tokens
  {
    var sorted := Sort(Before, WithPrefix(prefix, tokens));
    SortPermutes(Before, WithPrefix(prefix, tokens));
    assert sorted[0] in multiset(sorted);
    WithPrefixExact(prefix, tokens, sorted[0]);
  }

  /** The canonical id is a token of some member of the group. */
  lemma {:induction false} CanonicalIsToken(env: Env, group: seq<Paper>) returns (member: nat)
    requires Canonical(env, group).Some?
    ensures member < |group| && Canonical(env, group).value in TokensOf(env, group[member])
  {
    var tokens := AllTokens(env, group);
    if Sort(Before, WithPrefix("doi:", tokens)) != [] { FirstIsMember("doi:", tokens); }
    if Sort(Before, WithPrefix("alias:", tokens)) != [] { FirstIsMember("alias:", tokens); }
    if Sort(Before, WithPrefix("provider:", tokens)) != [] { FirstIsMember("provider:", tokens); }
    AllTokensExact(env, group, Canonical(env, group).value);
    member :| 0 <= member < |group| && Canonical(env, group).value in TokensOf(env, group[member]);
  }

  predicate OneDoi(env: Env, group: seq<Paper>) {
    var dois := WithPrefix("doi:", AllTokens(env, group));
    forall i :: 0 < i < |dois| ==> dois[i] == dois[0]
  }

  // ----- one field of a group -----

  function FieldValue(paper: Paper, field: Field): Option<Value> {
    match field
    case Title => TextValue(paper.title)
    case Authors => if paper.authors == [] then None else Some(Names(paper.authors))
    case Abstract => TextValue(paper.abstract_)
    case PublicationDate => TextValue(paper.date)
  }

  function TextValue(text: Option<string>): Option<Value> {
    if text.None? || text.value == "" then None else Some(Text(text.value))
  }

  function EvidenceFor(paper: Paper, field: Field): seq<Evidence> {
    if field in paper.provenance then paper.provenance[field] else []
  }

  /** The first occurrences, in order. */
  function Dedup<T(==)>(items: seq<T>): seq<T> {
    if items == [] then []
    else
      var kept := Dedup(items[..|items| - 1]);
      var last := items[|items| - 1];
      if last in kept then kept else kept + [last]
  }

  lemma {:induction false} DedupExact<T(!new)>(items: seq<T>)
    ensures forall x :: x in Dedup(items) <==> x in items
    ensures forall i, j :: 0 <= i < j < |Dedup(items)| ==> Dedup(items)[i] != Dedup(items)[j]
  {
    if items != [] {
      DedupExact(items[..|items| - 1]);
      assert items == items[..|items| - 1] + [items[|items| - 1]];
    }
  }

  /** Nothing comes before what first occurs in front of it. */
  ghost predicate InFirstOrder<T>(items: seq<T>, s: seq<T>) {
    forall i, j, m {:trigger s[i], s[j], items[m]} ::
      0 <= i < j < |s| && 0 <= m < |items| && items[m] == s[j] ==> s[i] in items[..m]
  }

  lemma {:induction false} DedupOrder<T(!new)>(items: seq<T>)
    ensures InFirstOrder(items, Dedup(items))
  {
    if items != [] {
      var n := |items| - 1;
      var kept, s := Dedup(items[..n]), Dedup(items);
      DedupOrder(items[..n]);
      DedupExact(items[..n]);
      forall i, j, m | 0 <= i < j < |s| && 0 <= m < |items| && items[m] == s[j] ensures s[i] in items[..m] {
        assert s[i] == kept[i];
        if m < n {
          assert items[..n][m] == s[j] && items[..n][..m] == items[..m];
          assert s[j] in items[..n];
        }
      }
    }
  }

  /** The populated values of the field, in group order. */
  function Populated(group: seq<Paper>, field: Field): seq<Value> {
    if group == [] then []
    else
      var value := FieldValue(group[|group| - 1], field);
      Populated(group[..|group| - 1], field) + if value.Some? then [value.value] else []
  }

  /** All evidence the group gives for one value, in group order. */
  function Evidenced(group: seq<Paper>, field: Field, value: Value): seq<Evidence> {
    if group == [] then []
    else
      var last := group[|group| - 1];
      Evidenced(group[..|group| - 1], field, value)
      + if FieldValue(last, field) == Some(value) then EvidenceFor(last, field) else []
  }

  predicate Contradicts(a: Paper, b: Paper, field: Field) {
    && a.reference.provider == b.reference.provider
    && FieldValue(a, field).Some? && FieldValue(b, field).Some?
    && FieldValue(a, field) != FieldValue(b, field)
  }

  predicate Consistent(group: seq<Paper>, field: Field) {
    forall i, j :: 0 <= i < j < |group| ==> !Contradicts(group[i], group[j], field)
  }

  /** The first value wins; the others stay as alternatives, each with its own
      evidence. A provider that contradicts itself refuses the group. */
  function Chosen(group: seq<Paper>, field: Field): Result<FieldOutcome> {
    if !Consistent(group, field) then Refused
    else
      var values := Dedup(Populated(group, field));
      if values == [] then Ok(FieldOutcome(None, [], []))
      else
        var others := seq(|values| - 1, i requires 0 <= i < |values| - 1 =>
          Alternative(values[i + 1], Dedup(Evidenced(group, field, values[i + 1]))));
        Ok(FieldOutcome(Some(values[0]), Dedup(Evidenced(group, field, values[0])), others))
  }

  /** What each provider said last about the field. */
  function StatedBy(group: seq<Paper>, field: Field): map<Identity, Value> {
    if group == [] then map[]
    else
      var last := group[|group| - 1];
      var before := StatedBy(group[..|group| - 1], field);
      if FieldValue(last, field).None? then before
      else before[last.reference.provider := FieldValue(last, field).value]
  }

  lemma {:induction false} StatedWitness(group: seq<Paper>, field: Field, p: Identity) returns (i: nat)
    requires p in StatedBy(group, field)
    ensures i < |group| && group[i].reference.provider == p
        && FieldValue(group[i], field) == Some(StatedBy(group, field)[p])
  {
    var last := group[|group| - 1];
    if FieldValue(last, field).Some? && last.reference.provider == p {
      i := |group| - 1;
    } else {
      i := StatedWitness(group[..|group| - 1], field, p);
    }
  }

  lemma {:induction false} StatedExact(group: seq<Paper>, field: Field, i: nat)
    requires Consistent(group, field) && i < |group| && FieldValue(group[i], field).Some?
    ensures group[i].reference.provider in StatedBy(group, field)
    ensures FieldValue(group[i], field) == Some(StatedBy(group, field)[group[i].reference.provider])
  {
    var n := |group| - 1;
    if i < n {
      var before := group[..n];
      assert before[i] == group[i];
      forall j, k | 0 <= j < k < n ensures !Contradicts(before[j], before[k], field) {
        assert !Contradicts(group[j], group[k], field);
      }
      StatedExact(before, field, i);
      assert !Contradicts(group[i], group[n], field);
    }
  }

  function Elements(order: seq<Value>): set<Value> {
    set v | v in order
  }

  /** Each value met so far, with its evidence. */
  ghost predicate Tabled(seen: seq<Paper>, field: Field, order: seq<Value>, sources: map<Value, seq<Evidence>>) {
    order == Dedup(Populated(seen, field)) && sources.Keys == Elements(order) && Sourced(seen, field, sources)
  }

  ghost predicate Sourced(seen: seq<Paper>, field: Field, sources: map<Value, seq<Evidence>>) {
    forall v :: v in sources ==> sources[v] == Dedup(Evidenced(seen, field, v))
  }

  lemma {:induction false} DedupAppend<T(!new)>(a: seq<T>, x: T)
    ensures Dedup(a + [x]) == if x in a then Dedup(a) else Dedup(a) + [x]
  {
    assert (a + [x])[..|a|] == a;
    DedupExact(a);
  }

  /** Evidence is added one item at a time. */
  method AddEvidence(known: seq<Evidence>, ghost all: seq<Evidence>, extra: seq<Evidence>) returns (kept: seq<Evidence>)
    requires known == Dedup(all)
    ensures kept == Dedup(all + extra)
  {
    kept := known;
    TakeAll(extra);
    assert all + [] == all;
    for i := 0 to |extra|
      invariant kept == Dedup(all + extra[..i])
    {
      DedupAppend(all + extra[..i], extra[i]);
      DedupExact(all + extra[..i]);
      TakeNext(extra, i);
      assert all + (extra[..i] + [extra[i]]) == all + extra[..i] + [extra[i]];
      if extra[i] !in kept { kept := kept + [extra[i]]; }
    }
  }

  lemma {:induction false} Unstated(seen: seq<Paper>, field: Field, value: Value)
    requires value !in Populated(seen, field)
    ensures Evidenced(seen, field, value) == []
  {
    if seen != [] { Unstated(seen[..|seen| - 1], field, value); }
  }

  /** One more record contradicts what came before exactly when its provider
      said something else already. */
  lemma {:induction false} ConsistentStep(seen: seq<Paper>, paper: Paper, field: Field)
    requires Consistent(seen, field)
    ensures var value, p, stated := FieldValue(paper, field), paper.reference.provider, StatedBy(seen, field);
            Consistent(seen + [paper], field) <==> (value.Some? && p in stated ==> stated[p] == value.value)
  {
    var more := seen + [paper];
    var value, p, stated := FieldValue(paper, field), paper.reference.provider, StatedBy(seen, field);
    if value.Some? && p in stated && stated[p] != value.value {
      var i := StatedWitness(seen, field, p);
      assert Contradicts(more[i], more[|seen|], field);
    } else {
      forall i, j | 0 <= i < j < |more| ensures !Contradicts(more[i], more[j], field) {
        if j < |seen| {
          assert !Contradicts(seen[i], seen[j], field);
        } else if FieldValue(seen[i], field).Some? {
          StatedExact(seen, field, i);
        }
      }
    }
  }

  lemma {:induction false} StatedStep(seen: seq<Paper>, paper: Paper, field: Field)
    ensures var value := FieldValue(paper, field);
            StatedBy(seen + [paper], field)
            == if value.None? then StatedBy(seen, field)
                else StatedBy(seen, field)[paper.reference.provider := value.value]
  {
    assert (seen + [paper])[..|seen|] == seen;
  }

  lemma {:induction false} PopulatedStep(seen: seq<Paper>, paper: Paper, field: Field)
    ensures Populated(seen + [paper], field)
         == Populated(seen, field) + if FieldValue(paper, field).Some? then [FieldValue(paper, field).value] else []
  {
    assert (seen + [paper])[..|seen|] == seen;
  }

  lemma {:induction false} EvidencedStep(seen: seq<Paper>, paper: Paper, field: Field, v: Value)
    ensures Evidenced(seen + [paper], field, v)
         == Evidenced(seen, field, v) + if FieldValue(paper, field) == Some(v) then EvidenceFor(paper, field) else []
  {
    assert (seen + [paper])[..|seen|] == seen;
  }

  lemma {:induction false} SourcedStep(seen: seq<Paper>, paper: Paper, field: Field, sources: map<Value, seq<Evidence>>)
    requires Sourced(seen, field, sources)
    ensures match FieldValue(paper, field)
            case None => Sourced(seen + [paper], field, sources)
            case Some(v) =>
              Sourced(seen + [paper], field, sources[v := Dedup(Evidenced(seen, field, v) + EvidenceFor(paper, field))])
  {
    forall w ensures Evidenced(seen + [paper], field, w)
             == Evidenced(seen, field, w) + if FieldValue(paper, field) == Some(w) then EvidenceFor(paper, field)
                 else []
    {
      EvidencedStep(seen, paper, field, w);
    }
    assert forall w :: Evidenced(seen, field, w) + [] == Evidenced(seen, field, w);
  }

  lemma {:induction false} OrderStep(seen: seq<Paper>, paper: Paper, field: Field)
    ensures var order := Dedup(Populated(seen, field));
            Dedup(Populated(seen + [paper], field))
            == match FieldValue(paper, field)
               case None => order
               case Some(v) => if v in order then order else order + [v]
  {
    PopulatedStep(seen, paper, field);
    assert Populated(seen, field) + [] == Populated(seen, field);
    if FieldValue(paper, field).Some? {
      DedupAppend(Populated(seen, field), FieldValue(paper, field).value);
      DedupExact(Populated(seen, field));
    }
  }

  lemma {:induction false} OneMoreElement(order: seq<Value>, v: Value)
    ensures Elements(order + [v]) == Elements(order) + {v}
  {
  }

  /** The three tables of `_field` after the records of `seen`. */
  ghost predicate Tables(seen: seq<Paper>, field: Field, order: seq<Value>, sources: map<Value, seq<Evidence>>,
      stated: map<Identity, Value>)
  {
    Consistent(seen, field) && stated == StatedBy(seen, field) && Tabled(seen, field, order, sources)
  }

  lemma {:induction false} SkipRecord(seen: seq<Paper>, paper: Paper, field: Field, order: seq<Value>,
      sources: map<Value, seq<Evidence>>, stated: map<Identity, Value>)
    requires Tables(seen, field, order, sources, stated) && FieldValue(paper, field).None?
    ensures Tables(seen + [paper], field, order, sources, stated)
  {
    SourcedStep(seen, paper, field, sources);
    OrderStep(seen, paper, field);
    ConsistentStep(seen, paper, field);
    StatedStep(seen, paper, field);
  }

  lemma {:induction false} OneMoreKey(order: seq<Value>, sources: map<Value, seq<Evidence>>, v: Value,
      evidence: seq<Evidence>)
    requires sources.Keys == Elements(order)
    ensures sources[v := evidence].Keys == Elements(if v in order then order else order + [v])
  {
    OneMoreElement(order, v);
    assert v in order ==> v in Elements(order);
  }

  lemma {:induction false} AddValue(seen: seq<Paper>, paper: Paper, field: Field, order: seq<Value>,
      sources: map<Value, seq<Evidence>>, v: Value)
    requires Tabled(seen, field, order, sources) && FieldValue(paper, field) == Some(v)
    ensures Tabled(seen + [paper], field, if v in order then order else order + [v],
                   sources[v := Dedup(Evidenced(seen, field, v) + EvidenceFor(paper, field))])
  {
    OrderStep(seen, paper, field);
    OneMoreKey(order, sources, v, Dedup(Evidenced(seen, field, v) + EvidenceFor(paper, field)));
    SourcedStep(seen, paper, field, sources);
  }

  lemma {:induction false} AddRecord(seen: seq<Paper>, paper: Paper, field: Field, order: seq<Value>,
      sources: map<Value, seq<Evidence>>, stated: map<Identity, Value>, v: Value)
    requires Tables(seen, field, order, sources, stated) && FieldValue(paper, field) == Some(v)
    ensures if paper.reference.provider in stated && stated[paper.reference.provider] != v
            then !Consistent(seen + [paper], field)
            else Tables(seen + [paper], field, if v in order then order else order + [v],
                        sources[v := Dedup(Evidenced(seen, field, v) + EvidenceFor(paper, field))],
                        stated[paper.reference.provider := v])
  {
    AddValue(seen, paper, field, order, sources, v);
    ConsistentStep(seen, paper, field);
    StatedStep(seen, paper, field);
  }

  lemma {:induction false} KnownEvidence(seen: seq<Paper>, field: Field, order: seq<Value>,
      sources: map<Value, seq<Evidence>>, v: Value)
    requires Tabled(seen, field, order, sources)
    ensures v in order <==> v in sources
    ensures (if v in sources then sources[v] else []) == Dedup(Evidenced(seen, field, v))
  {
    assert v in Elements(order) <==> v in order;
    if v !in order {
      DedupExact(Populated(seen, field));
      Unstated(seen, field, v);
    }
  }

  method FieldOf(group: seq<Paper>, field: Field) returns (outcome: Result<FieldOutcome>)
    ensures outcome == Chosen(group, field)
  {
    var order: seq<Value> := [];
    var sources: map<Value, seq<Evidence>> := map[];
    var stated: map<Identity, Value> := map[];
    for n := 0 to |group|
      invariant Tables(group[..n], field, order, sources, stated)
    {
      var paper := group[n];
      assert group[..n + 1] == group[..n] + [paper];
      var value := FieldValue(paper, field);
      if value.None? {
        SkipRecord(group[..n], paper, field, order, sources, stated);
      } else {
        var v, provider := value.value, paper.reference.provider;
        KnownEvidence(group[..n], field, order, sources, v);
        AddRecord(group[..n], paper, field, order, sources, stated, v);
        if provider in stated && stated[provider] != v {
          InconsistentPrefix(group, n + 1, field);
          return Refused;
        }
        var more := AddEvidence(if v in order then sources[v] else [], Evidenced(group[..n], field, v),
            EvidenceFor(paper, field));
        order, sources, stated := if v in order then order else order + [v], sources[v := more], stated[provider := v];
      }
    }
    assert group[..|group|] == group;
    outcome := Ok(FromTables(order, sources));
    TablesGiveChosen(group, field, order, sources);
  }

  function FromTables(order: seq<Value>, sources: map<Value, seq<Evidence>>): FieldOutcome
    requires sources.Keys == Elements(order)
  {
    assert forall v :: v in order ==> v in Elements(order);
    if order == [] then FieldOutcome(None, [], [])
    else FieldOutcome(Some(order[0]), sources[order[0]],
                      seq(|order| - 1, i requires 0 <= i < |order| - 1 =>
                          Alternative(order[i + 1], sources[order[i + 1]])))
  }

  lemma {:induction false} TablesGiveChosen(group: seq<Paper>, field: Field, order: seq<Value>,
      sources: map<Value, seq<Evidence>>)
    requires Consistent(group, field) && Tabled(group, field, order, sources)
    ensures Chosen(group, field) == Ok(FromTables(order, sources))
  {
    if order != [] {
      var ours, theirs := FromTables(order, sources).others, Chosen(group, field).value.others;
      assert |ours| == |theirs|;
      forall i | 0 <= i < |ours| ensures ours[i] == theirs[i] { assert order[i + 1] in order; }
      assert order[0] in order && ours == theirs;
    }
  }

  lemma {:induction false} InconsistentPrefix(group: seq<Paper>, n: nat, field: Field)
    requires n <= |group| && !Consistent(group[..n], field)
    ensures !Consistent(group, field)
  {
    var i, j :| 0 <= i < j < n && Contradicts(group[..n][i], group[..n][j], field);
    assert Contradicts(group[i], group[j], field);
  }
}
