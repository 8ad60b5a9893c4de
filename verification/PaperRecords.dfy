/** How a group of provider records becomes one paper record, and what that record
    says of the group. */
module PaperRecords {
  import opened Common
  import opened Sorting
  import opened Papers

  // ----- one group -----

  function Cited(group: seq<Paper>): seq<Reference> {
    seq(|group|, i requires 0 <= i < |group| => group[i].reference)
  }

  function References(group: seq<Paper>): seq<Reference> { Dedup(Cited(group)) }

  function PublicOffers(env: Env, group: seq<Paper>): seq<Offer> {
    if group == [] then []
    else PublicOffers(env, group[..|group| - 1]) + PublicOf(env, group[|group| - 1].offers)
  }

  function PublicOf(env: Env, offers: seq<Offer>): seq<Offer> {
    if offers == [] then []
    else (if env.public(offers[0].url) then [offers[0]] else []) + PublicOf(env, offers[1..])
  }

  /** The record of a group, before the output model sees it; none when a field or the
      name is refused. */
  function Draft(env: Env, group: seq<Paper>): Option<Record> {
    var title, authors := Chosen(group, Title), Chosen(group, Authors);
    var abstract_, date := Chosen(group, Abstract), Chosen(group, PublicationDate);
    var canonical := Canonical(env, group);
    if group == [] || title.Refused? || authors.Refused? || abstract_.Refused? || date.Refused? || canonical.None?
    then None
    else
      Some(Record(
        canonical.value, group[0].revision,
        map[Title := title.value, Authors := authors.value, Abstract := abstract_.value, PublicationDate := date.value],
        Dedup(PublicOffers(env, group)), References(group)))
  }

  /** `_merge_group` */
  function MergedGroup(env: Env, group: seq<Paper>): Result<Record> {
    var draft := Draft(env, group);
    if draft.Some? && env.admits(draft.value) then Ok(draft.value) else Refused
  }

  // ----- what a record says of its group -----

  function DoiOf(env: Env, paper: Paper): Option<string> {
    if paper.doi.Some? then env.doi(paper.doi.value) else None
  }

  function NameOf(env: Env, paper: Paper): string {
    "provider:" + (env.quote(paper.reference.provider) + (":" + env.quote(paper.reference.record)))
  }

  predicate IsDoi(env: Env, paper: Paper, token: string) {
    DoiOf(env, paper).Some? && token == "doi:" + DoiOf(env, paper).value
  }

  predicate IsAlias(paper: Paper, token: string) { paper.alias.Some? && token == "alias:" + paper.alias.value }

  /** The first of the members' DOIs by code points; if none has one, the first of their
      aliases; if none has one either, the first of their provider names. */
  ghost predicate CanonicalOf(env: Env, group: seq<Paper>, id: string) {
    if exists p :: p in group && DoiOf(env, p).Some? then
      && (exists p :: p in group && IsDoi(env, p, id))
      && forall p, t {:trigger IsDoi(env, p, t)} :: p in group && IsDoi(env, p, t) ==> !Before(t, id)
    else if exists p :: p in group && p.alias.Some? then
      && (exists p :: p in group && IsAlias(p, id))
      && forall p, t {:trigger IsAlias(p, t)} :: p in group && IsAlias(p, t) ==> !Before(t, id)
    else
      && (exists p :: p in group && id == NameOf(env, p))
      && forall p :: p in group ==> !Before(NameOf(env, p), id)
  }

  /** Which values of the field the members state, in the order in which they first
      occur, and for each all evidence that members with this value give. */
  ghost predicate FieldMeans(group: seq<Paper>, field: Field, outcome: FieldOutcome) {
    var values := ValuesOf(outcome);
    && (forall v :: v in values <==> exists i :: 0 <= i < |group| && FieldValue(group[i], field) == Some(v))
    && NoRepeats(values) && FirstStated(group, field, values)
    && (outcome.preferred.Some? ==> EvidenceMeans(group, field, outcome.preferred.value, outcome.evidence))
    && (outcome.preferred.None? ==> outcome.evidence == [] && outcome.others == [])
    && forall k :: 0 <= k < |outcome.others| ==>
         EvidenceMeans(group, field, outcome.others[k].value, outcome.others[k].evidence)
  }

  /** What a record states of a field: a text that is not empty, or its authors. */
  predicate States(paper: Paper, field: Field, value: Value) {
    match field
    case Title => value.Text? && value.text != "" && paper.title == Some(value.text)
    case Authors => value.Names? && value.names != [] && paper.authors == value.names
    case Abstract => value.Text? && value.text != "" && paper.abstract_ == Some(value.text)
    case PublicationDate => value.Text? && value.text != "" && paper.date == Some(value.text)
  }

  lemma {:induction false} StatedValue(paper: Paper, field: Field, value: Value)
    ensures FieldValue(paper, field) == Some(value) <==> States(paper, field, value)
  {
    match field case Title => case Authors => case Abstract => case PublicationDate =>
  }

  function ValuesOf(outcome: FieldOutcome): seq<Value> {
    (if outcome.preferred.Some? then [outcome.preferred.value] else [])
    + seq(|outcome.others|, k requires 0 <= k < |outcome.others| => outcome.others[k].value)
  }

  /** Before a member states a value, some member stated the values listed before it. */
  ghost predicate FirstStated(group: seq<Paper>, field: Field, values: seq<Value>) {
    forall i, j, m {:trigger values[i], values[j], group[m]} ::
      0 <= i < j < |values| && 0 <= m < |group| && FieldValue(group[m], field) == Some(values[j]) ==>
        exists n :: 0 <= n < m && FieldValue(group[n], field) == Some(values[i])
  }

  ghost predicate EvidenceMeans(group: seq<Paper>, field: Field, value: Value, evidence: seq<Evidence>) {
    && NoRepeats(evidence)
    && forall e :: e in evidence <==>
         exists i :: 0 <= i < |group| && FieldValue(group[i], field) == Some(value)
                     && field in group[i].provenance && e in group[i].provenance[field]
  }

  /** What a merged record says of its group: its name, the first member's revision,
      every reference and every public offer of a member, once and in the order in which
      they first occur, and in each field what the members state. No provider contradicts
      itself. */
  ghost predicate RecordOf(env: Env, group: seq<Paper>, record: Record) {
    && CanonicalOf(env, group, record.canonical)
    && group != [] && record.revision == group[0].revision
    && ReferencesOf(group, record.references) && OffersOf(env, group, record.offers)
    && FieldsOf(group, record.fields) && env.admits(record)
  }

  ghost predicate ReferencesOf(group: seq<Paper>, references: seq<Reference>) {
    && NoRepeats(references) && InFirstOrder(Cited(group), references)
    && forall r :: r in references <==> exists i :: 0 <= i < |group| && group[i].reference == r
  }

  ghost predicate OffersOf(env: Env, group: seq<Paper>, offers: seq<Offer>) {
    && NoRepeats(offers) && InFirstOrder(PublicOffers(env, group), offers)
    && forall o :: o in offers <==> env.public(o.url) && exists i :: 0 <= i < |group| && o in group[i].offers
  }

  ghost predicate FieldsOf(group: seq<Paper>, fields: map<Field, FieldOutcome>) {
    forall field {:trigger FieldOfGroup(group, fields, field)} :: FieldOfGroup(group, fields, field)
  }

  ghost predicate FieldOfGroup(group: seq<Paper>, fields: map<Field, FieldOutcome>, field: Field) {
    Consistent(group, field) && field in fields && FieldMeans(group, field, fields[field])
  }

  lemma {:induction false} ChosenIs(group: seq<Paper>, fields: map<Field, FieldOutcome>, field: Field)
    requires field in fields && Chosen(group, field) == Ok(fields[field])
    ensures FieldOfGroup(group, fields, field)
  {
    ChosenMeans(group, field, fields[field]);
  }

  predicate NoRepeats<T(==)>(s: seq<T>) { forall i, j :: 0 <= i < j < |s| ==> s[i] != s[j] }

  lemma {:induction false} PublicOfExact(env: Env, offers: seq<Offer>, o: Offer)
    ensures o in PublicOf(env, offers) <==> env.public(o.url) && o in offers
  {
    if offers != [] {
      PublicOfExact(env, offers[1..], o);
      assert offers == [offers[0]] + offers[1..];
    }
  }

  lemma {:induction false} PublicOffersExact(env: Env, group: seq<Paper>, o: Offer)
    ensures o in PublicOffers(env, group) <==> env.public(o.url) && exists i :: 0 <= i < |group| && o in group[i].offers
  {
    if group != [] {
      var n := |group| - 1;
      PublicOffersExact(env, group[..n], o);
      PublicOfExact(env, group[n].offers, o);
      if i :| 0 <= i < |group| && o in group[i].offers { if i < n { assert o in group[..n][i].offers; } }
      if i :| 0 <= i < n && o in group[..n][i].offers { assert o in group[i].offers; }
    }
  }

  lemma {:induction false} ReferencesExact(group: seq<Paper>)
    ensures ReferencesOf(group, References(group))
  {
    var all := Cited(group);
    DedupExact(all);
    DedupOrder(all);
    forall r ensures r in all <==> exists i :: 0 <= i < |group| && group[i].reference == r {
      if i :| 0 <= i < |group| && group[i].reference == r { assert all[i] == r; }
    }
  }

  lemma {:induction false} OffersExact(env: Env, group: seq<Paper>)
    ensures OffersOf(env, group, Dedup(PublicOffers(env, group)))
  {
    DedupExact(PublicOffers(env, group));
    DedupOrder(PublicOffers(env, group));
    forall o { PublicOffersExact(env, group, o); }
  }

  lemma {:induction false} FieldsExact(group: seq<Paper>, title: FieldOutcome, authors: FieldOutcome,
      abstract_: FieldOutcome, date: FieldOutcome)
    requires Chosen(group, Title) == Ok(title) && Chosen(group, Authors) == Ok(authors)
    requires Chosen(group, Abstract) == Ok(abstract_) && Chosen(group, PublicationDate) == Ok(date)
    ensures FieldsOf(group, map[Title := title, Authors := authors, Abstract := abstract_, PublicationDate := date])
  {
    var fields := map[Title := title, Authors := authors, Abstract := abstract_, PublicationDate := date];
    ChosenIs(group, fields, Title);
    ChosenIs(group, fields, Authors);
    ChosenIs(group, fields, Abstract);
    ChosenIs(group, fields, PublicationDate);
    forall field ensures FieldOfGroup(group, fields, field) {
      assert field == Title || field == Authors || field == Abstract || field == PublicationDate;
    }
  }

  // The name.

  lemma {:induction false} TokenIs(env: Env, p: Paper, token: string)
    requires p.doi.Some? ==> env.doi(p.doi.value).Some?
    ensures token in TokensOf(env, p) <==> IsDoi(env, p, token) || IsAlias(p, token) || token == NameOf(env, p)
  {
    Associates("provider:" + env.quote(p.reference.provider), ":", env.quote(p.reference.record));
    Associates("provider:", env.quote(p.reference.provider), ":" + env.quote(p.reference.record));
  }

  /** A token's prefix tells its kind. */
  lemma {:induction false} KindsApart(env: Env, p: Paper, token: string)
    ensures IsDoi(env, p, token) ==> "doi:" <= token && !("alias:" <= token) && !("provider:" <= token)
    ensures IsAlias(p, token) ==> "alias:" <= token && !("doi:" <= token) && !("provider:" <= token)
    ensures token == NameOf(env, p) ==> "provider:" <= token && !("doi:" <= token) && !("alias:" <= token)
  {
    assert "doi:"[0] == 'd' && "alias:"[0] == 'a' && "provider:"[0] == 'p';
  }

  lemma {:induction false} MemberToken(env: Env, group: seq<Paper>, token: string)
    ensures token in AllTokens(env, group) <==> exists p :: p in group && token in TokensOf(env, p)
  {
    AllTokensExact(env, group, token);
    if p :| p in group && token in TokensOf(env, p) {
      var i :| 0 <= i < |group| && group[i] == p;
    }
  }

  /** The tokens of one kind, and the first of them. */
  lemma {:induction false} FirstToken(env: Env, group: seq<Paper>, prefix: string, token: string)
    ensures var sorted := Sort(Before, WithPrefix(prefix, AllTokens(env, group)));
            && (token in sorted <==> prefix <= token && exists p :: p in group && token in TokensOf(env, p))
            && (token in sorted ==> !Before(token, sorted[0]))
  {
    var all := WithPrefix(prefix, AllTokens(env, group));
    var sorted := Sort(Before, all);
    SortPermutes(Before, all);
    BeforeIsStrict();
    SortSorts(Before, all);
    WithPrefixExact(prefix, AllTokens(env, group), token);
    MemberToken(env, group, token);
    assert token in sorted <==> token in multiset(sorted);
    assert token in all <==> token in multiset(all);
  }

  /** The first token of a kind that some member has. */
  ghost predicate FirstOf(env: Env, group: seq<Paper>, prefix: string, id: string) {
    && prefix <= id && (exists p :: p in group && id in TokensOf(env, p))
    && forall p, t {:trigger t in TokensOf(env, p)} ::
         p in group && t in TokensOf(env, p) && prefix <= t ==> !Before(t, id)
  }

  ghost predicate NoneOf(env: Env, group: seq<Paper>, prefix: string) {
    forall p, t {:trigger t in TokensOf(env, p)} :: p in group && t in TokensOf(env, p) ==> !(prefix <= t)
  }

  lemma {:induction false} KindFirst(env: Env, group: seq<Paper>, prefix: string)
    ensures var sorted := Sort(Before, WithPrefix(prefix, AllTokens(env, group)));
            if sorted == [] then NoneOf(env, group, prefix) else FirstOf(env, group, prefix, sorted[0])
  {
    var sorted := Sort(Before, WithPrefix(prefix, AllTokens(env, group)));
    forall p, t {:trigger t in TokensOf(env, p)} | p in group && t in TokensOf(env, p) && prefix <= t
      ensures sorted != [] && !Before(t, sorted[0])
    {
      FirstToken(env, group, prefix, t);
    }
    if sorted != [] { FirstToken(env, group, prefix, sorted[0]); }
  }

  lemma {:induction false} FirstDoi(env: Env, group: seq<Paper>, id: string)
    requires Tokenized(env, group)
    ensures NoneOf(env, group, "doi:") ==> forall p :: p in group ==> DoiOf(env, p).None?
    ensures FirstOf(env, group, "doi:", id) ==>
              && (exists p :: p in group && IsDoi(env, p, id))
              && forall p, t {:trigger IsDoi(env, p, t)} :: p in group && IsDoi(env, p, t) ==> !Before(t, id)
  {
    forall p, t {:trigger IsDoi(env, p, t)} {:trigger t in TokensOf(env, p)} | p in group
      ensures IsDoi(env, p, t) <==> t in TokensOf(env, p) && "doi:" <= t
    {
      TokenIs(env, p, t);
      KindsApart(env, p, t);
    }
    forall p | p in group && DoiOf(env, p).Some? ensures !NoneOf(env, group, "doi:") {
      assert IsDoi(env, p, "doi:" + DoiOf(env, p).value);
    }
  }

  lemma {:induction false} FirstAlias(env: Env, group: seq<Paper>, id: string)
    requires Tokenized(env, group)
    ensures NoneOf(env, group, "alias:") ==> forall p :: p in group ==> p.alias.None?
    ensures FirstOf(env, group, "alias:", id) ==>
              && (exists p :: p in group && IsAlias(p, id))
              && forall p, t {:trigger IsAlias(p, t)} :: p in group && IsAlias(p, t) ==> !Before(t, id)
  {
    forall p, t {:trigger IsAlias(p, t)} {:trigger t in TokensOf(env, p)} | p in group
      ensures IsAlias(p, t) <==> t in TokensOf(env, p) && "alias:" <= t
    {
      TokenIs(env, p, t);
      KindsApart(env, p, t);
    }
    forall p | p in group && p.alias.Some? ensures !NoneOf(env, group, "alias:") {
      assert IsAlias(p, "alias:" + p.alias.value);
    }
  }

  lemma {:induction false} FirstName(env: Env, group: seq<Paper>, id: string)
    requires Tokenized(env, group)
    ensures NoneOf(env, group, "provider:") ==> group == []
    ensures FirstOf(env, group, "provider:", id) ==>
              (exists p :: p in group && id == NameOf(env, p)) && forall p :: p in group ==> !Before(NameOf(env, p), id)
  {
    forall p, t {:trigger t in TokensOf(env, p)} | p in group
      ensures t == NameOf(env, p) <==> t in TokensOf(env, p) && "provider:" <= t
    {
      TokenIs(env, p, t);
      KindsApart(env, p, t);
    }
    forall p | p in group ensures NameOf(env, p) in TokensOf(env, p) { TokenIs(env, p, NameOf(env, p)); }
    if group != [] { assert group[0] in group; }
  }

  /** The canonical id is the members' first DOI, alias or provider name, in this order
      of preference. */
  lemma {:induction false} CanonicalMeans(env: Env, group: seq<Paper>)
    ensures Canonical(env, group).None? <==> group == [] || !Tokenized(env, group)
    ensures Canonical(env, group).Some? ==> CanonicalOf(env, group, Canonical(env, group).value)
  {
    var id := if Canonical(env, group).Some? then Canonical(env, group).value else "";
    KindFirst(env, group, "doi:");
    KindFirst(env, group, "alias:");
    KindFirst(env, group, "provider:");
    if Tokenized(env, group) {
      FirstDoi(env, group, id);
      FirstAlias(env, group, id);
      FirstName(env, group, id);
    }
  }

  // The fields.

  lemma {:induction false} PopulatedExact(group: seq<Paper>, field: Field, v: Value)
    ensures v in Populated(group, field) <==> exists i :: 0 <= i < |group| && FieldValue(group[i], field) == Some(v)
  {
    if group != [] {
      var n := |group| - 1;
      PopulatedExact(group[..n], field, v);
      if i :| 0 <= i < |group| && FieldValue(group[i], field) == Some(v) {
        if i < n { assert group[..n][i] == group[i]; }
      }
      if i :| 0 <= i < n && FieldValue(group[..n][i], field) == Some(v) { assert group[i] == group[..n][i]; }
    }
  }

  /** The value of a member among those populated. */
  lemma {:induction false} PopulatedAt(group: seq<Paper>, field: Field, m: nat, v: Value)
    requires m < |group| && FieldValue(group[m], field) == Some(v)
    ensures var k := |Populated(group[..m], field)|;
            && k < |Populated(group, field)| && Populated(group, field)[k] == v
            && Populated(group, field)[..k] == Populated(group[..m], field)
  {
    var n := |group| - 1;
    if m < n {
      assert group[..n][m] == group[m] && group[..n][..m] == group[..m];
      PopulatedAt(group[..n], field, m, v);
    }
  }

  lemma {:induction false} EvidencedExact(group: seq<Paper>, field: Field, v: Value, e: Evidence)
    ensures e in Evidenced(group, field, v) <==>
              exists i :: 0 <= i < |group| && FieldValue(group[i], field) == Some(v)
                          && field in group[i].provenance && e in group[i].provenance[field]
  {
    if group != [] {
      var n := |group| - 1;
      EvidencedExact(group[..n], field, v, e);
      if i :| 0 <= i < |group| && FieldValue(group[i], field) == Some(v)
              && field in group[i].provenance && e in group[i].provenance[field] {
        if i < n { assert group[..n][i] == group[i]; }
      }
      if i :| 0 <= i < n && FieldValue(group[..n][i], field) == Some(v)
              && field in group[..n][i].provenance && e in group[..n][i].provenance[field] {
        assert group[i] == group[..n][i];
      }
    }
  }

  lemma {:induction false} EvidenceExact(group: seq<Paper>, field: Field, v: Value)
    ensures EvidenceMeans(group, field, v, Dedup(Evidenced(group, field, v)))
  {
    DedupExact(Evidenced(group, field, v));
    forall e { EvidencedExact(group, field, v, e); }
  }

  lemma {:induction false} StatedInOrder(group: seq<Paper>, field: Field)
    ensures FirstStated(group, field, Dedup(Populated(group, field)))
  {
    var all, values := Populated(group, field), Dedup(Populated(group, field));
    DedupOrder(all);
    forall i, j, m | 0 <= i < j < |values| && 0 <= m < |group| && FieldValue(group[m], field) == Some(values[j])
      ensures exists n :: 0 <= n < m && FieldValue(group[n], field) == Some(values[i])
    {
      var k := |Populated(group[..m], field)|;
      PopulatedAt(group, field, m, values[j]);
      assert all[k] == values[j];
      PopulatedExact(group[..m], field, values[i]);
      var n :| 0 <= n < m && FieldValue(group[..m][n], field) == Some(values[i]);
      assert group[n] == group[..m][n];
    }
  }

  lemma {:induction false} ChosenLists(group: seq<Paper>, field: Field, outcome: FieldOutcome)
    requires Chosen(group, field) == Ok(outcome)
    ensures ValuesOf(outcome) == Dedup(Populated(group, field))
  {
  }

  /** The outcome of a field says what the members state. */
  lemma {:induction false} ChosenMeans(group: seq<Paper>, field: Field, outcome: FieldOutcome)
    requires Chosen(group, field) == Ok(outcome)
    ensures FieldMeans(group, field, outcome)
  {
    ChosenValues(group, field, outcome);
    ChosenEvidence(group, field, outcome);
  }

  lemma {:induction false} ChosenValues(group: seq<Paper>, field: Field, outcome: FieldOutcome)
    requires Chosen(group, field) == Ok(outcome)
    ensures forall v :: v in ValuesOf(outcome) <==>
              exists i :: 0 <= i < |group| && FieldValue(group[i], field) == Some(v)
    ensures NoRepeats(ValuesOf(outcome)) && FirstStated(group, field, ValuesOf(outcome))
  {
    ChosenLists(group, field, outcome);
    DedupExact(Populated(group, field));
    StatedInOrder(group, field);
    forall v { PopulatedExact(group, field, v); }
  }

  lemma {:induction false} ChosenEvidence(group: seq<Paper>, field: Field, outcome: FieldOutcome)
    requires Chosen(group, field) == Ok(outcome)
    ensures outcome.preferred.Some? ==> EvidenceMeans(group, field, outcome.preferred.value, outcome.evidence)
    ensures outcome.preferred.None? ==> outcome.evidence == [] && outcome.others == []
    ensures forall k :: 0 <= k < |outcome.others| ==>
              EvidenceMeans(group, field, outcome.others[k].value, outcome.others[k].evidence)
  {
    if outcome.preferred.Some? { EvidenceExact(group, field, outcome.preferred.value); }
    forall k | 0 <= k < |outcome.others|
      ensures EvidenceMeans(group, field, outcome.others[k].value, outcome.others[k].evidence)
    {
      EvidenceExact(group, field, outcome.others[k].value);
    }
  }

  lemma {:induction false} MergedGroupMeans(env: Env, group: seq<Paper>)
    ensures MergedGroup(env, group).Ok? ==> RecordOf(env, group, MergedGroup(env, group).value)
  {
    if MergedGroup(env, group).Ok? {
      CanonicalMeans(env, group);
      ReferencesExact(group);
      OffersExact(env, group);
      FieldsExact(group, Chosen(group, Title).value, Chosen(group, Authors).value, Chosen(group, Abstract).value,
                  Chosen(group, PublicationDate).value);
      Assembled(env, group, MergedGroup(env, group).value);
    }
  }

  lemma {:induction false} Assembled(env: Env, group: seq<Paper>, record: Record)
    requires group != [] && record.revision == group[0].revision && env.admits(record)
    requires CanonicalOf(env, group, record.canonical)
    requires ReferencesOf(group, record.references) && OffersOf(env, group, record.offers)
        && FieldsOf(group, record.fields)
    ensures RecordOf(env, group, record)
  {
  }

  method MergeGroup(env: Env, group: seq<Paper>) returns (record: Result<Record>)
    ensures record == MergedGroup(env, group)
    ensures record.Ok? ==> RecordOf(env, group, record.value)
  {
    MergedGroupMeans(env, group);
    var title := FieldOf(group, Title);
    var authors := FieldOf(group, Authors);
    var abstract_ := FieldOf(group, Abstract);
    var date := FieldOf(group, PublicationDate);
    var canonical := Canonical(env, group);
    if group == [] || title.Refused? || authors.Refused? || abstract_.Refused? || date.Refused? || canonical.None? {
      return Refused;
    }
    var made := Record(
      canonical.value, group[0].revision,
      map[Title := title.value, Authors := authors.value, Abstract := abstract_.value, PublicationDate := date.value],
      Dedup(PublicOffers(env, group)), References(group));
    record := if env.admits(made) then Ok(made) else Refused;
  }
}
