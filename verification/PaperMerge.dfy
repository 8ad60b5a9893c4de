/** Merging one batch of provider records, and composing a search from the
    pages that merge. */
module PaperMerge {
  import opened Common
  import opened Sorting
  import opened Papers
  import opened PaperRecords
  import PaperIdentity

  datatype Query = Query(providers: seq<Identity>, pageBound: nat)

  const MAX_BATCH := 10_000

  datatype Id = Id(provider: Identity, record: Identity, revision: Option<Identity>)

  function IdOf(paper: Paper): Id {
    Id(paper.reference.provider, paper.reference.record, paper.revision)
  }

  // ----- which batches are admitted -----

  function CountOf(records: seq<Paper>, provider: Identity): nat {
    if records == [] then 0
    else CountOf(records[..|records| - 1], provider)
         + if records[|records| - 1].reference.provider == provider then 1 else 0
  }

  predicate Clash(a: Paper, b: Paper) { IdOf(a) == IdOf(b) && a != b }

  ghost predicate Admissible(query: Query, records: seq<Paper>) {
    && (forall r :: r in records ==> r.reference.provider in query.providers)
    && (forall p :: p in query.providers ==> CountOf(records, p) <= query.pageBound)
    && (forall a, b :: a in records && b in records ==> !Clash(a, b))
  }

  // ----- declared order -----

  function Position(providers: seq<Identity>, provider: Identity): nat {
    if providers == [] || providers[0] == provider then 0 else 1 + Position(providers[1..], provider)
  }

  function RevisionText(revision: Option<Identity>): string {
    if revision.Some? then revision.value else ""
  }

  predicate PairBefore(a: string, b: string, c: string, d: string) {
    Before(a, c) || (a == c && Before(b, d))
  }

  /** By declared provider, then record id, then revision. Undeclared providers,
      which no admitted batch holds, come last by name. */
  predicate IdBefore(query: Query, a: Id, b: Id) {
    var m, n := Position(query.providers, a.provider), Position(query.providers, b.provider);
    || m < n
    || (m == n && Before(a.provider, b.provider))
    || (a.provider == b.provider && PairBefore(a.record, RevisionText(a.revision), b.record, RevisionText(b.revision)))
  }

  function IdOrder(query: Query): (Id, Id) -> bool {
    (a: Id, b: Id) => IdBefore(query, a, b)
  }

  lemma {:induction false} PairStrict(a: string, b: string, c: string, d: string)
    ensures !PairBefore(a, b, a, b)
    ensures (a == c && b == d) || PairBefore(a, b, c, d) || PairBefore(c, d, a, b)
  {
    BeforeIrreflexive(a);
    BeforeIrreflexive(b);
    BeforeTotal(a, c);
    BeforeTotal(b, d);
  }

  lemma {:induction false} PairTransitive(a: string, b: string, c: string, d: string, e: string, f: string)
    requires PairBefore(a, b, c, d) && PairBefore(c, d, e, f)
    ensures PairBefore(a, b, e, f)
  {
    if Before(a, c) && Before(c, e) { BeforeTransitive(a, c, e); }
    if Before(b, d) && Before(d, f) { BeforeTransitive(b, d, f); }
  }

  lemma {:induction false} IdTransitive(query: Query, a: Id, b: Id, c: Id)
    requires IdBefore(query, a, b) && IdBefore(query, b, c)
    ensures IdBefore(query, a, c)
  {
    var p, q, r := a.provider, b.provider, c.provider;
    BeforeIrreflexive(p);
    BeforeIrreflexive(q);
    if p == q == r {
      PairTransitive(a.record, RevisionText(a.revision), b.record, RevisionText(b.revision), c.record,
          RevisionText(c.revision));
    } else if Before(p, q) && Before(q, r) {
      BeforeTransitive(p, q, r);
    }
  }

  lemma {:induction false} IdOrderStrict(query: Query)
    ensures StrictOrder(IdOrder(query))
  {
    var less := IdOrder(query);
    forall a ensures !less(a, a) {
      BeforeIrreflexive(a.provider);
      PairStrict(a.record, RevisionText(a.revision), a.record, RevisionText(a.revision));
    }
    forall a, b ensures a == b || less(a, b) || less(b, a) {
      BeforeTotal(a.provider, b.provider);
      PairStrict(a.record, RevisionText(a.revision), b.record, RevisionText(b.revision));
    }
    forall a, b, c | less(a, b) && less(b, c) ensures less(a, c) {
      IdTransitive(query, a, b, c);
    }
  }

  function Ids(records: seq<Paper>): seq<Id> {
    seq(|records|, i requires 0 <= i < |records| => IdOf(records[i]))
  }

  predicate Known(records: seq<Paper>, id: Id) {
    exists r :: r in records && IdOf(r) == id
  }

  /** The record an id names; with no clash, every record with that id. */
  function Lookup(records: seq<Paper>, id: Id): (r: Paper)
    requires Known(records, id)
    ensures r in records && IdOf(r) == id
  {
    if IdOf(records[0]) == id then records[0]
    else
      assert records == [records[0]] + records[1..];
      Lookup(records[1..], id)
  }

  function SortedIds(query: Query, records: seq<Paper>): seq<Id> {
    Sort(IdOrder(query), Dedup(Ids(records)))
  }

  lemma {:induction false} SortedIdsExact(query: Query, records: seq<Paper>)
    ensures forall id :: id in SortedIds(query, records) <==> Known(records, id)
  {
    SortPermutes(IdOrder(query), Dedup(Ids(records)));
    DedupExact(Ids(records));
    var sorted := SortedIds(query, records);
    forall id ensures id in sorted <==> Known(records, id) {
      assert id in sorted <==> id in multiset(sorted);
      assert id in Dedup(Ids(records)) <==> id in multiset(Dedup(Ids(records)));
      if Known(records, id) {
        var r :| r in records && IdOf(r) == id;
        var i :| 0 <= i < |records| && records[i] == r;
        assert Ids(records)[i] == id;
      }
      if id in Ids(records) {
        var i :| 0 <= i < |records| && Ids(records)[i] == id;
        assert records[i] in records && IdOf(records[i]) == id;
      }
    }
  }

  /** One record for each id, in declared order. */
  function Ordered(query: Query, records: seq<Paper>): (ordered: seq<Paper>)
    ensures |ordered| == |SortedIds(query, records)|
    ensures forall i :: 0 <= i < |ordered| ==> ordered[i] in records && IdOf(ordered[i]) == SortedIds(query, records)[i]
  {
    SortedIdsExact(query, records);
    var ids := SortedIds(query, records);
    assert forall i :: 0 <= i < |ids| ==> ids[i] in ids;
    seq(|ids|, i requires 0 <= i < |ids| && Known(records, ids[i]) => Lookup(records, ids[i]))
  }

  // ----- the groups of a batch -----

  function KeysOf(env: Env, papers: seq<Paper>): (keys: seq<seq<PaperIdentity.Key>>)
    ensures |keys| == |papers|
    ensures forall i :: 0 <= i < |papers| ==> keys[i] == Keyed(papers[i].revision, TokensOf(env, papers[i]))
  {
    seq(|papers|, i requires 0 <= i < |papers| => Keyed(papers[i].revision, TokensOf(env, papers[i])))
  }

  function Keyed(revision: Option<Identity>, tokens: seq<string>): (keys: seq<PaperIdentity.Key>)
    ensures |keys| == |tokens|
    ensures forall t :: 0 <= t < |tokens| ==> keys[t] == (Plain(revision), tokens[t])
  {
    seq(|tokens|, t requires 0 <= t < |tokens| => (Plain(revision), tokens[t]))
  }

  function Plain(revision: Option<Identity>): Option<string> {
    match revision
    case None => None
    case Some(text) => Some(text)
  }

  predicate InRange(papers: seq<Paper>, group: seq<nat>) {
    forall i :: i in group ==> i < |papers|
  }

  function Pick(papers: seq<Paper>, group: seq<nat>): seq<Paper>
    requires InRange(papers, group)
  {
    seq(|group|, n requires 0 <= n < |group| => (assert group[n] in group; papers[group[n]]))
  }

  function PickAll(papers: seq<Paper>, groups: seq<seq<nat>>): (picked: seq<seq<Paper>>)
    requires forall g :: 0 <= g < |groups| ==> InRange(papers, groups[g])
    ensures |picked| == |groups| && forall g :: 0 <= g < |groups| ==> picked[g] == Pick(papers, groups[g])
  {
    seq(|groups|, g requires 0 <= g < |groups| => Pick(papers, groups[g]))
  }

  lemma {:induction false} IndicesInRange(env: Env, papers: seq<Paper>)
    ensures var groups := PaperIdentity.Groups(KeysOf(env, papers));
            forall g :: 0 <= g < |groups| ==> InRange(papers, groups[g])
  {
    var keys := KeysOf(env, papers);
    var groups := PaperIdentity.Groups(keys);
    forall g | 0 <= g < |groups| ensures InRange(papers, groups[g]) { PaperIdentity.GroupsInhabited(keys, g); }
  }

  ghost function GroupsOf(env: Env, papers: seq<Paper>): seq<seq<Paper>> {
    IndicesInRange(env, papers);
    PickAll(papers, PaperIdentity.Groups(KeysOf(env, papers)))
  }

  /** What becomes of one group: at most one DOI, and every field must merge. */
  function Judgement(env: Env, group: seq<Paper>): Result<Record> {
    if OneDoi(env, group) then MergedGroup(env, group) else Refused
  }

  function Judgements(env: Env, groups: seq<seq<Paper>>): (outcomes: seq<Result<Record>>)
    ensures |outcomes| == |groups|
  {
    seq(|groups|, g requires 0 <= g < |groups| => Judgement(env, groups[g]))
  }

  /** All the values, or a refusal if any outcome is one. */
  function All<T>(outcomes: seq<Result<T>>): Result<seq<T>> {
    if outcomes == [] then Ok([])
    else
      var before, last := All(outcomes[..|outcomes| - 1]), outcomes[|outcomes| - 1];
      if before.Ok? && last.Ok? then Ok(before.value + [last.value]) else Refused
  }

  lemma {:induction false} AllExact<T>(outcomes: seq<Result<T>>)
    ensures All(outcomes).Ok? <==> forall i :: 0 <= i < |outcomes| ==> outcomes[i].Ok?
    ensures All(outcomes).Ok? ==>
              && |All(outcomes).value| == |outcomes|
              && forall i :: 0 <= i < |outcomes| ==> outcomes[i] == Ok(All(outcomes).value[i])
  {
    if outcomes != [] { AllExact(outcomes[..|outcomes| - 1]); }
  }

  lemma {:induction false} AllNext<T>(outcomes: seq<Result<T>>, g: nat)
    requires g < |outcomes| && All(outcomes[..g]).Ok?
    ensures All(outcomes[..g + 1]) == if outcomes[g].Refused? then Refused
        else Ok(All(outcomes[..g]).value + [outcomes[g].value])
    ensures outcomes[g].Refused? ==> All(outcomes) == Refused
  {
    assert outcomes[..g + 1][..g] == outcomes[..g];
    AllExact(outcomes);
  }

  lemma {:induction false} AllOf<T>(outcomes: seq<Result<T>>)
    ensures All(outcomes[..0]) == Ok([]) && All(outcomes[..|outcomes|]) == All(outcomes)
  {
    assert outcomes[..|outcomes|] == outcomes;
  }

  ghost function MergedGroups(env: Env, papers: seq<Paper>): Result<seq<Record>> {
    if Tokenized(env, papers) then All(Judgements(env, GroupsOf(env, papers))) else Refused
  }

  predicate RecordBefore(a: Record, b: Record) {
    PairBefore(a.canonical, RevisionText(a.revision), b.canonical, RevisionText(b.revision))
  }

  /** `merge_paper_records` */
  ghost function Merge(env: Env, query: Query, records: seq<Paper>): Result<seq<Record>> {
    if |records| > MAX_BATCH || !Admissible(query, records) then Refused
    else
      match MergedGroups(env, Ordered(query, records))
      case Refused => Refused
      case Ok(merged) => Ok(Sort(RecordBefore, merged))
  }

  // ----- the input's order does not matter -----

  lemma {:induction false} CountAppend(a: seq<Paper>, b: seq<Paper>, provider: Identity)
    ensures CountOf(a + b, provider) == CountOf(a, provider) + CountOf(b, provider)
  {
    if b == [] {
      assert a + b == a;
    } else {
      assert (a + b)[..|a + b| - 1] == a + b[..|b| - 1];
      CountAppend(a, b[..|b| - 1], provider);
    }
  }

  lemma {:induction false} MultisetWithout<T>(b: seq<T>, k: nat)
    requires k < |b|
    ensures multiset(b[..k] + b[k + 1..]) == multiset(b) - multiset{b[k]}
  {
    assert b == b[..k] + [b[k]] + b[k + 1..];
  }

  lemma {:induction false} CountWithout(b: seq<Paper>, k: nat, provider: Identity)
    requires k < |b|
    ensures CountOf(b, provider) == CountOf(b[..k] + b[k + 1..], provider) + CountOf([b[k]], provider)
  {
    assert b == b[..k] + ([b[k]] + b[k + 1..]);
    CountAppend(b[..k], b[k + 1..], provider);
    CountAppend(b[..k], [b[k]] + b[k + 1..], provider);
    CountAppend([b[k]], b[k + 1..], provider);
  }

  lemma {:induction false} WithoutFirst<T>(a: seq<T>, b: seq<T>) returns (k: nat)
    requires multiset(a) == multiset(b) && a != []
    ensures k < |b| && b[k] == a[0] && multiset(a[1..]) == multiset(b[..k] + b[k + 1..])
  {
    assert a[0] in multiset(b);
    k :| 0 <= k < |b| && b[k] == a[0];
    MultisetWithout(b, k);
    MultisetRest(a);
  }

  lemma {:induction false} MultisetRest<T>(a: seq<T>)
    requires a != []
    ensures multiset(a[1..]) == multiset(a) - multiset{a[0]}
  {
    assert a == [a[0]] + a[1..];
  }

  lemma {:induction false} CountFirst(a: seq<Paper>, provider: Identity)
    requires a != []
    ensures CountOf(a, provider) == CountOf(a[1..], provider) + CountOf([a[0]], provider)
  {
    CountWithout(a, 0, provider);
    assert a[..0] + a[1..] == a[1..];
  }

  lemma {:induction false} CountPermutes(a: seq<Paper>, b: seq<Paper>, provider: Identity)
    requires multiset(a) == multiset(b)
    ensures CountOf(a, provider) == CountOf(b, provider)
    decreases |a|
  {
    if a == [] {
      assert |multiset(b)| == 0;
    } else {
      var k := WithoutFirst(a, b);
      CountPermutes(a[1..], b[..k] + b[k + 1..], provider);
      CountFirst(a, provider);
      CountWithout(b, k, provider);
    }
  }

  lemma {:induction false} SameMembers(a: seq<Paper>, b: seq<Paper>)
    requires multiset(a) == multiset(b)
    ensures |a| == |b| && forall r :: r in a <==> r in b
  {
    assert |a| == |multiset(a)| == |multiset(b)| == |b|;
    assert forall r :: r in a <==> r in multiset(a);
    assert forall r :: r in b <==> r in multiset(b);
  }

  lemma {:induction false} AdmissiblePermutes(query: Query, a: seq<Paper>, b: seq<Paper>)
    requires multiset(a) == multiset(b) && Admissible(query, a)
    ensures Admissible(query, b)
  {
    SameMembers(a, b);
    forall p | p in query.providers ensures CountOf(b, p) <= query.pageBound { CountPermutes(a, b, p); }
  }

  lemma {:induction false} DistinctMultiset<T(!new)>(a: seq<T>, x: T)
    requires forall i, j :: 0 <= i < j < |a| ==> a[i] != a[j]
    ensures multiset(a)[x] == if x in a then 1 else 0
  {
    if a != [] {
      var n := |a| - 1;
      DistinctMultiset(a[..n], x);
      assert a == a[..n] + [a[n]];
      assert x in a <==> x in a[..n] || x == a[n];
    }
  }

  lemma {:induction false} SortedIdsPermute(query: Query, a: seq<Paper>, b: seq<Paper>)
    requires forall r :: r in a <==> r in b
    ensures SortedIds(query, a) == SortedIds(query, b)
  {
    var x, y := Dedup(Ids(a)), Dedup(Ids(b));
    IdOrderStrict(query);
    SortedIdsExact(query, a);
    SortedIdsExact(query, b);
    SortPermutes(IdOrder(query), x);
    SortPermutes(IdOrder(query), y);
    DedupExact(Ids(a));
    DedupExact(Ids(b));
    forall id ensures multiset(x)[id] == multiset(y)[id] {
      DistinctMultiset(x, id);
      DistinctMultiset(y, id);
      assert id in x <==> id in multiset(SortedIds(query, a));
      assert id in y <==> id in multiset(SortedIds(query, b));
      assert Known(a, id) <==> Known(b, id);
    }
    SortUnique(IdOrder(query), x, y);
  }

  lemma {:induction false} OrderedPermutes(query: Query, a: seq<Paper>, b: seq<Paper>)
    requires (forall r :: r in a <==> r in b) && forall r, q :: r in a && q in a ==> !Clash(r, q)
    ensures Ordered(query, a) == Ordered(query, b)
  {
    SortedIdsPermute(query, a, b);
    var p, q := Ordered(query, a), Ordered(query, b);
    forall i | 0 <= i < |p| ensures p[i] == q[i] {
      assert p[i] in a && q[i] in a && IdOf(p[i]) == IdOf(q[i]);
      assert !Clash(p[i], q[i]);
    }
  }

  /** Every permutation of a batch is refused with it or merged to the same records. */
  lemma {:induction false} MergePermutes(env: Env, query: Query, a: seq<Paper>, b: seq<Paper>)
    requires multiset(a) == multiset(b)
    ensures Merge(env, query, a) == Merge(env, query, b)
  {
    SameMembers(a, b);
    if Admissible(query, a) {
      AdmissiblePermutes(query, a, b);
      OrderedPermutes(query, a, b);
    } else if Admissible(query, b) {
      AdmissiblePermutes(query, b, a);
    }
  }

  // ----- no two outputs share an identity -----

  /** Where a token of a record sits among the batch's keys. */
  lemma {:induction false} TokenIsKey(env: Env, papers: seq<Paper>, i: nat, token: string)
    requires i < |papers| && token in TokensOf(env, papers[i])
    ensures (Plain(papers[i].revision), token) in KeysOf(env, papers)[i]
  {
    var t :| 0 <= t < |TokensOf(env, papers[i])| && TokensOf(env, papers[i])[t] == token;
    assert KeysOf(env, papers)[i][t] == (Plain(papers[i].revision), token);
  }

  lemma {:induction false} GroupsOfExact(env: Env, papers: seq<Paper>, g: nat)
    requires g < |GroupsOf(env, papers)|
    ensures g < |PaperIdentity.Groups(KeysOf(env, papers))|
    ensures var indices := PaperIdentity.Groups(KeysOf(env, papers))[g];
            indices != [] && InRange(papers, indices) && GroupsOf(env, papers)[g] == Pick(papers, indices)
  {
    IndicesInRange(env, papers);
    PaperIdentity.GroupsInhabited(KeysOf(env, papers), g);
  }

  /** All records of a group carry one revision. */
  lemma {:induction false} GroupRevision(env: Env, papers: seq<Paper>, g: nat, i: nat, j: nat)
    requires g < |PaperIdentity.Groups(KeysOf(env, papers))|
    requires i in PaperIdentity.Groups(KeysOf(env, papers))[g] && j in PaperIdentity.Groups(KeysOf(env, papers))[g]
    ensures i < |papers| && j < |papers| && papers[i].revision == papers[j].revision
  {
    var keys := KeysOf(env, papers);
    var revisions := seq(|papers|, n requires 0 <= n < |papers| => Plain(papers[n].revision));
    forall n, k: PaperIdentity.Key | 0 <= n < |keys| && k in keys[n] ensures k.0 == revisions[n] {
      var t :| 0 <= t < |keys[n]| && keys[n][t] == k;
    }
    PaperIdentity.GroupsHaveOneRevision(keys, revisions, g, i, j);
    PlainInjective(papers[i].revision, papers[j].revision);
  }

  lemma {:induction false} PlainInjective(a: Option<Identity>, b: Option<Identity>)
    requires Plain(a) == Plain(b)
    ensures a == b
  {
  }

  lemma {:induction false} JudgedName(env: Env, group: seq<Paper>)
    requires Judgement(env, group).Ok?
    ensures group != [] && Canonical(env, group).Some?
    ensures Name(Judgement(env, group).value) == (Canonical(env, group).value, group[0].revision)
  {
  }

  /** The member of a group whose token names the merged record. */
  lemma {:induction false} Namesake(env: Env, papers: seq<Paper>, g: nat) returns (i: nat)
    requires g < |GroupsOf(env, papers)| && Judgement(env, GroupsOf(env, papers)[g]).Ok?
    ensures i < |papers| && i in PaperIdentity.Groups(KeysOf(env, papers))[g]
    ensures var name := Name(Judgement(env, GroupsOf(env, papers)[g]).value);
            (Plain(name.1), name.0) in KeysOf(env, papers)[i]
  {
    var group := GroupsOf(env, papers)[g];
    GroupsOfExact(env, papers, g);
    var indices := PaperIdentity.Groups(KeysOf(env, papers))[g];
    JudgedName(env, group);
    var member := CanonicalIsToken(env, group);
    i := indices[member];
    assert i in indices && indices[0] in indices;
    GroupRevision(env, papers, g, i, indices[0]);
    TokenIsKey(env, papers, i, Canonical(env, group).value);
  }

  function Name(record: Record): (string, Option<Identity>) { (record.canonical, record.revision) }

  lemma {:induction false} GroupsNamedApart(env: Env, papers: seq<Paper>, g: nat, h: nat)
    requires g < h < |GroupsOf(env, papers)|
    requires Judgement(env, GroupsOf(env, papers)[g]).Ok? && Judgement(env, GroupsOf(env, papers)[h]).Ok?
    ensures Name(Judgement(env, GroupsOf(env, papers)[g]).value) != Name(Judgement(env, GroupsOf(env, papers)[h]).value)
  {
    var name := Name(Judgement(env, GroupsOf(env, papers)[g]).value);
    if name == Name(Judgement(env, GroupsOf(env, papers)[h]).value) {
      var keys := KeysOf(env, papers);
      var i := Namesake(env, papers, g);
      var j := Namesake(env, papers, h);
      SameKeySameGroup(keys, g, h, i, j, (Plain(name.1), name.0));
    }
  }

  lemma {:induction false} SameKeySameGroup(keys: seq<seq<PaperIdentity.Key>>, g: nat, h: nat, i: nat, j: nat,
      key: PaperIdentity.Key)
    requires g < |PaperIdentity.Groups(keys)| && h < |PaperIdentity.Groups(keys)| && i < |keys| && j < |keys|
    requires i in PaperIdentity.Groups(keys)[g] && j in PaperIdentity.Groups(keys)[h]
    requires key in keys[i] && key in keys[j]
    ensures g == h
  {
    PaperIdentity.ConnectedShare(keys, i, j);
    PaperIdentity.GroupsExact(keys, i, j);
    var k :| 0 <= k < |PaperIdentity.Groups(keys)| && i in PaperIdentity.Groups(keys)[k]
        && j in PaperIdentity.Groups(keys)[k];
    PaperIdentity.GroupsDisjoint(keys, g, k, i);
    PaperIdentity.GroupsDisjoint(keys, h, k, j);
  }

  ghost predicate NamedApart(records: seq<Record>) {
    forall i, j :: 0 <= i < j < |records| ==> Name(records[i]) != Name(records[j])
  }

  lemma {:induction false} InsertNamedApart(x: Record, s: seq<Record>)
    requires NamedApart([x] + s)
    ensures NamedApart(Insert(RecordBefore, x, s))
  {
    if s != [] && RecordBefore(s[0], x) {
      forall i, j | 0 <= i < j < |[x] + s[1..]| ensures Name(([x] + s[1..])[i]) != Name(([x] + s[1..])[j]) {
        assert Name(([x] + s)[if i == 0 then 0 else i + 1]) != Name(([x] + s)[j + 1]);
      }
      InsertNamedApart(x, s[1..]);
      InsertPermutes(RecordBefore, x, s[1..]);
      var rest := Insert(RecordBefore, x, s[1..]);
      forall r | r in rest ensures Name(r) != Name(s[0]) {
        assert r in multiset(rest);
        if r == x {
          assert Name(([x] + s)[0]) != Name(([x] + s)[1]);
        } else {
          var k :| 0 <= k < |s[1..]| && s[1..][k] == r;
          assert Name(([x] + s)[1]) != Name(([x] + s)[k + 2]);
        }
      }
    }
  }

  lemma {:induction false} FirstNamedApart(x: Record, s: seq<Record>, t: seq<Record>)
    requires NamedApart([x] + s) && NamedApart(t) && multiset(s) == multiset(t)
    ensures NamedApart([x] + t)
  {
    forall r | r in t ensures Name(r) != Name(x) {
      assert r in multiset(t);
      var k :| 0 <= k < |s| && s[k] == r;
      assert ([x] + s)[0] == x && ([x] + s)[k + 1] == r;
    }
    forall i, j | 0 <= i < j < |[x] + t| ensures Name(([x] + t)[i]) != Name(([x] + t)[j]) {
      if i == 0 { assert ([x] + t)[j] in t; } else { assert Name(t[i - 1]) != Name(t[j - 1]); }
    }
  }

  lemma {:induction false} SortNamedApart(s: seq<Record>)
    requires NamedApart(s)
    ensures NamedApart(Sort(RecordBefore, s))
  {
    if s != [] {
      var rest := Sort(RecordBefore, s[1..]);
      SortNamedApart(s[1..]);
      SortPermutes(RecordBefore, s[1..]);
      assert [s[0]] + s[1..] == s;
      FirstNamedApart(s[0], s[1..], rest);
      InsertNamedApart(s[0], rest);
    }
  }

  lemma {:induction false} MergedNamedApart(env: Env, papers: seq<Paper>)
    requires MergedGroups(env, papers).Ok?
    ensures NamedApart(MergedGroups(env, papers).value)
  {
    var groups := GroupsOf(env, papers);
    var outcomes, merged := Judgements(env, groups), MergedGroups(env, papers).value;
    AllExact(outcomes);
    forall g, h | 0 <= g < h < |merged| ensures Name(merged[g]) != Name(merged[h]) {
      assert outcomes[g] == Judgement(env, groups[g]) && outcomes[h] == Judgement(env, groups[h]);
      GroupsNamedApart(env, papers, g, h);
    }
  }

  /** No two merged records share a canonical id and a revision. */
  lemma {:induction false} MergeNamesApart(env: Env, query: Query, records: seq<Paper>)
    requires Merge(env, query, records).Ok?
    ensures NamedApart(Merge(env, query, records).value)
  {
    var papers := Ordered(query, records);
    MergedNamedApart(env, papers);
    SortNamedApart(MergedGroups(env, papers).value);
  }

  // ----- what the outputs say -----

  /** A record that says what its group says, every member of one revision. */
  ghost predicate Merges(env: Env, group: seq<Paper>, record: Record) {
    RecordOf(env, group, record) && forall i :: 0 <= i < |group| ==> group[i].revision == record.revision
  }

  lemma {:induction false} GroupMerges(env: Env, papers: seq<Paper>, g: nat)
    requires g < |GroupsOf(env, papers)| && Judgement(env, GroupsOf(env, papers)[g]).Ok?
    ensures Merges(env, GroupsOf(env, papers)[g], Judgement(env, GroupsOf(env, papers)[g]).value)
  {
    var group := GroupsOf(env, papers)[g];
    GroupsOfExact(env, papers, g);
    var indices := PaperIdentity.Groups(KeysOf(env, papers))[g];
    MergedGroupMeans(env, group);
    forall i | 0 <= i < |group| ensures group[i].revision == group[0].revision {
      assert indices[i] in indices && indices[0] in indices;
      GroupRevision(env, papers, g, i := indices[i], j := indices[0]);
    }
  }

  lemma {:induction false} AllLists<T>(outcomes: seq<Result<T>>, x: T)
    requires All(outcomes).Ok?
    ensures x in All(outcomes).value <==> exists g :: 0 <= g < |outcomes| && outcomes[g] == Ok(x)
  {
    AllExact(outcomes);
    if x in All(outcomes).value {
      var g :| 0 <= g < |outcomes| && All(outcomes).value[g] == x;
      assert outcomes[g] == Ok(x);
    }
  }

  lemma {:induction false} SortLists<T>(less: (T, T) -> bool, s: seq<T>, x: T)
    ensures x in Sort(less, s) <==> x in s
  {
    SortPermutes(less, s);
    assert x in Sort(less, s) <==> x in multiset(Sort(less, s));
    assert x in s <==> x in multiset(s);
  }

  ghost predicate FromGroup(env: Env, groups: seq<seq<Paper>>, r: Record) {
    exists g :: 0 <= g < |groups| && Merges(env, groups[g], r)
  }

  ghost predicate InOutput(env: Env, merged: seq<Record>, group: seq<Paper>) {
    exists r :: r in merged && Merges(env, group, r)
  }

  lemma {:induction false} RecordFromGroup(env: Env, papers: seq<Paper>, r: Record)
    requires MergedGroups(env, papers).Ok? && r in MergedGroups(env, papers).value
    ensures FromGroup(env, GroupsOf(env, papers), r)
  {
    var outcomes := Judgements(env, GroupsOf(env, papers));
    AllLists(outcomes, r);
    var g :| 0 <= g < |outcomes| && outcomes[g] == Ok(r);
    GroupMerges(env, papers, g);
  }

  lemma {:induction false} GroupGivesRecord(env: Env, papers: seq<Paper>, g: nat) returns (r: Record)
    requires MergedGroups(env, papers).Ok? && g < |GroupsOf(env, papers)|
    ensures r in MergedGroups(env, papers).value && Merges(env, GroupsOf(env, papers)[g], r)
  {
    var outcomes := Judgements(env, GroupsOf(env, papers));
    AllExact(outcomes);
    r := outcomes[g].value;
    AllLists(outcomes, r);
    GroupMerges(env, papers, g);
  }

  lemma {:induction false} OneEach(env: Env, papers: seq<Paper>)
    requires MergedGroups(env, papers).Ok?
    ensures |MergedGroups(env, papers).value| == |GroupsOf(env, papers)|
  {
    AllExact(Judgements(env, GroupsOf(env, papers)));
  }

  /** The outputs are the merged records of the groups, one for each, and each says what
      the members of its group say. */
  lemma {:induction false} MergeMeans(env: Env, query: Query, records: seq<Paper>)
    requires Merge(env, query, records).Ok?
    ensures var groups, merged := GroupsOf(env, Ordered(query, records)), Merge(env, query, records).value;
            && |merged| == |groups|
            && (forall r :: r in merged ==> FromGroup(env, groups, r))
            && (forall g :: 0 <= g < |groups| ==> InOutput(env, merged, groups[g]))
  {
    var papers, merged := Ordered(query, records), Merge(env, query, records).value;
    var all := MergedGroups(env, papers).value;
    OneEach(env, papers);
    SortPermutes(RecordBefore, all);
    forall r | r in merged ensures FromGroup(env, GroupsOf(env, papers), r) {
      SortLists(RecordBefore, all, r);
      RecordFromGroup(env, papers, r);
    }
    forall g | 0 <= g < |GroupsOf(env, papers)| ensures InOutput(env, merged, GroupsOf(env, papers)[g]) {
      var r := GroupGivesRecord(env, papers, g);
      SortLists(RecordBefore, all, r);
    }
  }

  // ----- when a batch is refused -----

  /** Two records of one revision with a common DOI, alias or provider name. */
  ghost predicate SharesName(env: Env, p: Paper, q: Paper) {
    && p.revision == q.revision
    && exists token :: (IsDoi(env, p, token) || IsAlias(p, token) || token == NameOf(env, p))
                       && (IsDoi(env, q, token) || IsAlias(q, token) || token == NameOf(env, q))
  }

  /** The keys say just that. */
  lemma {:induction false} KeysShare(env: Env, papers: seq<Paper>, i: nat, j: nat)
    requires Tokenized(env, papers) && i < |papers| && j < |papers|
    ensures PaperIdentity.Share(KeysOf(env, papers), i, j) <==> SharesName(env, papers[i], papers[j])
  {
    var keys, p, q := KeysOf(env, papers), papers[i], papers[j];
    forall token
      ensures token in TokensOf(env, p) <==> IsDoi(env, p, token) || IsAlias(p, token) || token == NameOf(env, p)
    {
      TokenIs(env, p, token);
    }
    forall token
      ensures token in TokensOf(env, q) <==> IsDoi(env, q, token) || IsAlias(q, token) || token == NameOf(env, q)
    {
      TokenIs(env, q, token);
    }
    if SharesName(env, p, q) {
      var token :| token in TokensOf(env, p) && token in TokensOf(env, q);
      TokenIsKey(env, papers, i, token);
      TokenIsKey(env, papers, j, token);
    }
    if PaperIdentity.Share(keys, i, j) {
      var key :| key in keys[i] && key in keys[j];
      var m :| 0 <= m < |keys[i]| && keys[i][m] == key;
      var n :| 0 <= n < |keys[j]| && keys[j][n] == key;
      PlainInjective(p.revision, q.revision);
      assert key.1 in TokensOf(env, p) && key.1 in TokensOf(env, q);
    }
  }

  /** Two records that may become one: not two DOIs, and no provider with two values. */
  predicate Agree(env: Env, p: Paper, q: Paper) {
    && (DoiOf(env, p).Some? && DoiOf(env, q).Some? ==> DoiOf(env, p) == DoiOf(env, q))
    && forall field :: !Contradicts(p, q, field)
  }

  predicate AllAgree(env: Env, group: seq<Paper>) {
    forall p, q :: p in group && q in group ==> Agree(env, p, q)
  }

  lemma {:induction false} DoiToken(env: Env, group: seq<Paper>, token: string)
    requires Tokenized(env, group)
    ensures token in WithPrefix("doi:", AllTokens(env, group)) <==> exists p :: p in group && IsDoi(env, p, token)
  {
    WithPrefixExact("doi:", AllTokens(env, group), token);
    MemberToken(env, group, token);
    forall p | p in group ensures IsDoi(env, p, token) <==> token in TokensOf(env, p) && "doi:" <= token {
      TokenIs(env, p, token);
      KindsApart(env, p, token);
    }
  }

  lemma {:induction false} SameDoi(a: string, b: string)
    ensures "doi:" + a == "doi:" + b <==> a == b
  {
    assert ("doi:" + a)[4..] == a && ("doi:" + b)[4..] == b;
  }

  /** A group has one DOI at most exactly when its members do not disagree on it. */
  lemma {:induction false} OneDoiExact(env: Env, group: seq<Paper>)
    requires Tokenized(env, group)
    ensures OneDoi(env, group) <==>
              forall p, q :: p in group && q in group && DoiOf(env, p).Some? && DoiOf(env, q).Some? ==>
                DoiOf(env, p) == DoiOf(env, q)
  {
    var dois := WithPrefix("doi:", AllTokens(env, group));
    if OneDoi(env, group) {
      forall p, q | p in group && q in group && DoiOf(env, p).Some? && DoiOf(env, q).Some?
        ensures DoiOf(env, p) == DoiOf(env, q)
      {
        var s, t := "doi:" + DoiOf(env, p).value, "doi:" + DoiOf(env, q).value;
        assert IsDoi(env, p, s) && IsDoi(env, q, t);
        DoiToken(env, group, s);
        DoiToken(env, group, t);
        SameDoi(DoiOf(env, p).value, DoiOf(env, q).value);
      }
    } else {
      var i :| 0 < i < |dois| && dois[i] != dois[0];
      DoiToken(env, group, dois[i]);
      DoiToken(env, group, dois[0]);
      var p :| p in group && IsDoi(env, p, dois[i]);
      var q :| q in group && IsDoi(env, q, dois[0]);
      SameDoi(DoiOf(env, p).value, DoiOf(env, q).value);
    }
  }

  lemma {:induction false} ConsistentExact(group: seq<Paper>, field: Field)
    ensures Consistent(group, field) <==> forall p, q :: p in group && q in group ==> !Contradicts(p, q, field)
  {
    if Consistent(group, field) {
      forall p, q | p in group && q in group ensures !Contradicts(p, q, field) {
        var i :| 0 <= i < |group| && group[i] == p;
        var j :| 0 <= j < |group| && group[j] == q;
        if i < j { assert !Contradicts(group[i], group[j], field); }
        if j < i { assert !Contradicts(group[j], group[i], field); }
      }
    }
  }

  predicate AllConsistent(group: seq<Paper>) {
    Consistent(group, Title) && Consistent(group, Authors) && Consistent(group, Abstract)
    && Consistent(group, PublicationDate)
  }

  lemma {:induction false} AllConsistentExact(group: seq<Paper>)
    ensures AllConsistent(group) <==> forall p, q, field :: p in group && q in group ==> !Contradicts(p, q, field)
  {
    ConsistentExact(group, Title);
    ConsistentExact(group, Authors);
    ConsistentExact(group, Abstract);
    ConsistentExact(group, PublicationDate);
    if AllConsistent(group) {
      forall p, q, field | p in group && q in group ensures !Contradicts(p, q, field) {
        assert field == Title || field == Authors || field == Abstract || field == PublicationDate;
      }
    }
  }

  lemma {:induction false} DraftExact(env: Env, group: seq<Paper>)
    requires group != [] && Tokenized(env, group)
    ensures Draft(env, group).Some? <==> AllConsistent(group)
  {
    CanonicalMeans(env, group);
  }

  lemma {:induction false} AllAgreeExact(env: Env, group: seq<Paper>)
    requires Tokenized(env, group)
    ensures AllAgree(env, group) <==> OneDoi(env, group) && AllConsistent(group)
  {
    OneDoiExact(env, group);
    AllConsistentExact(group);
    if OneDoi(env, group) && AllConsistent(group) {
      forall p, q | p in group && q in group ensures Agree(env, p, q) {}
    }
    if AllAgree(env, group) {
      forall p, q | p in group && q in group
        ensures DoiOf(env, p).Some? && DoiOf(env, q).Some? ==> DoiOf(env, p) == DoiOf(env, q)
        ensures forall field :: !Contradicts(p, q, field)
      {
        assert Agree(env, p, q);
      }
    }
  }

  /** The output model takes the record of a group, if it has one. */
  predicate Takes(env: Env, group: seq<Paper>) {
    Draft(env, group).Some? ==> env.admits(Draft(env, group).value)
  }

  /** A group merges exactly if its members agree and the output model takes the record. */
  lemma {:induction false} JudgementExact(env: Env, group: seq<Paper>)
    requires group != [] && Tokenized(env, group)
    ensures Judgement(env, group).Ok? <==> AllAgree(env, group) && Takes(env, group)
  {
    AllAgreeExact(env, group);
    DraftExact(env, group);
  }

  /** Records connected by a chain of shared names agree. */
  ghost predicate ChainsAgree(env: Env, papers: seq<Paper>) {
    forall i, j {:trigger Agree(env, papers[i], papers[j])} :: 0 <= i < |papers| && 0 <= j < |papers| ==>
      PaperIdentity.Connected(KeysOf(env, papers), i, j) ==> Agree(env, papers[i], papers[j])
  }

  lemma {:induction false} Picked(papers: seq<Paper>, indices: seq<nat>, p: Paper) returns (i: nat)
    requires InRange(papers, indices) && p in Pick(papers, indices)
    ensures i in indices && i < |papers| && papers[i] == p
  {
    var n :| 0 <= n < |Pick(papers, indices)| && Pick(papers, indices)[n] == p;
    i := indices[n];
  }

  lemma {:induction false} MembersOf(env: Env, papers: seq<Paper>, g: nat, p: Paper) returns (i: nat)
    requires g < |GroupsOf(env, papers)| && p in GroupsOf(env, papers)[g]
    ensures i < |papers| && papers[i] == p && g < |PaperIdentity.Groups(KeysOf(env, papers))|
    ensures i in PaperIdentity.Groups(KeysOf(env, papers))[g]
  {
    GroupsOfExact(env, papers, g);
    i := Picked(papers, PaperIdentity.Groups(KeysOf(env, papers))[g], p);
  }

  lemma {:induction false} MemberIn(env: Env, papers: seq<Paper>, g: nat, i: nat)
    requires g < |PaperIdentity.Groups(KeysOf(env, papers))| && i in PaperIdentity.Groups(KeysOf(env, papers))[g]
    ensures g < |GroupsOf(env, papers)| && i < |papers| && papers[i] in GroupsOf(env, papers)[g]
  {
    GroupsOfExact(env, papers, g);
    var indices := PaperIdentity.Groups(KeysOf(env, papers))[g];
    var n :| 0 <= n < |indices| && indices[n] == i;
    assert GroupsOf(env, papers)[g][n] == papers[i];
  }

  lemma {:induction false} GroupsAgree(env: Env, papers: seq<Paper>)
    ensures ChainsAgree(env, papers) <==>
              forall g :: 0 <= g < |GroupsOf(env, papers)| ==> AllAgree(env, GroupsOf(env, papers)[g])
  {
    var keys, groups := KeysOf(env, papers), GroupsOf(env, papers);
    if ChainsAgree(env, papers) {
      forall g | 0 <= g < |groups| ensures AllAgree(env, groups[g]) {
        forall p, q | p in groups[g] && q in groups[g] ensures Agree(env, p, q) {
          var i := MembersOf(env, papers, g, p);
          var j := MembersOf(env, papers, g, q);
          PaperIdentity.GroupsExact(keys, i, j);
          assert Agree(env, papers[i], papers[j]);
        }
      }
    }
    if forall g :: 0 <= g < |groups| ==> AllAgree(env, groups[g]) {
      forall i, j | 0 <= i < |papers| && 0 <= j < |papers| && PaperIdentity.Connected(keys, i, j)
        ensures Agree(env, papers[i], papers[j])
      {
        PaperIdentity.GroupsExact(keys, i, j);
        var g :| 0 <= g < |PaperIdentity.Groups(keys)| && i in PaperIdentity.Groups(keys)[g]
                 && j in PaperIdentity.Groups(keys)[g];
        MemberIn(env, papers, g, i);
        MemberIn(env, papers, g, j);
      }
    }
  }

  lemma {:induction false} GroupTokenized(env: Env, papers: seq<Paper>, g: nat)
    requires Tokenized(env, papers) && g < |GroupsOf(env, papers)|
    ensures GroupsOf(env, papers)[g] != [] && Tokenized(env, GroupsOf(env, papers)[g])
  {
    GroupsOfExact(env, papers, g);
    forall p | p in GroupsOf(env, papers)[g] ensures Tokens(env, p).Ok? {
      var i := MembersOf(env, papers, g, p);
      assert papers[i] in papers;
    }
  }

  lemma {:induction false} GroupExact(env: Env, papers: seq<Paper>, g: nat)
    requires Tokenized(env, papers) && g < |GroupsOf(env, papers)|
    ensures var group := GroupsOf(env, papers)[g];
            Judgements(env, GroupsOf(env, papers))[g].Ok? <==> AllAgree(env, group) && Takes(env, group)
  {
    GroupTokenized(env, papers, g);
    JudgementExact(env, GroupsOf(env, papers)[g]);
  }

  ghost predicate AllTake(env: Env, papers: seq<Paper>) {
    forall g :: 0 <= g < |GroupsOf(env, papers)| ==> Takes(env, GroupsOf(env, papers)[g])
  }

  lemma {:induction false} GroupsMergeExact(env: Env, papers: seq<Paper>)
    ensures MergedGroups(env, papers).Ok? <==>
              Tokenized(env, papers) && ChainsAgree(env, papers) && AllTake(env, papers)
  {
    var groups := GroupsOf(env, papers);
    AllExact(Judgements(env, groups));
    GroupsAgree(env, papers);
    if Tokenized(env, papers) {
      forall g | 0 <= g < |groups|
        ensures Judgements(env, groups)[g].Ok? <==> AllAgree(env, groups[g]) && Takes(env, groups[g])
      {
        GroupExact(env, papers, g);
      }
    }
  }

  /** A batch is refused exactly when it is too large or not admissible, has an invalid
      DOI, or has two records, connected by a chain of shared names, with two DOIs or with
      two values of one provider for a field; or when the output model refuses a record. */
  lemma {:induction false} RefusalExact(env: Env, query: Query, records: seq<Paper>)
    ensures var papers := Ordered(query, records);
            Merge(env, query, records).Ok? <==>
              && |records| <= 10_000 && Admissible(query, records)
              && Tokenized(env, papers) && ChainsAgree(env, papers) && AllTake(env, papers)
  {
    GroupsMergeExact(env, Ordered(query, records));
  }
}
