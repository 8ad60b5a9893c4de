/** The order of what a merge gives: records by declared provider before they are
    grouped, and the merged records by name. */
module PaperOrder {
  import opened Common
  import opened Sorting
  import opened Papers
  import opened PaperRecords
  import opened PaperMerge
  import PaperIdentity

  /** The place at which a provider is first declared. */
  predicate Listed(providers: seq<Identity>, p: Identity, m: nat) {
    m < |providers| && providers[m] == p && forall k :: 0 <= k < m ==> providers[k] != p
  }

  /** By declared provider, then record id, then revision, none before any. */
  ghost predicate DeclaredBefore(query: Query, a: Id, b: Id) {
    || (exists m: nat, n: nat :: m < n && Listed(query.providers, a.provider, m)
          && Listed(query.providers, b.provider, n))
    || (a.provider == b.provider
        && (|| Before(a.record, b.record)
            || (a.record == b.record && b.revision.Some?
                && (a.revision.Some? ==> Before(a.revision.value, b.revision.value)))))
  }

  lemma {:induction false} PositionListed(providers: seq<Identity>, p: Identity)
    requires p in providers
    ensures Listed(providers, p, Position(providers, p))
  {
    if providers[0] != p {
      PositionListed(providers[1..], p);
      var n := Position(providers[1..], p);
      assert forall k :: 0 < k < n + 1 ==> providers[k] == providers[1..][k - 1];
    }
  }

  lemma {:induction false} ListedOnce(providers: seq<Identity>, p: Identity, q: Identity, m: nat)
    requires Listed(providers, p, m) && Listed(providers, q, m)
    ensures p == q
  {
  }

  lemma {:induction false} IdBeforeExact(query: Query, a: Id, b: Id)
    requires a.provider in query.providers && b.provider in query.providers && IdBefore(query, a, b)
    ensures DeclaredBefore(query, a, b)
  {
    var m, n := Position(query.providers, a.provider), Position(query.providers, b.provider);
    PositionListed(query.providers, a.provider);
    PositionListed(query.providers, b.provider);
    if m < n {
      assert Listed(query.providers, a.provider, m) && Listed(query.providers, b.provider, n);
    } else {
      if m == n { ListedOnce(query.providers, a.provider, b.provider, m); }
      BeforeIrreflexive(a.provider);
    }
  }

  /** Records are grouped in declared order, whatever the order of the batch. */
  lemma {:induction false} OrderedInOrder(query: Query, records: seq<Paper>, i: nat, j: nat)
    requires Admissible(query, records) && i < j < |Ordered(query, records)|
    ensures var papers := Ordered(query, records); DeclaredBefore(query, IdOf(papers[i]), IdOf(papers[j]))
  {
    var papers, ids := Ordered(query, records), SortedIds(query, records);
    var all := Dedup(Ids(records));
    IdOrderStrict(query);
    SortSorts(IdOrder(query), all);
    SortPermutes(IdOrder(query), all);
    DedupExact(Ids(records));
    StaysDistinct(all, ids, i, j);
    assert !IdOrder(query)(ids[j], ids[i]);
    assert ids[i] == IdOf(papers[i]) && ids[j] == IdOf(papers[j]) && papers[i] in records && papers[j] in records;
    IdBeforeExact(query, ids[i], ids[j]);
  }

  lemma {:induction false} StaysDistinct<T(!new)>(a: seq<T>, b: seq<T>, i: nat, j: nat)
    requires multiset(a) == multiset(b) && (forall m, n :: 0 <= m < n < |a| ==> a[m] != a[n]) && i < j < |b|
    ensures b[i] != b[j]
  {
    DistinctMultiset(a, b[i]);
    TwicePlaced(b, i, j);
  }

  lemma {:induction false} TwicePlaced<T>(b: seq<T>, i: nat, j: nat)
    requires i < j < |b|
    ensures b[i] == b[j] ==> multiset(b)[b[i]] >= 2
  {
    var front := b[..j];
    assert b == front + [b[j]] + b[j + 1..];
    assert front[i] == b[i] && b[i] in multiset(front);
  }

  // ----- the references of a merged record -----

  lemma {:induction false} MembersAscend(keys: seq<seq<PaperIdentity.Key>>, leader: nat, n: nat, a: nat, b: nat)
    requires n <= |keys| && a < b < |PaperIdentity.Members(keys, leader, n)|
    ensures PaperIdentity.Members(keys, leader, n)[a] < PaperIdentity.Members(keys, leader, n)[b]
  {
    var before := PaperIdentity.Members(keys, leader, n - 1);
    if b < |before| {
      MembersAscend(keys, leader, n - 1, a, b);
    } else {
      PaperIdentity.MembersExact(keys, leader, n - 1, before[a]);
    }
  }

  /** The members of a group keep the declared order. */
  lemma {:induction false} GroupInOrder(env: Env, query: Query, records: seq<Paper>, g: nat, a: nat, b: nat)
    requires Admissible(query, records) && g < |GroupsOf(env, Ordered(query, records))|
    requires a < b < |GroupsOf(env, Ordered(query, records))[g]|
    ensures var group := GroupsOf(env, Ordered(query, records))[g];
            DeclaredBefore(query, IdOf(group[a]), IdOf(group[b]))
  {
    var papers := Ordered(query, records);
    var keys := KeysOf(env, papers);
    GroupsOfExact(env, papers, g);
    var indices := PaperIdentity.Groups(keys)[g];
    MembersAscend(keys, PaperIdentity.Leaders(keys, |keys|)[g], |keys|, a, b);
    assert indices[b] in indices;
    OrderedInOrder(query, records, indices[a], indices[b]);
  }

  /** No reference stands after one whose provider was declared later, nor after
      one of its provider with a later record id. */
  lemma {:induction false} ReferencesInOrder(env: Env, query: Query, records: seq<Paper>, r: Record, i: nat, j: nat)
    requires Merge(env, query, records).Ok? && r in Merge(env, query, records).value && i < j < |r.references|
    ensures var p, q := r.references[i], r.references[j];
            || (p.provider == q.provider && (p.record == q.record || Before(p.record, q.record)))
            || exists m: nat, n: nat :: m < n && Listed(query.providers, p.provider, m)
                 && Listed(query.providers, q.provider, n)
  {
    MergeMeans(env, query, records);
    var g := GroupBehind(env, GroupsOf(env, Ordered(query, records)), r);
    var a, b := CitedInOrder(GroupsOf(env, Ordered(query, records))[g], r.references, i, j);
    GroupInOrder(env, query, records, g, a, b);
  }

  lemma {:induction false} GroupBehind(env: Env, groups: seq<seq<Paper>>, r: Record) returns (g: nat)
    requires FromGroup(env, groups, r)
    ensures g < |groups| && ReferencesOf(groups[g], r.references)
  {
    g :| 0 <= g < |groups| && Merges(env, groups[g], r);
    assert RecordOf(env, groups[g], r);
  }

  lemma {:induction false} CitedInOrder(group: seq<Paper>, references: seq<Reference>, i: nat, j: nat)
    returns (a: nat, b: nat)
    requires ReferencesOf(group, references) && i < j < |references|
    ensures a < b < |group| && group[a].reference == references[i] && group[b].reference == references[j]
  {
    assert references[j] in references;
    b :| 0 <= b < |group| && group[b].reference == references[j];
    var cited := Cited(group);
    assert cited[b] == references[j];
    assert references[i] in cited[..b];
    a :| 0 <= a < b && cited[a] == references[i];
  }

  // ----- the merged records -----

  lemma {:induction false} RecordBeforeIsWeak()
    ensures WeakOrder(RecordBefore)
  {
    forall a, b | RecordBefore(a, b) ensures !RecordBefore(b, a) { PairAsymmetric(a, b); }
    forall a, b, c | RecordBefore(a, c) ensures RecordBefore(a, b) || RecordBefore(b, c) { PairBetween(a, b, c); }
  }

  lemma {:induction false} PairAsymmetric(a: Record, b: Record)
    requires RecordBefore(a, b)
    ensures !RecordBefore(b, a)
  {
    var p, q := RevisionText(a.revision), RevisionText(b.revision);
    PairStrict(a.canonical, p, b.canonical, q);
    if RecordBefore(b, a) { PairTransitive(a.canonical, p, b.canonical, q, a.canonical, p); }
  }

  lemma {:induction false} PairBetween(a: Record, b: Record, c: Record)
    requires RecordBefore(a, c)
    ensures RecordBefore(a, b) || RecordBefore(b, c)
  {
    var p, q, r := RevisionText(a.revision), RevisionText(b.revision), RevisionText(c.revision);
    PairStrict(a.canonical, p, b.canonical, q);
    if RecordBefore(b, a) { PairTransitive(b.canonical, q, a.canonical, p, c.canonical, r); }
  }

  /** The merged records come by name, and of one name by revision. */
  lemma {:induction false} MergedInOrder(env: Env, query: Query, records: seq<Paper>, i: nat, j: nat)
    requires Merge(env, query, records).Ok? && i < j < |Merge(env, query, records).value|
    ensures var p, q := Merge(env, query, records).value[i], Merge(env, query, records).value[j];
            || Before(p.canonical, q.canonical)
            || (p.canonical == q.canonical && q.revision.Some?
                && (p.revision.Some? ==> Before(p.revision.value, q.revision.value)))
  {
    var merged := Merge(env, query, records).value;
    MergeNamesApart(env, query, records);
    MergeSorted(env, query, records);
    NamesInOrder(merged[i], merged[j]);
  }

  lemma {:induction false} MergeSorted(env: Env, query: Query, records: seq<Paper>)
    requires Merge(env, query, records).Ok?
    ensures Sorted(RecordBefore, Merge(env, query, records).value)
  {
    RecordBeforeIsWeak();
    SortSortsWeakly(RecordBefore, MergedGroups(env, Ordered(query, records)).value);
  }

  lemma {:induction false} NamesInOrder(p: Record, q: Record)
    requires !RecordBefore(q, p) && Name(p) != Name(q)
    ensures || Before(p.canonical, q.canonical)
            || (p.canonical == q.canonical && q.revision.Some?
                && (p.revision.Some? ==> Before(p.revision.value, q.revision.value)))
  {
    PairStrict(p.canonical, RevisionText(p.revision), q.canonical, RevisionText(q.revision));
  }
}
