/** Grouping paper records by shared identity tokens: a union-find forest with
    path halving, and what its groups mean. */
module PaperIdentity {
  import opened Common

  /** A record's keys pair its revision with each of its identity tokens. */
  type Key = (Option<string>, string)

  // ----- what a group is -----

  predicate Share(keys: seq<seq<Key>>, i: nat, j: nat)
    requires i < |keys| && j < |keys|
  {
    exists k :: k in keys[i] && k in keys[j]
  }

  /** A chain of records, each sharing a key with the next. */
  predicate Chain(keys: seq<seq<Key>>, path: seq<nat>) {
    && path != [] && path[0] < |keys|
    && (|path| > 1 ==> path[1] < |keys| && Share(keys, path[0], path[1]) && Chain(keys, path[1..]))
  }

  ghost predicate Connected(keys: seq<seq<Key>>, i: nat, j: nat) {
    exists path :: Chain(keys, path) && path[0] == i && path[|path| - 1] == j
  }

  // ----- the forest -----

  /** `rep` names the root of every tree; ranks grow towards the root, so no
      parent chain cycles. Indices do not have to shrink towards the root. */
  ghost predicate Node(parent: seq<nat>, rep: seq<nat>, rank: seq<nat>, bound: nat, i: nat)
    requires i < |parent| == |rep| == |rank|
  {
    && parent[i] < |parent| && rep[i] < |parent| && rank[i] <= bound
    && rep[parent[i]] == rep[i] && rep[rep[i]] == rep[i]
    && (parent[i] == i <==> rep[i] == i)
    && (parent[i] != i ==> rank[i] < rank[parent[i]])
  }

  ghost predicate Forest(parent: seq<nat>, rep: seq<nat>, rank: seq<nat>, bound: nat) {
    && |parent| == |rep| == |rank|
    && forall i {:trigger Node(parent, rep, rank, bound, i)} :: 0 <= i < |parent| ==> Node(parent, rep, rank, bound, i)
  }

  /** Pointing a node at its grandparent. */
  lemma {:induction false} HalveKeepsForest(parent: seq<nat>, rep: seq<nat>, rank: seq<nat>, bound: nat, i: nat)
    requires Forest(parent, rep, rank, bound) && i < |parent| && parent[i] != i
    ensures parent[i] < |parent| && parent[parent[i]] < |parent|
    ensures Forest(parent[i := parent[parent[i]]], rep, rank, bound)
    ensures rank[i] < rank[parent[parent[i]]] <= bound && rep[parent[parent[i]]] == rep[i]
  {
    assert Node(parent, rep, rank, bound, i);
    assert Node(parent, rep, rank, bound, parent[i]);
    assert Node(parent, rep, rank, bound, parent[parent[i]]);
    var halved := parent[i := parent[parent[i]]];
    forall j | 0 <= j < |halved| ensures Node(halved, rep, rank, bound, j) {
      assert Node(parent, rep, rank, bound, j);
    }
  }

  /** Path halving: it shortens the paths but moves no root. */
  method Root(parent: array<nat>, start: nat, ghost rep: seq<nat>, ghost rank: seq<nat>, ghost bound: nat)
    returns (root: nat)
    requires start < parent.Length && Forest(parent[..], rep, rank, bound)
    modifies parent
    ensures Forest(parent[..], rep, rank, bound)
    ensures root == rep[start] && root < parent.Length && parent[root] == root
  {
    var index: nat := start;
    assert Node(parent[..], rep, rank, bound, index);
    while parent[index] != index
      invariant index < parent.Length && Forest(parent[..], rep, rank, bound)
      invariant rep[index] == rep[start] && rank[index] <= bound
      decreases bound - rank[index]
    {
      HalveKeepsForest(parent[..], rep, rank, bound, index);
      ghost var halved := parent[..][index := parent[..][parent[..][index]]];
      parent[index] := parent[parent[index]];
      assert parent[..] == halved;
      index := parent[index];
    }
    assert Node(parent[..], rep, rank, bound, index);
    root := index;
  }

  /** The roots after the tree of `low` is linked below the root `high`. */
  function Merged(rep: seq<nat>, low: nat, high: nat): (merged: seq<nat>)
    ensures |merged| == |rep|
    ensures forall i :: 0 <= i < |rep| ==> merged[i] == if rep[i] == low then high else rep[i]
  {
    seq(|rep|, i requires 0 <= i < |rep| => if rep[i] == low then high else rep[i])
  }

  lemma {:induction false} LinkKeepsForest(parent: seq<nat>, rep: seq<nat>, rank: seq<nat>, bound: nat, low: nat,
      high: nat)
    returns (raised: seq<nat>, higher: nat)
    requires Forest(parent, rep, rank, bound) && low < |parent| && high < |parent|
    requires low < |rep| && high < |rep| && rep[low] == low && rep[high] == high
    ensures Forest(parent[low := high], Merged(rep, low, high), raised, higher)
  {
    higher := 2 * bound + 1;
    var linked, merged := parent[low := high], Merged(rep, low, high);
    raised := if low == high then rank
              else seq(|rank|, i requires 0 <= i < |rank| => if rep[i] == high then rank[i] + bound + 1 else rank[i]);
    assert Node(parent, rep, rank, bound, low) && Node(parent, rep, rank, bound, high);
    forall i | 0 <= i < |parent| ensures Node(linked, merged, raised, higher, i) {
      assert Node(parent, rep, rank, bound, i);
      assert Node(parent, rep, rank, bound, parent[i]);
    }
  }

  // ----- the forest represents the chains -----

  ghost predicate Represents(keys: seq<seq<Key>>, rep: seq<nat>) {
    |rep| == |keys| && forall i, j {:trigger Connected(keys, i, j)} ::
      0 <= i < |keys| && 0 <= j < |keys| ==> (rep[i] == rep[j] <==> Connected(keys, i, j))
  }

  lemma {:induction false} ConnectedSelf(keys: seq<seq<Key>>, i: nat)
    requires i < |keys|
    ensures Connected(keys, i, i)
  {
    assert Chain(keys, [i]);
  }

  lemma {:induction false} ConnectedShare(keys: seq<seq<Key>>, i: nat, j: nat)
    requires i < |keys| && j < |keys| && Share(keys, i, j)
    ensures Connected(keys, i, j)
  {
    assert [i, j][1..] == [j];
    assert Chain(keys, [j]);
    assert Chain(keys, [i, j]);
  }

  lemma {:induction false} ChainJoin(keys: seq<seq<Key>>, p: seq<nat>, q: seq<nat>)
    requires Chain(keys, p) && Chain(keys, q) && p[|p| - 1] == q[0]
    ensures Chain(keys, p + q[1..])
  {
    if |p| == 1 {
      assert p + q[1..] == q;
    } else {
      ChainJoin(keys, p[1..], q);
      assert (p + q[1..])[1..] == p[1..] + q[1..];
    }
  }

  lemma {:induction false} ConnectedJoin(keys: seq<seq<Key>>, i: nat, j: nat, k: nat)
    requires Connected(keys, i, j) && Connected(keys, j, k)
    ensures Connected(keys, i, k)
  {
    var p :| Chain(keys, p) && p[0] == i && p[|p| - 1] == j;
    var q :| Chain(keys, q) && q[0] == j && q[|q| - 1] == k;
    ChainJoin(keys, p, q);
    var joined := p + q[1..];
    assert joined[0] == i && joined[|joined| - 1] == k;
  }

  lemma {:induction false} ChainGrows(keys: seq<seq<Key>>, more: seq<seq<Key>>, p: seq<nat>)
    requires |more| == |keys| && forall n :: 0 <= n < |keys| ==> keys[n] <= more[n]
    requires Chain(keys, p)
    ensures Chain(more, p)
  {
    if |p| > 1 {
      var k :| k in keys[p[0]] && k in keys[p[1]];
      assert k in more[p[0]] && k in more[p[1]];
      ChainGrows(keys, more, p[1..]);
    }
  }

  /** More keys connect more. */
  lemma {:induction false} ConnectedGrows(keys: seq<seq<Key>>, more: seq<seq<Key>>, i: nat, j: nat)
    requires |more| == |keys| && forall n :: 0 <= n < |keys| ==> keys[n] <= more[n]
    requires Connected(keys, i, j)
    ensures Connected(more, i, j)
  {
    var p :| Chain(keys, p) && p[0] == i && p[|p| - 1] == j;
    ChainGrows(keys, more, p);
  }

  lemma {:induction false} ChainInRange(keys: seq<seq<Key>>, path: seq<nat>)
    requires Chain(keys, path)
    ensures path[|path| - 1] < |keys|
  {
    if |path| > 1 { ChainInRange(keys, path[1..]); }
  }

  /** If sharing a key means sharing a root, so does being connected. */
  lemma {:induction false} ChainFollows(keys: seq<seq<Key>>, rep: seq<nat>, path: seq<nat>)
    requires |rep| == |keys| && Chain(keys, path)
    requires forall i, j :: 0 <= i < |keys| && 0 <= j < |keys| && Share(keys, i, j) ==> rep[i] == rep[j]
    ensures path[|path| - 1] < |keys| && rep[path[0]] == rep[path[|path| - 1]]
  {
    if |path| > 1 {
      ChainFollows(keys, rep, path[1..]);
    }
  }

  /** One more key on one record, one link in the forest. */
  lemma {:induction false} LinkRepresents(keys: seq<seq<Key>>, rep: seq<nat>, index: nat, key: Key, previous: nat)
    requires Represents(keys, rep) && index < |keys| && previous < |keys|
    requires key in keys[previous] || (previous == index && forall i :: 0 <= i < |keys| ==> key !in keys[i])
    ensures Represents(keys[index := keys[index] + [key]], Merged(rep, rep[index], rep[previous]))
  {
    var more := keys[index := keys[index] + [key]];
    var merged := Merged(rep, rep[index], rep[previous]);
    forall i, j | 0 <= i < |keys| && 0 <= j < |keys| && Share(more, i, j) ensures merged[i] == merged[j] {
      ShareMerges(keys, rep, index, key, previous, i, j);
    }
    forall i, j | 0 <= i < |keys| && 0 <= j < |keys| ensures merged[i] == merged[j] <==> Connected(more, i, j) {
      if Connected(more, i, j) {
        var p :| Chain(more, p) && p[0] == i && p[|p| - 1] == j;
        ChainFollows(more, merged, p);
      }
      if merged[i] == merged[j] {
        MergedConnects(keys, rep, index, key, previous, i, j);
      }
    }
  }

  lemma {:induction false} ShareMerges(keys: seq<seq<Key>>, rep: seq<nat>, index: nat, key: Key, previous: nat, i: nat,
      j: nat)
    requires Represents(keys, rep) && index < |keys| && previous < |keys| && i < |keys| && j < |keys|
    requires key in keys[previous] || (previous == index && forall n :: 0 <= n < |keys| ==> key !in keys[n])
    requires Share(keys[index := keys[index] + [key]], i, j)
    ensures Merged(rep, rep[index], rep[previous])[i] == Merged(rep, rep[index], rep[previous])[j]
  {
    var more := keys[index := keys[index] + [key]];
    var k :| k in more[i] && k in more[j];
    if k in keys[i] && k in keys[j] {
      ConnectedShare(keys, i, j);
    } else {
      assert k == key;
      if k in keys[i] { ConnectedShare(keys, i, previous); }
      if k in keys[j] { ConnectedShare(keys, j, previous); }
    }
  }

  lemma {:induction false} MergedConnects(keys: seq<seq<Key>>, rep: seq<nat>, index: nat, key: Key, previous: nat,
      i: nat, j: nat)
    requires Represents(keys, rep) && index < |keys| && previous < |keys| && i < |keys| && j < |keys|
    requires key in keys[previous] || previous == index
    requires Merged(rep, rep[index], rep[previous])[i] == Merged(rep, rep[index], rep[previous])[j]
    ensures Connected(keys[index := keys[index] + [key]], i, j)
  {
    var more := keys[index := keys[index] + [key]];
    assert key in more[index] && (previous != index ==> key in more[previous]);
    assert Share(more, index, previous) && Share(more, previous, index);
    ConnectedShare(more, index, previous);
    ConnectedShare(more, previous, index);
    if rep[i] == rep[j] {
      ConnectedGrows(keys, more, i, j);
    } else if rep[i] == rep[index] {
      ConnectedGrows(keys, more, i, index);
      ConnectedGrows(keys, more, previous, j);
      ConnectedJoin(more, i, index, previous);
      ConnectedJoin(more, i, previous, j);
    } else {
      ConnectedGrows(keys, more, i, previous);
      ConnectedGrows(keys, more, index, j);
      ConnectedJoin(more, i, previous, index);
      ConnectedJoin(more, i, index, j);
    }
  }

  // ----- linking every record's keys -----

  /** The keys visited before token `t` of record `index`. */
  function Seen(keys: seq<seq<Key>>, index: nat, t: nat): (seen: seq<seq<Key>>)
    requires index < |keys| ==> t <= |keys[index]|
    ensures |seen| == |keys|
    ensures forall i :: 0 <= i < |keys| ==>
      seen[i] == if i < index then keys[i] else if i == index then keys[i][..t] else []
  {
    seq(|keys|, i requires 0 <= i < |keys| => if i < index then keys[i] else if i == index then keys[i][..t] else [])
  }

  ghost predicate Owned(owners: map<Key, nat>, seen: seq<seq<Key>>) {
    && (forall k :: k in owners ==> owners[k] < |seen| && k in seen[owners[k]])
    && (forall i, k :: 0 <= i < |seen| && k in seen[i] ==> k in owners)
  }

  lemma {:induction false} NothingSeen(keys: seq<seq<Key>>, rep: seq<nat>)
    requires |rep| == |keys| && forall i :: 0 <= i < |rep| ==> rep[i] == i
    requires keys != [] ==> 0 <= |keys[0]|
    ensures Represents(Seen(keys, 0, 0), rep)
  {
    var seen := Seen(keys, 0, 0);
    forall i, j | 0 <= i < |keys| && 0 <= j < |keys| ensures rep[i] == rep[j] <==> Connected(seen, i, j) {
      if Connected(seen, i, j) {
        var p :| Chain(seen, p) && p[0] == i && p[|p| - 1] == j;
        ChainFollows(seen, rep, p);
      }
      ConnectedSelf(seen, i);
    }
  }

  /** `parent[_root(parent, index)] = _root(parent, previous)` */
  method Unite(parent: array<nat>, index: nat, previous: nat, ghost rep: seq<nat>, ghost rank: seq<nat>,
      ghost bound: nat)
    returns (ghost raised: seq<nat>, ghost higher: nat)
    requires index < parent.Length && previous < parent.Length && Forest(parent[..], rep, rank, bound)
    modifies parent
    ensures Forest(parent[..], Merged(rep, rep[index], rep[previous]), raised, higher)
  {
    var high := Root(parent, previous, rep, rank, bound);
    var low := Root(parent, index, rep, rank, bound);
    ghost var before := parent[..];
    assert Node(before, rep, rank, bound, index) && Node(before, rep, rank, bound, previous);
    raised, higher := LinkKeepsForest(before, rep, rank, bound, low, high);
    parent[low] := high;
    assert parent[..] == before[low := high];
  }

  /** `owners.setdefault(key, index)` */
  lemma {:induction false} OwnOneMore(keys: seq<seq<Key>>, index: nat, t: nat, owners: map<Key, nat>)
    requires index < |keys| && t < |keys[index]| && Owned(owners, Seen(keys, index, t))
    ensures var seen, key := Seen(keys, index, t), keys[index][t];
            && Seen(keys, index, t + 1) == seen[index := seen[index] + [key]]
            && Owned(if key in owners then owners else owners[key := index], Seen(keys, index, t + 1))
            && (key in owners ==> owners[key] < |keys| && key in seen[owners[key]])
            && (key !in owners ==> forall i :: 0 <= i < |keys| ==> key !in seen[i])
  {
    var seen, key := Seen(keys, index, t), keys[index][t];
    assert keys[index][..t + 1] == keys[index][..t] + [key];
    var more := seen[index := seen[index] + [key]];
    forall k | k in owners ensures owners[k] < |more| && k in more[owners[k]] {
      assert k in seen[owners[k]];
    }
    assert key in more[index];
  }

  lemma {:induction false} SeenNext(keys: seq<seq<Key>>, index: nat)
    requires index < |keys|
    ensures Seen(keys, index, |keys[index]|) == Seen(keys, index + 1, 0)
  {
    var a, b := Seen(keys, index, |keys[index]|), Seen(keys, index + 1, 0);
    assert keys[index][..|keys[index]|] == keys[index];
    forall i | 0 <= i < |keys| ensures a[i] == b[i] {}
  }

  /** Link every key of one record. */
  method LinkRecord(parent: array<nat>, keys: seq<seq<Key>>, index: nat, known: map<Key, nat>, ghost rep: seq<nat>,
      ghost rank: seq<nat>, ghost bound: nat)
    returns (owners: map<Key, nat>, ghost merged: seq<nat>, ghost raised: seq<nat>, ghost higher: nat)
    requires index < |keys| == parent.Length && Forest(parent[..], rep, rank, bound)
    requires Represents(Seen(keys, index, 0), rep) && Owned(known, Seen(keys, index, 0))
    modifies parent
    ensures Forest(parent[..], merged, raised, higher)
    ensures Represents(Seen(keys, index + 1, 0), merged) && Owned(owners, Seen(keys, index + 1, 0))
  {
    owners, merged, raised, higher := known, rep, rank, bound;
    for t := 0 to |keys[index]|
      invariant Forest(parent[..], merged, raised, higher)
      invariant Represents(Seen(keys, index, t), merged)
      invariant Owned(owners, Seen(keys, index, t))
    {
      var key := keys[index][t];
      OwnOneMore(keys, index, t, owners);
      if key !in owners { owners := owners[key := index]; }
      var previous := owners[key];
      LinkRepresents(Seen(keys, index, t), merged, index, key, previous);
      raised, higher := Unite(parent, index, previous, merged, raised, higher);
      merged := Merged(merged, merged[index], merged[previous]);
    }
    SeenNext(keys, index);
  }

  /** The linking loops of `_groups`. */
  method Link(keys: seq<seq<Key>>)
      returns (parent: array<nat>, ghost rep: seq<nat>, ghost rank: seq<nat>, ghost bound: nat)
    ensures fresh(parent) && parent.Length == |keys|
    ensures Forest(parent[..], rep, rank, bound) && Represents(keys, rep)
  {
    parent := new nat[|keys|](i => i);
    rep, rank, bound := parent[..], seq(|keys|, i => 0), 0;
    var owners: map<Key, nat> := map[];
    NothingSeen(keys, rep);
    for index := 0 to |keys|
      invariant Forest(parent[..], rep, rank, bound)
      invariant Represents(Seen(keys, index, 0), rep)
      invariant Owned(owners, Seen(keys, index, 0))
    {
      owners, rep, rank, bound := LinkRecord(parent, keys, index, owners, rep, rank, bound);
    }
    assert Seen(keys, |keys|, 0) == keys;
  }

  // ----- the groups -----

  ghost predicate Follower(keys: seq<seq<Key>>, i: nat) {
    exists j :: 0 <= j < i && Connected(keys, j, i)
  }

  /** The first record of each group, in order. */
  ghost function Leaders(keys: seq<seq<Key>>, n: nat): seq<nat>
    requires n <= |keys|
  {
    if n == 0 then []
    else Leaders(keys, n - 1)
         + if Follower(keys, n - 1) then [] else [n - 1]
  }

  /** The records connected to `leader`, in order. */
  ghost function Members(keys: seq<seq<Key>>, leader: nat, n: nat): seq<nat>
    requires n <= |keys|
  {
    if n == 0 then []
    else Members(keys, leader, n - 1) + if Connected(keys, leader, n - 1) then [n - 1] else []
  }

  /** Groups in the order of their first records. */
  ghost function Groups(keys: seq<seq<Key>>): seq<seq<nat>> {
    var leaders := Leaders(keys, |keys|);
    seq(|leaders|, g requires 0 <= g < |leaders| => Members(keys, leaders[g], |keys|))
  }

  lemma {:induction false} MembersExact(keys: seq<seq<Key>>, leader: nat, n: nat, i: nat)
    requires n <= |keys|
    ensures i in Members(keys, leader, n) <==> i < n && Connected(keys, leader, i)
  {
    if n > 0 { MembersExact(keys, leader, n - 1, i); }
  }

  lemma {:induction false} LeadersExact(keys: seq<seq<Key>>, n: nat, i: nat)
    requires n <= |keys|
    ensures i in Leaders(keys, n) <==> i < n && !Follower(keys, i)
  {
    if n > 0 { LeadersExact(keys, n - 1, i); }
  }

  lemma {:induction false} ShareSymmetric(keys: seq<seq<Key>>, i: nat, j: nat)
    requires i < |keys| && j < |keys| && Share(keys, i, j)
    ensures Share(keys, j, i)
  {
  }

  lemma {:induction false} ChainBack(keys: seq<seq<Key>>, path: seq<nat>)
    requires Chain(keys, path)
    ensures path[|path| - 1] < |keys| && Connected(keys, path[|path| - 1], path[0])
  {
    ChainInRange(keys, path);
    if |path| == 1 {
      ConnectedSelf(keys, path[0]);
    } else {
      ChainBack(keys, path[1..]);
      ShareSymmetric(keys, path[0], path[1]);
      ConnectedShare(keys, path[1], path[0]);
      ConnectedJoin(keys, path[|path| - 1], path[1], path[0]);
    }
  }

  lemma {:induction false} ConnectedSymmetric(keys: seq<seq<Key>>, i: nat, j: nat)
    requires Connected(keys, i, j)
    ensures Connected(keys, j, i)
  {
    var p :| Chain(keys, p) && p[0] == i && p[|p| - 1] == j;
    ChainBack(keys, p);
  }

  /** Every record has a leader at or before it. */
  lemma {:induction false} HasLeader(keys: seq<seq<Key>>, i: nat)
    returns (leader: nat)
    requires i < |keys|
    ensures leader in Leaders(keys, |keys|) && Connected(keys, leader, i)
    decreases i
  {
    if Follower(keys, i) {
      var j :| 0 <= j < i && Connected(keys, j, i);
      leader := HasLeader(keys, j);
      ConnectedJoin(keys, leader, j, i);
    } else {
      leader := i;
      ConnectedSelf(keys, i);
      LeadersExact(keys, |keys|, i);
    }
  }

  /** Two records share a group exactly when a chain of shared keys joins them,
      and every record is in some group. */
  lemma {:induction false} GroupsExact(keys: seq<seq<Key>>, i: nat, j: nat)
    requires i < |keys| && j < |keys|
    ensures Connected(keys, i, j) <==>
        exists g :: 0 <= g < |Groups(keys)| && i in Groups(keys)[g] && j in Groups(keys)[g]
  {
    var leaders := Leaders(keys, |keys|);
    if Connected(keys, i, j) {
      var leader := HasLeader(keys, i);
      var g :| 0 <= g < |leaders| && leaders[g] == leader;
      ConnectedJoin(keys, leader, i, j);
      MembersExact(keys, leader, |keys|, i);
      MembersExact(keys, leader, |keys|, j);
      assert i in Groups(keys)[g] && j in Groups(keys)[g];
    }
    if g :| 0 <= g < |Groups(keys)| && i in Groups(keys)[g] && j in Groups(keys)[g] {
      MembersExact(keys, leaders[g], |keys|, i);
      MembersExact(keys, leaders[g], |keys|, j);
      ConnectedSymmetric(keys, leaders[g], i);
      ConnectedJoin(keys, i, leaders[g], j);
    }
  }

  lemma {:induction false} LeadersGrow(keys: seq<seq<Key>>, n: nat)
    requires n <= |keys|
    ensures forall g, h :: 0 <= g < h < |Leaders(keys, n)| ==> Leaders(keys, n)[g] < Leaders(keys, n)[h]
    ensures forall g :: 0 <= g < |Leaders(keys, n)| ==> Leaders(keys, n)[g] < n
  {
    if n > 0 { LeadersGrow(keys, n - 1); }
  }

  /** No record is in two groups. */
  lemma {:induction false} GroupsDisjoint(keys: seq<seq<Key>>, g: nat, h: nat, i: nat)
    requires g < |Groups(keys)| && h < |Groups(keys)| && i in Groups(keys)[g] && i in Groups(keys)[h]
    ensures g == h
  {
    var leaders := Leaders(keys, |keys|);
    LeadersGrow(keys, |keys|);
    MembersExact(keys, leaders[g], |keys|, i);
    MembersExact(keys, leaders[h], |keys|, i);
    ConnectedSymmetric(keys, leaders[g], i);
    ConnectedSymmetric(keys, leaders[h], i);
    ConnectedJoin(keys, leaders[g], i, leaders[h]);
    ConnectedJoin(keys, leaders[h], i, leaders[g]);
    LeadersExact(keys, |keys|, leaders[g]);
    LeadersExact(keys, |keys|, leaders[h]);
    assert leaders[g] == leaders[h];
  }

  /** A group starts with its leader, so it is never empty. */
  lemma {:induction false} GroupsInhabited(keys: seq<seq<Key>>, g: nat)
    requires g < |Groups(keys)|
    ensures Groups(keys)[g] != [] && forall i :: i in Groups(keys)[g] ==> i < |keys|
  {
    var leaders := Leaders(keys, |keys|);
    LeadersGrow(keys, |keys|);
    ConnectedSelf(keys, leaders[g]);
    MembersExact(keys, leaders[g], |keys|, leaders[g]);
    forall i | i in Groups(keys)[g] ensures i < |keys| { MembersExact(keys, leaders[g], |keys|, i); }
  }

  /** Records in one group carry one revision, when every record's keys do. */
  lemma {:induction false} GroupsHaveOneRevision(keys: seq<seq<Key>>, revisions: seq<Option<string>>, g: nat, i: nat,
      j: nat)
    requires |revisions| == |keys|
    requires forall n, k :: 0 <= n < |keys| && k in keys[n] ==> k.0 == revisions[n]
    requires g < |Groups(keys)| && i in Groups(keys)[g] && j in Groups(keys)[g]
    ensures i < |keys| && j < |keys| && revisions[i] == revisions[j]
  {
    GroupsInhabited(keys, g);
    GroupsExact(keys, i, j);
    var p :| Chain(keys, p) && p[0] == i && p[|p| - 1] == j;
    ChainKeepsRevision(keys, revisions, p);
  }

  lemma {:induction false} ChainKeepsRevision(keys: seq<seq<Key>>, revisions: seq<Option<string>>, path: seq<nat>)
    requires |revisions| == |keys| && Chain(keys, path)
    requires forall n, k :: 0 <= n < |keys| && k in keys[n] ==> k.0 == revisions[n]
    ensures path[|path| - 1] < |keys| && revisions[path[0]] == revisions[path[|path| - 1]]
  {
    if |path| > 1 {
      var k: Key :| k in keys[path[0]] && k in keys[path[1]];
      assert k.0 == revisions[path[0]] && k.0 == revisions[path[1]];
      ChainKeepsRevision(keys, revisions, path[1..]);
    }
  }

  // The same groups read off the roots.

  predicate Later(rep: seq<nat>, i: nat)
    requires i < |rep|
  {
    exists j :: 0 <= j < i && rep[j] == rep[i]
  }

  function FirstOf(rep: seq<nat>, n: nat): seq<nat>
    requires n <= |rep|
  {
    if n == 0 then [] else FirstOf(rep, n - 1) + if Later(rep, n - 1) then [] else [n - 1]
  }

  function Under(rep: seq<nat>, root: nat, n: nat): seq<nat>
    requires n <= |rep|
  {
    if n == 0 then [] else Under(rep, root, n - 1) + if rep[n - 1] == root then [n - 1] else []
  }

  lemma {:induction false} FirstAreLeaders(keys: seq<seq<Key>>, rep: seq<nat>, n: nat)
    requires Represents(keys, rep) && n <= |keys|
    ensures FirstOf(rep, n) == Leaders(keys, n)
  {
    if n > 0 {
      FirstAreLeaders(keys, rep, n - 1);
      if Later(rep, n - 1) {
        var j :| 0 <= j < n - 1 && rep[j] == rep[n - 1];
        assert Connected(keys, j, n - 1);
      }
    }
  }

  lemma {:induction false} UnderAreMembers(keys: seq<seq<Key>>, rep: seq<nat>, leader: nat, n: nat)
    requires Represents(keys, rep) && n <= |keys| && leader < |keys|
    ensures Under(rep, rep[leader], n) == Members(keys, leader, n)
  {
    if n > 0 {
      UnderAreMembers(keys, rep, leader, n - 1);
      assert Connected(keys, leader, n - 1) <==> rep[leader] == rep[n - 1];
    }
  }

  lemma {:induction false} FirstInRange(rep: seq<nat>, n: nat)
    requires n <= |rep|
    ensures forall g :: 0 <= g < |FirstOf(rep, n)| ==> FirstOf(rep, n)[g] < n
  {
    if n > 0 { FirstInRange(rep, n - 1); }
  }

  /** The grouping loop of `_groups`: a dictionary from roots to record lists. */
  method Collect(keys: seq<seq<Key>>) returns (groups: seq<seq<nat>>)
    ensures groups == Groups(keys)
  {
    var parent, rep, rank, bound := Link(keys);
    var order: seq<nat> := [];
    var grouped: map<nat, seq<nat>> := map[];
    for index := 0 to |keys|
      invariant Forest(parent[..], rep, rank, bound) && |rep| == |keys|
      invariant Gathered(rep, index, order, grouped)
    {
      var root := Root(parent, index, rep, rank, bound);
      GatherStep(rep, index, order, grouped);
      if root !in grouped {
        order := order + [root];
        grouped := grouped[root := [index]];
      } else {
        grouped := grouped[root := grouped[root] + [index]];
      }
    }
    RootsMet(rep, |keys|);
    groups := seq(|order|, g requires 0 <= g < |order| && order[g] in grouped => grouped[order[g]]);
    FirstAreLeaders(keys, rep, |keys|);
    FirstInRange(rep, |keys|);
    forall g | 0 <= g < |order| ensures groups[g] == Groups(keys)[g] {
      assert order[g] in Roots(rep, |rep|);
      UnderAreMembers(keys, rep, FirstOf(rep, |rep|)[g], |keys|);
    }
  }

  function Roots(rep: seq<nat>, n: nat): set<nat>
    requires n <= |rep|
  {
    set i | 0 <= i < n :: rep[i]
  }

  /** The roots in the order in which the dictionary meets them. */
  function RootOrder(rep: seq<nat>, n: nat): (order: seq<nat>)
    requires n <= |rep|
    ensures |order| == |FirstOf(rep, n)|
  {
    FirstInRange(rep, n);
    seq(|FirstOf(rep, n)|, g requires 0 <= g < |FirstOf(rep, n)|
        && FirstOf(rep, n)[g] < |rep| => rep[FirstOf(rep, n)[g]])
  }

  lemma {:induction false} RootsMet(rep: seq<nat>, n: nat)
    requires n <= |rep|
    ensures forall g :: 0 <= g < |RootOrder(rep, n)| ==> RootOrder(rep, n)[g] in Roots(rep, n)
  {
    FirstInRange(rep, n);
  }

  /** The dictionary after the first `n` records. */
  ghost predicate Gathered(rep: seq<nat>, n: nat, order: seq<nat>, grouped: map<nat, seq<nat>>) {
    && n <= |rep| && order == RootOrder(rep, n)
    && grouped.Keys == Roots(rep, n)
    && (forall r :: r in grouped ==> grouped[r] == Under(rep, r, n))
  }

  lemma {:induction false} UnderNew(rep: seq<nat>, root: nat, n: nat)
    requires n <= |rep| && root !in Roots(rep, n)
    ensures Under(rep, root, n) == []
  {
    if n > 0 {
      assert rep[n - 1] in Roots(rep, n);
      assert Roots(rep, n - 1) <= Roots(rep, n);
      UnderNew(rep, root, n - 1);
    }
  }

  lemma {:induction false} RootOrderNext(rep: seq<nat>, n: nat)
    requires n < |rep|
    ensures RootOrder(rep, n + 1) == RootOrder(rep, n) + if rep[n] in Roots(rep, n) then [] else [rep[n]]
    ensures Roots(rep, n + 1) == Roots(rep, n) + {rep[n]}
  {
    assert Later(rep, n) <==> rep[n] in Roots(rep, n);
    FirstInRange(rep, n);
    FirstInRange(rep, n + 1);
  }

  lemma {:induction false} GatherStep(rep: seq<nat>, n: nat, order: seq<nat>, grouped: map<nat, seq<nat>>)
    requires n < |rep| && Gathered(rep, n, order, grouped)
    ensures if rep[n] in grouped
            then Gathered(rep, n + 1, order, grouped[rep[n] := grouped[rep[n]] + [n]])
            else Gathered(rep, n + 1, order + [rep[n]], grouped[rep[n] := [n]])
  {
    if rep[n] !in grouped { UnderNew(rep, rep[n], n); }
    RootOrderNext(rep, n);
  }
}
