/** The walk over the locked dependency graph: packages with the extras asked of
    them, from a root, through requirements whose markers hold. */
module LockGraph {
  import opened Common

  /** Names and extras are canonical. Two requirements are one when they agree in
      name, extras, specifier, marker and address. */
  datatype Requirement = Requirement(name: string, extras: set<string>, marker: Option<string>, rest: string)

  datatype Distribution = Distribution(version: string, needs: seq<Requirement>)

  /** What is installed and agrees with the lock; what a marker says under an
      extra; and whether the lock record of a package carries a requirement that
      is active under the contexts processed together. */
  datatype World = World(
    packages: map<string, Distribution>,
    holds: (string, string) -> bool,
    locked: (string, Requirement, set<string>) -> bool)

  /** A package in the context of one of its extras; "" stands for no extra. */
  type Pair = (string, string)

  predicate ActiveIn(w: World, r: Requirement, context: string) {
    r.marker.None? || w.holds(r.marker.value, context)
  }

  /** `_active`, under no extra or any of the given ones. */
  predicate Active(w: World, r: Requirement, contexts: set<string>) {
    exists c :: c in contexts + {""} && ActiveIn(w, r, c)
  }

  // ----- the least closed set -----

  predicate Asks(r: Requirement, pair: Pair) {
    pair.0 == r.name && (pair.1 == "" || pair.1 in r.extras)
  }

  /** Every requirement that is active for a pair asks only for pairs of the set. */
  predicate Steps(w: World, pairs: set<Pair>, pair: Pair) {
    pair.0 in w.packages ==>
      forall r {:trigger r in w.packages[pair.0].needs} ::
        r in w.packages[pair.0].needs && (r.marker.Some? ==> w.holds(r.marker.value, pair.1)) ==>
        (r.name, "") in pairs && forall e :: e in r.extras ==> (r.name, e) in pairs
  }

  /** Holds the root, and with a pair everything its active requirements ask for. */
  ghost predicate Closed(w: World, root: string, pairs: set<Pair>) {
    (root, "") in pairs && forall p {:trigger Steps(w, pairs, p)} :: p in pairs ==> Steps(w, pairs, p)
  }

  /** In every closed set. */
  ghost predicate Needed(w: World, root: string, pair: Pair) {
    forall pairs {:trigger Closed(w, root, pairs)} :: Closed(w, root, pairs) ==> pair in pairs
  }

  ghost predicate Least(w: World, root: string, pairs: set<Pair>) {
    Closed(w, root, pairs) && forall p {:trigger Needed(w, root, p)} :: p in pairs ==> Needed(w, root, p)
  }

  /** There is at most one least closed set. */
  lemma {:induction false} LeastUnique(w: World, root: string, a: set<Pair>, b: set<Pair>)
    requires Least(w, root, a) && Least(w, root, b)
    ensures a == b
  {
    forall p | p in a ensures p in b { assert Needed(w, root, p); }
    forall p | p in b ensures p in a { assert Needed(w, root, p); }
  }

  lemma {:induction false} NeededStep(w: World, root: string, pair: Pair, r: Requirement, asked: Pair)
    requires Needed(w, root, pair) && pair.0 in w.packages && r in w.packages[pair.0].needs
    requires ActiveIn(w, r, pair.1) && Asks(r, asked)
    ensures Needed(w, root, asked)
  {
    forall pairs | Closed(w, root, pairs) ensures asked in pairs {
      assert pair in pairs && Steps(w, pairs, pair);
    }
  }

  // ----- the finite universe of pairs -----

  function Extras(w: World): set<string> {
    set p, r, e | p in w.packages && r in w.packages[p].needs && e in r.extras :: e
  }

  function Universe(w: World): set<Pair> {
    set p, c | p in w.packages && c in Extras(w) + {""} :: (p, c)
  }

  // ----- the walk -----

  /** `_requirements_for_contexts` */
  method RequirementsFor(w: World, needs: seq<Requirement>, contexts: set<string>) returns (active: seq<Requirement>)
    ensures forall r :: r in active <==> r in needs && Active(w, r, contexts)
    ensures forall i, j :: 0 <= i < j < |active| ==> active[i] != active[j]
  {
    active := [];
    for n := 0 to |needs|
      invariant forall r :: r in active <==> r in needs[..n] && Active(w, r, contexts)
      invariant forall i, j :: 0 <= i < j < |active| ==> active[i] != active[j]
    {
      if Active(w, needs[n], contexts) && needs[n] !in active { active := active + [needs[n]]; }
    }
  }

  type Request = (string, set<string>)

  predicate Requests(request: Request, pair: Pair) {
    pair.0 == request.0 && (pair.1 == "" || pair.1 in request.1)
  }

  ghost predicate Queued(pending: seq<Request>, pair: Pair) {
    exists i :: 0 <= i < |pending| && Requests(pending[i], pair)
  }

  /** What the walk keeps: all it has processed or queued is needed, and all that
      processed pairs ask for is processed or queued. */
  ghost predicate Sound(w: World, root: string, done: set<Pair>, pending: seq<Request>) {
    && (forall p {:trigger Needed(w, root, p)} :: p in done || Queued(pending, p) ==> Needed(w, root, p))
    && (forall i {:trigger pending[i]} :: 0 <= i < |pending| ==> pending[i].1 <= Extras(w))
    && done <= Universe(w)
  }

  ghost predicate Followed(w: World, done: set<Pair>, pending: seq<Request>, pair: Pair, r: Requirement) {
    forall asked {:trigger Asks(r, asked)} :: Asks(r, asked) ==> asked in done || Queued(pending, asked)
  }

  ghost predicate Complete(w: World, root: string, done: set<Pair>, pending: seq<Request>) {
    && ((root, "") in done || Queued(pending, (root, "")))
    && (forall p, r {:trigger Followed(w, done, pending, p, r)} ::
          p in done && p.0 in w.packages && r in w.packages[p.0].needs && ActiveIn(w, r, p.1)
          ==> Followed(w, done, pending, p, r))
  }

  lemma {:induction false} ClosedAtEnd(w: World, root: string, done: set<Pair>)
    requires Sound(w, root, done, []) && Complete(w, root, done, [])
    ensures Least(w, root, done)
  {
    assert forall p :: !Queued([], p);
    forall p | p in done ensures Steps(w, done, p) {
      forall r | p.0 in w.packages && r in w.packages[p.0].needs && ActiveIn(w, r, p.1)
        ensures (r.name, "") in done && forall e :: e in r.extras ==> (r.name, e) in done
      {
        assert Followed(w, done, [], p, r);
        assert Asks(r, (r.name, ""));
        forall e | e in r.extras ensures (r.name, e) in done { assert Asks(r, (r.name, e)); }
      }
    }
  }

  lemma {:induction false} QueuedFirst(pending: seq<Request>, pair: Pair)
    requires pending != []
    ensures Queued(pending, pair) <==> Requests(pending[0], pair) || Queued(pending[1..], pair)
  {
    if Queued(pending, pair) {
      var i :| 0 <= i < |pending| && Requests(pending[i], pair);
      if i > 0 { assert Requests(pending[1..][i - 1], pair); }
    }
    if Queued(pending[1..], pair) {
      var i :| 0 <= i < |pending[1..]| && Requests(pending[1..][i], pair);
      assert Requests(pending[i + 1], pair);
    }
  }

  lemma {:induction false} QueuedSum(a: seq<Request>, b: seq<Request>, pair: Pair)
    ensures Queued(a + b, pair) <==> Queued(a, pair) || Queued(b, pair)
  {
    if Queued(a, pair) {
      var i :| 0 <= i < |a| && Requests(a[i], pair);
      assert Requests((a + b)[i], pair);
    }
    if Queued(b, pair) {
      var i :| 0 <= i < |b| && Requests(b[i], pair);
      assert Requests((a + b)[|a| + i], pair);
    }
  }

  /** The pairs of `name` under the given contexts. */
  function Under(name: string, contexts: set<string>): set<Pair> {
    set c | c in contexts :: (name, c)
  }

  /** The requests made for the active requirements of a package. */
  ghost predicate Children(children: seq<Request>, active: seq<Requirement>) {
    |children| == |active| && forall i :: 0 <= i < |active| ==> children[i] == (active[i].name, active[i].extras)
  }

  lemma {:induction false} ChildQueued(children: seq<Request>, active: seq<Requirement>, r: Requirement, asked: Pair)
    requires Children(children, active) && r in active && Asks(r, asked)
    ensures Queued(children, asked)
  {
    var i :| 0 <= i < |active| && active[i] == r;
    assert Requests(children[i], asked);
  }

  /** One request served: `contexts` of its package are processed now. */
  ghost predicate Served(w: World, done: set<Pair>, pending: seq<Request>, contexts: set<string>,
      active: seq<Requirement>, children: seq<Request>)
  {
    && pending != [] && pending[0].0 in w.packages && Children(children, active)
    && (forall c :: c in contexts ==> c == "" || c in pending[0].1)
    && (forall p :: Requests(pending[0], p) ==> p in done + Under(pending[0].0, contexts))
    && (forall r :: r in active <==> r in w.packages[pending[0].0].needs && contexts != {} && Active(w, r, contexts))
  }

  lemma {:induction false} ChildNeeded(w: World, root: string, done: set<Pair>, pending: seq<Request>,
      contexts: set<string>, active: seq<Requirement>, children: seq<Request>, pair: Pair)
    requires Sound(w, root, done, pending) && Served(w, done, pending, contexts, active, children)
    requires Queued(children, pair)
    ensures Needed(w, root, pair)
  {
    var i :| 0 <= i < |children| && Requests(children[i], pair);
    var r := active[i];
    assert r in active && Asks(r, pair);
    var c :| c in contexts + {""} && ActiveIn(w, r, c);
    var parent := (pending[0].0, c);
    assert Requests(pending[0], parent) && Queued(pending, parent);
    NeededStep(w, root, parent, r, pair);
  }

  lemma {:induction false} ServeKeepsSound(w: World, root: string, done: set<Pair>, pending: seq<Request>,
      contexts: set<string>, active: seq<Requirement>, children: seq<Request>)
    requires Sound(w, root, done, pending) && Served(w, done, pending, contexts, active, children)
    ensures Sound(w, root, done + Under(pending[0].0, contexts), pending[1..] + children)
  {
    var name := pending[0].0;
    var more, next := done + Under(name, contexts), pending[1..] + children;
    forall p | p in more || Queued(next, p) ensures Needed(w, root, p) {
      QueuedFirst(pending, p);
      QueuedSum(pending[1..], children, p);
      if Queued(children, p) { ChildNeeded(w, root, done, pending, contexts, active, children, p); }
    }
    forall i | 0 <= i < |next| ensures next[i].1 <= Extras(w) {
      if i < |pending| - 1 {
        assert next[i] == pending[i + 1];
      } else {
        var r := active[i - (|pending| - 1)];
        assert r in active && r in w.packages[name].needs && next[i].1 == r.extras;
      }
    }
    assert more <= Universe(w);
  }

  lemma {:induction false} ServeKeepsComplete(w: World, root: string, done: set<Pair>, pending: seq<Request>,
      contexts: set<string>, active: seq<Requirement>, children: seq<Request>)
    requires Complete(w, root, done, pending) && Served(w, done, pending, contexts, active, children)
    ensures Complete(w, root, done + Under(pending[0].0, contexts), pending[1..] + children)
  {
    var name := pending[0].0;
    var more, next := done + Under(name, contexts), pending[1..] + children;
    forall p ensures p in done || Queued(pending, p) ==> p in more || Queued(next, p) {
      QueuedFirst(pending, p);
      QueuedSum(pending[1..], children, p);
    }
    forall p, r | p in more && p.0 in w.packages && r in w.packages[p.0].needs && ActiveIn(w, r, p.1)
      ensures Followed(w, more, next, p, r)
    {
      forall asked | Asks(r, asked) ensures asked in more || Queued(next, asked) {
        if p in done {
          assert Followed(w, done, pending, p, r);
        } else {
          assert Active(w, r, contexts) && r in active;
          ChildQueued(children, active, r, asked);
          QueuedSum(pending[1..], children, asked);
        }
      }
    }
  }

  /** The bookkeeping of the walk agrees with the pairs it has processed: a
      package is in the graph once it was processed under no extra, and the extras
      asked of it are those processed. */
  ghost predicate Kept(w: World, done: set<Pair>, requested: map<string, set<string>>,
      processed: map<string, set<string>>, graph: map<string, string>)
  {
    && (forall n {:trigger n in graph} :: n in graph ==> n in w.packages && graph[n] == w.packages[n].version)
    && (forall n {:trigger n in graph} :: n in graph <==> (n, "") in done)
    && (forall n, c {:trigger (n, c) in done} :: (n, c) in done <==> n in processed && c in processed[n])
    && (forall n {:trigger n in graph} :: n in graph ==>
        n in requested && n in processed && processed[n] == requested[n] + {""})
    && (forall n :: n in processed ==> n in graph)
    && (forall n :: n in requested ==> n in graph)
  }

  /** The walk refused for a reason: a needed package is not installed as locked,
      or a requirement that needed contexts make active is not in the lock. */
  ghost predicate Broken(w: World, root: string) {
    || (exists p: Pair {:trigger Needed(w, root, p)} :: Needed(w, root, p) && p.0 !in w.packages)
    || (exists n: string, r: Requirement, contexts: set<string> {:trigger w.locked(n, r, contexts)} ::
          && contexts != {} && Needed(w, root, (n, "")) && (forall c :: c in contexts ==> Needed(w, root, (n, c)))
          && n in w.packages && r in w.packages[n].needs
          && Active(w, r, contexts) && !w.locked(n, r, contexts))
  }

  lemma {:induction false} WalkStarts(w: World, root: string)
    ensures Sound(w, root, {}, [(root, {})]) && Complete(w, root, {}, [(root, {})])
  {
    var pending: seq<Request> := [(root, {})];
    forall p | Queued(pending, p) ensures Needed(w, root, p) {
      assert p == (root, "");
    }
    assert Requests(pending[0], (root, ""));
  }

  /** A request for nothing new. */
  lemma {:induction false} SkipKeeps(w: World, root: string, done: set<Pair>, pending: seq<Request>)
    requires Sound(w, root, done, pending) && Complete(w, root, done, pending)
    requires pending != [] && pending[0].0 in w.packages && forall p :: Requests(pending[0], p) ==> p in done
    ensures Sound(w, root, done, pending[1..]) && Complete(w, root, done, pending[1..])
  {
    assert Under(pending[0].0, {}) == {} && done + {} == done;
    ServeKeepsSound(w, root, done, pending, {}, [], []);
    ServeKeepsComplete(w, root, done, pending, {}, [], []);
    assert pending[1..] + [] == pending[1..];
  }

  /** All that a known package is asked for was asked before. */
  lemma {:induction false} NothingNew(w: World, done: set<Pair>, requested: map<string, set<string>>,
      processed: map<string, set<string>>, graph: map<string, string>, request: Request, pair: Pair)
    requires Kept(w, done, requested, processed, graph) && request.0 in graph
    requires request.1 - requested[request.0] <= {""} && Requests(request, pair)
    ensures pair in done
  {
    assert pair == (pair.0, pair.1);
    assert (pair.0, pair.1) in done <==> pair.0 in processed && pair.1 in processed[pair.0];
  }

  /** The bookkeeping after the contexts of a request are processed. */
  lemma {:induction false} KeptAfter(w: World, done: set<Pair>, requested: map<string, set<string>>,
      processed: map<string, set<string>>, graph: map<string, string>, name: string, asked: set<string>,
      all: set<string>, contexts: set<string>)
    requires Kept(w, done, requested, processed, graph) && name in w.packages
    requires all == (if name in processed then processed[name] else {}) + contexts && all == asked + {""}
    ensures Kept(w, done + Under(name, contexts), requested[name := asked], processed[name := all],
                 graph[name := w.packages[name].version])
  {
    var more := done + Under(name, contexts);
    var processed2 := processed[name := all];
    forall n, c ensures (n, c) in more <==> n in processed2 && c in processed2[n] {
      assert (n, c) in done <==> n in processed && c in processed[n];
      assert (n, c) in Under(name, contexts) <==> n == name && c in contexts;
    }
  }

  lemma {:induction false} RequestNeeded(w: World, root: string, done: set<Pair>, pending: seq<Request>, pair: Pair)
    requires Sound(w, root, done, pending) && pending != [] && Requests(pending[0], pair)
    ensures Needed(w, root, pair)
  {
    assert Queued(pending, pair);
  }

  /** The requests for the active requirements, unless the lock lacks one. */
  method RequestChildren(w: World, name: string, active: seq<Requirement>, contexts: set<string>)
      returns (children: Result<seq<Request>>)
    ensures children.Ok? ==> Children(children.value, active) && forall r :: r in active ==> w.locked(name, r, contexts)
    ensures children.Refused? ==> exists r :: r in active && !w.locked(name, r, contexts)
  {
    var made: seq<Request> := [];
    for n := 0 to |active|
      invariant |made| == n && forall i :: 0 <= i < n ==> made[i] == (active[i].name, active[i].extras)
      invariant forall i :: 0 <= i < n ==> w.locked(name, active[i], contexts)
    {
      if !w.locked(name, active[n], contexts) {
        assert active[n] in active;
        return Refused;
      }
      made := made + [(active[n].name, active[n].extras)];
    }
    children := Ok(made);
  }

  lemma {:induction false} Unlocked(w: World, root: string, name: string, active: seq<Requirement>,
      contexts: set<string>, r: Requirement)
    requires name in w.packages && r in w.packages[name].needs && Active(w, r, contexts) && !w.locked(name, r, contexts)
    requires contexts != {} && Needed(w, root, (name, "")) && forall c :: c in contexts ==> Needed(w, root, (name, c))
    ensures Broken(w, root)
  {
  }

  /** The request at the head of the queue, once its new contexts are processed. */
  lemma {:induction false} Serves(w: World, done: set<Pair>, requested: map<string, set<string>>,
      processed: map<string, set<string>>, graph: map<string, string>, pending: seq<Request>, contexts: set<string>,
      active: seq<Requirement>, children: seq<Request>)
    requires Kept(w, done, requested, processed, graph) && pending != [] && pending[0].0 in w.packages
    requires var name, extras := pending[0].0, pending[0].1;
             && Children(children, active) && contexts != {}
             && (forall r :: r in active <==> r in w.packages[name].needs && Active(w, r, contexts))
             && (if name in graph then contexts == extras - requested[name] - processed[name]
                 else contexts == {""} + extras)
    ensures Served(w, done, pending, contexts, active, children)
    ensures exists p :: p in Under(pending[0].0, contexts) && p !in done
    ensures Under(pending[0].0, contexts) <= done + Under(pending[0].0, contexts)
  {
    var name, extras := pending[0].0, pending[0].1;
    forall p | Requests(pending[0], p) ensures p in done + Under(name, contexts) {
      assert p == (name, p.1);
      assert (name, p.1) in done <==> name in processed && p.1 in processed[name];
    }
    var c :| c in contexts;
    assert (name, c) in Under(name, contexts);
    assert (name, c) in done <==> name in processed && c in processed[name];
  }

  /** What is new in a request is processed; this is progress. */
  lemma {:induction false} ServeKeeps(w: World, root: string, done: set<Pair>, requested: map<string, set<string>>,
      processed: map<string, set<string>>, graph: map<string, string>, pending: seq<Request>, contexts: set<string>,
      active: seq<Requirement>, children: seq<Request>)
    requires Sound(w, root, done, pending) && Complete(w, root, done, pending)
    requires Kept(w, done, requested, processed, graph) && pending != [] && pending[0].0 in w.packages
    requires var name, extras := pending[0].0, pending[0].1;
             && Children(children, active) && contexts != {}
             && (forall r :: r in active <==> r in w.packages[name].needs && Active(w, r, contexts))
             && (if name in graph then contexts == extras - requested[name] - processed[name]
                 else contexts == {""} + extras)
    ensures var more := done + Under(pending[0].0, contexts);
            && Sound(w, root, more, pending[1..] + children) && Complete(w, root, more, pending[1..] + children)
            && Universe(w) - more < Universe(w) - done
  {
    Serves(w, done, requested, processed, graph, pending, contexts, active, children);
    ServeKeepsSound(w, root, done, pending, contexts, active, children);
    ServeKeepsComplete(w, root, done, pending, contexts, active, children);
    var p :| p in Under(pending[0].0, contexts) && p !in done;
    assert p in Universe(w) - done;
  }

  /** A request that brings nothing to process is dropped. */
  lemma {:induction false} DropKeeps(w: World, root: string, done: set<Pair>, requested: map<string, set<string>>,
      processed: map<string, set<string>>, graph: map<string, string>, pending: seq<Request>)
    requires Sound(w, root, done, pending) && Complete(w, root, done, pending)
    requires Kept(w, done, requested, processed, graph) && pending != [] && pending[0].0 in graph
    requires pending[0].1 - requested[pending[0].0] <= {""}
    ensures Sound(w, root, done, pending[1..]) && Complete(w, root, done, pending[1..])
    ensures Kept(w, done, requested[pending[0].0 := requested[pending[0].0] + pending[0].1], processed, graph)
  {
    forall p | Requests(pending[0], p) ensures p in done {
      NothingNew(w, done, requested, processed, graph, pending[0], p);
    }
    SkipKeeps(w, root, done, pending);
  }

  /** The requests of a package's active requirements, or a refusal for cause. */
  method Expand(w: World, root: string, ghost done: set<Pair>, pending: seq<Request>, contexts: set<string>)
    returns (children: Result<seq<Request>>, ghost active: seq<Requirement>)
    requires Sound(w, root, done, pending) && pending != []
    requires contexts != {} && forall c :: c in contexts ==> c == "" || c in pending[0].1
    ensures children.Refused? ==> Broken(w, root)
    ensures children.Ok? ==>
              && pending[0].0 in w.packages && Children(children.value, active)
              && (forall r :: r in active <==> r in w.packages[pending[0].0].needs && Active(w, r, contexts))
              && forall r :: r in active ==> w.locked(pending[0].0, r, contexts)
  {
    var name := pending[0].0;
    active := [];
    RequestNeeded(w, root, done, pending, (name, ""));
    if name !in w.packages { return Refused, []; }
    var found := RequirementsFor(w, w.packages[name].needs, contexts);
    active := found;
    children := RequestChildren(w, name, found, contexts);
    if children.Refused? {
      ghost var r :| r in active && !w.locked(name, r, contexts);
      forall c | c in contexts ensures Needed(w, root, (name, c)) { RequestNeeded(w, root, done, pending, (name, c)); }
      Unlocked(w, root, name, active, contexts, r);
    }
  }

  lemma {:induction false} GraphIs(w: World, done: set<Pair>, requested: map<string, set<string>>,
      processed: map<string, set<string>>, graph: map<string, string>)
    requires Kept(w, done, requested, processed, graph)
    ensures forall n :: n in graph <==> (n, "") in done
    ensures forall n :: n in graph ==> n in w.packages && graph[n] == w.packages[n].version
  {
  }

  /** The lock carries what makes a processed pair go on: each requirement active
      for it was looked up under contexts processed together with it. */
  ghost predicate Covered(w: World, done: set<Pair>, pair: Pair, r: Requirement) {
    exists contexts: set<string> {:trigger w.locked(pair.0, r, contexts)} ::
      pair.1 in contexts && Under(pair.0, contexts) <= done && w.locked(pair.0, r, contexts)
  }

  ghost predicate Checked(w: World, done: set<Pair>) {
    forall p, r {:trigger Covered(w, done, p, r)} ::
      p in done && p.0 in w.packages && r in w.packages[p.0].needs && ActiveIn(w, r, p.1) ==> Covered(w, done, p, r)
  }

  lemma {:induction false} ServeChecks(w: World, done: set<Pair>, name: string, contexts: set<string>,
      active: seq<Requirement>)
    requires Checked(w, done) && name in w.packages
    requires forall r :: r in active <==> r in w.packages[name].needs && Active(w, r, contexts)
    requires forall r :: r in active ==> w.locked(name, r, contexts)
    ensures Checked(w, done + Under(name, contexts))
  {
    var more := done + Under(name, contexts);
    forall p, r | p in more && p.0 in w.packages && r in w.packages[p.0].needs && ActiveIn(w, r, p.1)
      ensures Covered(w, more, p, r)
    {
      if p in done {
        assert Covered(w, done, p, r);
      } else {
        assert Active(w, r, contexts) && w.locked(p.0, r, contexts);
      }
    }
  }

  /** Nothing needed is missing from what was walked. */
  lemma {:induction false} AllInstalled(w: World, root: string, done: set<Pair>)
    requires Least(w, root, done) && done <= Universe(w)
    ensures forall p {:trigger Needed(w, root, p)} :: Needed(w, root, p) ==> p in done && p.0 in w.packages
  {
  }

  /** All the walk keeps. */
  ghost predicate Walking(w: World, root: string, done: set<Pair>, pending: seq<Request>,
      requested: map<string, set<string>>, processed: map<string, set<string>>, graph: map<string, string>)
  {
    && Sound(w, root, done, pending) && Complete(w, root, done, pending)
    && Kept(w, done, requested, processed, graph) && Checked(w, done)
  }

  /** The contexts of a request that were not processed before. */
  function NewContexts(request: Request, requested: map<string, set<string>>, processed: map<string, set<string>>,
      graph: map<string, string>): set<string>
  {
    var accumulated := if request.0 in requested then requested[request.0] else {};
    var before := if request.0 in processed then processed[request.0] else {};
    (if request.0 !in graph then {""} else {}) + (request.1 - accumulated) - before
  }

  /** One request served keeps it all. */
  lemma {:induction false} Advance(w: World, root: string, done: set<Pair>, pending: seq<Request>,
      requested: map<string, set<string>>, processed: map<string, set<string>>, graph: map<string, string>,
      active: seq<Requirement>, children: seq<Request>)
    requires Walking(w, root, done, pending, requested, processed, graph) && pending != []
    requires pending[0].0 in w.packages && NewContexts(pending[0], requested, processed, graph) != {}
    requires var name, contexts := pending[0].0, NewContexts(pending[0], requested, processed, graph);
             && Children(children, active) && (forall r :: r in active ==> w.locked(name, r, contexts))
             && (forall r :: r in active <==> r in w.packages[name].needs && Active(w, r, contexts))
    ensures var name, contexts := pending[0].0, NewContexts(pending[0], requested, processed, graph);
            var asked := (if name in requested then requested[name] else {}) + pending[0].1;
            var all := (if name in processed then processed[name] else {}) + contexts;
            && Walking(w, root, done + Under(name, contexts), pending[1..] + children, requested[name := asked],
                       processed[name := all], graph[name := w.packages[name].version])
            && Universe(w) - (done + Under(name, contexts)) < Universe(w) - done
  {
    var name, contexts := pending[0].0, NewContexts(pending[0], requested, processed, graph);
    var asked := (if name in requested then requested[name] else {}) + pending[0].1;
    var all := (if name in processed then processed[name] else {}) + contexts;
    ServeKeeps(w, root, done, requested, processed, graph, pending, contexts, active, children);
    KeptAfter(w, done, requested, processed, graph, name, asked, all, contexts);
    ServeChecks(w, done, name, contexts, active);
  }

  /** `_walk_graph`: it ends, also on cyclic graphs, and when it does not refuse it
      finds exactly the packages of the least closed set. */
  method WalkGraph(w: World, root: string) returns (result: Result<map<string, string>>, ghost done: set<Pair>)
    ensures result.Ok? ==> Least(w, root, done) && Checked(w, done)
    ensures result.Ok? ==> forall p {:trigger Needed(w, root, p)} :: Needed(w, root, p) ==> p.0 in w.packages
    ensures result.Ok? ==> forall n :: n in result.value <==> (n, "") in done
    ensures result.Ok? ==> forall n :: n in result.value ==> n in w.packages && result.value[n] == w.packages[n].version
    ensures result.Refused? ==> Broken(w, root)
  {
    var pending: seq<Request> := [(root, {})];
    var requested: map<string, set<string>> := map[];
    var processed: map<string, set<string>> := map[];
    var graph: map<string, string> := map[];
    done := {};
    WalkStarts(w, root);
    while pending != []
      invariant Walking(w, root, done, pending, requested, processed, graph)
      decreases Universe(w) - done, |pending|
    {
      var name, extras := pending[0].0, pending[0].1;
      var accumulated := if name in requested then requested[name] else {};
      var before := if name in processed then processed[name] else {};
      var contexts := NewContexts(pending[0], requested, processed, graph);
      if contexts == {} {
        DropKeeps(w, root, done, requested, processed, graph, pending);
        requested := requested[name := accumulated + extras];
        pending := pending[1..];
        continue;
      }
      ghost var active;
      var children;
      children, active := Expand(w, root, done, pending, contexts);
      if children.Refused? { return Refused, done; }
      Advance(w, root, done, pending, requested, processed, graph, active, children.value);
      requested := requested[name := accumulated + extras];
      processed := processed[name := before + contexts];
      graph := graph[name := w.packages[name].version];
      done := done + Under(name, contexts);
      pending := pending[1..] + children.value;
    }
    ClosedAtEnd(w, root, done);
    AllInstalled(w, root, done);
    GraphIs(w, done, requested, processed, graph);
    result := Ok(graph);
  }
}
