/** What the shared quota gives: a free slot is granted, every retry the job allows is
    made, and the slot is given back, so that the next client gets it too. */
module PaperQuotaProgress {
  import opened Common
  import opened PaperQuota
  import opened PaperQuotaSafety

  // ----- one client on its own -----

  /** Time passes, or one of these clients moves, or the store serves its swap. None is
      interrupted and none dies. */
  predicate Solo(step: Step, ids: set<nat>) {
    match step
    case Tick(_) => true
    case Begin(_, _) => false
    case Serve(r, _) => r.client in ids
    case Act(c, action) => c in ids && !action.Interrupt? && !action.Die?
  }

  ghost predicate Path(s: State, steps: seq<Step>, t: State, ids: set<nat>)
    decreases |steps|
  {
    if steps == [] then s == t
    else Solo(steps[0], ids) && Enabled(s, steps[0]) && Path(Do(s, steps[0]), steps[1..], t, ids)
  }

  /** The clients can come from `s` to `t` while no other client moves. */
  ghost predicate Leads(s: State, t: State, ids: set<nat>) {
    exists steps :: Path(s, steps, t, ids)
  }

  lemma {:induction false} PathJoin(s: State, first: seq<Step>, t: State, second: seq<Step>, u: State, ids: set<nat>)
    requires Path(s, first, t, ids) && Path(t, second, u, ids)
    ensures Path(s, first + second, u, ids)
    decreases |first|
  {
    if first == [] {
      assert first + second == second;
    } else {
      PathJoin(Do(s, first[0]), first[1..], t, second, u, ids);
      assert (first + second)[1..] == first[1..] + second;
    }
  }

  lemma {:induction false} LeadsOn(s: State, t: State, u: State, ids: set<nat>)
    requires Leads(s, t, ids) && Leads(t, u, ids)
    ensures Leads(s, u, ids)
  {
    var first :| Path(s, first, t, ids);
    var second :| Path(t, second, u, ids);
    PathJoin(s, first, t, second, u, ids);
  }

  lemma {:induction false} LeadsStill(s: State, ids: set<nat>)
    ensures Leads(s, s, ids)
  {
    assert Path(s, [], s, ids);
  }

  lemma {:induction false} LeadsStep(s: State, step: Step, ids: set<nat>)
    requires Enabled(s, step) && Solo(step, ids)
    ensures Leads(s, Do(s, step), ids)
  {
    assert [step][1..] == [];
    assert Path(s, [step], Do(s, step), ids);
  }

  lemma {:induction false} LeadsThen(s: State, t: State, step: Step, ids: set<nat>)
    requires Leads(s, t, ids) && Enabled(t, step) && Solo(step, ids)
    ensures Leads(s, Do(t, step), ids)
  {
    LeadsStep(t, step, ids);
    LeadsOn(s, t, Do(t, step), ids);
  }

  lemma {:induction false} PathSafe(s: State, steps: seq<Step>, t: State, ids: set<nat>)
    requires Path(s, steps, t, ids) && Locked(s) && Timed(s)
    ensures Locked(t) && Timed(t)
    decreases |steps|
  {
    if steps != [] {
      StepKeepsLocked(s, steps[0]);
      StepKeepsTimed(s, steps[0]);
      PathSafe(Do(s, steps[0]), steps[1..], t, ids);
    }
  }

  lemma {:induction false} LeadsSafe(s: State, t: State, ids: set<nat>)
    requires Leads(s, t, ids) && Locked(s) && Timed(s)
    ensures Locked(t) && Timed(t)
  {
    var steps :| Path(s, steps, t, ids);
    PathSafe(s, steps, t, ids);
  }

  // ----- what changes -----

  /** The record of a free group. */
  function FreeRecord(policy: Policy): Stored { Record(NoOwner, policy.revision, policy.spacing, true) }

  /** Nobody holds the group, and its entry pins this policy or none. */
  predicate Vacant(s: State, policy: Policy) {
    policy.group in s.store ==> s.store[policy.group].value == FreeRecord(policy)
  }

  /** `m` more calls, all of this client and all over. */
  predicate MoreCalls(before: seq<Call>, after: seq<Call>, id: nat, policy: Policy, m: nat) {
    && |after| == |before| + m && after[..|before|] == before
    && forall i :: |before| <= i < |after| ==>
         after[i].client == id && after[i].policy == policy && after[i].end.Some?
  }

  /** From `s` to `t` only the client changed, and made `m` calls. */
  predicate Alone(s: State, t: State, id: nat, m: nat) {
    && id in s.clients && id in t.clients && t.clients == s.clients[id := t.clients[id]]
    && t.clients[id].policy == s.clients[id].policy
    && s.clock <= t.clock && t.wire == s.wire
    && MoreCalls(s.calls, t.calls, id, s.clients[id].policy, m)
  }

  /** The client is through: it made `m` calls and left the group free. */
  predicate Served(s: State, t: State, id: nat, m: nat) {
    && Alone(s, t, id, m) && t.clients[id].phase.Finished? && !t.clients[id].retained
    && var group := s.clients[id].policy.group;
    && group in t.store && t.store[group].value == FreeRecord(s.clients[id].policy)
    && (forall g :: g in s.store && g != group ==> g in t.store && t.store[g] == s.store[g])
    && (forall g :: g in t.store && g != group ==> g in s.store)
  }

  lemma {:induction false} MoreCallsSum(a: seq<Call>, b: seq<Call>, c: seq<Call>, id: nat, policy: Policy, m: nat,
      n: nat)
    requires MoreCalls(a, b, id, policy, m) && MoreCalls(b, c, id, policy, n)
    ensures MoreCalls(a, c, id, policy, m + n)
  {
    assert c[..|a|] == c[..|b|][..|a|];
    forall i | |a| <= i < |c| ensures c[i].client == id && c[i].policy == policy && c[i].end.Some? {
      if i < |b| { assert c[..|b|][i] == b[i]; }
    }
  }

  lemma {:induction false} AloneOn(s: State, t: State, u: State, id: nat, m: nat, n: nat)
    requires Alone(s, t, id, m) && Alone(t, u, id, n)
    ensures Alone(s, u, id, m + n)
  {
    MoreCallsSum(s.calls, t.calls, u.calls, id, s.clients[id].policy, m, n);
  }

  // ----- the slot is granted -----

  lemma {:induction false} NotSent(s: State, id: nat, kind: Kind)
    requires Locked(s) && id in s.clients
    requires if kind == Acquire then s.clients[id].phase.Begun? else !s.clients[id].releasing
    ensures forall r :: r in s.wire ==> r.client != id || r.kind != kind
  {
    forall r | r in s.wire ensures r.client != id || r.kind != kind { assert RequestOk(s, r); }
  }

  /** The state after the client's acquire took effect at version `v`. */
  function GrantedAt(s: State, id: nat, v: nat): State
    requires id in s.clients
  {
    var k := s.clients[id];
    var mine := Record(Named(k.owner), k.policy.revision, k.policy.spacing, true);
    s.(store := s.store[k.policy.group := Entry(v, mine)], written := s.written[v := mine],
       clients := s.clients[id := k.(phase := Sleeping(0, s.clock + k.policy.spacing), granted := Some(v))])
  }

  /** The store swaps the client's record in, and the client hears of it. */
  lemma {:induction false} GrantHeard(s: State, id: nat, r: Request, v: nat)
    requires id in s.clients && s.clients[id].phase.AcquireSent? && r in s.wire && r.client == id && r.kind == Acquire
    requires Current(s, s.clients[id].policy.group, r.expected) && v != 0 && v !in s.written
    ensures Leads(s, GrantedAt(s, id, v).(wire := s.wire - {r}), {id})
  {
    var k := s.clients[id];
    var c := Do(s, Serve(r, v));
    LeadsStep(s, Serve(r, v), {id});
    assert c.clients[id] == k.(granted := Some(v));
    var d := Do(c, Act(id, ReceiveGrant));
    LeadsThen(s, c, Act(id, ReceiveGrant), {id});
    assert d.clients == GrantedAt(s, id, v).clients;
    assert d == GrantedAt(s, id, v).(wire := s.wire - {r});
  }

  lemma {:induction false} AcquireServed(s: State, id: nat, expected: nat, v: nat)
    requires id in s.clients && s.clients[id].phase == Checked(expected)
    requires forall r :: r in s.wire ==> r.client != id || r.kind != Acquire
    requires Current(s, s.clients[id].policy.group, expected) && v != 0 && v !in s.written
    ensures Leads(s, GrantedAt(s, id, v), {id})
  {
    var r := Request(id, Acquire, expected);
    var b := Do(s, Act(id, SendAcquire));
    LeadsStep(s, Act(id, SendAcquire), {id});
    GrantHeard(b, id, r, v);
    var d := GrantedAt(b, id, v).(wire := b.wire - {r});
    LeadsOn(s, b, d, {id});
    assert d.clients == GrantedAt(s, id, v).clients && d.wire == s.wire;
    assert d == GrantedAt(s, id, v);
  }

  lemma {:induction false} SlotGranted(s: State, id: nat, v: nat)
    requires Locked(s) && id in s.clients && s.clients[id].phase.Begun? && Vacant(s, s.clients[id].policy)
    requires v != 0 && v !in s.written
    ensures Leads(s, GrantedAt(s, id, v), {id})
  {
    var k := s.clients[id];
    var group := k.policy.group;
    NotSent(s, id, Acquire);
    var expected := if group in s.store then s.store[group].version else 0;
    var a := Do(s, Act(id, ReadForAcquire));
    LeadsStep(s, Act(id, ReadForAcquire), {id});
    assert a.clients[id] == k.(phase := Checked(expected));
    StepKeepsLocked(s, Act(id, ReadForAcquire));
    AcquireServed(a, id, expected, v);
    LeadsOn(s, a, GrantedAt(a, id, v), {id});
    assert GrantedAt(a, id, v).clients == GrantedAt(s, id, v).clients;
    assert GrantedAt(a, id, v) == GrantedAt(s, id, v);
  }

  // ----- the slot is given back -----

  /** The state after the client's release took effect at version `w`. */
  function ReleasedAt(s: State, id: nat, w: nat): State
    requires id in s.clients
  {
    var k := s.clients[id];
    s.(store := s.store[k.policy.group := Entry(w, FreeRecord(k.policy))],
       written := s.written[w := FreeRecord(k.policy)],
       clients := s.clients[id := k.(phase := Finished, releasing := true)])
  }

  lemma {:induction false} SlotReleased(s: State, id: nat, w: nat)
    requires Locked(s) && id in s.clients && s.clients[id].phase.Leaving? && !s.clients[id].retained
    requires w != 0 && w !in s.written
    ensures Leads(s, ReleasedAt(s, id, w), {id})
  {
    var a := Do(s, Act(id, ReadForRelease));
    var k := s.clients[id];
    assert ClientOk(s, k);
    LeadsStep(s, Act(id, ReadForRelease), {id});
    assert a.clients[id] == k.(phase := ReleaseChecked);
    StepKeepsLocked(s, Act(id, ReadForRelease));
    CheckedReleased(a, id, w);
    LeadsOn(s, a, ReleasedAt(a, id, w), {id});
    assert ReleasedAt(a, id, w).clients == ReleasedAt(s, id, w).clients;
    assert ReleasedAt(a, id, w) == ReleasedAt(s, id, w);
  }

  lemma {:induction false} CheckedReleased(s: State, id: nat, w: nat)
    requires Locked(s) && id in s.clients && s.clients[id].phase.ReleaseChecked?
    requires w != 0 && w !in s.written
    ensures Leads(s, ReleasedAt(s, id, w), {id})
  {
    var k := s.clients[id];
    assert ClientOk(s, k);
    NotSent(s, id, Release);
    var b := Do(s, Act(id, SendRelease));
    LeadsStep(s, Act(id, SendRelease), {id});
    var r := Request(id, Release, k.granted.value);
    assert b.clients[id] == k.(phase := ReleaseSent, releasing := true) && b.wire == s.wire + {r};
    var c := Do(b, Serve(r, w));
    LeadsThen(s, b, Serve(r, w), {id});
    assert c.clients == b.clients && c.wire == s.wire;
    var d := Do(c, Act(id, ReceiveRelease));
    LeadsThen(s, c, Act(id, ReceiveRelease), {id});
    assert d.clients == ReleasedAt(s, id, w).clients;
    assert d == ReleasedAt(s, id, w);
  }

  // ----- the attempts inside the slot -----

  /** The client sleeps before attempt `n`. */
  predicate Waits(k: Client, n: nat) {
    (k.phase.Sleeping? && k.phase.next == n && !k.retained) || (k.phase.Limited? && k.phase.next == n)
  }

  /** An outcome the job tries again after. */
  predicate Retryable(job: Job, outcome: Outcome) {
    (outcome.Failed? && job.Search?) || (outcome.RateLimited? && outcome.retryAfter.Some?)
  }

  /** How long the client sleeps after an outcome. */
  function Pause(policy: Policy, outcome: Outcome): nat {
    match outcome
    case Failed => policy.spacing
    case RateLimited(Some(after)) => if after > policy.spacing then after else policy.spacing
    case _ => 0
  }

  function Pauses(policy: Policy, outcomes: seq<Outcome>): nat {
    if outcomes == [] then 0 else Pause(policy, outcomes[0]) + Pauses(policy, outcomes[1..])
  }

  function Later(now: int, until: int): int { if until > now then until else now }

  /** The client awake, and its call of attempt `n` under way. */
  function CallingAt(s: State, id: nat, n: nat): State
    requires id in s.clients && Waits(s.clients[id], n)
  {
    var k := s.clients[id];
    var now := Later(s.clock, k.phase.until);
    s.(clock := now, calls := s.calls + [Call(id, k.policy, now, None)],
       clients := s.clients[id := k.(phase := Calling(n, |s.calls|), retained := false)])
  }

  /** Time passes until the client may wake. */
  function Waited(s: State, id: nat): State
    requires id in s.clients && (s.clients[id].phase.Sleeping? || s.clients[id].phase.Limited?)
  {
    s.(clock := Later(s.clock, s.clients[id].phase.until))
  }

  lemma {:induction false} TimePasses(s: State, id: nat)
    requires id in s.clients && (s.clients[id].phase.Sleeping? || s.clients[id].phase.Limited?)
    ensures Leads(s, Waited(s, id), {id})
  {
    LeadsStep(s, Tick(Later(s.clock, s.clients[id].phase.until) - s.clock), {id});
  }

  lemma {:induction false} CallMade(s: State, id: nat, n: nat)
    requires id in s.clients && Waits(s.clients[id], n) && n < Attempts(s.clients[id].job)
    ensures Leads(s, CallingAt(s, id, n), {id})
  {
    var a := Waited(s, id);
    var k := s.clients[id];
    TimePasses(s, id);
    var b := Do(a, Act(id, Wake));
    LeadsThen(s, a, Act(id, Wake), {id});
    assert b.clients[id] == k.(phase := Ready(n), retained := false);
    var c := Do(b, Act(id, StartCall));
    LeadsThen(s, b, Act(id, StartCall), {id});
    assert c.clients == CallingAt(s, id, n).clients;
    assert c == CallingAt(s, id, n);
  }

  /** What the client is once its call ended in one of these ways. */
  predicate After(k: Client, n: nat, outcome: Outcome, now: int, l: Client) {
    && l.policy == k.policy && l.job == k.job && l.deadline == k.deadline
    && (outcome.Success? ==> l.phase.Leaving? && !l.retained)
    && (Retryable(k.job, outcome) ==>
          if n + 1 < Attempts(k.job) || outcome.RateLimited?
          then Waits(l, n + 1) && l.phase.until == now + Pause(k.policy, outcome)
               && (outcome.RateLimited? ==> l.phase.Limited?)
          else l.phase.Leaving? && !l.retained)
  }

  lemma {:induction false} AttemptMade(s: State, id: nat, n: nat, outcome: Outcome) returns (t: State)
    requires id in s.clients && Waits(s.clients[id], n) && n < Attempts(s.clients[id].job)
    requires outcome.Success? || Retryable(s.clients[id].job, outcome)
    requires outcome.RateLimited? ==>
               var k := s.clients[id]; Later(s.clock, k.phase.until) + Pause(k.policy, outcome) < k.deadline
    ensures Leads(s, t, {id}) && Alone(s, t, id, 1) && t.store == s.store && t.written == s.written
    ensures t.clock == Later(s.clock, s.clients[id].phase.until)
    ensures After(s.clients[id], n, outcome, t.clock, t.clients[id])
  {
    var a := CallingAt(s, id, n);
    CallMade(s, id, n);
    t := Do(a, Act(id, EndCall(outcome)));
    LeadsThen(s, a, Act(id, EndCall(outcome)), {id});
    assert t.clients == s.clients[id := t.clients[id]];
    assert t.calls[..|s.calls|] == s.calls;
  }

  /** Behind the last attempt a provider delay is only waited out. */
  lemma {:induction false} LastDelay(s: State, id: nat, n: nat) returns (t: State)
    requires id in s.clients && s.clients[id].phase.Limited? && s.clients[id].phase.next == n
    requires n >= Attempts(s.clients[id].job)
    ensures Leads(s, t, {id}) && Alone(s, t, id, 0) && t.store == s.store && t.written == s.written
    ensures t.clients[id].phase.Leaving? && !t.clients[id].retained
  {
    var a := Waited(s, id);
    TimePasses(s, id);
    t := Do(a, Act(id, Wake));
    LeadsThen(s, a, Act(id, Wake), {id});
    assert t.clients == s.clients[id := t.clients[id]];
  }

  /** The outcomes of the attempts from `n` on: retryable ones, and then a success, or
      no attempt left. */
  predicate Script(job: Job, n: nat, outcomes: seq<Outcome>) {
    && outcomes != [] && n + |outcomes| <= Attempts(job)
    && (forall i :: 0 <= i < |outcomes| - 1 ==> Retryable(job, outcomes[i]))
    && var last := outcomes[|outcomes| - 1];
    last.Success? || (Retryable(job, last) && n + |outcomes| == Attempts(job))
  }

  /** No provider delay among the outcomes reaches the deadline. */
  predicate InTime(k: Client, from: int, outcomes: seq<Outcome>) {
    (forall i :: 0 <= i < |outcomes| ==> !outcomes[i].RateLimited?) || from + Pauses(k.policy, outcomes) < k.deadline
  }

  /** One call for each outcome, and then the client leaves with nothing to hold back. */
  lemma {:induction false} Rounds(s: State, id: nat, n: nat, outcomes: seq<Outcome>) returns (t: State)
    requires id in s.clients && Waits(s.clients[id], n) && Script(s.clients[id].job, n, outcomes)
    requires InTime(s.clients[id], Later(s.clock, s.clients[id].phase.until), outcomes)
    ensures Leads(s, t, {id}) && Alone(s, t, id, |outcomes|) && t.store == s.store && t.written == s.written
    ensures t.clients[id].phase.Leaving? && !t.clients[id].retained
    decreases |outcomes|
  {
    var k, first := s.clients[id], outcomes[0];
    var a := AttemptMade(s, id, n, first);
    var l := a.clients[id];
    if l.phase.Leaving? {
      t := a;
    } else if |outcomes| == 1 {
      t := LastDelay(a, id, n + 1);
      LeadsOn(s, a, t, {id});
      AloneOn(s, a, t, id, 1, 0);
    } else {
      t := Rounds(a, id, n + 1, outcomes[1..]);
      LeadsOn(s, a, t, {id});
      AloneOn(s, a, t, id, 1, |outcomes| - 1);
    }
  }

  // ----- a whole request -----

  lemma {:induction false} ReleaseServes(s: State, id: nat, w: nat)
    requires Locked(s) && id in s.clients && s.clients[id].phase.Leaving? && !s.clients[id].retained
    requires w != 0 && w !in s.written
    ensures Served(s, ReleasedAt(s, id, w), id, 0)
  {
  }

  lemma {:induction false} ServedAfter(s: State, t: State, u: State, id: nat, m: nat)
    requires Alone(s, t, id, m) && Served(t, u, id, 0)
    requires forall g :: g != s.clients[id].policy.group ==> (g in s.store <==> g in t.store)
    requires forall g :: g in s.store && g != s.clients[id].policy.group ==> t.store[g] == s.store[g]
    ensures Served(s, u, id, m)
  {
    AloneOn(s, t, u, id, m, 0);
  }

  /** A version that was never written. */
  lemma {:induction false} Unwritten(s: State) returns (v: nat)
    ensures v != 0 && v !in s.written
  {
    v := Above(s.written.Keys);
  }

  lemma {:induction false} Above(s: set<nat>) returns (v: nat)
    ensures v != 0 && forall x :: x in s ==> x < v
    decreases |s|
  {
    if s == {} {
      v := 1;
    } else {
      var x :| x in s;
      var u := Above(s - {x});
      v := if x < u then u else x + 1;
      forall y | y in s ensures y < v {
        if y != x { assert y in s - {x}; }
      }
    }
  }

  lemma {:induction false} GrantedAlone(s: State, id: nat, v: nat)
    requires id in s.clients
    ensures Alone(s, GrantedAt(s, id, v), id, 0)
  {
  }

  /** A client that finds its group vacant and is left alone makes one call for every
      outcome, within its deadline, and leaves the group free again. */
  lemma {:induction false} RequestServed(s: State, id: nat, outcomes: seq<Outcome>) returns (t: State)
    requires Locked(s) && Timed(s) && id in s.clients && s.clients[id].phase.Begun? && !s.clients[id].retained
    requires Vacant(s, s.clients[id].policy) && Script(s.clients[id].job, 0, outcomes)
    requires InTime(s.clients[id], s.clock + s.clients[id].policy.spacing, outcomes)
    ensures Leads(s, t, {id}) && Served(s, t, id, |outcomes|)
  {
    var v := Unwritten(s);
    var a := GrantedAt(s, id, v);
    SlotGranted(s, id, v);
    GrantedAlone(s, id, v);
    var b := Rounds(a, id, 0, outcomes);
    LeadsOn(s, a, b, {id});
    AloneOn(s, a, b, id, 0, |outcomes|);
    LeadsSafe(s, b, {id});
    var w := Unwritten(b);
    t := ReleasedAt(b, id, w);
    SlotReleased(b, id, w);
    ReleaseServes(b, id, w);
    LeadsOn(s, b, t, {id});
    ServedAfter(s, b, t, id, |outcomes|);
  }

  // ----- from reachable states -----

  ghost predicate Reachable(s: State) {
    exists states, steps :: Run(states, steps) && states[|states| - 1] == s
  }

  lemma {:induction false} ReachableSafe(s: State)
    requires Reachable(s)
    ensures Locked(s) && Timed(s)
  {
    var states, steps :| Run(states, steps) && states[|states| - 1] == s;
    RunInvariant(states, steps, |states| - 1);
  }

  lemma {:induction false} StepReachable(s: State, step: Step)
    requires Reachable(s) && Enabled(s, step)
    ensures Reachable(Do(s, step))
  {
    var states, steps :| Run(states, steps) && states[|states| - 1] == s;
    var more, all := states + [Do(s, step)], steps + [step];
    forall i | 0 <= i < |all| ensures Follows(more[i], all[i], more[i + 1]) {
      if i < |steps| { assert Follows(states[i], steps[i], states[i + 1]); }
    }
    assert Run(more, all);
  }

  lemma {:induction false} PathReachable(s: State, steps: seq<Step>, t: State, ids: set<nat>)
    requires Reachable(s) && Path(s, steps, t, ids)
    ensures Reachable(t)
    decreases |steps|
  {
    if steps != [] {
      StepReachable(s, steps[0]);
      PathReachable(Do(s, steps[0]), steps[1..], t, ids);
    }
  }

  lemma {:induction false} PathWider(s: State, steps: seq<Step>, t: State, some: set<nat>, ids: set<nat>)
    requires Path(s, steps, t, some) && some <= ids
    ensures Path(s, steps, t, ids)
    decreases |steps|
  {
    if steps != [] { PathWider(Do(s, steps[0]), steps[1..], t, some, ids); }
  }

  lemma {:induction false} LeadsWider(s: State, t: State, some: set<nat>, ids: set<nat>)
    requires Leads(s, t, some) && some <= ids
    ensures Leads(s, t, ids) && (Reachable(s) ==> Reachable(t))
  {
    var steps :| Path(s, steps, t, some);
    PathWider(s, steps, t, some, ids);
    if Reachable(s) { PathReachable(s, steps, t, some); }
  }

  /** From every reachable state in which the group is vacant: whatever retryable
      outcomes come first, a client left alone makes its calls and frees the slot. */
  lemma {:induction false} FreeSlotServes(s: State, id: nat, outcomes: seq<Outcome>) returns (t: State)
    requires Reachable(s) && id in s.clients && s.clients[id].phase.Begun? && !s.clients[id].retained
    requires Vacant(s, s.clients[id].policy) && Script(s.clients[id].job, 0, outcomes)
    requires InTime(s.clients[id], s.clock + s.clients[id].policy.spacing, outcomes)
    ensures Leads(s, t, {id}) && Reachable(t) && Served(s, t, id, |outcomes|)
  {
    ReachableSafe(s);
    t := RequestServed(s, id, outcomes);
    LeadsWider(s, t, {id}, {id});
  }

  /** A search whose calls all fail makes `retries + 1` of them, and frees the slot. */
  lemma {:induction false} FailingSearchServed(s: State, id: nat) returns (t: State)
    requires Reachable(s) && id in s.clients && s.clients[id].phase.Begun? && !s.clients[id].retained
    requires s.clients[id].job.Search? && Vacant(s, s.clients[id].policy)
    ensures Leads(s, t, {id}) && Reachable(t) && Served(s, t, id, s.clients[id].job.retries + 1)
  {
    t := FreeSlotServes(s, id, seq(s.clients[id].job.retries + 1, _ => Failed));
  }

  /** `m` calls, by the clients of the list in its order. */
  predicate CallsInTurn(before: seq<Call>, after: seq<Call>, ids: seq<nat>) {
    && |after| == |before| + |ids| && after[..|before|] == before
    && forall i {:trigger ids[i]} :: 0 <= i < |ids| ==>
         after[|before| + i].client == ids[i] && after[|before| + i].end.Some?
  }

  predicate Queue(s: State, ids: seq<nat>, policy: Policy) {
    && (forall i, j :: 0 <= i < j < |ids| ==> ids[i] != ids[j])
    && forall i {:trigger ids[i]} :: 0 <= i < |ids| ==>
         && ids[i] in s.clients && s.clients[ids[i]].phase.Begun? && !s.clients[ids[i]].retained
         && s.clients[ids[i]].policy == policy
  }

  lemma {:induction false} NextInTurn(a: seq<Call>, b: seq<Call>, c: seq<Call>, id: nat, policy: Policy, ids: seq<nat>)
    requires MoreCalls(a, b, id, policy, 1) && ids != [] && ids[0] == id && CallsInTurn(b, c, ids[1..])
    ensures CallsInTurn(a, c, ids)
  {
    assert c[..|a|] == c[..|b|][..|a|];
    forall i | 0 <= i < |ids| ensures c[|a| + i].client == ids[i] && c[|a| + i].end.Some? {
      if i > 0 { assert ids[1..][i - 1] == ids[i]; } else { assert c[..|b|][|a|] == b[|a|]; }
    }
  }

  lemma {:induction false} QueueMoves(s: State, t: State, ids: seq<nat>, policy: Policy)
    requires Queue(s, ids, policy) && ids != [] && Served(s, t, ids[0], 1)
    ensures Queue(t, ids[1..], policy) && Vacant(t, policy)
  {
    forall i | 0 <= i < |ids[1..]|
      ensures ids[1..][i] in t.clients && t.clients[ids[1..][i]] == s.clients[ids[1..][i]]
    {
      assert ids[1..][i] == ids[i + 1] && ids[0] != ids[i + 1];
    }
    assert ids[0] in s.clients && s.clients[ids[0]].policy == policy;
  }

  /** Any number of clients of one policy get a vacant slot one after the other. */
  lemma {:induction false} EveryoneServed(s: State, ids: seq<nat>, policy: Policy, all: set<nat>) returns (t: State)
    requires Reachable(s) && Queue(s, ids, policy) && Vacant(s, policy)
    requires forall i {:trigger ids[i]} :: 0 <= i < |ids| ==> ids[i] in all
    ensures Leads(s, t, all) && Reachable(t) && CallsInTurn(s.calls, t.calls, ids) && Vacant(t, policy)
    decreases |ids|
  {
    if ids == [] {
      t := s;
      LeadsStill(s, all);
    } else {
      var id := ids[0];
      var a := FreeSlotServes(s, id, [Success]);
      LeadsWider(s, a, {id}, all);
      QueueMoves(s, a, ids, policy);
      t := EveryoneServed(a, ids[1..], policy, all);
      LeadsOn(s, a, t, all);
      NextInTurn(s.calls, a.calls, t.calls, id, policy, ids);
    }
  }

  // ----- no slot is stuck -----

  /** What a client in its slot keeps to: attempts that exist, delays within its
      deadline, and a mark only around a rate limit. */
  predicate Regular(k: Client) {
    && (k.phase.Sleeping? || k.phase.Ready? ==> k.phase.next < Attempts(k.job) && !k.retained)
    && (k.phase.Limited? ==> k.phase.until < k.deadline)
    && (k.phase.Calling? ==> k.phase.attempt < Attempts(k.job) && (k.retained ==> k.job.Download?))
    && (k.phase.Begun? || k.phase.Checked? || k.phase.AcquireSent? || k.phase.ReleaseChecked? ==> !k.retained)
  }

  lemma {:induction false} ActRegular(s: State, k: Client, action: Action)
    requires Regular(k) && Allowed(k, action, s.clock)
    ensures Regular(ClientAfter(s, k, action))
  {
  }

  predicate AllRegular(s: State) { forall c :: c in s.clients ==> Regular(s.clients[c]) }

  lemma {:induction false} StepRegular(s: State, step: Step)
    requires AllRegular(s) && Enabled(s, step)
    ensures AllRegular(Do(s, step))
  {
    if step.Act? { ActRegular(s, s.clients[step.id], step.action); }
  }

  lemma {:induction false} RunRegular(states: seq<State>, steps: seq<Step>, n: nat)
    requires Run(states, steps) && n < |states|
    ensures AllRegular(states[n])
  {
    if n > 0 {
      RunRegular(states, steps, n - 1);
      assert Follows(states[n - 1], steps[n - 1], states[n - 1 + 1]);
      StepRegular(states[n - 1], steps[n - 1]);
    }
  }

  /** No client ever waits for a provider delay that reaches its deadline. */
  lemma {:induction false} DelaysInTime(states: seq<State>, steps: seq<Step>, n: nat, c: nat)
    requires Run(states, steps) && n < |states| && c in states[n].clients && states[n].clients[c].phase.Limited?
    ensures states[n].clients[c].phase.until < states[n].clients[c].deadline
  {
    RunRegular(states, steps, n);
  }

  /** The client is through and its group free. */
  predicate FreeAgain(t: State, id: nat, policy: Policy) {
    && id in t.clients && t.clients[id].phase.Finished?
    && policy.group in t.store && t.store[policy.group].value == FreeRecord(policy)
  }

  lemma {:induction false} CallSucceeds(s: State, id: nat) returns (t: State)
    requires id in s.clients && s.clients[id].phase.Calling? && !s.clients[id].retained
    ensures Leads(s, t, {id}) && id in t.clients && t.clients[id].policy == s.clients[id].policy
    ensures t.clients[id].phase.Leaving? && !t.clients[id].retained
  {
    t := Do(s, Act(id, EndCall(Success)));
    LeadsStep(s, Act(id, EndCall(Success)), {id});
  }

  /** From any point of its slot an unmarked client comes to leave. */
  lemma {:induction false} ComesToLeave(s: State, id: nat) returns (t: State)
    requires id in s.clients && Regular(s.clients[id]) && (s.clients[id].retained ==> s.clients[id].phase.Limited?)
    requires InSlot(s.clients[id].phase) && !s.clients[id].phase.ReleaseChecked?
    ensures Leads(s, t, {id}) && id in t.clients && t.clients[id].policy == s.clients[id].policy
    ensures t.clients[id].phase.Leaving? && !t.clients[id].retained
  {
    var k := s.clients[id];
    match k.phase
    case Leaving =>
      t := s;
      LeadsStill(s, {id});
    case Calling(_, _) =>
      t := CallSucceeds(s, id);
    case Ready(_) =>
      var a := Do(s, Act(id, StartCall));
      LeadsStep(s, Act(id, StartCall), {id});
      t := CallSucceeds(a, id);
      LeadsOn(s, a, t, {id});
    case Sleeping(next, _) =>
      t := Rounds(s, id, next, [Success]);
    case Limited(next, _) =>
      if next < Attempts(k.job) {
        t := Rounds(s, id, next, [Success]);
      } else {
        t := LastDelay(s, id, next);
      }
  }

  /** From every reachable state a client in its slot can give it back, unless it left
      with its mark on: also one that sleeps through a provider delay. */
  lemma {:induction false} SlotComesBack(s: State, id: nat) returns (t: State)
    requires Reachable(s) && id in s.clients && InSlot(s.clients[id].phase)
    requires s.clients[id].retained ==> s.clients[id].phase.Limited?
    ensures Leads(s, t, {id}) && Reachable(t) && FreeAgain(t, id, s.clients[id].policy)
  {
    ReachableSafe(s);
    ReachableRegular(s);
    var w: nat;
    if s.clients[id].phase.ReleaseChecked? {
      w := Unwritten(s);
      t := ReleasedAt(s, id, w);
      CheckedReleased(s, id, w);
    } else {
      var a := ComesToLeave(s, id);
      LeadsSafe(s, a, {id});
      w := Unwritten(a);
      t := ReleasedAt(a, id, w);
      SlotReleased(a, id, w);
      LeadsOn(s, a, t, {id});
    }
    LeadsWider(s, t, {id}, {id});
  }

  lemma {:induction false} ReachableRegular(s: State)
    requires Reachable(s)
    ensures AllRegular(s)
  {
    var states, steps :| Run(states, steps) && states[|states| - 1] == s;
    RunRegular(states, steps, |states| - 1);
  }

  // ----- in every run -----

  predicate InBody(p: Phase) { p.Sleeping? || p.Limited? || p.Ready? || p.Calling? }

  /** The client did not die, and was interrupted inside its slot's body only. */
  predicate Undisturbed(s: State, step: Step, c: nat) {
    step.Act? && step.id == c && c in s.clients ==>
      !step.action.Die? && (step.action.Interrupt? ==> InBody(s.clients[c].phase))
  }

  ghost predicate UndisturbedRun(states: seq<State>, steps: seq<Step>, c: nat, n: nat) {
    |steps| < |states| && n <= |steps|
    && forall i {:trigger steps[i]} :: 0 <= i < n ==> Undisturbed(states[i], steps[i], c)
  }

  /** A client that was granted the slot and is through kept its mark, or sent its
      release. */
  predicate Returned(k: Client) {
    && (k.phase.Finished? && k.granted.Some? ==> k.retained || k.releasing)
    && (k.phase.ReleaseSent? ==> k.releasing)
  }

  /** And its acquire is on its way only while it waits for the grant. */
  predicate ReturnedIn(s: State, c: nat) {
    c in s.clients ==>
      && Returned(s.clients[c])
      && forall r :: r in s.wire && r.client == c && r.kind == Acquire ==> s.clients[c].phase.AcquireSent?
  }

  lemma {:induction false} ActReturned(s: State, c: nat, action: Action)
    requires Locked(s) && Enabled(s, Act(c, action)) && Undisturbed(s, Act(c, action), c) && ReturnedIn(s, c)
    ensures ReturnedIn(Do(s, Act(c, action)), c)
  {
    var k, t := s.clients[c], Do(s, Act(c, action));
    assert ClientOk(s, k);
    if k.granted.Some? { GrantedIsServed(s, c); }
    assert t.wire == s.wire + Sends(c, k, action);
  }

  /** A granted acquire is no longer on its way. */
  lemma {:induction false} GrantedIsServed(s: State, c: nat)
    requires Locked(s) && c in s.clients && s.clients[c].granted.Some?
    ensures forall r :: r in s.wire && r.client == c ==> r.kind == Release
  {
    forall r | r in s.wire && r.client == c ensures r.kind == Release { RequestKept(s, r); }
  }

  lemma {:induction false} RequestKept(s: State, r: Request)
    requires Locked(s) && r in s.wire
    ensures r.client in s.clients && (r.kind == Acquire ==> s.clients[r.client].granted.None?)
  {
    assert RequestOk(s, r);
  }

  lemma {:induction false} StepReturned(s: State, step: Step, c: nat)
    requires Locked(s) && Enabled(s, step) && Undisturbed(s, step, c) && ReturnedIn(s, c)
    ensures ReturnedIn(Do(s, step), c)
  {
    match step
    case Tick(_) =>
    case Begin(id, _) =>
      forall r | r in s.wire ensures r.client in s.clients { RequestKept(s, r); }
    case Serve(r, _) => assert RequestOk(s, r);
    case Act(id, action) =>
      if id == c { ActReturned(s, c, action); }
  }

  /** In every run: a client that was granted the slot and is through, neither dead nor
      interrupted outside the slot's body, has sent its release, unless it kept its mark. */
  lemma {:induction false} AlwaysReturned(states: seq<State>, steps: seq<Step>, n: nat, c: nat)
    requires Run(states, steps) && n < |states| && UndisturbedRun(states, steps, c, n)
    ensures ReturnedIn(states[n], c)
  {
    if n > 0 {
      AlwaysReturned(states, steps, n - 1, c);
      RunInvariant(states, steps, n - 1);
      assert Follows(states[n - 1], steps[n - 1], states[n - 1 + 1]);
      StepReturned(states[n - 1], steps[n - 1], c);
    }
  }

  /** The calls of a client. */
  function CallsOf(calls: seq<Call>, c: nat): nat {
    if calls == [] then 0
    else CallsOf(calls[..|calls| - 1], c) + if calls[|calls| - 1].client == c then 1 else 0
  }

  lemma {:induction false} SameCallers(a: seq<Call>, b: seq<Call>, c: nat)
    requires |a| == |b| && forall i :: 0 <= i < |a| ==> a[i].client == b[i].client
    ensures CallsOf(a, c) == CallsOf(b, c)
  {
    if a != [] { SameCallers(a[..|a| - 1], b[..|b| - 1], c); }
  }

  lemma {:induction false} CallerAdded(calls: seq<Call>, call: Call, c: nat)
    ensures CallsOf(calls + [call], c) == CallsOf(calls, c) + if call.client == c then 1 else 0
  {
    assert (calls + [call])[..|calls|] == calls;
  }

  lemma {:induction false} CallsCounted(s: State, step: Step, c: nat)
    requires Enabled(s, step)
    ensures CallsOf(Do(s, step).calls, c)
         == CallsOf(s.calls, c) + if step.Act? && step.id == c && step.action.StartCall? then 1 else 0
  {
    var t := Do(s, step);
    if step.Act? && step.action.StartCall? {
      CallerAdded(s.calls, Call(step.id, s.clients[step.id].policy, s.clock, None), c);
    } else {
      SameCallers(s.calls, t.calls, c);
    }
  }

  /** The client is not interrupted, and every call of its ends in a failure. */
  predicate OnlyFails(step: Step, c: nat) {
    step.Act? && step.id == c ==>
      !step.action.Die? && !step.action.Interrupt? && (step.action.EndCall? ==> step.action.outcome.Failed?)
  }

  /** How many calls a search has made by its phase, when all of them failed. */
  predicate Tried(k: Client, made: nat) {
    k.job.Search? ==>
      match k.phase
      case Sleeping(next, _) => made == next && !k.retained
      case Ready(next) => made == next && !k.retained
      case Calling(attempt, _) => made == attempt + 1 && !k.retained
      case Limited(_, _) => false
      case Dead => true
      case Begun => made == 0
      case Checked(_) => made == 0
      case AcquireSent => made == 0
      case Finished => made == 0 || made == k.job.retries + 1
      case _ => made == k.job.retries + 1
  }

  lemma {:induction false} ActTried(s: State, k: Client, c: nat, action: Action, made: nat)
    requires Regular(k) && Tried(k, made) && Allowed(k, action, s.clock) && OnlyFails(Act(c, action), c)
    ensures Tried(ClientAfter(s, k, action), if action.StartCall? then made + 1 else made)
  {
  }

  predicate TriedIn(s: State, c: nat) {
    if c in s.clients then Tried(s.clients[c], CallsOf(s.calls, c)) else CallsOf(s.calls, c) == 0
  }

  lemma {:induction false} StepTried(s: State, step: Step, c: nat)
    requires AllRegular(s) && Enabled(s, step) && OnlyFails(step, c) && TriedIn(s, c)
    ensures TriedIn(Do(s, step), c)
  {
    CallsCounted(s, step, c);
    if step.Act? && step.id == c { ActTried(s, s.clients[c], c, step.action, CallsOf(s.calls, c)); }
  }

  /** In every run: a search whose calls all fail makes `retries + 1` of them before it
      leaves, not one less and not one more. */
  lemma {:induction false} AllRetriesMade(states: seq<State>, steps: seq<Step>, n: nat, c: nat)
    requires Run(states, steps) && n < |states|
    requires forall i {:trigger steps[i]} :: 0 <= i < n ==> OnlyFails(steps[i], c)
    ensures TriedIn(states[n], c)
  {
    if n > 0 {
      AllRetriesMade(states, steps, n - 1, c);
      RunRegular(states, steps, n - 1);
      assert Follows(states[n - 1], steps[n - 1], states[n - 1 + 1]);
      StepTried(states[n - 1], steps[n - 1], c);
    }
  }

  // ----- what a reader of the entry is told -----

  /** Once an entry pins a policy, a client of the group with another revision or
      spacing is told so, in every later state. */
  lemma {:induction false} OtherPolicyToldSo(states: seq<State>, steps: seq<Step>, m: nat, n: nat, mine: Policy)
    requires Run(states, steps) && m <= n < |states| && mine.group in states[m].store
    requires var pin := Pinned(states[m].store[mine.group].value);
             pin.Some? && pin.value != (mine.revision, mine.spacing)
    ensures mine.group in states[n].store && CheckFree(states[n].store[mine.group].value, mine) == PolicyMismatch
  {
    PolicyPinned(states, steps, m, n, mine.group);
  }

  /** While a client with a name of 32 characters holds the group, others of its policy
      are told that it is busy. */
  lemma {:induction false} HeldIsBusy(states: seq<State>, steps: seq<Step>, n: nat, c: nat)
    requires Run(states, steps) && n < |states| && c in states[n].clients && InSlot(states[n].clients[c].phase)
    requires |states[n].clients[c].owner| == 32
    ensures var k := states[n].clients[c];
            k.policy.group in states[n].store && CheckFree(states[n].store[k.policy.group].value, k.policy) == Busy
  {
    RunInvariant(states, steps, n);
    assert ClientOk(states[n], states[n].clients[c]);
  }
}
