/** What every run of the shared quota keeps: one client in a slot per group, a
    pinned policy, spacing between provider calls, and no call after a slot that
    ended retained. */
module PaperQuotaSafety {
  import opened Common
  import opened PaperQuota

  // ----- the invariant -----

  /** The client's swap took effect and it never sent the swap back. */
  predicate Holds(k: Client) {
    k.granted.Some? && !k.releasing
  }

  /** Between the grant and the end of the slot's cleanup read. */
  predicate InSlot(p: Phase) {
    p.Sleeping? || p.Limited? || p.Ready? || p.Calling? || p.Leaving? || p.ReleaseChecked?
  }

  predicate StoreMatches(s: State) {
    && 0 !in s.written
    && forall g :: g in s.store ==>
      s.store[g].version in s.written && s.written[s.store[g].version] == s.store[g].value
  }

  predicate FreeAt(s: State, version: nat, policy: Policy) {
    version != 0 ==> version in s.written && s.written[version] == Free(policy)
  }

  predicate ClientOk(s: State, k: Client) {
    && (k.granted.Some? ==>
          k.granted.value in s.written && s.written[k.granted.value] == Encode(Named(k.owner), k.policy))
    && (Holds(k) ==> k.policy.group in s.store && s.store[k.policy.group].version == k.granted.value)
    && (InSlot(k.phase) ==> Holds(k))
    && (k.phase.Begun? || k.phase.Checked? ==> k.granted.None?)
    && (k.phase.Checked? ==> FreeAt(s, k.phase.expected, k.policy))
    && (k.releasing ==> k.granted.Some? && (k.phase.ReleaseSent? || k.phase.Finished? || k.phase.Dead?))
    && (k.retained ==> Holds(k) && !k.phase.ReleaseChecked?)
  }

  predicate RequestOk(s: State, r: Request) {
    && r.client in s.clients
    && var k := s.clients[r.client];
    match r.kind
    case Acquire => k.granted.None? && !k.phase.Begun? && !k.phase.Checked? && FreeAt(s, r.expected, k.policy)
    case Release => k.granted == Some(r.expected) && k.releasing
  }

  predicate OneAcquireEach(s: State) {
    forall r, q :: r in s.wire && q in s.wire && r.client == q.client && r.kind == q.kind == Acquire ==> r == q
  }

  predicate DistinctGrants(s: State) {
    forall c, d :: c in s.clients && d in s.clients ==>
      s.clients[c].granted.Some? ==> s.clients[c].granted == s.clients[d].granted ==> c == d
  }

  predicate Locked(s: State) {
    && StoreMatches(s)
    && (forall c :: c in s.clients ==> ClientOk(s, s.clients[c]))
    && (forall r :: r in s.wire ==> RequestOk(s, r))
    && OneAcquireEach(s)
    && DistinctGrants(s)
  }

  /** Holding the same group's lock means being the same client. */
  lemma {:induction false} OneHolder(s: State, c: nat, d: nat)
    requires Locked(s) && c in s.clients && d in s.clients
    requires Holds(s.clients[c]) && Holds(s.clients[d])
    requires s.clients[c].policy.group == s.clients[d].policy.group
    ensures c == d
  {
    assert ClientOk(s, s.clients[c]) && ClientOk(s, s.clients[d]);
  }

  lemma {:induction false} ActKeepsClientOk(s: State, k: Client, action: Action)
    requires StoreMatches(s) && ClientOk(s, k) && Allowed(k, action, s.clock)
    ensures ClientOk(s, ClientAfter(s, k, action))
    ensures ClientAfter(s, k, action).policy == k.policy && ClientAfter(s, k, action).granted == k.granted
    ensures ClientAfter(s, k, action).phase.Begun? ==> k.phase.Begun?
    ensures ClientAfter(s, k, action).phase.Checked? ==> k.phase.Begun? || k.phase.Checked?
    ensures k.releasing ==> ClientAfter(s, k, action).releasing
  {
  }

  lemma {:induction false} ActKeepsWire(s: State, id: nat, action: Action)
    requires Locked(s) && Enabled(s, Act(id, action))
    ensures forall q :: q in Do(s, Act(id, action)).wire ==> RequestOk(Do(s, Act(id, action)), q)
    ensures OneAcquireEach(Do(s, Act(id, action)))
  {
    var t := Do(s, Act(id, action));
    assert ClientOk(s, s.clients[id]);
    ActKeepsClientOk(s, s.clients[id], action);
    forall q | q in t.wire ensures RequestOk(t, q) {
      if q in s.wire { assert RequestOk(s, q); }
    }
    forall q | q in s.wire ensures RequestOk(s, q) {}
  }

  lemma {:induction false} ActKeepsLocked(s: State, id: nat, action: Action)
    requires Locked(s) && Enabled(s, Act(id, action))
    ensures Locked(Do(s, Act(id, action)))
  {
    var t := Do(s, Act(id, action));
    ActKeepsWire(s, id, action);
    assert ClientOk(s, s.clients[id]);
    ActKeepsClientOk(s, s.clients[id], action);
    forall c | c in t.clients ensures ClientOk(t, t.clients[c]) {
      if c != id { assert ClientOk(s, s.clients[c]); }
    }
  }

  lemma {:induction false} ServeKeepsLocked(s: State, r: Request, version: nat)
    requires Locked(s) && Enabled(s, Serve(r, version))
    ensures Locked(Do(s, Serve(r, version)))
  {
    assert RequestOk(s, r);
    var t := ServeRequest(s, r, version);
    forall c | c in t.clients ensures ClientOk(t, t.clients[c]) {
      assert ClientOk(s, s.clients[c]);
    }
    forall q | q in t.wire ensures RequestOk(t, q) {
      assert RequestOk(s, q);
    }
  }

  lemma {:induction false} StepKeepsLocked(s: State, step: Step)
    requires Locked(s) && Enabled(s, step)
    ensures Locked(Do(s, step))
  {
    match step
    case Serve(r, version) => ServeKeepsLocked(s, r, version);
    case Act(id, action) => ActKeepsLocked(s, id, action);
    case Tick(_) =>
      var t := Do(s, step);
      assert forall c :: c in t.clients ==> ClientOk(s, s.clients[c]);
      assert forall q :: q in t.wire ==> RequestOk(s, q);
    case Begin(id, k) =>
      var t := Do(s, step);
      assert forall c :: c in s.clients ==> ClientOk(s, s.clients[c]) && ClientOk(t, t.clients[c]);
      assert forall q :: q in t.wire ==> RequestOk(s, q) && RequestOk(t, q);
  }

  // ----- provider calls -----

  /** Every call of the group is over, and `moment` is a spacing later. */
  predicate SpacedBy(s: State, policy: Policy, moment: int) {
    forall i :: 0 <= i < |s.calls| && s.calls[i].policy.group == policy.group ==>
      s.calls[i].end.Some? && s.calls[i].end.value + policy.spacing <= moment
  }

  /** An open call belongs to a client that is still calling, or died calling. */
  predicate CallOk(s: State, i: nat)
    requires i < |s.calls|
  {
    var call := s.calls[i];
    && call.client in s.clients
    && var k := s.clients[call.client];
    && call.policy == k.policy
    && call.policy.group in s.store
    && Pinned(s.store[call.policy.group].value) == Some((call.policy.revision, call.policy.spacing))
    && (match call.end
        case Some(end) => end <= s.clock
        case None => Holds(k) && (k.phase.Dead? || (k.phase.Calling? && k.phase.call == i)))
  }

  predicate PhaseTimed(s: State, id: nat)
    requires id in s.clients
  {
    var k := s.clients[id];
    match k.phase
    case Sleeping(_, until) => SpacedBy(s, k.policy, until)
    case Limited(_, until) => SpacedBy(s, k.policy, until)
    case Ready(_) => SpacedBy(s, k.policy, s.clock)
    case Calling(_, call) => call < |s.calls| && s.calls[call].client == id && s.calls[call].end.None?
    case _ => true
  }

  /** Between two calls of a group the first one ends and then the spacing
      passes, so calls of a group neither overlap nor crowd. */
  predicate CallsSpaced(s: State) {
    forall i, j :: 0 <= i < j < |s.calls| && s.calls[i].policy.group == s.calls[j].policy.group ==>
      && s.calls[i].end.Some?
      && s.calls[i].end.value + s.calls[j].policy.spacing <= s.calls[j].start
  }

  predicate Timed(s: State) {
    && (forall i :: 0 <= i < |s.calls| ==> CallOk(s, i))
    && (forall c :: c in s.clients ==> PhaseTimed(s, c))
    && CallsSpaced(s)
  }

  /** A swap never changes the policy an entry pins, and never removes it. */
  lemma {:induction false} StepKeepsPinned(s: State, step: Step, group: string)
    requires Locked(s) && Enabled(s, step) && group in s.store
    ensures group in Do(s, step).store
    ensures Pinned(Do(s, step).store[group].value) == Pinned(s.store[group].value)
  {
    if step.Serve? {
      assert RequestOk(s, step.request);
      assert ClientOk(s, s.clients[step.request.client]);
    }
  }

  /** While `id` holds its group, only `id` itself can have a call open there. */
  lemma {:induction false} OtherCallsEnded(s: State, id: nat, i: nat)
    requires Locked(s) && Timed(s) && id in s.clients && Holds(s.clients[id]) && !s.clients[id].phase.Dead?
    requires i < |s.calls| && s.calls[i].policy.group == s.clients[id].policy.group
    ensures || (s.calls[i].end.Some? && s.calls[i].end.value <= s.clock)
            || (s.clients[id].phase.Calling? && s.clients[id].phase.call == i)
  {
    assert CallOk(s, i);
    if s.calls[i].end.None? { OneHolder(s, id, s.calls[i].client); }
  }

  /** The record of calls is untouched, or `d` opens a call, or `d` closes its own. */
  predicate CallsChange(s: State, t: State, d: nat) {
    && s.clock <= t.clock
    && (|| t.calls == s.calls
        || (&& d in s.clients && s.clients[d].phase.Ready?
            && t.calls == s.calls + [Call(d, s.clients[d].policy, s.clock, None)])
        || (&& d in s.clients && s.clients[d].phase.Calling? && s.clients[d].phase.call < |s.calls|
            && t.calls == s.calls[s.clients[d].phase.call := s.calls[s.clients[d].phase.call].(end := Some(s.clock))]))
  }

  /** What happens to the calls recorded so far when `d` acts. */
  lemma {:induction false} ActKeepsCallsOk(s: State, id: nat, action: Action)
    requires Locked(s) && Timed(s) && Enabled(s, Act(id, action))
    ensures var t := Do(s, Act(id, action));
            forall i :: 0 <= i < |t.calls| ==> CallOk(t, i)
  {
    var t := Do(s, Act(id, action));
    var k := s.clients[id];
    assert ClientOk(s, k) && PhaseTimed(s, id);
    ActKeepsClientOk(s, k, action);
    forall i | 0 <= i < |t.calls| ensures CallOk(t, i) {
      if i < |s.calls| { assert CallOk(s, i); }
    }
  }

  lemma {:induction false} StepKeepsCallsOk(s: State, step: Step)
    requires Locked(s) && Timed(s) && Enabled(s, step)
    ensures forall i :: 0 <= i < |Do(s, step).calls| ==> CallOk(Do(s, step), i)
  {
    if step.Act? {
      ActKeepsCallsOk(s, step.id, step.action);
    } else {
      if step.Serve? { assert RequestOk(s, step.request); }
      forall i | 0 <= i < |s.calls| ensures CallOk(Do(s, step), i) {
        assert CallOk(s, i);
        StepKeepsPinned(s, step, s.calls[i].policy.group);
      }
    }
  }

  /** A client that does not act keeps the spacing it waits for. */
  lemma {:induction false} BystanderTimed(s: State, t: State, c: nat, d: nat)
    requires Locked(s) && Timed(s) && CallsChange(s, t, d)
    requires c in s.clients && c in t.clients && (d == c ==> t.calls == s.calls)
    requires t.clients[c].phase == s.clients[c].phase && t.clients[c].policy == s.clients[c].policy
    ensures PhaseTimed(t, c)
  {
    assert PhaseTimed(s, c) && ClientOk(s, s.clients[c]);
    if t.calls != s.calls {
      assert PhaseTimed(s, d) && ClientOk(s, s.clients[d]);
      if s.clients[d].phase.Calling? { assert CallOk(s, s.clients[d].phase.call); }
      if InSlot(s.clients[c].phase) && s.clients[c].policy.group == s.clients[d].policy.group {
        OneHolder(s, c, d);
      }
    }
  }

  /** A holder whose calls are all over, its last one now, may sleep from now. */
  lemma {:induction false} HolderMaySleep(s: State, id: nat, action: Action, until: int)
    requires Locked(s) && Timed(s) && Enabled(s, Act(id, action)) && Holds(s.clients[id])
    requires action.ReceiveGrant? || action.EndCall?
    requires s.clock + s.clients[id].policy.spacing <= until
    ensures SpacedBy(Do(s, Act(id, action)), s.clients[id].policy, until)
  {
    var t := Do(s, Act(id, action));
    assert PhaseTimed(s, id);
    forall i | 0 <= i < |s.calls| && s.calls[i].policy.group == s.clients[id].policy.group
      ensures t.calls[i].end.Some? && t.calls[i].end.value <= s.clock
    {
      OtherCallsEnded(s, id, i);
    }
  }

  lemma {:induction false} ActorTimed(s: State, id: nat, action: Action)
    requires Locked(s) && Timed(s) && Enabled(s, Act(id, action))
    ensures PhaseTimed(Do(s, Act(id, action)), id)
  {
    var k := s.clients[id];
    assert PhaseTimed(s, id) && ClientOk(s, k);
    var l := ClientAfter(s, k, action);
    if (action.ReceiveGrant? || action.EndCall?) && (l.phase.Sleeping? || l.phase.Limited?) {
      HolderMaySleep(s, id, action, l.phase.until);
    }
  }

  lemma {:induction false} StepKeepsPhasesTimed(s: State, step: Step)
    requires Locked(s) && Timed(s) && Enabled(s, step)
    ensures forall c :: c in Do(s, step).clients ==> PhaseTimed(Do(s, step), c)
  {
    var t := Do(s, step);
    forall c | c in t.clients ensures PhaseTimed(t, c) {
      if step.Act? {
        assert PhaseTimed(s, step.id);
        if c == step.id { ActorTimed(s, c, step.action); } else { BystanderTimed(s, t, c, step.id); }
      } else if c in s.clients {
        BystanderTimed(s, t, c, c);
      }
    }
  }

  lemma {:induction false} ChangeKeepsCallsSpaced(s: State, t: State, d: nat)
    requires Timed(s) && CallsChange(s, t, d)
    ensures CallsSpaced(t)
  {
    if d in s.clients { assert PhaseTimed(s, d); }
  }

  lemma {:induction false} StepKeepsTimed(s: State, step: Step)
    requires Locked(s) && Timed(s) && Enabled(s, step)
    ensures Timed(Do(s, step))
  {
    StepKeepsCallsOk(s, step);
    StepKeepsPhasesTimed(s, step);
    if step.Act? { assert PhaseTimed(s, step.id); }
    ChangeKeepsCallsSpaced(s, Do(s, step), if step.Act? then step.id else 0);
  }

  // ----- theorems over runs -----

  lemma {:induction false} RunInvariant(states: seq<State>, steps: seq<Step>, n: nat)
    requires Run(states, steps) && n < |states|
    ensures Locked(states[n]) && Timed(states[n])
  {
    if n > 0 {
      RunInvariant(states, steps, n - 1);
      assert Follows(states[n - 1], steps[n - 1], states[n - 1 + 1]);
      StepKeepsLocked(states[n - 1], steps[n - 1]);
      StepKeepsTimed(states[n - 1], steps[n - 1]);
    }
  }

  /** At most one client is inside a slot of a credential group, whatever is lost. */
  lemma {:induction false} MutualExclusion(states: seq<State>, steps: seq<Step>, n: nat, c: nat, d: nat)
    requires Run(states, steps) && n < |states|
    requires c in states[n].clients && d in states[n].clients
    requires InSlot(states[n].clients[c].phase) && InSlot(states[n].clients[d].phase)
    requires states[n].clients[c].policy.group == states[n].clients[d].policy.group
    ensures c == d
  {
    RunInvariant(states, steps, n);
    var s := states[n];
    assert ClientOk(s, s.clients[c]) && ClientOk(s, s.clients[d]);
    OneHolder(s, c, d);
  }

  /** The first policy revision and spacing stored for a group are the ones
      every later entry of the group carries. */
  lemma {:induction false} PolicyPinned(states: seq<State>, steps: seq<Step>, m: nat, n: nat, group: string)
    requires Run(states, steps) && m <= n < |states| && group in states[m].store
    ensures group in states[n].store
    ensures Pinned(states[n].store[group].value) == Pinned(states[m].store[group].value)
    decreases n
  {
    if m < n {
      PolicyPinned(states, steps, m, n - 1, group);
      RunInvariant(states, steps, n - 1);
      assert Follows(states[n - 1], steps[n - 1], states[n - 1 + 1]);
      StepKeepsPinned(states[n - 1], steps[n - 1], group);
    }
  }

  /** Two calls of a group, by one client or by two, never overlap, and the
      group's pinned spacing passes between them. */
  lemma {:induction false} SpacingRespected(states: seq<State>, steps: seq<Step>, n: nat, i: nat, j: nat)
    requires Run(states, steps) && n < |states| && i < j < |states[n].calls|
    requires states[n].calls[i].policy.group == states[n].calls[j].policy.group
    ensures states[n].calls[i].end.Some?
    ensures states[n].calls[i].policy.group in states[n].store
    ensures var pin := Pinned(states[n].store[states[n].calls[i].policy.group].value);
            pin.Some? && states[n].calls[i].end.value + pin.value.1 <= states[n].calls[j].start
  {
    RunInvariant(states, steps, n);
    assert CallOk(states[n], i) && CallOk(states[n], j);
  }

  /** The client ended its request without giving the lock back: its slot was
      retained, its release failed, or it died. */
  predicate Kept(k: Client) {
    Holds(k) && (k.phase.Finished? || k.phase.Dead?)
  }

  /** From `s` to `t`, `c` keeps its lock and its group sees no new call. */
  predicate Quiet(s: State, t: State, c: nat) {
    && c in s.clients && c in t.clients && Kept(t.clients[c])
    && t.clients[c].policy == s.clients[c].policy
    && |s.calls| <= |t.calls|
    && forall i :: |s.calls| <= i < |t.calls| ==> t.calls[i].policy.group != s.clients[c].policy.group
  }

  /** A call starts only inside a slot, of which a group has one. */
  lemma {:induction false} CallElsewhere(s: State, id: nat, c: nat)
    requires Locked(s) && id in s.clients && c in s.clients && Kept(s.clients[c])
    requires InSlot(s.clients[id].phase)
    ensures s.clients[id].policy.group != s.clients[c].policy.group
  {
    assert ClientOk(s, s.clients[id]);
    if s.clients[id].policy.group == s.clients[c].policy.group { OneHolder(s, c, id); }
  }

  lemma {:induction false} StepKeepsQuiet(r: State, s: State, step: Step, t: State, c: nat)
    requires Quiet(r, s, c) && Locked(s) && Follows(s, step, t)
    ensures Quiet(r, t, c)
  {
    if step.Serve? { assert RequestOk(s, step.request); }
    if step.Act? && step.action.StartCall? { CallElsewhere(s, step.id, c); }
  }

  /** If the group of `c` was quiet so far, the next step keeps it quiet. */
  predicate QuietAt(states: seq<State>, m: nat, c: nat, i: nat) {
    m < |states| && i + 1 < |states| && (Quiet(states[m], states[i], c) ==> Quiet(states[m], states[i + 1], c))
  }

  lemma {:induction false} StepInRunQuiet(states: seq<State>, steps: seq<Step>, m: nat, c: nat, i: nat)
    requires Run(states, steps) && m < |states| && i < |steps|
    ensures QuietAt(states, m, c, i)
  {
    RunInvariant(states, steps, i);
    assert Follows(states[i], steps[i], states[i + 1]);
    if Quiet(states[m], states[i], c) { StepKeepsQuiet(states[m], states[i], steps[i], states[i + 1], c); }
  }

  lemma {:induction false} ChainQuiet(states: seq<State>, m: nat, n: nat, c: nat)
    requires m <= n < |states| && Quiet(states[m], states[m], c)
    requires forall i {:trigger QuietAt(states, m, c, i)} :: m <= i < n ==> QuietAt(states, m, c, i)
    ensures Quiet(states[m], states[n], c)
    decreases n
  {
    if m < n {
      ChainQuiet(states, m, n - 1, c);
      assert QuietAt(states, m, c, n - 1);
    }
  }

  /** Once a request ends holding the lock, no client of its group ever calls
      the provider again. */
  lemma {:induction false} NoCallAfterKept(states: seq<State>, steps: seq<Step>, m: nat, n: nat, c: nat)
    requires Run(states, steps) && m <= n < |states| && c in states[m].clients && Kept(states[m].clients[c])
    ensures Quiet(states[m], states[n], c)
  {
    forall i | m <= i < n ensures QuietAt(states, m, c, i) { StepInRunQuiet(states, steps, m, c, i); }
    ChainQuiet(states, m, n, c);
  }

  /** A slot that ends marked as retained is such a request. */
  lemma {:induction false} NoCallAfterRetained(states: seq<State>, steps: seq<Step>, m: nat, n: nat, c: nat)
    requires Run(states, steps) && m <= n < |states| && c in states[m].clients
    requires states[m].clients[c].retained && states[m].clients[c].phase.Finished?
    ensures |states[m].calls| <= |states[n].calls|
    ensures forall i :: |states[m].calls| <= i < |states[n].calls| ==>
      states[n].calls[i].policy.group != states[m].clients[c].policy.group
  {
    RunInvariant(states, steps, m);
    assert ClientOk(states[m], states[m].clients[c]);
    NoCallAfterKept(states, steps, m, n, c);
  }
}
