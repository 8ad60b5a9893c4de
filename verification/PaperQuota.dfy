/** The shared provider quota: a lock kept in a versioned key-value store.

    Any number of clients, on any number of hosts, run `request_slot`. Each one
    reads the entry of its credential group, checks that it is free, swaps its
    own name in, sleeps the policy's spacing, calls the provider (with retries
    inside the held slot) and finally reads and swaps the entry back.

    The model is a step machine. A swap request travels on a wire and may take
    effect long after its sender gave up, and a reply may be lost. Clients may
    be cancelled or may die at any step, and time passes between any two steps.
    Times are whole nanoseconds. */
module PaperQuota {
  import opened Common

  datatype Policy = Policy(group: string, revision: string, spacing: nat)

  // ----- stored values -----

  datatype Owner = NoOwner | Named(name: string) | OtherOwner

  /** What the bytes of an entry decode to. `canonical` records whether a
      well-formed record is byte for byte what `Encode` writes. */
  datatype Stored =
    | NotJson
    | OtherJson
    | OtherPolicy
    | Record(owner: Owner, revision: string, spacing: nat, canonical: bool)

  function Encode(owner: Owner, policy: Policy): Stored {
    Record(owner, policy.revision, policy.spacing, true)
  }

  function Free(policy: Policy): Stored { Encode(NoOwner, policy) }

  datatype Verdict = Admitted | Busy | Unavailable | PolicyMismatch

  function CheckFree(data: Stored, policy: Policy): Verdict {
    if data == Free(policy) then Admitted
    else if data.NotJson? || data.OtherJson? then Unavailable
    else if data.OtherPolicy? || data.revision != policy.revision || data.spacing != policy.spacing then PolicyMismatch
    else if !data.owner.Named? || |data.owner.name| != 32 then Unavailable
    else Busy
  }

  /** The policy an entry pins, when it holds a readable record. */
  function Pinned(data: Stored): Option<(string, nat)> {
    if data.Record? then Some((data.revision, data.spacing)) else None
  }

  // ----- states -----

  datatype Entry = Entry(version: nat, value: Stored)

  /** A search retries provider failures and rate limits; a download retries
      rate limits only, and marks its slot as soon as it sees the refusal. */
  datatype Job = Search(retries: nat) | Download

  function Attempts(job: Job): nat {
    match job
    case Search(retries) => retries + 1
    case Download => 3
  }

  datatype Phase =
    | Begun
    | Checked(expected: nat)                       // the read admitted an acquire
    | AcquireSent
    | Sleeping(next: nat, until: int)              // spacing before attempt `next`
    | Limited(next: nat, until: int)               // a provider delay; the slot is retained
    | Ready(next: nat)
    | Calling(attempt: nat, call: nat)
    | Leaving                                      // the body is over
    | ReleaseChecked
    | ReleaseSent
    | Finished
    | Dead

  datatype Client = Client(
    policy: Policy,
    owner: string,
    job: Job,
    deadline: int,
    phase: Phase,
    retained: bool,
    granted: Option<nat>,                          // the version its acquire swap wrote
    releasing: bool)                               // its release swap was sent

  datatype Kind = Acquire | Release

  datatype Request = Request(client: nat, kind: Kind, expected: nat)

  /** One provider call. The end stays open while the call runs. */
  datatype Call = Call(client: nat, policy: Policy, start: int, end: Option<int>)

  datatype State = State(
    clock: int,
    store: map<string, Entry>,
    written: map<nat, Stored>,                     // the value written at each version
    clients: map<nat, Client>,
    wire: set<Request>,
    calls: seq<Call>)

  // ----- steps -----

  datatype Outcome = Success | Failed | Fatal | RateLimited(retryAfter: Option<nat>)

  datatype Action =
    | ReadForAcquire
    | SendAcquire
    | ReceiveGrant
    | Wake
    | StartCall
    | SeeRateLimit
    | EndCall(outcome: Outcome)
    | Interrupt                                    // cancellation or any other exception
    | ReadForRelease
    | SendRelease
    | ReceiveRelease
    | Die

  datatype Step =
    | Tick(amount: nat)
    | Begin(id: nat, client: Client)
    | Serve(request: Request, version: nat)
    | Act(id: nat, action: Action)

  predicate Allowed(k: Client, action: Action, now: int) {
    match action
    case ReadForAcquire => k.phase.Begun?
    case SendAcquire => k.phase.Checked?
    case ReceiveGrant => k.phase.AcquireSent? && k.granted.Some?
    case Wake => (k.phase.Sleeping? || k.phase.Limited?) && k.phase.until <= now
    case StartCall => k.phase.Ready?
    case SeeRateLimit => k.phase.Calling? && k.job.Download?
    case EndCall(_) => k.phase.Calling?
    case Interrupt => !k.phase.Dead?
    case ReadForRelease => k.phase.Leaving?
    case SendRelease => k.phase.ReleaseChecked? && k.granted.Some?
    case ReceiveRelease => k.phase.ReleaseSent?
    case Die => true
  }

  /** The phase a read leads to when a client wants the slot. */
  function AfterRead(store: map<string, Entry>, policy: Policy): Phase {
    if policy.group !in store then Checked(0)
    else
      var entry := store[policy.group];
      if CheckFree(entry.value, policy) == Admitted then Checked(entry.version) else Finished
  }

  /** What `_retry_result`, `_rate_limit` and `_retry_download` do with the
      outcome of attempt `n`. */
  function AfterCall(k: Client, n: nat, outcome: Outcome, now: int): Client {
    var last := n + 1 >= Attempts(k.job);
    match outcome
    case Success => k.(phase := Leaving)
    case Fatal => k.(phase := Leaving)
    case Failed =>
      if last || k.job.Download? then k.(phase := Leaving)
      else k.(phase := Sleeping(n + 1, now + k.policy.spacing))
    case RateLimited(None) => k.(phase := Leaving, retained := true)
    case RateLimited(Some(after)) =>
      var delay := Max(after, k.policy.spacing);
      if delay >= k.deadline - now then k.(phase := Leaving, retained := true)
      else k.(phase := Limited(n + 1, now + delay), retained := true)
  }

  /** A provider delay that ran its course clears the mark, even after the last attempt. */
  function AfterWake(k: Client): Client {
    match k.phase
    case Sleeping(next, _) => k.(phase := Ready(next))
    case Limited(next, _) =>
      k.(phase := if next >= Attempts(k.job) then Leaving else Ready(next), retained := false)
    case _ => k
  }

  function AfterInterrupt(p: Phase): Phase {
    if p.Sleeping? || p.Limited? || p.Ready? || p.Calling? then Leaving else Finished
  }

  function AfterReleaseRead(store: map<string, Entry>, k: Client): Phase {
    var group := k.policy.group;
    if k.retained then Finished
    else if group in store && k.granted == Some(store[group].version)
            && store[group].value == Encode(Named(k.owner), k.policy)
    then ReleaseChecked
    else Finished
  }

  function ClientAfter(s: State, k: Client, action: Action): Client
    requires Allowed(k, action, s.clock)
  {
    match action
    case ReadForAcquire => k.(phase := AfterRead(s.store, k.policy))
    case SendAcquire => k.(phase := AcquireSent)
    case ReceiveGrant => k.(phase := Sleeping(0, s.clock + k.policy.spacing))
    case Wake => AfterWake(k)
    case StartCall => k.(phase := Calling(k.phase.next, |s.calls|))
    case SeeRateLimit => k.(retained := true)
    case EndCall(outcome) => AfterCall(k, k.phase.attempt, outcome, s.clock)
    case Interrupt => k.(phase := AfterInterrupt(k.phase))
    case ReadForRelease => k.(phase := AfterReleaseRead(s.store, k))
    case SendRelease => k.(phase := ReleaseSent, releasing := true)
    case ReceiveRelease => k.(phase := Finished)
    case Die => k.(phase := Dead)
  }

  function Sends(id: nat, k: Client, action: Action): set<Request> {
    if action.SendAcquire? && k.phase.Checked? then {Request(id, Acquire, k.phase.expected)}
    else if action.SendRelease? && k.granted.Some? then {Request(id, Release, k.granted.value)}
    else {}
  }

  function CallsAfter(s: State, id: nat, k: Client, action: Action): seq<Call> {
    if action.StartCall? then s.calls + [Call(id, k.policy, s.clock, None)]
    else if (action.EndCall? || action.Interrupt?) && k.phase.Calling? && k.phase.call < |s.calls| then
      s.calls[k.phase.call := s.calls[k.phase.call].(end := Some(s.clock))]
    else s.calls
  }

  predicate Current(s: State, group: string, expected: nat) {
    if group in s.store then s.store[group].version == expected else expected == 0
  }

  /** The store's compare-and-swap. An acquire that succeeds also leaves the
      granted version in its sender's mailbox. */
  function ServeRequest(s: State, r: Request, version: nat): State
    requires r.client in s.clients
  {
    var k := s.clients[r.client];
    var group := k.policy.group;
    var gone := s.(wire := s.wire - {r});
    if !Current(s, group, r.expected) then gone
    else
      var value := if r.kind == Acquire then Encode(Named(k.owner), k.policy) else Free(k.policy);
      gone.(store := s.store[group := Entry(version, value)],
            written := s.written[version := value],
            clients := if r.kind == Acquire
                       then s.clients[r.client := k.(granted := Some(version))]
                       else s.clients)
  }

  predicate Fresh(k: Client) {
    k.phase == Begun && !k.retained && k.granted.None? && !k.releasing
  }

  predicate Enabled(s: State, step: Step) {
    match step
    case Tick(_) => true
    case Begin(id, k) => id !in s.clients && Fresh(k)
    case Serve(r, version) =>
      r in s.wire && r.client in s.clients && version != 0 && version !in s.written
    case Act(id, action) => id in s.clients && Allowed(s.clients[id], action, s.clock)
  }

  function Do(s: State, step: Step): State
    requires Enabled(s, step)
  {
    match step
    case Tick(amount) => s.(clock := s.clock + amount)
    case Begin(id, k) => s.(clients := s.clients[id := k])
    case Serve(r, version) => ServeRequest(s, r, version)
    case Act(id, action) =>
      var k := s.clients[id];
      s.(clients := s.clients[id := ClientAfter(s, k, action)],
         wire := s.wire + Sends(id, k, action),
         calls := CallsAfter(s, id, k, action))
  }

  /** No client has started; the store may hold anything, at any versions. */
  predicate Initial(s: State) {
    && s.clients == map[] && s.wire == {} && s.calls == [] && 0 !in s.written
    && forall g :: g in s.store ==> s.store[g].version in s.written && s.written[s.store[g].version] == s.store[g].value
  }

  /** A run: every state follows from the one before by one enabled step. */
  ghost predicate Run(states: seq<State>, steps: seq<Step>) {
    && |states| == |steps| + 1
    && Initial(states[0])
    && forall i :: 0 <= i < |steps| ==> Follows(states[i], steps[i], states[i + 1])
  }

  predicate Follows(s: State, step: Step, t: State) {
    Enabled(s, step) && t == Do(s, step)
  }
}
