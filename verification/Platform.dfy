/** Contracts of the platform fallback: policies, attempts, results and their
    validators, and the store of channel observations. */
module Platform {
  import opened Common

  datatype Reason =
    | InvalidRequest | UnsupportedCapability | Unauthorized | NoBackend | ChainExhausted | DeadlineExceeded
    | Cancelled | RateLimited | EgressDenied | TrustFailed | InvalidResponse | NotFound
    | ConnectionFailed | Timeout | UpstreamUnavailable

  predicate Transient(r: Reason) { r == ConnectionFailed || r == Timeout || r == UpstreamUnavailable }

  predicate Terminal(r: Reason) {
    r == RateLimited || r == Unauthorized || r == EgressDenied || r == TrustFailed || r == InvalidResponse
        || r == NotFound
  }

  const MAX_BACKENDS := 4
  const MAX_ATTEMPTS := 8
  const MAX_TRIES := 2
  const MAX_MS := 30_000
  const MAX_RECORDS := 100
  const MAX_BYTES := 1_048_576
  const STATUS_ENTRIES := 256

  /** A backend of a capability, with the attempts its retry policy allows. */
  datatype Policy = Policy(backend: string, enabled: bool, maxAttempts: nat, retryLimit: nat)

  datatype Capability = Capability(policies: seq<Policy>)

  predicate Declared(c: Capability) {
    && 1 <= |c.policies| <= MAX_BACKENDS
    && (forall i, j :: 0 <= i < j < |c.policies| ==> c.policies[i].backend != c.policies[j].backend)
    && (forall i :: 0 <= i < |c.policies| ==>
        1 <= c.policies[i].maxAttempts <= MAX_TRIES && 1 <= c.policies[i].retryLimit)
  }

  datatype Failure = Failure(reason: Reason, httpStatus: Option<nat>, retryAfter: Option<nat>)

  /** `BackendFailure.__init__` */
  predicate FailureOk(f: Failure) {
    (f.httpStatus.Some? ==> 100 <= f.httpStatus.value <= 599) && (f.retryAfter.Some? ==> f.retryAfter.value <= MAX_MS)
  }

  /** `_failure_reason`: an HTTP refusal is never downgraded to a retryable failure. */
  function FailureReason(f: Failure): (r: Reason)
    ensures Transient(r) || Terminal(r)
    ensures f.httpStatus.Some? && 400 <= f.httpStatus.value < 500 && f.httpStatus.value != 408 ==> Terminal(r)
    ensures f.httpStatus == Some(429) ==> r == RateLimited
    ensures f.httpStatus.None? || f.httpStatus.value == 408 || !(400 <= f.httpStatus.value < 500) ==>
              r == if Transient(f.reason) || Terminal(f.reason) then f.reason else InvalidResponse
  {
    match f.httpStatus
    case Some(s) =>
      if s == 401 || s == 403 then Unauthorized
      else if s == 404 then NotFound
      else if s == 429 then RateLimited
      else if 400 <= s < 500 && s != 408 then InvalidResponse
      else if Transient(f.reason) || Terminal(f.reason) then f.reason
      else InvalidResponse
    case None => if Transient(f.reason) || Terminal(f.reason) then f.reason else InvalidResponse
  }

  datatype Attempt = Attempt(sequence: nat, backend: string, number: nat, ok: bool, reason: Option<Reason>,
                             startedAt: nat, elapsed: nat, retryAfter: Option<nat>, httpStatus: Option<nat>)

  /** The limits of `BackendAttempt`. */
  predicate AttemptOk(a: Attempt) {
    && 1 <= a.sequence <= MAX_ATTEMPTS && 1 <= a.number <= MAX_TRIES && a.elapsed <= MAX_MS
    && (a.ok <==> a.reason.None?)
    && (a.retryAfter.Some? ==> a.retryAfter.value <= MAX_MS)
    && (a.httpStatus.Some? ==> 100 <= a.httpStatus.value <= 599)
  }

  datatype SkipReason = Disabled | Unconfigured | Uncertified | Ineligible

  datatype Skipped = Skipped(backend: string, reason: SkipReason)

  /** A page, by the backends its records, continuation and provenance name. */
  datatype Page = Page(records: seq<string>, continuation: Option<string>, provenance: Option<string>, bytes: nat)

  datatype Health = Untested | NotEnabled | NotConfigured | Healthy | Unhealthy

  datatype BackendState = BackendState(backend: string, health: Health, reason: Option<Reason>, observedAt: Option<nat>)

  datatype ChannelHealth = ChannelHealthy | Degraded | Unavailable

  datatype Status = Status(selected: Option<string>, health: ChannelHealth, states: seq<BackendState>)

  datatype Outcome = Outcome(reason: Option<Reason>, page: Option<Page>, selected: Option<string>,
                             attempts: seq<Attempt>, skipped: seq<Skipped>, status: Option<Status>)

  // ----- the validators of a result -----

  /** `_check_outcome_shape` */
  predicate ShapeOk(r: Outcome) {
    if r.reason.None? then r.selected.Some? && r.page.Some? else r.page.None? && r.selected.None?
  }

  predicate Sequenced(attempts: seq<Attempt>) {
    forall i :: 0 <= i < |attempts| ==> attempts[i].sequence == i + 1
  }

  /** `_success_evidence_matches` */
  predicate EvidenceOk(selected: string, page: Page, attempts: seq<Attempt>) {
    && attempts != [] && attempts[|attempts| - 1].ok && attempts[|attempts| - 1].backend == selected
    && (forall i :: 0 <= i < |attempts| - 1 ==> !attempts[i].ok)
    && (forall i :: 0 <= i < |page.records| ==> page.records[i] == selected)
    && (page.continuation.None? || page.continuation == Some(selected))
    && (page.provenance.None? || page.provenance == Some(selected))
  }

  predicate ResultOk(r: Outcome) {
    && ShapeOk(r)
    && |r.attempts| <= MAX_ATTEMPTS && |r.skipped| <= MAX_BACKENDS && Sequenced(r.attempts)
    && (forall i :: 0 <= i < |r.attempts| ==> AttemptOk(r.attempts[i]))
    && (r.page.Some? ==> |r.page.value.records| <= MAX_RECORDS && r.page.value.bytes <= MAX_BYTES)
    && (if r.reason.None? then EvidenceOk(r.selected.value, r.page.value, r.attempts)
        else forall i :: 0 <= i < |r.attempts| ==> !r.attempts[i].ok)
  }

  // ----- the store of observations -----

  /** `_validate_observation` */
  predicate ObservationOk(c: Capability, attempts: seq<Attempt>, selected: Option<string>) {
    && attempts != [] && Sequenced(attempts)
    && (forall i :: 0 <= i < |attempts| ==>
        exists j :: 0 <= j < |c.policies| && c.policies[j].backend == attempts[i].backend)
    && (match selected
        case Some(s) => attempts[|attempts| - 1].ok && attempts[|attempts| - 1].backend == s
        case None => forall i :: 0 <= i < |attempts| ==> !attempts[i].ok)
  }

  /** The index of a backend's latest attempt. */
  function Latest(attempts: seq<Attempt>, backend: string): (found: Option<nat>)
    ensures found.Some? ==>
              && found.value < |attempts| && attempts[found.value].backend == backend
              && forall i :: found.value < i < |attempts| ==> attempts[i].backend != backend
    ensures found.None? ==> forall i :: 0 <= i < |attempts| ==> attempts[i].backend != backend
  {
    if attempts == [] then None
    else if attempts[|attempts| - 1].backend == backend then Some(|attempts| - 1)
    else Latest(attempts[..|attempts| - 1], backend)
  }

  predicate SkippedAs(skipped: seq<Skipped>, backend: string, reason: SkipReason) {
    exists i :: 0 <= i < |skipped| && skipped[i] == Skipped(backend, reason)
      && forall j :: 0 <= j < i ==> skipped[j].backend != backend
  }

  /** `_observed_state` */
  function ObservedState(p: Policy, attempts: seq<Attempt>, skipped: seq<Skipped>): BackendState {
    match Latest(attempts, p.backend)
    case Some(i) =>
      BackendState(p.backend, if attempts[i].ok then Healthy
          else Unhealthy, attempts[i].reason, Some(attempts[i].startedAt))
    case None =>
      var health := if !p.enabled then NotEnabled
                    else if SkippedAs(skipped, p.backend, Unconfigured) then NotConfigured else Untested;
      BackendState(p.backend, health, None, None)
  }

  function ChannelStatus(c: Capability, attempts: seq<Attempt>, selected: Option<string>, skipped: seq<Skipped>): Status
    requires c.policies != []
  {
    Status(selected,
           if selected.None? then Unavailable
           else if selected.value == c.policies[0].backend then ChannelHealthy else Degraded,
           seq(|c.policies|, i requires 0 <= i < |c.policies| => ObservedState(c.policies[i], attempts, skipped)))
  }

  /** `i` is the place of the backend's last attempt. */
  predicate LastOf(attempts: seq<Attempt>, backend: string, i: nat) {
    && i < |attempts| && attempts[i].backend == backend
    && forall j :: i < j < |attempts| ==> attempts[j].backend != backend
  }

  predicate Untried(attempts: seq<Attempt>, backend: string) {
    forall i :: 0 <= i < |attempts| ==> attempts[i].backend != backend
  }

  /** What the state of a backend says: its last attempt, if it has any, and
      otherwise why it has none. */
  ghost predicate StateMeans(p: Policy, attempts: seq<Attempt>, skipped: seq<Skipped>, s: BackendState) {
    && s.backend == p.backend
    && (s.health == Healthy <==> exists i: nat :: LastOf(attempts, p.backend, i) && attempts[i].ok)
    && (s.health == Unhealthy <==> exists i: nat :: LastOf(attempts, p.backend, i) && !attempts[i].ok)
    && (forall i: nat :: LastOf(attempts, p.backend, i) ==>
        s.reason == attempts[i].reason && s.observedAt == Some(attempts[i].startedAt))
    && (Untried(attempts, p.backend) ==> s.reason == None && s.observedAt == None)
    && (s.health == NotEnabled <==> Untried(attempts, p.backend) && !p.enabled)
    && (s.health == NotConfigured <==>
          && Untried(attempts, p.backend) && p.enabled
          && exists i :: 0 <= i < |skipped| && skipped[i] == Skipped(p.backend, Unconfigured)
               && forall j :: 0 <= j < i ==> skipped[j].backend != p.backend)
  }

  /** What a status says: every backend's state in policy order; the channel is
      healthy exactly when the first policy's backend was selected. */
  ghost predicate StatusMeans(c: Capability, attempts: seq<Attempt>, selected: Option<string>, skipped: seq<Skipped>,
      status: Status) {
    && c.policies != [] && |status.states| == |c.policies| && status.selected == selected
    && (forall j :: 0 <= j < |c.policies| ==> StateMeans(c.policies[j], attempts, skipped, status.states[j]))
    && (status.health == ChannelHealthy <==> selected == Some(c.policies[0].backend))
    && (status.health == Unavailable <==> selected == None)
  }

  lemma {:induction false} ObservedMeans(p: Policy, attempts: seq<Attempt>, skipped: seq<Skipped>)
    ensures StateMeans(p, attempts, skipped, ObservedState(p, attempts, skipped))
  {
    var found := Latest(attempts, p.backend);
    if found.Some? {
      assert LastOf(attempts, p.backend, found.value);
      forall i: nat | LastOf(attempts, p.backend, i) ensures i == found.value {}
    }
  }

  lemma {:induction false} StatusOf(c: Capability, attempts: seq<Attempt>, selected: Option<string>,
      skipped: seq<Skipped>)
    requires c.policies != []
    ensures StatusMeans(c, attempts, selected, skipped, ChannelStatus(c, attempts, selected, skipped))
  {
    forall j | 0 <= j < |c.policies|
      ensures StateMeans(c.policies[j], attempts, skipped, ChannelStatus(c, attempts, selected, skipped).states[j])
    {
      ObservedMeans(c.policies[j], attempts, skipped);
    }
  }

  predicate Unique(keys: seq<string>) {
    forall i, j :: 0 <= i < j < |keys| ==> keys[i] != keys[j]
  }

  function Without(keys: seq<string>, key: string): (rest: seq<string>)
    ensures |rest| <= |keys| && key !in rest && forall k :: k in rest <==> k in keys && k != key
  {
    if keys == [] then []
    else if keys[0] == key then Without(keys[1..], key)
    else [keys[0]] + Without(keys[1..], key)
  }

  lemma {:induction false} WithoutUnique(keys: seq<string>, key: string)
    requires Unique(keys)
    ensures Unique(Without(keys, key))
  {
    if keys != [] {
      WithoutUnique(keys[1..], key);
      var rest := Without(keys[1..], key);
      assert forall k :: k in rest ==> k in keys[1..];
      assert keys[0] !in keys[1..];
    }
  }

  /** The newest observations; a recorded key becomes the newest. */
  function Newest(keys: seq<string>, key: string): seq<string> {
    var moved := Without(keys, key) + [key];
    if |moved| > STATUS_ENTRIES then moved[|moved| - STATUS_ENTRIES..] else moved
  }

  class StatusStore {
    var order: seq<string>              // oldest first
    var entries: map<string, Status>

    ghost predicate Valid()
      reads this
    {
      Unique(order) && |order| <= STATUS_ENTRIES && forall k {:trigger k in entries} {:trigger k in order} ::
          k in entries <==> k in order
    }

    constructor ()
      ensures Valid() && order == []
    {
      order, entries := [], map[];
    }

    /** `record` */
    method Record(key: string, c: Capability, attempts: seq<Attempt>, selected: Option<string>, skipped: seq<Skipped>)
      returns (status: Result<Status>)
      requires Valid() && Declared(c)
      modifies this
      ensures Valid()
      ensures status.Ok? <==> ObservationOk(c, attempts, selected)
      ensures status.Ok? ==>
                && status.value == ChannelStatus(c, attempts, selected, skipped)
                && order == Newest(old(order), key) && key in entries && entries[key] == status.value
                && forall k :: k in entries && k != key ==> k in old(entries) && entries[k] == old(entries)[k]
      ensures status.Refused? ==> order == old(order) && entries == old(entries)
    {
      if !ObservationOk(c, attempts, selected) { return Refused; }
      var made := ChannelStatus(c, attempts, selected, skipped);
      Put(key, made);
      status := Ok(made);
    }

    /** The entry becomes the newest; beyond the limit the oldest goes. */
    method Put(key: string, made: Status)
      requires Valid()
      modifies this
      ensures Valid() && order == Newest(old(order), key) && key in entries && entries[key] == made
      ensures forall k :: k in entries && k != key ==> k in old(entries) && entries[k] == old(entries)[k]
    {
      var moved := Without(order, key) + [key];
      MoveToEnd(order, key);
      entries := entries[key := made];
      order := moved;
      if |moved| > STATUS_ENTRIES {
        DropOldest(moved, key);
        entries := entries - {moved[0]};
        order := moved[1..];
      }
    }
  }

  lemma {:induction false} DropOldest(keys: seq<string>, key: string)
    requires Unique(keys) && |keys| > 1 && keys[|keys| - 1] == key
    ensures Unique(keys[1..]) && keys[0] != key
    ensures forall k {:trigger k in keys[1..]} :: k in keys[1..] <==> k in keys && k != keys[0]
  {
    Distinct(keys);
    LastStays(keys, key);
  }

  lemma {:induction false} LastStays(keys: seq<string>, key: string)
    requires Unique(keys) && |keys| > 1 && keys[|keys| - 1] == key
    ensures keys[0] != key && key in keys[1..]
  {
    assert keys[1..][|keys| - 2] == key;
  }

  lemma {:induction false} MoveToEnd(keys: seq<string>, key: string)
    requires Unique(keys)
    ensures var moved := Without(keys, key) + [key];
            && Unique(moved) && moved[|moved| - 1] == key
            && forall k {:trigger k in moved} :: k in moved <==> k in keys || k == key
  {
    WithoutUnique(keys, key);
  }

  lemma {:induction false} Distinct(keys: seq<string>)
    requires Unique(keys) && keys != []
    ensures keys[0] !in keys[1..] && Unique(keys[1..])
    ensures forall k {:trigger k in keys} {:trigger k in keys[1..]} :: k in keys <==> k in keys[1..] || k == keys[0]
  {
    assert keys == [keys[0]] + keys[1..];
  }
}
