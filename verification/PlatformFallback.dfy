/** The ordered fallback over a capability's backends, with retries inside one
    deadline, cut off or broken at any await. */
module PlatformFallback {
  import opened Common
  import opened Platform

  // ----- what the outside may do -----

  type ValidFailure = f: Failure | FailureOk(f) witness Failure(Timeout, None, None)

  /** Admission of a backend, up to the check of its policy and schema. */
  datatype Admission = AdmissionStops(cut: bool) | Excluded(reason: SkipReason) | Admitted(trusted: bool)

  /** The check of a page in another process. */
  datatype Check = CheckStops(cut: bool) | CheckTimesOut | CheckFails | CheckPasses

  /** One backend call. A failure of the call itself is always caught; only the
      deadline gets through. */
  datatype Read = ReadCut | ReadFails(failure: ValidFailure) | Answers(page: Page, check: Check)

  datatype Sleep = Wakes | SleepStops(cut: bool)

  datatype Gate =
    | Unsupported | NotCaller | BadBinding
    | AuthorityStops(cut: bool) | NotAuthorized | ContinuationRefused | Authorized

  /** Everything outside the code, by backend and attempt number. */
  datatype World = World(
    gate: Gate,
    continuation: Option<string>,
    admission: nat -> Admission,
    read: (nat, nat) -> Read,
    startedAt: (nat, nat) -> nat,
    elapsed: (nat, nat) -> int,
    delayFits: (nat, nat) -> bool,
    sleep: (nat, nat) -> Sleep,
    cutElapsed: int)

  datatype Signal = Continue | Done(outcome: Outcome) | CutOff | Raised

  function Elapsed(ms: int): nat { if ms < 0 then 0 else if ms > MAX_MS then MAX_MS else ms }

  // ----- the trail of attempts -----

  /** A place in policy order: which backend, and which of its attempts. */
  type Mark = (nat, nat)

  predicate Retryable(a: Attempt) {
    a.reason.Some? && (Transient(a.reason.value) || (a.reason.value == RateLimited && a.retryAfter.Some?))
  }

  /** Neither limit of the policy is passed. */
  predicate Within(p: Policy, number: nat) { number <= p.maxAttempts && number <= p.retryLimit }

  /** The policy allows `number` attempts and not one more. */
  predicate Spent(p: Policy, number: nat) {
    Within(p, number) && (number == p.maxAttempts || number == p.retryLimit)
  }

  /** After `a`, made at `m`, the next attempt is made at `n`: the same backend
      again, or, after a transient failure of its last attempt, a later one. */
  predicate Follows(c: Capability, a: Attempt, m: Mark, n: Mark) {
    || (n.0 == m.0 && n.1 == m.1 + 1 && Retryable(a))
    || (n.0 > m.0 && n.1 == 1 && Leaves(c, a, m))
  }

  /** The failure `a`, made at `m`, lets the run go on to later backends. */
  predicate Leaves(c: Capability, a: Attempt, m: Mark) {
    m.0 < |c.policies| && Spent(c.policies[m.0], m.1) && a.reason.Some? && Transient(a.reason.value)
  }

  predicate Placed(c: Capability, a: Attempt, m: Mark, i: nat) {
    && m.0 < |c.policies| && a.backend == c.policies[m.0].backend
    && a.number == m.1 && 1 <= m.1 <= MAX_TRIES && a.sequence == i + 1 && Within(c.policies[m.0], m.1)
  }

  predicate Link(c: Capability, attempts: seq<Attempt>, marks: seq<Mark>, i: nat)
    requires |attempts| == |marks| && i + 1 < |marks|
  {
    Follows(c, attempts[i], marks[i], marks[i + 1])
  }

  ghost predicate Trail(c: Capability, attempts: seq<Attempt>, marks: seq<Mark>) {
    && |attempts| == |marks|
    && (forall i {:trigger marks[i]} :: 0 <= i < |marks| ==> Placed(c, attempts[i], marks[i], i))
    && (forall i {:trigger Link(c, attempts, marks, i)} :: 0 <= i < |marks| - 1 ==> Link(c, attempts, marks, i))
    && (marks != [] ==> marks[0].1 == 1)
  }

  predicate MayCome(c: Capability, attempts: seq<Attempt>, marks: seq<Mark>, m: Mark)
    requires |attempts| == |marks|
  {
    if marks == [] then m.1 == 1 else Follows(c, attempts[|attempts| - 1], marks[|marks| - 1], m)
  }

  /** Attempts never outnumber the places up to the last one. */
  lemma {:induction false} TrailBound(c: Capability, attempts: seq<Attempt>, marks: seq<Mark>, i: nat)
    requires Trail(c, attempts, marks) && i < |marks|
    ensures i + 1 <= MAX_TRIES * marks[i].0 + marks[i].1
  {
    if i > 0 {
      TrailBound(c, attempts, marks, i - 1);
      assert Link(c, attempts, marks, i - 1);
      assert Placed(c, attempts[i - 1], marks[i - 1], i - 1);
    }
  }

  lemma {:induction false} TrailSize(c: Capability, attempts: seq<Attempt>, marks: seq<Mark>)
    requires Declared(c) && Trail(c, attempts, marks)
    ensures |attempts| <= MAX_ATTEMPTS
  {
    if marks != [] {
      TrailBound(c, attempts, marks, |marks| - 1);
      assert Placed(c, attempts[|marks| - 1], marks[|marks| - 1], |marks| - 1);
    }
  }

  lemma {:induction false} TrailRoom(c: Capability, attempts: seq<Attempt>, marks: seq<Mark>, m: Mark)
    requires Declared(c) && Trail(c, attempts, marks) && MayCome(c, attempts, marks, m)
    requires m.0 < |c.policies| && 1 <= m.1 <= MAX_TRIES
    ensures |attempts| + 1 <= MAX_ATTEMPTS
  {
    if marks != [] { TrailBound(c, attempts, marks, |marks| - 1); }
  }

  lemma {:induction false} TrailMore(c: Capability, attempts: seq<Attempt>, marks: seq<Mark>, a: Attempt, m: Mark)
    requires Trail(c, attempts, marks) && MayCome(c, attempts, marks, m) && Placed(c, a, m, |attempts|)
    ensures Trail(c, attempts + [a], marks + [m])
  {
    var more, places := attempts + [a], marks + [m];
    forall i | 0 <= i < |places| - 1 ensures Link(c, more, places, i) {
      if i < |marks| - 1 { assert Link(c, attempts, marks, i); }
    }
    forall i | 0 <= i < |places| ensures Placed(c, more[i], places[i], i) {
      if i < |marks| { assert Placed(c, attempts[i], marks[i], i); }
    }
  }

  lemma {:induction false} TrailLess(c: Capability, attempts: seq<Attempt>, marks: seq<Mark>, n: nat)
    requires Trail(c, attempts, marks) && n <= |marks|
    ensures Trail(c, attempts[..n], marks[..n])
  {
    forall i | 0 <= i < n - 1 ensures Link(c, attempts[..n], marks[..n], i) { assert Link(c, attempts, marks, i); }
    forall i | 0 <= i < n
      ensures Placed(c, attempts[..n][i], marks[..n][i], i)
    {
      assert Placed(c, attempts[i], marks[i], i);
    }
  }

  // ----- the attempts each backend gets -----

  /** No limit of the backend's policy is passed. */
  predicate Allowed(c: Capability, a: Attempt) {
    forall j :: 0 <= j < |c.policies| && c.policies[j].backend == a.backend ==> Within(c.policies[j], a.number)
  }

  /** The backend's policy allows no attempt after this one. */
  predicate LastTry(c: Capability, a: Attempt) {
    forall j :: 0 <= j < |c.policies| && c.policies[j].backend == a.backend ==> Spent(c.policies[j], a.number)
  }

  /** Attempts of one backend are numbered on from 1, within its limits; another
      backend is called only after the last attempt allowed. */
  predicate TriesMade(c: Capability, attempts: seq<Attempt>) {
    && (forall i :: 0 <= i < |attempts| ==> Allowed(c, attempts[i]))
    && (attempts != [] ==> attempts[0].number == 1)
    && (forall i {:trigger attempts[i].backend} :: 0 <= i < |attempts| - 1 ==>
        if attempts[i + 1].backend == attempts[i].backend then attempts[i + 1].number == attempts[i].number + 1
        else attempts[i + 1].number == 1 && LastTry(c, attempts[i]))
  }

  lemma {:induction false} TrailTries(c: Capability, attempts: seq<Attempt>, marks: seq<Mark>)
    requires Declared(c) && Trail(c, attempts, marks)
    ensures TriesMade(c, attempts)
    ensures marks != [] && Leaves(c, attempts[|attempts| - 1], marks[|marks| - 1]) ==>
              LastTry(c, attempts[|attempts| - 1])
  {
    forall i | 0 <= i < |attempts| ensures Allowed(c, attempts[i]) { PlacedAllowed(c, attempts[i], marks[i], i); }
    forall i {:trigger attempts[i].backend} | 0 <= i < |attempts| - 1
      ensures if attempts[i + 1].backend == attempts[i].backend then attempts[i + 1].number == attempts[i].number + 1
              else attempts[i + 1].number == 1 && LastTry(c, attempts[i])
    {
      PlacedAllowed(c, attempts[i], marks[i], i);
      PlacedAllowed(c, attempts[i + 1], marks[i + 1], i + 1);
      assert Link(c, attempts, marks, i);
    }
    if marks != [] { PlacedAllowed(c, attempts[|marks| - 1], marks[|marks| - 1], |marks| - 1); }
  }

  lemma {:induction false} PlacedAllowed(c: Capability, a: Attempt, m: Mark, i: nat)
    requires Declared(c) && Placed(c, a, m, i)
    ensures Allowed(c, a)
    ensures Leaves(c, a, m) ==> LastTry(c, a)
    ensures forall j :: 0 <= j < |c.policies| && c.policies[j].backend == a.backend ==> j == m.0
  {
  }

  // ----- results -----

  ghost predicate GoodTrail(c: Capability, attempts: seq<Attempt>) {
    exists marks {:trigger Trail(c, attempts, marks)} :: Trail(c, attempts, marks)
  }

  /** Backend `j` was left out by the continuation, skipped, or tried. */
  predicate Accounted(c: Capability, continuation: Option<string>, attempts: seq<Attempt>, skipped: seq<Skipped>,
      j: nat)
    requires j < |c.policies|
  {
    var id := c.policies[j].backend;
    || (continuation.Some? && continuation.value != id)
    || (exists i :: 0 <= i < |skipped| && skipped[i].backend == id)
    || (exists i :: 0 <= i < |attempts| && attempts[i].backend == id)
  }

  ghost predicate AccountedBefore(c: Capability, continuation: Option<string>, attempts: seq<Attempt>,
      skipped: seq<Skipped>, b: nat) {
    b <= |c.policies| && forall j {:trigger Accounted(c, continuation, attempts, skipped, j)} ::
      0 <= j < b ==> Accounted(c, continuation, attempts, skipped, j)
  }

  lemma {:induction false} AccountedMore(c: Capability, continuation: Option<string>, attempts: seq<Attempt>,
      skipped: seq<Skipped>, b: nat, more: seq<Attempt>, extra: seq<Skipped>)
    requires AccountedBefore(c, continuation, attempts, skipped, b)
    ensures AccountedBefore(c, continuation, attempts + more, skipped + extra, b)
  {
    forall j | 0 <= j < b ensures Accounted(c, continuation, attempts + more, skipped + extra, j) {
      assert Accounted(c, continuation, attempts, skipped, j);
      var id := c.policies[j].backend;
      if i :| 0 <= i < |skipped| && skipped[i].backend == id { assert (skipped + extra)[i].backend == id; }
      if i :| 0 <= i < |attempts| && attempts[i].backend == id { assert (attempts + more)[i].backend == id; }
    }
  }

  /** A result that passes every validator, whose attempts follow policy order; a
      success comes after every earlier backend was accounted for. */
  ghost predicate Good(c: Capability, continuation: Option<string>, r: Outcome) {
    && ResultOk(r) && GoodTrail(c, r.attempts)
    && (r.status.Some? ==> c.policies != [] && r.status.value == ChannelStatus(c, r.attempts, r.selected, r.skipped))
    && (r.reason.None? ==> exists b: nat :: b < |c.policies| && r.selected == Some(c.policies[b].backend)
                             && AccountedBefore(c, continuation, r.attempts, r.skipped, b))
    && (r.reason == Some(ChainExhausted) || r.reason == Some(NoBackend) ==>
          AccountedBefore(c, continuation, r.attempts, r.skipped, |c.policies|))
    && (r.reason == Some(ChainExhausted) ==> r.attempts != [] && LastTry(c, r.attempts[|r.attempts| - 1]))
  }

  function Refusal(reason: Reason, attempts: seq<Attempt>, skipped: seq<Skipped>): Outcome {
    Outcome(Some(reason), None, None, attempts, skipped, None)
  }

  // ----- what a run comes to, without placeholders -----

  function Most(p: Policy): nat { if p.maxAttempts < p.retryLimit then p.maxAttempts else p.retryLimit }

  /** The attempt recorded for a failure, for the call in flight, for a success. */
  function FailedAttempt(w: World, c: Capability, m: Mark, n: nat, f: Failure): Attempt
    requires m.0 < |c.policies|
  {
    Attempt(n + 1, c.policies[m.0].backend, m.1, false, Some(FailureReason(f)), w.startedAt(m.0, m.1),
            Elapsed(w.elapsed(m.0, m.1)), f.retryAfter, f.httpStatus)
  }

  function Placeholder(w: World, c: Capability, m: Mark, n: nat): Attempt
    requires m.0 < |c.policies|
  {
    FailedAttempt(w, c, m, n, Failure(Timeout, None, None)).(elapsed := 0)
  }

  function Made(w: World, c: Capability, m: Mark, page: Page, attempts: seq<Attempt>, skipped: seq<Skipped>): Outcome
    requires m.0 < |c.policies|
  {
    var id := c.policies[m.0].backend;
    var a := Attempt(|attempts| + 1, id, m.1, true, None, w.startedAt(m.0, m.1), Elapsed(w.elapsed(m.0, m.1)), None,
        None);
    Outcome(None, Some(page), Some(id), attempts + [a], skipped, None)
  }

  datatype Call = CallCut | CallBreaks | CallYields(page: Page) | CallErrs(failure: ValidFailure)

  /** What one backend call comes to: a page counts only if its result is valid. */
  function CallOf(w: World, c: Capability, m: Mark, attempts: seq<Attempt>, skipped: seq<Skipped>): Call
    requires m.0 < |c.policies|
  {
    match w.read(m.0, m.1)
    case ReadCut => CallCut
    case ReadFails(f) => CallErrs(f)
    case Answers(page, check) =>
      match check
      case CheckStops(cut) => if cut then CallCut else CallBreaks
      case CheckTimesOut => CallErrs(Failure(Timeout, None, None))
      case CheckFails => CallErrs(Failure(InvalidResponse, None, None))
      case CheckPasses =>
        if ResultOk(Made(w, c, m, page, attempts, skipped)) then CallYields(page)
        else CallErrs(Failure(InvalidResponse, None, None))
  }

  /** How a run ends. */
  datatype End =
    | Succeeds(outcome: Outcome)
    | Refuses(reason: Reason, attempts: seq<Attempt>, skipped: seq<Skipped>)
    | CutAt(attempts: seq<Attempt>, skipped: seq<Skipped>, inflight: bool)
    | BreaksAt(attempts: seq<Attempt>, skipped: seq<Skipped>)

  datatype Move = GoOn | Refuse(reason: Reason) | Sleeps

  /** After a failed attempt: retry after a delay, go on at once, or refuse. */
  function MoveAfter(w: World, m: Mark, most: nat, f: ValidFailure): Move {
    var reason, more := FailureReason(f), m.1 < most;
    if reason == RateLimited && more && f.retryAfter.Some?
    then if w.delayFits(m.0, m.1) then Sleeps else Refuse(RateLimited)
    else if !Transient(reason) then Refuse(reason)
    else if more then if w.delayFits(m.0, m.1) then Sleeps else Refuse(DeadlineExceeded)
    else GoOn
  }

  function FromTry(w: World, c: Capability, m: Mark, attempts: seq<Attempt>, skipped: seq<Skipped>): End
    requires m.0 < |c.policies|
    decreases |c.policies| - m.0, 1, if m.1 > Most(c.policies[m.0]) then 0 else Most(c.policies[m.0]) + 1 - m.1, 1
  {
    var most := Most(c.policies[m.0]);
    if m.1 > most then FromBackend(w, c, m.0 + 1, attempts, skipped)
    else
      match CallOf(w, c, m, attempts, skipped)
      case CallCut => CutAt(attempts + [Placeholder(w, c, m, |attempts|)], skipped, true)
      case CallBreaks => BreaksAt(attempts + [Placeholder(w, c, m, |attempts|)], skipped)
      case CallYields(page) => Succeeds(Made(w, c, m, page, attempts, skipped))
      case CallErrs(f) => FromError(w, c, m, attempts + [FailedAttempt(w, c, m, |attempts|, f)], skipped, f)
  }

  function FromError(w: World, c: Capability, m: Mark, attempts: seq<Attempt>, skipped: seq<Skipped>,
      f: ValidFailure): End
    requires m.0 < |c.policies| && m.1 <= Most(c.policies[m.0])
    decreases |c.policies| - m.0, 1, Most(c.policies[m.0]) + 1 - m.1, 0
  {
    match MoveAfter(w, m, Most(c.policies[m.0]), f)
    case Refuse(reason) => Refuses(reason, attempts, skipped)
    case GoOn => FromTry(w, c, (m.0, m.1 + 1), attempts, skipped)
    case Sleeps =>
      match w.sleep(m.0, m.1)
      case Wakes => FromTry(w, c, (m.0, m.1 + 1), attempts, skipped)
      case SleepStops(cut) => if cut then CutAt(attempts, skipped, false) else BreaksAt(attempts, skipped)
  }

  function FromBackend(w: World, c: Capability, b: nat, attempts: seq<Attempt>, skipped: seq<Skipped>): End
    requires b <= |c.policies|
    decreases |c.policies| - b, 2, 0 as nat, 0
  {
    if b == |c.policies| then Refuses(if attempts != [] then ChainExhausted else NoBackend, attempts, skipped)
    else
      var p := c.policies[b];
      if w.continuation.Some? && w.continuation.value != p.backend then FromBackend(w, c, b + 1, attempts, skipped)
      else if !p.enabled then FromBackend(w, c, b + 1, attempts, skipped + [Skipped(p.backend, Disabled)])
      else
        match w.admission(b)
        case AdmissionStops(cut) => if cut then CutAt(attempts, skipped, false) else BreaksAt(attempts, skipped)
        case Excluded(reason) => FromBackend(w, c, b + 1, attempts, skipped + [Skipped(p.backend, reason)])
        case Admitted(trusted) =>
          if trusted then FromTry(w, c, (b, 1), attempts, skipped) else Refuses(TrustFailed, attempts, skipped)
  }

  /** The result of `execute`, but for the channel status. */
  function Expected(w: World, c: Capability): Outcome {
    match w.gate
    case Unsupported => Refusal(UnsupportedCapability, [], [])
    case NotCaller => Refusal(Unauthorized, [], [])
    case NotAuthorized => Refusal(Unauthorized, [], [])
    case BadBinding => Refusal(InvalidRequest, [], [])
    case ContinuationRefused => Refusal(InvalidRequest, [], [])
    case AuthorityStops(cut) => Refusal(if cut then DeadlineExceeded else TrustFailed, [], [])
    case Authorized =>
      match FromBackend(w, c, 0, [], [])
      case Succeeds(outcome) => outcome
      case Refuses(reason, attempts, skipped) => Refusal(reason, attempts, skipped)
      case CutAt(attempts, skipped, inflight) => Refusal(DeadlineExceeded, Timed(w, attempts, inflight), skipped)
      case BreaksAt(attempts, skipped) => Refusal(TrustFailed, attempts, skipped)
  }

  function Timed(w: World, attempts: seq<Attempt>, inflight: bool): seq<Attempt> {
    if attempts != [] && inflight
    then attempts[|attempts| - 1 := attempts[|attempts| - 1].(elapsed := Elapsed(w.cutElapsed))]
    else attempts
  }

  /** A signal that ends the run agrees with how the run is to end. */
  predicate Ends(signal: Signal, end: End, attempts: seq<Attempt>, skipped: seq<Skipped>, inflight: bool) {
    match signal
    case Continue => false
    case CutOff => end == CutAt(attempts, skipped, inflight)
    case Raised => end == BreaksAt(attempts, skipped)
    case Done(o) =>
      match end
      case Succeeds(made) => o.(status := None) == made && o.reason.None? && o.status.Some?
      case Refuses(reason, a, s) =>
        && o.(status := None) == Refusal(reason, a, s)
        && (o.status.Some? <==> a != [] && reason != Unauthorized && reason != TrustFailed)
      case _ => false
  }

  /** A signal after a failure agrees with the move to be made. */
  predicate Moves(signal: Signal, move: Move, sleep: Sleep, attempts: seq<Attempt>, skipped: seq<Skipped>) {
    match move
    case Refuse(reason) =>
      && signal.Done? && signal.outcome.(status := None) == Refusal(reason, attempts, skipped)
      && (signal.outcome.status.Some? <==> reason != Unauthorized && reason != TrustFailed)
    case GoOn => signal == Continue
    case Sleeps => signal == match sleep case Wakes => Continue case SleepStops(cut) => if cut then CutOff else Raised
  }

  // ----- the run -----

  class Runner {
    const c: Capability
    const world: World
    const key: string
    const store: StatusStore
    var attempts: seq<Attempt>
    var skipped: seq<Skipped>
    var inflight: Option<nat>
    ghost var marks: seq<Mark>

    ghost predicate Valid()
      reads this, store
    {
      && Declared(c) && store.Valid() && Trail(c, attempts, marks) && |skipped| <= MAX_BACKENDS
      && (forall i :: 0 <= i < |attempts| ==> AttemptOk(attempts[i]) && !attempts[i].ok)
      && (inflight.Some? ==> attempts != [])
    }

    constructor (c: Capability, world: World, key: string, store: StatusStore)
      requires Declared(c) && store.Valid()
      ensures Valid() && this.c == c && this.world == world && this.store == store
      ensures attempts == [] && skipped == [] && inflight == None
    {
      this.c, this.world, this.key, this.store := c, world, key, store;
      attempts, skipped, inflight, marks := [], [], None, [];
    }

    /** `_refused`, over the attempts made so far; its validators always pass. */
    method Refuse(reason: Reason) returns (outcome: Outcome)
      requires Valid()
      requires reason == ChainExhausted ==> attempts != [] && LastTry(c, attempts[|attempts| - 1])
      requires reason == ChainExhausted || reason == NoBackend ==>
          AccountedBefore(c, world.continuation, attempts, skipped, |c.policies|)
      ensures outcome == Refusal(reason, attempts, skipped) && Good(c, world.continuation, outcome)
    {
      TrailSize(c, attempts, marks);
      outcome := Refusal(reason, attempts, skipped);
      forall i | 0 <= i < |attempts|
        ensures attempts[i].sequence == i + 1
      {
        assert Placed(c, attempts[i], marks[i], i);
      }
    }

    /** `_observed_refusal`; the store never rejects the observation. */
    method ObservedRefusal(reason: Reason) returns (outcome: Outcome)
      requires Valid()
      requires reason == ChainExhausted ==> attempts != [] && LastTry(c, attempts[|attempts| - 1])
      requires reason == ChainExhausted || reason == NoBackend ==>
          AccountedBefore(c, world.continuation, attempts, skipped, |c.policies|)
      modifies store
      ensures Valid() && Good(c, world.continuation, outcome) && outcome.reason == Some(reason)
      ensures outcome.(status := None) == Refusal(reason, attempts, skipped)
      ensures outcome.status.Some? <==> attempts != [] && reason != Unauthorized && reason != TrustFailed
    {
      outcome := Refuse(reason);
      if attempts != [] && reason != Unauthorized && reason != TrustFailed {
        var status := Observe();
        outcome := outcome.(status := Some(status));
      }
    }

    /** The attempts, none of them a success, go to the store. */
    method Observe() returns (status: Status)
      requires Valid() && attempts != []
      modifies store
      ensures Valid() && status == ChannelStatus(c, attempts, None, skipped)
    {
      Observable(None);
      var recorded := store.Record(key, c, attempts, None, skipped);
      status := recorded.value;
    }

    lemma {:induction false} Observable(selected: Option<string>)
      requires Valid() && attempts != [] && selected == None
      ensures ObservationOk(c, attempts, selected)
    {
      forall i | 0 <= i < |attempts|
        ensures attempts[i].sequence == i + 1
            && exists j :: 0 <= j < |c.policies| && c.policies[j].backend == attempts[i].backend
      {
        assert Placed(c, attempts[i], marks[i], i);
      }
    }

    /** A backend call that went wrong is recorded at its place. */
    method RecordFailure(b: nat, k: nat, failure: ValidFailure)
      requires Valid() && inflight == None && b < |c.policies| && 1 <= k && Within(c.policies[b], k)
          && MayCome(c, attempts, marks, (b, k))
      modifies this`attempts, this`marks
      ensures Valid() && marks == old(marks) + [(b, k)] && |attempts| == |old(attempts)| + 1
      ensures attempts == old(attempts) + [FailedAttempt(world, c, (b, k), |old(attempts)|, failure)]
    {
      TrailRoom(c, attempts, marks, (b, k));
      var a := FailedAttempt(world, c, (b, k), |attempts|, failure);
      TrailMore(c, attempts, marks, a, (b, k));
      attempts := attempts + [a];
      marks := marks + [(b, k)];
    }

    /** The placeholder of the call in flight. */
    method Begin(b: nat, k: nat)
      requires Valid() && inflight == None && b < |c.policies| && 1 <= k && Within(c.policies[b], k)
          && MayCome(c, attempts, marks, (b, k))
      modifies this`attempts, this`marks, this`inflight
      ensures Valid() && inflight.Some? && marks == old(marks) + [(b, k)]
      ensures attempts == old(attempts) + [Placeholder(world, c, (b, k), |old(attempts)|)]
    {
      RecordFailure(b, k, Failure(Timeout, None, None));
      var last := |attempts| - 1;
      ghost var before := attempts;
      attempts := attempts[last := attempts[last].(elapsed := 0)];
      inflight := Some(world.startedAt(b, k));
      SameTrail(c, before, attempts, marks);
    }

    method Pop()
      requires Valid() && inflight.Some?
      modifies this`attempts, this`marks, this`inflight
      ensures Valid() && inflight == None
      ensures attempts == old(attempts)[..|old(attempts)| - 1] && marks == old(marks)[..|old(marks)| - 1]
    {
      TrailLess(c, attempts, marks, |marks| - 1);
      attempts := attempts[..|attempts| - 1];
      marks := marks[..|marks| - 1];
      inflight := None;
    }

    /** The result of a page, unless its validators refuse it; its observation is
        never rejected. */
    method Succeed(b: nat, k: nat, page: Page) returns (outcome: Option<Outcome>)
      requires Valid() && inflight == None && b < |c.policies| && 1 <= k && Within(c.policies[b], k)
          && MayCome(c, attempts, marks, (b, k))
      requires AccountedBefore(c, world.continuation, attempts, skipped, b)
      modifies store
      ensures Valid()
      ensures outcome.Some? <==> ResultOk(Made(world, c, (b, k), page, attempts, skipped))
      ensures outcome.Some? ==>
                && Good(c, world.continuation, outcome.value) && outcome.value.status.Some?
                && outcome.value.(status := None) == Made(world, c, (b, k), page, attempts, skipped)
    {
      var id := c.policies[b].backend;
      var made := Made(world, c, (b, k), page, attempts, skipped);
      if !ResultOk(made) { return None; }
      SuccessHolds(b, k, page);
      var status := store.Record(key, c, made.attempts, Some(id), skipped);
      outcome := Some(made.(status := Some(status.value)));
    }

    /** What makes a success good. */
    lemma {:induction false} SuccessHolds(b: nat, k: nat, page: Page)
      requires Valid() && inflight == None && b < |c.policies| && 1 <= k && Within(c.policies[b], k)
          && MayCome(c, attempts, marks, (b, k))
      requires AccountedBefore(c, world.continuation, attempts, skipped, b)
      ensures var made := Made(world, c, (b, k), page, attempts, skipped);
              && ObservationOk(c, made.attempts, Some(c.policies[b].backend))
              && Trail(c, made.attempts, marks + [(b, k)])
              && AccountedBefore(c, world.continuation, made.attempts, made.skipped, b)
    {
      var made := Made(world, c, (b, k), page, attempts, skipped);
      var a := made.attempts[|attempts|];
      TrailMore(c, attempts, marks, a, (b, k));
      AccountedMore(c, world.continuation, attempts, skipped, b, [a], []);
      assert skipped + [] == skipped;
      SuccessObservable(c, made.attempts, marks + [(b, k)], c.policies[b].backend);
    }

    /** `_validated`: the page is checked, and on success the placeholder goes. */
    method Validated(b: nat, k: nat, page: Page, check: Check) returns (signal: Signal, failure: ValidFailure)
      requires Valid() && inflight.Some? && b < |c.policies| && 1 <= k && Within(c.policies[b], k)
      requires marks != [] && MayCome(c, attempts[..|attempts| - 1], marks[..|marks| - 1], (b, k))
      requires AccountedBefore(c, world.continuation, attempts[..|attempts| - 1], skipped, b)
      requires world.read(b, k) == Answers(page, check)
      modifies this`attempts, this`marks, this`inflight, store
      ensures Valid()
      ensures signal.Done? ==> Good(c, world.continuation, signal.outcome) && signal.outcome.status.Some?
      ensures match CallOf(world, c, (b, k), old(attempts)[..|old(attempts)| - 1], skipped)
              case CallCut => signal == CutOff && attempts == old(attempts) && inflight.Some?
              case CallBreaks => signal == Raised && attempts == old(attempts) && inflight.Some?
              case CallYields(_) =>
                signal.Done? && signal.outcome.(status := None)
                    == Made(world, c, (b, k), page, old(attempts)[..|old(attempts)| - 1], skipped)
              case CallErrs(f) =>
                && signal.Continue? && failure == f
                && (|| (attempts == old(attempts) && marks == old(marks) && inflight.Some?)
                    || (attempts == old(attempts)[..|old(attempts)| - 1] && marks == old(marks)[..|old(marks)| - 1]
                        && inflight == None))
    {
      failure := Failure(InvalidResponse, None, None);
      match check
      case CheckStops(cut) => signal := if cut then CutOff else Raised;
      case CheckTimesOut => signal, failure := Continue, Failure(Timeout, None, None);
      case CheckFails => signal := Continue;
      case CheckPasses =>
        Pop();
        var outcome := Succeed(b, k, page);
        signal := if outcome.Some? then Done(outcome.value) else Continue;
    }

    /** The last attempt failed at `(b, k)`, in a way that lets the run go on. */
    ghost predicate MayGoOn(b: nat, k: nat, most: nat)
      reads this
    {
      && inflight == None && |marks| == |attempts| && marks != [] && marks[|marks| - 1] == (b, k)
      && Retryable(attempts[|attempts| - 1])
      && (k >= most ==> Transient(attempts[|attempts| - 1].reason.value))
    }

    method Rest(b: nat, k: nat) returns (signal: Signal)
      ensures signal == match world.sleep(b, k)
                        case Wakes => Continue
                        case SleepStops(cut) => if cut then CutOff else Raised
    {
      match world.sleep(b, k)
      case Wakes => signal := Continue;
      case SleepStops(cut) => signal := if cut then CutOff else Raised;
    }

    /** `_after_failure` */
    method AfterFailure(b: nat, k: nat, most: nat, failure: ValidFailure) returns (signal: Signal)
      requires Valid() && inflight == None && marks != [] && marks[|marks| - 1] == (b, k)
      requires attempts[|attempts| - 1].reason == Some(FailureReason(failure))
      requires attempts[|attempts| - 1].retryAfter == failure.retryAfter
      modifies store
      ensures Valid()
      ensures signal.Done? ==> Good(c, world.continuation, signal.outcome)
      ensures signal.Continue? ==> MayGoOn(b, k, most)
      ensures Moves(signal, MoveAfter(world, (b, k), most, failure), world.sleep(b, k), attempts, skipped)
    {
      var reason, more := FailureReason(failure), k < most;
      if reason == RateLimited && more && failure.retryAfter.Some? {
        if !world.delayFits(b, k) {
          var refused := ObservedRefusal(RateLimited);
          return Done(refused);
        }
        signal := Rest(b, k);
        return;
      }
      if !Transient(reason) {
        var refused := ObservedRefusal(reason);
        return Done(refused);
      }
      if more {
        if !world.delayFits(b, k) {
          var refused := ObservedRefusal(DeadlineExceeded);
          return Done(refused);
        }
        signal := Rest(b, k);
        return;
      }
      signal := Continue;
    }

    /** What the backend answers to the call in flight. */
    method Hear(b: nat, k: nat) returns (signal: Signal, failure: ValidFailure)
      requires Valid() && inflight.Some? && b < |c.policies| && 1 <= k && Within(c.policies[b], k)
      requires marks != [] && MayCome(c, attempts[..|attempts| - 1], marks[..|marks| - 1], (b, k))
      requires AccountedBefore(c, world.continuation, attempts[..|attempts| - 1], skipped, b)
      modifies this`attempts, this`marks, this`inflight, store
      ensures Valid()
      ensures signal.Done? ==> Good(c, world.continuation, signal.outcome) && signal.outcome.status.Some?
      ensures match CallOf(world, c, (b, k), old(attempts)[..|old(attempts)| - 1], skipped)
              case CallCut => signal == CutOff && attempts == old(attempts) && inflight.Some?
              case CallBreaks => signal == Raised && attempts == old(attempts) && inflight.Some?
              case CallYields(page) =>
                && signal.Done?
                && signal.outcome.(status := None)
                    == Made(world, c, (b, k), page, old(attempts)[..|old(attempts)| - 1], skipped)
              case CallErrs(f) =>
                && signal.Continue? && failure == f
                && (|| (attempts == old(attempts) && marks == old(marks) && inflight.Some?)
                    || (attempts == old(attempts)[..|old(attempts)| - 1] && marks == old(marks)[..|old(marks)| - 1]
                        && inflight == None))
    {
      failure := Failure(InvalidResponse, None, None);
      match world.read(b, k)
      case ReadCut => signal := CutOff;
      case ReadFails(f) => signal, failure := Continue, f;
      case Answers(page, check) => signal, failure := Validated(b, k, page, check);
    }

    /** One call, its placeholder popped again when it comes to a failure. */
    method Call(b: nat, k: nat) returns (signal: Signal, failure: ValidFailure)
      requires Valid() && inflight == None && b < |c.policies| && 1 <= k && Within(c.policies[b], k)
          && MayCome(c, attempts, marks, (b, k))
      requires AccountedBefore(c, world.continuation, attempts, skipped, b)
      modifies this`attempts, this`marks, this`inflight, store
      ensures Valid()
      ensures signal.Done? ==> Good(c, world.continuation, signal.outcome) && signal.outcome.status.Some?
      ensures match CallOf(world, c, (b, k), old(attempts), skipped)
              case CallCut =>
                signal == CutOff && attempts == old(attempts) + [Placeholder(world, c, (b, k), |old(attempts)|)]
                    && inflight.Some?
              case CallBreaks =>
                signal == Raised && attempts == old(attempts) + [Placeholder(world, c, (b, k), |old(attempts)|)]
              case CallYields(page) =>
                signal.Done? && signal.outcome.(status := None) == Made(world, c, (b, k), page, old(attempts), skipped)
              case CallErrs(f) =>
                signal == Continue && failure == f && attempts == old(attempts) && marks == old(marks)
                    && inflight == None
    {
      ghost var before, places := attempts, marks;
      Begin(b, k);
      assert attempts[..|attempts| - 1] == before && marks[..|marks| - 1] == places;
      signal, failure := Hear(b, k);
      if signal == Continue && inflight.Some? { Pop(); }
    }

    /** `_attempt` */
    method Try(b: nat, k: nat, most: nat) returns (signal: Signal)
      requires Valid() && inflight == None && b < |c.policies| && 1 <= k <= most <= MAX_TRIES
          && MayCome(c, attempts, marks, (b, k))
      requires AccountedBefore(c, world.continuation, attempts, skipped, b) && most == Most(c.policies[b])
      modifies this`attempts, this`marks, this`inflight, store
      ensures Valid()
      ensures signal.Done? ==> Good(c, world.continuation, signal.outcome)
      ensures signal.Continue? ==>
                && MayGoOn(b, k, most) && |attempts| == |old(attempts)| + 1
                    && attempts[..|old(attempts)|] == old(attempts)
                && attempts[|old(attempts)|].backend == c.policies[b].backend
      ensures signal.Continue? ==>
                FromTry(world, c, (b, k + 1), attempts, skipped) == FromTry(world, c, (b, k), old(attempts), skipped)
      ensures !signal.Continue? ==> Ends(signal, FromTry(world, c, (b, k), old(attempts), skipped), attempts, skipped,
          inflight.Some?)
    {
      var failure;
      signal, failure := Call(b, k);
      if signal == Continue { signal := Settle(b, k, most, failure); }
    }

    /** The failure is recorded, and the next move made. */
    method Settle(b: nat, k: nat, most: nat, failure: ValidFailure) returns (signal: Signal)
      requires Valid() && inflight == None && b < |c.policies| && 1 <= k <= most <= MAX_TRIES
          && MayCome(c, attempts, marks, (b, k))
      requires most == Most(c.policies[b])
      modifies this`attempts, this`marks, store
      ensures Valid()
      ensures signal.Done? ==> Good(c, world.continuation, signal.outcome)
      ensures signal.Continue? ==> MayGoOn(b, k, most)
      ensures attempts == old(attempts) + [FailedAttempt(world, c, (b, k), |old(attempts)|, failure)]
      ensures var end := FromError(world, c, (b, k), attempts, skipped, failure);
              if signal.Continue? then FromTry(world, c, (b, k + 1), attempts, skipped) == end
              else Ends(signal, end, attempts, skipped, false)
    {
      RecordFailure(b, k, failure);
      signal := AfterFailure(b, k, most, failure);
      Settled(world, c, (b, k), attempts, skipped, failure, signal);
    }

    /** Between backends: nothing is in flight, every backend before `b` is
        accounted for, and the last failure was transient. */
    ghost predicate Idle(b: nat)
      reads this
    {
      && inflight == None && |marks| == |attempts| && |skipped| <= b
      && AccountedBefore(c, world.continuation, attempts, skipped, b)
      && (marks != [] ==>
            && marks[|marks| - 1].0 < b
            && Leaves(c, attempts[|attempts| - 1], marks[|marks| - 1]))
    }

    lemma {:induction false} Skips(b: nat, more: seq<Attempt>, extra: seq<Skipped>)
      requires AccountedBefore(c, world.continuation, attempts, skipped, b) && b < |c.policies|
      requires Accounted(c, world.continuation, attempts + more, skipped + extra, b)
      ensures AccountedBefore(c, world.continuation, attempts + more, skipped + extra, b + 1)
    {
      AccountedMore(c, world.continuation, attempts, skipped, b, more, extra);
    }

    method Skip(b: nat, reason: SkipReason)
      requires Valid() && b < |c.policies| && Idle(b)
      modifies this`skipped
      ensures Valid() && Idle(b + 1) && skipped == old(skipped) + [Skipped(c.policies[b].backend, reason)]
    {
      var s := Skipped(c.policies[b].backend, reason);
      assert (skipped + [s])[|skipped|] == s && attempts + [] == attempts;
      Skips(b, [], [s]);
      skipped := skipped + [s];
    }

    /** Before attempt `k` of backend `b`. */
    ghost predicate Trying(b: nat, k: nat, most: nat)
      reads this
    {
      && 1 <= k && b < |c.policies| && inflight == None && AccountedBefore(c, world.continuation, attempts, skipped, b)
      && if k == 1 then Idle(b)
         else |skipped| <= b && MayGoOn(b, k - 1, most) && Accounted(c, world.continuation, attempts, skipped, b)
    }

    lemma {:induction false} Tried(b: nat, most: nat)
      requires Valid() && Trying(b, most + 1, most) && 1 <= most == Most(c.policies[b])
      ensures Idle(b + 1)
    {
      assert attempts + [] == attempts && skipped + [] == skipped;
      Skips(b, [], []);
    }

    method TryNext(b: nat, k: nat, most: nat, ghost end: End) returns (signal: Signal)
      requires Valid() && Trying(b, k, most) && k <= most <= MAX_TRIES && most == Most(c.policies[b])
      requires end == FromTry(world, c, (b, k), attempts, skipped)
      modifies this`attempts, this`marks, this`inflight, store
      ensures Valid()
      ensures signal.Done? ==> Good(c, world.continuation, signal.outcome)
      ensures signal.Continue? ==> Trying(b, k + 1, most) && end == FromTry(world, c, (b, k + 1), attempts, skipped)
      ensures !signal.Continue? ==> Ends(signal, end, attempts, skipped, inflight.Some?)
    {
      ghost var before := attempts;
      signal := Try(b, k, most);
      if signal == Continue { Longer(before, c.policies[b].backend, b); }
    }

    /** After the last attempt the next backend is up. */
    lemma {:induction false} TriesOver(b: nat, most: nat, end: End)
      requires Valid() && Trying(b, most + 1, most) && 1 <= most == Most(c.policies[b])
      requires end == FromTry(world, c, (b, most + 1), attempts, skipped)
      ensures Idle(b + 1) && end == FromBackend(world, c, b + 1, attempts, skipped)
    {
      Tried(b, most);
    }

    /** All attempts from `k` on led nowhere, or one of them ended the run. */
    ghost predicate TriesDone(b: nat, signal: Signal, end: End)
      reads this
      requires b < |c.policies|
    {
      if signal.Continue? then Idle(b + 1) && end == FromBackend(world, c, b + 1, attempts, skipped)
      else Ends(signal, end, attempts, skipped, inflight.Some?)
    }

    /** The attempts one backend gets. */
    method TryAll(b: nat, most: nat, ghost end: End) returns (signal: Signal)
      requires Valid() && b < |c.policies| && Idle(b) && 1 <= most <= MAX_TRIES && most == Most(c.policies[b])
      requires end == FromTry(world, c, (b, 1), attempts, skipped)
      modifies this`attempts, this`marks, this`inflight, store
      ensures Valid() && TriesDone(b, signal, end)
      ensures signal.Done? ==> Good(c, world.continuation, signal.outcome)
    {
      for k := 1 to most + 1
        invariant Valid() && Trying(b, k, most) && end == FromTry(world, c, (b, k), attempts, skipped)
      {
        signal := TryNext(b, k, most, end);
        if signal != Continue { return; }
      }
      TriesOver(b, most, end);
      signal := Continue;
    }

    lemma {:induction false} Longer(before: seq<Attempt>, id: string, b: nat)
      requires |attempts| == |before| + 1 && attempts[..|before|] == before && attempts[|before|].backend == id
      requires AccountedBefore(c, world.continuation, before, skipped, b) && b < |c.policies|
          && id == c.policies[b].backend
      ensures AccountedBefore(c, world.continuation, attempts, skipped, b)
          && Accounted(c, world.continuation, attempts, skipped, b)
    {
      AccountedMore(c, world.continuation, before, skipped, b, [attempts[|before|]], []);
      assert before + [attempts[|before|]] == attempts && skipped + [] == skipped;
    }

    /** `_run_backend` */
    method RunBackend(b: nat) returns (signal: Signal)
      requires Valid() && b < |c.policies| && Idle(b)
      modifies this`attempts, this`marks, this`inflight, this`skipped, store
      ensures Valid()
      ensures signal.Done? ==> Good(c, world.continuation, signal.outcome)
      ensures signal.Continue? ==> Idle(b + 1)
      ensures signal.Continue? ==>
                FromBackend(world, c, b + 1, attempts, skipped) == FromBackend(world, c, b, old(attempts), old(skipped))
      ensures !signal.Continue? ==>
                Ends(signal, FromBackend(world, c, b, old(attempts), old(skipped)), attempts, skipped, inflight.Some?)
    {
      var p := c.policies[b];
      if world.continuation.Some? && world.continuation.value != p.backend {
        assert attempts + [] == attempts && skipped + [] == skipped;
        Skips(b, [], []);
        return Continue;
      }
      if !p.enabled {
        Skip(b, Disabled);
        return Continue;
      }
      signal := RunAdmitted(b);
    }

    /** An enabled backend: admitted and tried, skipped, or the run ends. */
    method RunAdmitted(b: nat) returns (signal: Signal)
      requires Valid() && b < |c.policies| && Idle(b) && c.policies[b].enabled
      requires world.continuation.Some? ==> world.continuation.value == c.policies[b].backend
      modifies this`attempts, this`marks, this`inflight, this`skipped, store
      ensures Valid()
      ensures signal.Done? ==> Good(c, world.continuation, signal.outcome)
      ensures signal.Continue? ==> Idle(b + 1)
      ensures signal.Continue? ==>
                FromBackend(world, c, b + 1, attempts, skipped) == FromBackend(world, c, b, old(attempts), old(skipped))
      ensures !signal.Continue? ==>
                Ends(signal, FromBackend(world, c, b, old(attempts), old(skipped)), attempts, skipped, inflight.Some?)
    {
      match world.admission(b) {
        case AdmissionStops(cut) => return if cut then CutOff else Raised;
        case Excluded(reason) =>
          Skip(b, reason);
          return Continue;
        case Admitted(trusted) =>
          if !trusted {
            var refused := Refuse(TrustFailed);
            return Done(refused);
          }
      }
      signal := TryAll(b, Most(c.policies[b]), FromTry(world, c, (b, 1), attempts, skipped));
    }

    /** `_run` */
    method Run() returns (signal: Signal)
      requires Valid() && attempts == [] && skipped == [] && inflight == None
      modifies this`attempts, this`marks, this`inflight, this`skipped, store
      ensures Valid()
      ensures signal.Done? ==> Good(c, world.continuation, signal.outcome)
      ensures Ends(signal, FromBackend(world, c, 0, [], []), attempts, skipped, inflight.Some?)
    {
      for b := 0 to |c.policies|
        invariant Valid() && Idle(b)
        invariant FromBackend(world, c, b, attempts, skipped) == FromBackend(world, c, 0, [], [])
      {
        signal := RunBackend(b);
        if signal != Continue { return; }
      }
      TrailTries(c, attempts, marks);
      var refused := ObservedRefusal(if attempts != [] then ChainExhausted else NoBackend);
      signal := Done(refused);
    }

    /** The deadline cuts the run off: the call in flight keeps its placeholder,
        with the time it has taken. */
    method CutShort() returns (outcome: Outcome)
      requires Valid()
      modifies this`attempts, store
      ensures Valid() && Good(c, world.continuation, outcome)
      ensures outcome.(status := None)
          == Refusal(DeadlineExceeded, Timed(world, old(attempts), old(inflight).Some?), skipped)
      ensures outcome.status.Some? <==> old(attempts) != []
    {
      if attempts != [] && inflight.Some? {
        ghost var before := attempts;
        var last := |attempts| - 1;
        attempts := attempts[last := attempts[last].(elapsed := Elapsed(world.cutElapsed))];
        SameTrail(c, before, attempts, marks);
      }
      outcome := ObservedRefusal(DeadlineExceeded);
    }

    /** The body of `execute`: whatever the outside does, a valid result comes back. */
    method Conclude() returns (outcome: Outcome)
      requires Valid() && attempts == [] && skipped == [] && inflight == None
      modifies this`attempts, this`marks, this`inflight, this`skipped, store
      ensures Valid() && Good(c, world.continuation, outcome)
      ensures outcome.(status := None) == Expected(world, c)
      ensures outcome.status.Some? <==>
                || outcome.reason.None?
                || (outcome.attempts != [] && outcome.reason != Some(Unauthorized)
                    && outcome.reason != Some(TrustFailed))
    {
      match world.gate
      case Unsupported => outcome := Refuse(UnsupportedCapability);
      case NotCaller => outcome := Refuse(Unauthorized);
      case BadBinding => outcome := Refuse(InvalidRequest);
      case NotAuthorized => outcome := Refuse(Unauthorized);
      case ContinuationRefused => outcome := Refuse(InvalidRequest);
      case AuthorityStops(cut) =>
        if cut { outcome := CutShort(); } else { outcome := Refuse(TrustFailed); }
      case Authorized =>
        var signal := Run();
        match signal
        case Done(made) => outcome := made;
        case CutOff => outcome := CutShort();
        case Raised => outcome := Refuse(TrustFailed);
    }

    /** `execute`: each backend called gets all its attempts, and the status says
        how the last attempt of each went. */
    method Execute() returns (outcome: Outcome)
      requires Valid() && attempts == [] && skipped == [] && inflight == None
      modifies this`attempts, this`marks, this`inflight, this`skipped, store
      ensures Valid() && Good(c, world.continuation, outcome)
      ensures outcome.(status := None) == Expected(world, c)
      ensures TriesMade(c, outcome.attempts)
      ensures outcome.status.Some? ==>
                StatusMeans(c, outcome.attempts, outcome.selected, outcome.skipped, outcome.status.value)
      ensures outcome.status.Some? <==>
                || outcome.reason.None?
                || (outcome.attempts != [] && outcome.reason != Some(Unauthorized)
                    && outcome.reason != Some(TrustFailed))
    {
      outcome := Conclude();
      GoodMeans(c, world.continuation, outcome);
    }
  }

  /** The move after a failure is the step the reference run takes. */
  lemma {:induction false} Settled(w: World, c: Capability, m: Mark, attempts: seq<Attempt>, skipped: seq<Skipped>,
      failure: ValidFailure, signal: Signal)
    requires m.0 < |c.policies| && m.1 <= Most(c.policies[m.0]) && attempts != []
    requires Moves(signal, MoveAfter(w, m, Most(c.policies[m.0]), failure), w.sleep(m.0, m.1), attempts, skipped)
    ensures var end := FromError(w, c, m, attempts, skipped, failure);
            if signal.Continue? then FromTry(w, c, (m.0, m.1 + 1), attempts, skipped) == end
            else Ends(signal, end, attempts, skipped, false)
  {
  }

  lemma {:induction false} SuccessObservable(c: Capability, attempts: seq<Attempt>, marks: seq<Mark>, id: string)
    requires Trail(c, attempts, marks) && attempts != []
    requires attempts[|attempts| - 1].ok && attempts[|attempts| - 1].backend == id
    ensures ObservationOk(c, attempts, Some(id))
  {
    forall i | 0 <= i < |attempts|
      ensures attempts[i].sequence == i + 1
          && exists j :: 0 <= j < |c.policies| && c.policies[j].backend == attempts[i].backend
    {
      assert Placed(c, attempts[i], marks[i], i);
    }
  }

  lemma {:induction false} SameTrail(c: Capability, attempts: seq<Attempt>, changed: seq<Attempt>, marks: seq<Mark>)
    requires Trail(c, attempts, marks) && |attempts| == |changed|
    requires forall i :: 0 <= i < |attempts| ==> changed[i] == attempts[i].(elapsed := changed[i].elapsed)
    ensures Trail(c, changed, marks)
  {
    forall i | 0 <= i < |marks| - 1 ensures Link(c, changed, marks, i) { assert Link(c, attempts, marks, i); }
    forall i | 0 <= i < |marks|
      ensures Placed(c, changed[i], marks[i], i)
    {
      assert Placed(c, attempts[i], marks[i], i);
    }
  }

  lemma {:induction false} GoodMeans(c: Capability, continuation: Option<string>, r: Outcome)
    requires Declared(c) && Good(c, continuation, r)
    ensures TriesMade(c, r.attempts)
    ensures r.status.Some? ==> StatusMeans(c, r.attempts, r.selected, r.skipped, r.status.value)
  {
    var marks :| Trail(c, r.attempts, marks);
    TrailTries(c, r.attempts, marks);
    StatusOf(c, r.attempts, r.selected, r.skipped);
  }

  // ----- what a good trail says -----

  /** Attempts come in policy order, and no attempt follows a terminal failure,
      except the next one of the same backend after a rate limit with a delay. */
  lemma {:induction false} TrailOrder(c: Capability, attempts: seq<Attempt>, marks: seq<Mark>, i: nat, j: nat)
    requires Trail(c, attempts, marks) && i < j < |attempts|
    ensures marks[i].0 <= marks[j].0
    ensures attempts[i].reason.Some? && (Transient(attempts[i].reason.value) || attempts[i].reason == Some(RateLimited))
    ensures attempts[i].reason == Some(RateLimited) ==>
              && attempts[i].retryAfter.Some? && attempts[i + 1].backend == attempts[i].backend
              && attempts[i].number == 1 && attempts[i + 1].number == 2
    decreases j
  {
    assert Link(c, attempts, marks, i) && Placed(c, attempts[i], marks[i], i)
        && Placed(c, attempts[i + 1], marks[i + 1], i + 1);
    if i + 1 < j {
      TrailOrder(c, attempts, marks, i, j - 1);
      assert Link(c, attempts, marks, j - 1) && Placed(c, attempts[j], marks[j], j);
    }
  }
}
