/** What a result of the fallback tells about the calls that were made. */
module PlatformOutcomes {
  import opened Common
  import opened Platform
  import opened PlatformFallback

  /** How a failed attempt at `read` is told: a refusal of the call keeps its
      status and delay, and of a page only the reason is known. */
  predicate FailureTold(read: Read, a: Attempt) {
    match read
    case ReadFails(f) =>
      a.reason == Some(FailureReason(f)) && a.httpStatus == f.httpStatus && a.retryAfter == f.retryAfter
    case ReadCut => Bare(a, Timeout)
    case Answers(_, CheckStops(_)) => Bare(a, Timeout)
    case Answers(_, CheckTimesOut) => Bare(a, Timeout)
    case Answers(_, CheckFails) => Bare(a, InvalidResponse)
    case Answers(page, CheckPasses) => Bare(a, InvalidResponse) && Foreign(page, a.backend)
  }

  /** A page that is too large or names another backend. */
  predicate Foreign(page: Page, backend: string) {
    || |page.records| > MAX_RECORDS || page.bytes > MAX_BYTES
    || (exists i :: 0 <= i < |page.records| && page.records[i] != backend)
    || (page.continuation.Some? && page.continuation.value != backend)
    || (page.provenance.Some? && page.provenance.value != backend)
  }

  predicate Bare(a: Attempt, reason: Reason) {
    a.reason == Some(reason) && a.httpStatus == None && a.retryAfter == None
  }

  /** An attempt tells what backend `j` did when it was called for that time. */
  predicate Told(w: World, c: Capability, a: Attempt, j: nat) {
    j < |c.policies| && a.backend == c.policies[j].backend ==>
      && a.startedAt == w.startedAt(j, a.number)
      && if a.ok then PassedBy(w.read(j, a.number), a.backend)
         else FailureTold(w.read(j, a.number), a)
  }

  /** Only a page that passes its check and fits the backend is a success. */
  predicate PassedBy(read: Read, backend: string) {
    read.Answers? && read.check == CheckPasses && !Foreign(read.page, backend)
  }

  /** A backend skipped as disabled is, and one skipped otherwise was refused
      admission for that reason. */
  predicate SkipTold(w: World, c: Capability, s: Skipped, j: nat) {
    j < |c.policies| && s.backend == c.policies[j].backend ==>
      if c.policies[j].enabled then w.admission(j) == Excluded(s.reason) else s.reason == Disabled
  }

  ghost predicate AllTold(w: World, c: Capability, attempts: seq<Attempt>, skipped: seq<Skipped>) {
    && (forall i, j: nat :: 0 <= i < |attempts| ==> Told(w, c, attempts[i], j))
    && (forall i, j: nat :: 0 <= i < |skipped| ==> SkipTold(w, c, skipped[i], j))
  }

  /** What the last attempt says of a run that ends with `reason`: nothing else
      but a failure that may be tried again leaves the reason open. */
  predicate Reasoned(w: World, c: Capability, reason: Reason, attempts: seq<Attempt>) {
    if attempts == [] then reason == NoBackend || reason == TrustFailed || reason == DeadlineExceeded
    else
      var last := attempts[|attempts| - 1];
      && reason != NoBackend
      && (reason == ChainExhausted ==> Failed(last) && Transient(last.reason.value))
      && (Failed(last) && !Retryable(last) ==> last.reason == Some(reason))
      && (last.reason == Some(reason)
          || reason == ChainExhausted || reason == TrustFailed || reason == DeadlineExceeded)
  }

  predicate Failed(a: Attempt) { a.reason.Some? }

  /** The page of a success is the one its last attempt was answered with. */
  predicate PageTold(w: World, c: Capability, o: Outcome) {
    && o.attempts != [] && o.page.Some?
    && var last := o.attempts[|o.attempts| - 1];
       && last.ok && o.selected == Some(last.backend)
       && exists j: nat :: j < |c.policies| && c.policies[j].backend == last.backend
            && w.read(j, last.number) == Answers(o.page.value, CheckPasses)
  }

  ghost predicate EndTold(w: World, c: Capability, end: End) {
    match end
    case Succeeds(o) => o.reason.None? && PageTold(w, c, o) && AllTold(w, c, o.attempts, o.skipped)
    case Refuses(reason, attempts, skipped) => Reasoned(w, c, reason, attempts) && AllTold(w, c, attempts, skipped)
    case CutAt(attempts, skipped, inflight) => AllTold(w, c, attempts, skipped) && Open(attempts)
    case BreaksAt(attempts, skipped) => AllTold(w, c, attempts, skipped) && Open(attempts)
  }

  /** The last failure, if there is one, may be tried again. */
  predicate Open(attempts: seq<Attempt>) {
    attempts != [] ==> Failed(attempts[|attempts| - 1]) && Retryable(attempts[|attempts| - 1])
  }

  predicate Passed(attempts: seq<Attempt>) {
    attempts != [] ==>
      Failed(attempts[|attempts| - 1]) && Transient(attempts[|attempts| - 1].reason.value)
  }

  /** Attempts and skips before place `m`: failures in order, and no more of them
      than there are places. */
  ghost predicate Usual(attempts: seq<Attempt>, skipped: seq<Skipped>, m: Mark) {
    && Sequenced(attempts) && (forall i :: 0 <= i < |attempts| ==> AttemptOk(attempts[i]) && !attempts[i].ok)
    && 1 <= m.1 && |attempts| + 1 <= MAX_TRIES * m.0 + m.1 && |skipped| <= m.0
  }

  /** A page is refused after its check only because it is foreign. */
  lemma {:induction false} PageOk(w: World, c: Capability, m: Mark, page: Page, attempts: seq<Attempt>,
      skipped: seq<Skipped>)
    requires Declared(c) && m.0 < |c.policies| && m.1 <= MAX_TRIES && Usual(attempts, skipped, m)
    ensures ResultOk(Made(w, c, m, page, attempts, skipped)) <==> !Foreign(page, c.policies[m.0].backend)
  {
    var made := Made(w, c, m, page, attempts, skipped);
    assert forall i :: 0 <= i < |attempts| ==> made.attempts[i] == attempts[i];
    assert made.attempts[|attempts|].ok;
  }

  lemma {:induction false} ToldMore(w: World, c: Capability, attempts: seq<Attempt>, skipped: seq<Skipped>, a: Attempt,
      b: nat)
    requires Declared(c) && AllTold(w, c, attempts, skipped) && b < |c.policies| && a.backend == c.policies[b].backend
    requires Told(w, c, a, b)
    ensures AllTold(w, c, attempts + [a], skipped)
  {
    forall i, j: nat | 0 <= i < |attempts| + 1 ensures Told(w, c, (attempts + [a])[i], j) {
      if i < |attempts| { assert Told(w, c, attempts[i], j); }
    }
  }

  lemma {:induction false} SkipMore(w: World, c: Capability, attempts: seq<Attempt>, skipped: seq<Skipped>, s: Skipped,
      b: nat)
    requires Declared(c) && AllTold(w, c, attempts, skipped) && b < |c.policies| && s.backend == c.policies[b].backend
    requires SkipTold(w, c, s, b)
    ensures AllTold(w, c, attempts, skipped + [s])
  {
    forall i, j: nat | 0 <= i < |skipped| + 1 ensures SkipTold(w, c, (skipped + [s])[i], j) {
      if i < |skipped| { assert SkipTold(w, c, skipped[i], j); }
    }
  }

  lemma {:induction false} TryTold(w: World, c: Capability, m: Mark, attempts: seq<Attempt>, skipped: seq<Skipped>)
    requires Declared(c) && m.0 < |c.policies| && AllTold(w, c, attempts, skipped) && Usual(attempts, skipped, m)
    requires m.1 <= Most(c.policies[m.0]) + 1
    requires m.1 > Most(c.policies[m.0]) ==> Passed(attempts)
    ensures EndTold(w, c, FromTry(w, c, m, attempts, skipped))
    decreases |c.policies| - m.0, 1, if m.1 > Most(c.policies[m.0]) then 0 else Most(c.policies[m.0]) + 1 - m.1, 1
  {
    if m.1 > Most(c.policies[m.0]) {
      BackendTold(w, c, m.0 + 1, attempts, skipped);
    } else {
      CallTold(w, c, m, attempts, skipped);
      var call := CallOf(w, c, m, attempts, skipped);
      if call.CallErrs? {
        ErrorTold(w, c, m, attempts + [FailedAttempt(w, c, m, |attempts|, call.failure)], skipped, call.failure);
      }
    }
  }

  /** The attempt recorded for a call tells of it. */
  lemma {:induction false} CallTold(w: World, c: Capability, m: Mark, attempts: seq<Attempt>, skipped: seq<Skipped>)
    requires Declared(c) && m.0 < |c.policies| && AllTold(w, c, attempts, skipped) && Usual(attempts, skipped, m)
    requires m.1 <= Most(c.policies[m.0])
    ensures match CallOf(w, c, m, attempts, skipped)
            case CallCut => AllTold(w, c, attempts + [Placeholder(w, c, m, |attempts|)], skipped)
            case CallBreaks => AllTold(w, c, attempts + [Placeholder(w, c, m, |attempts|)], skipped)
            case CallYields(page) =>
              var made := Made(w, c, m, page, attempts, skipped);
              PageTold(w, c, made) && AllTold(w, c, made.attempts, skipped)
            case CallErrs(f) =>
              var after := attempts + [FailedAttempt(w, c, m, |attempts|, f)];
              AllTold(w, c, after, skipped) && Usual(after, skipped, (m.0, m.1 + 1))
  {
    if w.read(m.0, m.1).Answers? { PageOk(w, c, m, w.read(m.0, m.1).page, attempts, skipped); }
    match CallOf(w, c, m, attempts, skipped)
    case CallCut => ToldMore(w, c, attempts, skipped, Placeholder(w, c, m, |attempts|), m.0);
    case CallBreaks => ToldMore(w, c, attempts, skipped, Placeholder(w, c, m, |attempts|), m.0);
    case CallYields(page) =>
      var made := Made(w, c, m, page, attempts, skipped);
      ToldMore(w, c, attempts, skipped, made.attempts[|attempts|], m.0);
    case CallErrs(f) => ToldMore(w, c, attempts, skipped, FailedAttempt(w, c, m, |attempts|, f), m.0);
  }

  lemma {:induction false} ErrorTold(w: World, c: Capability, m: Mark, attempts: seq<Attempt>, skipped: seq<Skipped>,
      f: ValidFailure)
    requires Declared(c) && m.0 < |c.policies| && m.1 <= Most(c.policies[m.0]) && AllTold(w, c, attempts, skipped)
    requires Usual(attempts, skipped, (m.0, m.1 + 1))
    requires attempts != [] && attempts[|attempts| - 1].reason == Some(FailureReason(f))
    requires attempts[|attempts| - 1].retryAfter == f.retryAfter
    ensures EndTold(w, c, FromError(w, c, m, attempts, skipped, f))
    decreases |c.policies| - m.0, 1, Most(c.policies[m.0]) + 1 - m.1, 0
  {
    match MoveAfter(w, m, Most(c.policies[m.0]), f)
    case Refuse(reason) =>
    case GoOn => TryTold(w, c, (m.0, m.1 + 1), attempts, skipped);
    case Sleeps => if w.sleep(m.0, m.1).Wakes? { TryTold(w, c, (m.0, m.1 + 1), attempts, skipped); }
  }

  lemma {:induction false} BackendTold(w: World, c: Capability, b: nat, attempts: seq<Attempt>, skipped: seq<Skipped>)
    requires Declared(c) && b <= |c.policies| && AllTold(w, c, attempts, skipped) && Passed(attempts)
    requires Usual(attempts, skipped, (b, 1))
    ensures EndTold(w, c, FromBackend(w, c, b, attempts, skipped))
    decreases |c.policies| - b, 2, 0 as nat, 0
  {
    if b < |c.policies| {
      var p := c.policies[b];
      if w.continuation.Some? && w.continuation.value != p.backend {
        BackendTold(w, c, b + 1, attempts, skipped);
      } else if !p.enabled {
        SkipMore(w, c, attempts, skipped, Skipped(p.backend, Disabled), b);
        BackendTold(w, c, b + 1, attempts, skipped + [Skipped(p.backend, Disabled)]);
      } else {
        match w.admission(b)
        case AdmissionStops(_) =>
        case Excluded(reason) =>
          SkipMore(w, c, attempts, skipped, Skipped(p.backend, reason), b);
          BackendTold(w, c, b + 1, attempts, skipped + [Skipped(p.backend, reason)]);
        case Admitted(trusted) => if trusted { TryTold(w, c, (b, 1), attempts, skipped); }
      }
    }
  }

  /** Every result of an authorized request tells, attempt by attempt and skip by
      skip, what the backends did. */
  lemma {:induction false} OutcomeTold(w: World, c: Capability)
    requires Declared(c) && w.gate == Authorized
    ensures var r := Expected(w, c);
            && AllTold(w, c, r.attempts, r.skipped)
            && (r.reason.None? ==> PageTold(w, c, r))
            && (r.reason.Some? ==> Reasoned(w, c, r.reason.value, r.attempts))
  {
    BackendTold(w, c, 0, [], []);
    match FromBackend(w, c, 0, [], [])
    case Succeeds(_) =>
    case Refuses(_, _, _) =>
    case BreaksAt(_, _) =>
    case CutAt(attempts, skipped, inflight) =>
      TimedTold(w, c, attempts, skipped, inflight);
  }

  lemma {:induction false} TimedTold(w: World, c: Capability, attempts: seq<Attempt>, skipped: seq<Skipped>,
      inflight: bool)
    requires AllTold(w, c, attempts, skipped) && Open(attempts)
    ensures AllTold(w, c, Timed(w, attempts, inflight), skipped)
    ensures Reasoned(w, c, DeadlineExceeded, Timed(w, attempts, inflight))
  {
    var timed := Timed(w, attempts, inflight);
    forall i, j: nat | 0 <= i < |timed| ensures Told(w, c, timed[i], j) { assert Told(w, c, attempts[i], j); }
  }
}
