/** The promises of the foreign-read client, over every run. */
module ForeignReadTheorems {
  import opened Common
  import opened ForeignRead
  import opened ForeignReadSafety

  // ----- admission and the replay fence -----

  /** Live executions and reservations fit the bound together, every reservation
      belongs to an open in progress, the table and the fence never share an id,
      and the table holds no terminal execution. */
  lemma {:induction false} AdmissionBounded(states: seq<Client>, steps: seq<Step>, n: nat)
    requires Run(states, steps) && n < |states|
    ensures var c := states[n];
            && |c.live| + |Openings(c.tasks)| <= MAX_EXECUTIONS
            && |c.tombstones| <= MAX_EXECUTIONS
            && (forall id :: id in c.live ==> id !in c.tombstones)
            && (forall id :: id in c.live ==> c.live[id] in c.objects && !c.objects[c.live[id]].terminal)
  {
    RunSafe(states, steps, n);
    var c := states[n];
    forall id | id in c.live ensures c.live[id] in c.objects && !c.objects[c.live[id]].terminal {
      assert Registered(c, c.live[id]);
    }
  }

  lemma {:induction false} ReapGrows(c: Client, order: seq<nat>)
    ensures c.closed <= Reap(c, order).closed
    decreases |order|
  {
    if order != [] {
      if order[0] in c.live && c.live[order[0]] in c.objects {
        ReapGrows(Terminalize(c, c.live[order[0]]), order[1..]);
      } else {
        ReapGrows(c, order[1..]);
      }
    }
  }

  lemma {:induction false} StepGrows(c: Client, step: Step)
    requires Enabled(c, step)
    ensures c.closed <= Do(c, step).closed
  {
    if step.Open? { ReapGrows(c, step.order); }
  }

  predicate GrowsAt(states: seq<Client>, i: nat) {
    i + 1 < |states| && states[i].closed <= states[i + 1].closed
  }

  lemma {:induction false} StepInRunGrows(states: seq<Client>, steps: seq<Step>, i: nat)
    requires Run(states, steps) && i < |steps|
    ensures GrowsAt(states, i)
  {
    assert Follows(states[i], steps[i], states[i + 1]);
    StepGrows(states[i], steps[i]);
  }

  lemma {:induction false} ChainGrows(states: seq<Client>, m: nat, n: nat)
    requires m <= n < |states| && forall i {:trigger GrowsAt(states, i)} :: m <= i < n ==> GrowsAt(states, i)
    ensures states[m].closed <= states[n].closed
    decreases n
  {
    if m < n {
      ChainGrows(states, m, n - 1);
      assert GrowsAt(states, n - 1);
    }
  }

  lemma {:induction false} ClosedGrows(states: seq<Client>, steps: seq<Step>, m: nat, n: nat)
    requires Run(states, steps) && m <= n < |states|
    ensures states[m].closed <= states[n].closed
  {
    forall i | m <= i < n ensures GrowsAt(states, i) { StepInRunGrows(states, steps, i); }
    ChainGrows(states, m, n);
  }

  /** An id is behind the fence exactly when it is one of the last 1024 to close. */
  lemma {:induction false} FenceExact(states: seq<Client>, steps: seq<Step>, n: nat, id: nat)
    requires Run(states, steps) && n < |states|
    ensures id in states[n].tombstones <==>
      exists i :: 0 <= i < |states[n].closed| && |states[n].closed| - i <= MAX_EXECUTIONS && states[n].closed[i] == id
  {
    RunSafe(states, steps, n);
    var c := states[n];
    var start := |c.closed| - |c.tombstones|;
    if id in c.tombstones {
      var k :| 0 <= k < |c.tombstones| && c.tombstones[k] == id;
      assert c.closed[start + k] == id;
    }
    if i :| 0 <= i < |c.closed| && |c.closed| - i <= MAX_EXECUTIONS && c.closed[i] == id {
      assert c.tombstones[i - start] == id;
    }
  }

  /** An id that closed by step `m` cannot be opened again, and no phase finds
      it, until 1024 other ids have closed after it. */
  lemma {:induction false} ClosedIdRefused(states: seq<Client>, steps: seq<Step>, m: nat, n: nat, i: nat)
    requires Run(states, steps) && m <= n < |states|
    requires i < |states[m].closed| && |states[n].closed| - i <= MAX_EXECUTIONS
    ensures i < |states[n].closed| && states[n].closed[i] == states[m].closed[i]
    ensures var c, id := states[n], states[m].closed[i];
            && id !in c.live
            && (forall j :: i < j < |c.closed| ==> c.closed[j] != id)
            && (forall t, o, reply {:trigger ReceiveOpen(t, o, reply)} ::
                  Enabled(c, ReceiveOpen(t, o, reply)) && reply.Opened? && reply.ref.id == id ==>
                    id !in Do(c, ReceiveOpen(t, o, reply)).live)
            && (forall t, phase: Phase {:trigger Find(t, phase)} ::
                  Enabled(c, Find(t, phase)) && phase.ref.id == id ==> Do(c, Find(t, phase)).tasks[t].Over?)
  {
    ClosedGrows(states, steps, m, n);
    RunSafe(states, steps, n);
    var c, id := states[n], states[m].closed[i];
    var start := |c.closed| - |c.tombstones|;
    assert c.closed[i] == id && c.tombstones[i - start] == id;
    forall j | i < j < |c.closed| ensures c.closed[j] != id {
      assert c.tombstones[j - start] == c.closed[j];
    }
  }

  // ----- closed executions are silent -----

  lemma {:induction false} ReapKeepsClosed(c: Client, order: seq<nat>, o: nat)
    requires o in c.objects && c.objects[o].terminal
    ensures o in Reap(c, order).objects && Reap(c, order).objects[o] == c.objects[o]
    decreases |order|
  {
    if order != [] {
      if order[0] in c.live && c.live[order[0]] in c.objects {
        ReapKeepsClosed(Terminalize(c, c.live[order[0]]), order[1..], o);
      } else {
        ReapKeepsClosed(c, order[1..], o);
      }
    }
  }

  /** Whoever holds the lock of an execution keeps it open. */
  lemma {:induction false} OwnedIsOpen(c: Client, t: nat)
    requires Safe(c) && t in c.tasks && (c.tasks[t].InFlight? || c.tasks[t].Cleaning?)
    ensures c.tasks[t].target in c.objects && !c.objects[c.tasks[t].target].terminal
  {
    assert TaskOk(c, t);
    assert LockOk(c, c.tasks[t].target);
  }

  lemma {:induction false} EnterKeepsClosed(c: Client, t: nat, later: int, laterWall: int, o: nat)
    requires Enabled(c, Enter(t, later, laterWall)) && o in c.objects && c.objects[o].terminal
    ensures o in EnterLock(c, t, later, laterWall).objects
    ensures EnterLock(c, t, later, laterWall).objects[o] == c.objects[o]
  {
  }

  lemma {:induction false} ReceiveKeepsOthers(c: Client, t: nat, answer: Answer, o: nat)
    requires Enabled(c, Receive(t, answer)) && o in c.objects && o != c.tasks[t].target
    ensures o in ReceiveAnswer(c, t, answer).objects && ReceiveAnswer(c, t, answer).objects[o] == c.objects[o]
  {
  }

  /** No step touches a closed execution. */
  lemma {:induction false} StepKeepsClosed(c: Client, step: Step, o: nat)
    requires Safe(c) && Enabled(c, step) && o in c.objects && c.objects[o].terminal
    ensures o in Do(c, step).objects && Do(c, step).objects[o] == c.objects[o]
  {
    match step
    case Open(_, _, order) => ReapKeepsClosed(c, order, o);
    case Enter(t, now, wall) => EnterKeepsClosed(c, t, now, wall, o);
    case Receive(t, answer) =>
      OwnedIsOpen(c, t);
      ReceiveKeepsOthers(c, t, answer, o);
    case Cleaned(t) => OwnedIsOpen(c, t);
    case _ =>
  }

  predicate StillAt(states: seq<Client>, o: nat, i: nat) {
    i + 1 < |states| && (o in states[i].objects && states[i].objects[o].terminal ==>
                           o in states[i + 1].objects && states[i + 1].objects[o] == states[i].objects[o])
  }

  lemma {:induction false} StepInRunStill(states: seq<Client>, steps: seq<Step>, o: nat, i: nat)
    requires Run(states, steps) && i < |steps|
    ensures StillAt(states, o, i)
  {
    RunSafe(states, steps, i);
    assert Follows(states[i], steps[i], states[i + 1]);
    if o in states[i].objects && states[i].objects[o].terminal { StepKeepsClosed(states[i], steps[i], o); }
  }

  lemma {:induction false} ChainStill(states: seq<Client>, m: nat, n: nat, o: nat)
    requires m <= n < |states| && o in states[m].objects && states[m].objects[o].terminal
    requires forall i {:trigger StillAt(states, o, i)} :: m <= i < n ==> StillAt(states, o, i)
    ensures o in states[n].objects && states[n].objects[o] == states[m].objects[o]
    decreases n
  {
    if m < n {
      ChainStill(states, m, n - 1, o);
      assert StillAt(states, o, n - 1);
    }
  }

  /** Once closed, however it closed, an execution sends and receives nothing more:
      also not for a task that found it before and still waits for its lock. */
  lemma {:induction false} ClosedIsSilent(states: seq<Client>, steps: seq<Step>, m: nat, n: nat, o: nat)
    requires Run(states, steps) && m <= n < |states| && o in states[m].objects && states[m].objects[o].terminal
    ensures o in states[n].objects && states[n].objects[o] == states[m].objects[o]
  {
    forall i | m <= i < n ensures StillAt(states, o, i) { StepInRunStill(states, steps, o, i); }
    ChainStill(states, m, n, o);
  }

  /** A phase that finds its execution expired, before or after its checks. */
  predicate ExpiresIn(c: Client, step: Step, o: nat) {
    && step.Enter? && step.task in c.tasks && c.tasks[step.task].Waiting? && c.tasks[step.task].target == o
    && o in c.objects
    && var e, phase := c.objects[o], c.tasks[step.task].phase;
    && !e.terminal && e.ref == phase.ref
    && (e.deadlineAt <= c.now || e.expiresAt <= c.wall
        || (Sendable(e, phase) && (e.deadlineAt <= step.now || e.expiresAt <= step.wall)))
  }

  /** After a phase failed by expiry nothing is ever sent for its execution again. */
  lemma {:induction false} NothingAfterExpiry(states: seq<Client>, steps: seq<Step>, i: nat, n: nat, o: nat)
    requires Run(states, steps) && i < n < |states| && ExpiresIn(states[i], steps[i], o)
    ensures o in states[n].objects && states[n].objects[o].trace == states[i].objects[o].trace
    ensures states[n].objects[o].ref.id !in states[i + 1].live
  {
    assert Follows(states[i], steps[i], states[i + 1]);
    ClosedIsSilent(states, steps, i + 1, n, o);
  }

  lemma {:induction false} ReapCloses(c: Client, order: seq<nat>, id: nat)
    requires Safe(c) && id in order && Reapable(c, id) && Distinct(order) && forall x :: x in order ==> Reapable(c, x)
    ensures var o, d := c.live[id], Reap(c, order);
            o in d.objects && d.objects[o] == c.objects[o].(terminal := true)
    decreases |order|
  {
    assert Reapable(c, order[0]);
    var o, first := c.live[id], c.live[order[0]];
    ReapOne(c, order[0]);
    var d := Terminalize(c, first);
    if order[0] == id {
      ReapKeepsClosed(d, order[1..], o);
    } else {
      assert d.objects[o] == c.objects[o];
      ReapCloses(d, order[1..], id);
    }
  }

  /** Nor after a sweep closed it. */
  lemma {:induction false} NothingAfterSweep(states: seq<Client>, steps: seq<Step>, i: nat, n: nat, id: nat)
    requires Run(states, steps) && i < n < |states| && steps[i].Open? && steps[i].request.schema == 1
    requires Reapable(states[i], id)
    ensures var o := states[i].live[id];
            o in states[n].objects && states[n].objects[o].trace == states[i].objects[o].trace
  {
    RunSafe(states, steps, i);
    assert Follows(states[i], steps[i], states[i + 1]);
    ReapCloses(states[i], steps[i].order, id);
    ClosedIsSilent(states, steps, i + 1, n, states[i].live[id]);
  }

  // ----- the traffic of one execution -----

  /** The numbers of the chunks sent, in order. */
  function Numbers(trace: seq<Event>): seq<nat> {
    if trace == [] then []
    else
      var event := trace[|trace| - 1];
      Numbers(trace[..|trace| - 1]) + if event.Sent? && event.phase.Chunk? then [event.phase.sequence] else []
  }

  predicate ChunkAccepted(event: Event) { event.Accepted? && event.answer.ChunkAnswer? }

  function AcceptedChunks(trace: seq<Event>): nat {
    if trace == [] then 0
    else AcceptedChunks(trace[..|trace| - 1]) + if ChunkAccepted(trace[|trace| - 1]) then 1 else 0
  }

  function AcceptedRows(trace: seq<Event>): nat {
    if trace == [] then 0
    else
      var event := trace[|trace| - 1];
      AcceptedRows(trace[..|trace| - 1]) + if ChunkAccepted(event) then event.answer.accepted else 0
  }

  function ReportedBytes(trace: seq<Event>): nat {
    if trace == [] then 0
    else
      var event := trace[|trace| - 1];
      if ChunkAccepted(event) then event.answer.totalBytes else ReportedBytes(trace[..|trace| - 1])
  }

  predicate Counts(numbers: seq<nat>) {
    forall k :: 0 <= k < |numbers| ==> numbers[k] == k
  }

  /** Whatever breaks a prefix breaks the whole. */
  lemma {:induction false} PrefixUnbroken(terms: Terms, trace: seq<Event>, n: nat)
    requires n <= |trace| && Replay(terms, trace).stage != Broken
    ensures Replay(terms, trace[..n]).stage != Broken
    decreases |trace|
  {
    if n < |trace| {
      var rest := trace[..|trace| - 1];
      assert rest[..n] == trace[..n];
      PrefixUnbroken(terms, rest, n);
    } else {
      assert trace[..n] == trace;
    }
  }

  /** Chunks go out as 0, 1, 2, ..., none twice, and the ledger adds up. */
  lemma {:induction false} LedgerAddsUp(terms: Terms, trace: seq<Event>)
    requires Replay(terms, trace).stage != Broken
    ensures var l := Replay(terms, trace);
            && Counts(Numbers(trace))
            && l.next == AcceptedChunks(trace) <= |Numbers(trace)| <= l.next + 1
            && (l.stage == Idle ==> |Numbers(trace)| == l.next)
            && l.rows == AcceptedRows(trace) <= terms.limits.maxRows
            && l.bytes == ReportedBytes(trace) <= terms.limits.maxBytes
            && (l.stage.Await? ==>
                  && l.stage.phase.sequence == l.next
                  && |Numbers(trace)| == l.next + if l.stage.phase.Chunk? then 1 else 0)
  {
    if trace != [] {
      PrefixUnbroken(terms, trace, |trace| - 1);
      LedgerAddsUp(terms, trace[..|trace| - 1]);
    }
  }

  lemma {:induction false} OneMore(n: nat, size: nat)
    ensures (n + 1) * size == n * size + size
  {
  }

  /** Every accepted chunk adds at most `chunkBytes`. */
  lemma {:induction false} BytesPerChunk(terms: Terms, trace: seq<Event>)
    requires Replay(terms, trace).stage != Broken
    ensures Replay(terms, trace).bytes <= Replay(terms, trace).next * terms.limits.chunkBytes
  {
    if trace != [] {
      PrefixUnbroken(terms, trace, |trace| - 1);
      BytesPerChunk(terms, trace[..|trace| - 1]);
      LedgerAddsUp(terms, trace[..|trace| - 1]);
      OneMore(Replay(terms, trace[..|trace| - 1]).next, terms.limits.chunkBytes);
    }
  }

  lemma {:induction false} ReplayNext(terms: Terms, trace: seq<Event>, j: nat)
    requires j < |trace|
    ensures Replay(terms, trace[..j + 1]) == Advance(Replay(terms, trace[..j]), terms, trace[j])
  {
    TakeNext(trace, j);
    ReplayOne(terms, trace[..j], trace[j]);
  }

  /** The ledger around one event of an unbroken trace. */
  lemma {:induction false} Around(terms: Terms, trace: seq<Event>, k: nat)
    requires k < |trace| && Replay(terms, trace).stage != Broken
    ensures Replay(terms, trace[..k]).stage != Broken && Replay(terms, trace[..k + 1]).stage != Broken
    ensures Replay(terms, trace[..k + 1]) == Advance(Replay(terms, trace[..k]), terms, trace[k])
  {
    PrefixUnbroken(terms, trace, k);
    PrefixUnbroken(terms, trace, k + 1);
    ReplayNext(terms, trace, k);
  }

  /** Every request names its execution and the number that is due; a chunk fits the
      limits of a chunk and, with what was accepted before it, those of the whole. */
  predicate RequestDue(terms: Terms, before: seq<Event>, phase: Phase) {
    && phase.ref == terms.ref && phase.sequence == AcceptedChunks(before)
    && (phase.Chunk? ==>
          && phase.identity == terms.identity && phase.rows <= terms.limits.chunkRows
          && phase.encoded.Some? && phase.encoded.value <= terms.limits.chunkBytes
          && AcceptedRows(before) + phase.rows <= terms.limits.maxRows
          && ReportedBytes(before) + phase.encoded.value <= terms.limits.maxBytes)
  }

  lemma {:induction false} RequestsDue(terms: Terms, trace: seq<Event>, k: nat)
    requires Replay(terms, trace).stage != Broken && k < |trace| && trace[k].Sent?
    ensures RequestDue(terms, trace[..k], trace[k].phase)
  {
    Around(terms, trace, k);
    LedgerAddsUp(terms, trace[..k]);
  }

  /** A reply that was accepted repeats the request in front of it: its execution, its
      number, its rows or its reason; and its totals are those before it and its own. */
  predicate ReplyRepeats(before: seq<Event>, request: Event, answer: Answer) {
    && request.Sent? && answer != NoAnswer
    && answer.ref == request.phase.ref && answer.sequence == request.phase.sequence
    && (answer.ChunkAnswer? ==>
          && request.phase.Chunk? && answer.accepted == request.phase.rows && answer.next == answer.sequence + 1
          && answer.totalRows == AcceptedRows(before) + answer.accepted && answer.totalBytes >= ReportedBytes(before))
    && (answer.CompleteAnswer? ==>
          request.phase.Complete? && answer.totalRows == AcceptedRows(before)
          && answer.totalBytes == ReportedBytes(before))
    && (answer.AbortAnswer? ==> request.phase.Abort? && answer.reason == request.phase.reason)
  }

  lemma {:induction false} AwaitsLast(terms: Terms, trace: seq<Event>)
    requires Replay(terms, trace).stage.Await?
    ensures trace != [] && trace[|trace| - 1] == Sent(Replay(terms, trace).stage.phase)
  {
  }

  lemma {:induction false} RepliesRepeat(terms: Terms, trace: seq<Event>, k: nat)
    requires Replay(terms, trace).stage != Broken && k < |trace| && trace[k].Accepted?
    ensures k > 0 && ReplyRepeats(trace[..k], trace[k - 1], trace[k].answer)
  {
    Around(terms, trace, k);
    LedgerAddsUp(terms, trace[..k]);
    AwaitsLast(terms, trace[..k]);
  }

  /** A phase that failed, or ended the execution, is the last of its phases. */
  predicate Final(event: Event) {
    event.PhaseFailed? || (event.Accepted? && !event.answer.ChunkAnswer?)
  }

  /** From a failed stage only the cleaning abort leads on, and from an ended one
      nothing. */
  lemma {:induction false} AfterFinal(l: Ledger, terms: Terms, final: Event, next: Event)
    requires Final(final) && l.stage != Broken
    requires var m := Advance(l, terms, final); m.stage != Broken && Advance(m, terms, next).stage != Broken
    ensures final.PhaseFailed? && next == CleanupSent(terms.ref, l.next)
    ensures Advance(Advance(l, terms, final), terms, next).stage == Closing
  {
  }

  lemma {:induction false} NothingAfterClosing(terms: Terms, trace: seq<Event>, k: nat)
    requires Replay(terms, trace).stage != Broken && k <= |trace| && Replay(terms, trace[..k]).stage == Closing
    ensures k == |trace|
  {
    if k < |trace| { Around(terms, trace, k); }
  }

  /** After a phase that ended the execution nothing follows, and after a failed one at
      most the abort that cleans up. */
  lemma {:induction false} NothingAfterFinal(terms: Terms, trace: seq<Event>, i: nat, j: nat)
    requires Replay(terms, trace).stage != Broken && i < j < |trace| && Final(trace[i])
    ensures trace[i].PhaseFailed? && j == i + 1 == |trace| - 1
    ensures trace[j] == CleanupSent(terms.ref, AcceptedChunks(trace[..i]))
  {
    Around(terms, trace, i);
    Around(terms, trace, i + 1);
    LedgerAddsUp(terms, trace[..i]);
    AfterFinal(Replay(terms, trace[..i]), terms, trace[i], trace[i + 1]);
    NothingAfterClosing(terms, trace, i + 2);
  }

  /** A certificate repeats the totals of the chunks accepted before it. */
  lemma {:induction false} CertificateExact(terms: Terms, trace: seq<Event>, k: nat)
    requires Replay(terms, trace).stage != Broken && k < |trace|
    requires trace[k].Accepted? && trace[k].answer.CompleteAnswer?
    ensures trace[k].answer == CompleteAnswer(terms.ref, AcceptedChunks(trace[..k]), AcceptedRows(trace[..k]),
                                              ReportedBytes(trace[..k]))
  {
    RepliesRepeat(terms, trace, k);
    RequestsDue(terms, trace, k - 1);
    Around(terms, trace, k - 1);
    TakeNext(trace, k - 1);
    assert trace[..k][..k - 1] == trace[..k - 1];
  }

  predicate EventDue(terms: Terms, trace: seq<Event>, k: nat)
    requires k < |trace|
  {
    match trace[k]
    case Sent(phase) => RequestDue(terms, trace[..k], phase)
    case Accepted(answer) => k > 0 && ReplyRepeats(trace[..k], trace[k - 1], answer)
    case _ => true
  }

  lemma {:induction false} EventsDue(terms: Terms, trace: seq<Event>, k: nat)
    requires Replay(terms, trace).stage != Broken && k < |trace|
    ensures EventDue(terms, trace, k)
  {
    if trace[k].Sent? { RequestsDue(terms, trace, k); }
    if trace[k].Accepted? { RepliesRepeat(terms, trace, k); }
  }

  /** Every tracked execution of every run, against any replies. */
  lemma {:induction false} TrafficOfEveryExecution(states: seq<Client>, steps: seq<Step>, n: nat, o: nat)
    requires Run(states, steps) && n < |states| && o in states[n].objects
    ensures var e := states[n].objects[o];
            && Counts(Numbers(e.trace))
            && e.expected == AcceptedChunks(e.trace)
            && e.rows == AcceptedRows(e.trace) <= e.limits.maxRows
            && e.bytes == ReportedBytes(e.trace) <= e.limits.maxBytes
            && e.bytes <= e.expected * e.limits.chunkBytes
            && (forall k :: 0 <= k < |e.trace| ==> EventDue(TermsOf(e), e.trace, k))
            && (forall i, j :: 0 <= i < j < |e.trace| && Final(e.trace[i]) ==>
                  e.trace[i].PhaseFailed? && j == |e.trace| - 1 && e.trace[j].CleanupSent? && e.trace[j].ref == e.ref)
  {
    RunSafe(states, steps, n);
    var e := states[n].objects[o];
    var terms := TermsOf(e);
    assert BookOk(e, states[n].tasks);
    LedgerAddsUp(terms, e.trace);
    BytesPerChunk(terms, e.trace);
    forall k | 0 <= k < |e.trace| ensures EventDue(terms, e.trace, k) { EventsDue(terms, e.trace, k); }
    forall i, j | 0 <= i < j < |e.trace| && Final(e.trace[i])
      ensures e.trace[i].PhaseFailed? && j == |e.trace| - 1 && e.trace[j].CleanupSent? && e.trace[j].ref == e.ref
    {
      NothingAfterFinal(terms, e.trace, i, j);
    }
  }
}
