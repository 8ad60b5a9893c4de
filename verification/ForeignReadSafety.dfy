/** What every interleaving of the foreign-read client keeps. */
module ForeignReadSafety {
  import opened Common
  import opened ForeignRead

  // ----- the client's table and its replay fence -----

  predicate Distinct(ids: seq<nat>) {
    forall i, j :: 0 <= i < j < |ids| ==> ids[i] != ids[j]
  }

  /** An execution is in the table exactly while it is not terminal. */
  predicate Registered(c: Client, o: nat)
    requires o in c.objects
  {
    var e := c.objects[o];
    !e.terminal <==> e.ref.id in c.live && c.live[e.ref.id] == o
  }

  predicate Fenced(c: Client) {
    && c.tombstones == Newest(c.closed)
    && Distinct(c.tombstones)
    && forall id :: id in c.live ==> id !in c.tombstones
  }

  predicate Registry(c: Client) {
    && (forall o {:trigger Registered(c, o)} :: o in c.objects ==> Registered(c, o))
    && (forall id :: id in c.live ==> c.live[id] in c.objects && c.objects[c.live[id]].ref.id == id)
    && Fenced(c)
  }

  /** The newest of a list and one more. */
  lemma {:induction false} NewestNext(closed: seq<nat>, id: nat)
    ensures Newest(Newest(closed) + [id]) == Newest(closed + [id])
    ensures var tail := if |closed| >= MAX_EXECUTIONS then Newest(closed)[1..] else Newest(closed);
            Newest(closed + [id]) == tail + [id]
  {
    var n := |closed|;
    if n >= MAX_EXECUTIONS {
      var kept := closed[n - MAX_EXECUTIONS..];
      assert Newest(closed) == kept;
      assert (closed + [id])[n + 1 - MAX_EXECUTIONS..] == kept[1..] + [id];
      assert (kept + [id])[1..] == kept[1..] + [id];
    }
  }

  lemma {:induction false} DistinctNext(ids: seq<nat>, id: nat)
    requires Distinct(ids) && id !in ids
    ensures Distinct(ids + [id])
  {
  }

  lemma {:induction false} EntombNewest(closed: seq<nat>, id: nat)
    requires Distinct(Newest(closed)) && id !in Newest(closed)
    ensures Entomb(Newest(closed), id) == Newest(closed + [id])
    ensures Distinct(Newest(closed + [id]))
    ensures forall x :: x in Newest(closed + [id]) ==> x in Newest(closed) || x == id
  {
    var tail := if |closed| >= MAX_EXECUTIONS then Newest(closed)[1..] else Newest(closed);
    NewestNext(closed, id);
    assert forall x :: x in tail ==> x in Newest(closed);
    DistinctNext(tail, id);
  }

  lemma {:induction false} TerminalizeKeepsRegistry(c: Client, o: nat)
    requires Registry(c) && o in c.objects && !c.objects[o].terminal
    ensures Registry(Terminalize(c, o))
  {
    var id := c.objects[o].ref.id;
    assert Registered(c, o);
    EntombNewest(c.closed, id);
    var d := Terminalize(c, o);
    forall p | p in d.objects ensures Registered(d, p) {
      assert Registered(c, p);
    }
  }

  lemma {:induction false} WithoutLast(ids: seq<nat>, id: nat)
    requires id !in ids
    ensures Without(ids + [id], id) == ids
  {
    if ids != [] {
      assert (ids + [id])[1..] == ids[1..] + [id];
      WithoutLast(ids[1..], id);
    } else {
      assert ids + [id] == [id];
    }
  }

  lemma {:induction false} EntombAgain(tombstones: seq<nat>, id: nat)
    requires Distinct(tombstones) && 0 < |tombstones| <= MAX_EXECUTIONS
    requires tombstones[|tombstones| - 1] == id
    ensures Entomb(tombstones, id) == tombstones
  {
    var before := tombstones[..|tombstones| - 1];
    assert tombstones == before + [id];
    WithoutLast(before, id);
  }

  lemma {:induction false} EntombTwice(closed: seq<nat>, id: nat)
    requires Distinct(Newest(closed)) && id !in Newest(closed)
    ensures var once := Entomb(Newest(closed), id); Entomb(once, id) == once
  {
    EntombNewest(closed, id);
    NewestNext(closed, id);
    EntombAgain(Newest(closed + [id]), id);
  }

  /** Closing again what is already closed, straight away, changes nothing. */
  lemma {:induction false} TerminalizeTwice(c: Client, o: nat)
    requires Registry(c) && o in c.objects && !c.objects[o].terminal
    ensures Terminalize(Terminalize(c, o), o) == Terminalize(c, o)
  {
    var id := c.objects[o].ref.id;
    assert Registered(c, o);
    EntombTwice(c.closed, id);
    var d := Terminalize(c, o);
    assert d.objects[o := d.objects[o].(terminal := true)] == d.objects;
    assert d.live - {id} == d.live;
  }

  // ----- locks and reservations -----

  predicate Owns(task: Task, o: nat) {
    (task.InFlight? || task.Cleaning?) && task.target == o
  }

  predicate LockOk(c: Client, o: nat)
    requires o in c.objects
  {
    var e := c.objects[o];
    e.holder.Some? ==> !e.terminal && e.holder.value in c.tasks && Owns(c.tasks[e.holder.value], o)
  }

  predicate TaskOk(c: Client, t: nat)
    requires t in c.tasks
  {
    match c.tasks[t]
    case Waiting(o, _) => o in c.objects
    case InFlight(o, phase) =>
      && o in c.objects && c.objects[o].holder == Some(t)
      && phase.sequence == c.objects[o].expected && phase.ref == c.objects[o].ref
    case Cleaning(o) => o in c.objects && c.objects[o].holder == Some(t)
    case _ => true
  }

  predicate Locks(c: Client) {
    && (forall o {:trigger LockOk(c, o)} :: o in c.objects ==> LockOk(c, o))
    && (forall t {:trigger TaskOk(c, t)} :: t in c.tasks ==> TaskOk(c, t))
  }

  function Openings(tasks: map<nat, Task>): set<nat> {
    set t | t in tasks && tasks[t].Opening?
  }

  /** Every reservation belongs to exactly one open in progress. */
  predicate Counted(c: Client) {
    c.pending == |Openings(c.tasks)| && |c.live| + c.pending <= MAX_EXECUTIONS
  }

  // ----- a reference automaton for one execution's traffic -----

  /** What an execution was opened with. */
  datatype Terms = Terms(ref: Ref, identity: string, limits: Limits)

  function TermsOf(e: Execution): Terms { Terms(e.ref, e.identity, e.limits) }

  datatype Stage = Idle | Await(phase: Phase) | Failed | Closing | Ended | Broken

  datatype Ledger = Ledger(stage: Stage, next: nat, rows: nat, bytes: nat)

  /** A request that the terms and the totals so far allow. */
  predicate Allows(l: Ledger, terms: Terms, phase: Phase) {
    && phase.ref == terms.ref && phase.sequence == l.next
    && (phase.Chunk? ==>
          && phase.identity == terms.identity && phase.rows <= terms.limits.chunkRows
          && phase.encoded.Some? && phase.encoded.value <= terms.limits.chunkBytes
          && l.rows + phase.rows <= terms.limits.maxRows && l.bytes + phase.encoded.value <= terms.limits.maxBytes)
  }

  /** A reply that repeats its request and goes on from the totals so far. */
  predicate Repeats(l: Ledger, limits: Limits, phase: Phase, answer: Answer) {
    match answer
    case NoAnswer => false
    case ChunkAnswer(ref, sequence, accepted, totalRows, totalBytes, next) =>
      && phase.Chunk? && ref == phase.ref && sequence == phase.sequence && accepted == phase.rows
      && next == sequence + 1 && totalRows == l.rows + accepted <= limits.maxRows
      && l.bytes <= totalBytes <= l.bytes + limits.chunkBytes && totalBytes <= limits.maxBytes
    case CompleteAnswer(ref, sequence, totalRows, totalBytes) =>
      phase.Complete? && ref == phase.ref && sequence == phase.sequence && totalRows == l.rows && totalBytes == l.bytes
    case AbortAnswer(ref, sequence, reason) =>
      phase.Abort? && ref == phase.ref && sequence == phase.sequence && reason == phase.reason
  }

  function Advance(l: Ledger, terms: Terms, event: Event): Ledger {
    match event
    case Sent(phase) => l.(stage := if l.stage == Idle && Allows(l, terms, phase) then Await(phase) else Broken)
    case Accepted(answer) =>
      if !l.stage.Await? || !Repeats(l, terms.limits, l.stage.phase, answer) then l.(stage := Broken)
      else if answer.ChunkAnswer? then Ledger(Idle, answer.next, answer.totalRows, answer.totalBytes)
      else l.(stage := Ended)
    case PhaseFailed => l.(stage := if l.stage.Await? then Failed else Broken)
    case CleanupSent(ref, sequence) =>
      l.(stage := if l.stage == Failed && ref == terms.ref && sequence == l.next then Closing else Broken)
  }

  function Replay(terms: Terms, trace: seq<Event>): Ledger {
    if trace == [] then Ledger(Idle, 0, 0, 0)
    else Advance(Replay(terms, trace[..|trace| - 1]), terms, trace[|trace| - 1])
  }

  lemma {:induction false} ReplayOne(terms: Terms, trace: seq<Event>, event: Event)
    ensures Replay(terms, trace + [event]) == Advance(Replay(terms, trace), terms, event)
  {
    assert (trace + [event])[..|trace|] == trace;
  }

  /** Where an execution's traffic stands, read off its lock. */
  function StageOf(e: Execution, tasks: map<nat, Task>): Stage {
    if e.holder.None? || e.holder.value !in tasks then Idle
    else
      match tasks[e.holder.value]
      case InFlight(_, phase) => Await(phase)
      case Cleaning(_) => Closing
      case _ => Idle
  }

  /** The client's counters are the ledger of its traffic, and it never broke
      the protocol. */
  predicate BookOk(e: Execution, tasks: map<nat, Task>) {
    var l := Replay(TermsOf(e), e.trace);
    && l.stage != Broken
    && l.next == e.expected && l.rows == e.rows && l.bytes == e.bytes
    && (!e.terminal ==> l.stage == StageOf(e, tasks))
  }

  predicate Books(c: Client) {
    forall o {:trigger BookOk(c.objects[o], c.tasks)} :: o in c.objects ==> BookOk(c.objects[o], c.tasks)
  }

  predicate Safe(c: Client) {
    Registry(c) && Locks(c) && Counted(c) && Books(c)
  }

  // ----- every step keeps all of it -----

  lemma {:induction false} CardinalityMonotone(small: set<nat>, large: set<nat>)
    requires small <= large
    ensures |small| <= |large|
  {
    assert large == small + (large - small);
  }

  /** Safe, except that `o` is about to close and its traffic may have ended. */
  predicate Closable(c: Client, o: nat) {
    && Registry(c) && Locks(c) && Counted(c)
    && o in c.objects && !c.objects[o].terminal && c.objects[o].holder.None?
    && BookOk(c.objects[o].(terminal := true), c.tasks)
    && forall p {:trigger BookOk(c.objects[p], c.tasks)} :: p in c.objects && p != o ==> BookOk(c.objects[p], c.tasks)
  }

  lemma {:induction false} TerminalizeKeepsSafe(c: Client, o: nat)
    requires Closable(c, o)
    ensures Safe(Terminalize(c, o))
  {
    TerminalizeKeepsRegistry(c, o);
    var d := Terminalize(c, o);
    forall p | p in d.objects ensures LockOk(d, p) && BookOk(d.objects[p], d.tasks) {
      assert LockOk(c, p);
    }
    forall t | t in d.tasks ensures TaskOk(d, t) {
      assert TaskOk(c, t);
    }
    assert d.live.Keys <= c.live.Keys;
    CardinalityMonotone(d.live.Keys, c.live.Keys);
  }

  lemma {:induction false} ReapOne(c: Client, id: nat)
    requires Safe(c) && Reapable(c, id)
    ensures Safe(Terminalize(c, c.live[id]))
    ensures forall x :: x != id && Reapable(c, x) ==> Reapable(Terminalize(c, c.live[id]), x)
  {
    var o := c.live[id];
    assert Registered(c, o) && BookOk(c.objects[o], c.tasks);
    TerminalizeKeepsSafe(c, o);
  }

  lemma {:induction false} ReapKeepsSafe(c: Client, order: seq<nat>)
    requires Safe(c) && Distinct(order) && forall id :: id in order ==> Reapable(c, id)
    ensures Safe(Reap(c, order))
    ensures Reap(c, order).tasks == c.tasks && Reap(c, order).pending == c.pending
    decreases |order|
  {
    if order != [] {
      assert Reapable(c, order[0]);
      ReapOne(c, order[0]);
      ReapKeepsSafe(Terminalize(c, c.live[order[0]]), order[1..]);
    }
  }

  // A step that neither closes nor installs moves one task and perhaps the
  // execution it works on. The next lemmas say what such a move leaves alone.

  lemma {:induction false} SameRegistry(c: Client, d: Client)
    requires Registry(c) && d.live == c.live && d.tombstones == c.tombstones && d.closed == c.closed
    requires d.objects.Keys == c.objects.Keys
    requires forall o :: o in c.objects ==>
      d.objects[o].ref == c.objects[o].ref && d.objects[o].terminal == c.objects[o].terminal
    ensures Registry(d)
  {
    forall o | o in d.objects ensures Registered(d, o) { assert Registered(c, o); }
  }

  lemma {:induction false} SameBooks(c: Client, d: Client, t: nat, o: nat)
    requires Locks(c) && Books(c) && d.objects.Keys == c.objects.Keys
    requires forall p :: p in c.objects && p != o ==> d.objects[p] == c.objects[p]
    requires forall u :: u in c.tasks && u != t ==> u in d.tasks && d.tasks[u] == c.tasks[u]
    requires t in c.tasks ==> forall p :: Owns(c.tasks[t], p) ==> p == o
    ensures forall p {:trigger BookOk(d.objects[p], d.tasks)} :: p in d.objects && p != o ==>
        BookOk(d.objects[p], d.tasks)
  {
    forall p | p in d.objects && p != o ensures BookOk(d.objects[p], d.tasks) {
      assert BookOk(c.objects[p], c.tasks) && LockOk(c, p);
    }
  }

  predicate TaskFits(e: Execution, t: nat, task: Task, o: nat) {
    match task
    case Opening(_, _) => false
    case Waiting(_, _) => false
    case InFlight(p, phase) =>
      p == o && e.holder == Some(t) && phase.sequence == e.expected && phase.ref == e.ref
    case Cleaning(p) => p == o && e.holder == Some(t)
    case Over => e.holder.None?
  }

  lemma {:induction false} MoveKeepsLocks(c: Client, t: nat, o: nat, e: Execution, task: Task)
    requires Locks(c) && t in c.tasks && o in c.objects && !e.terminal
    requires c.tasks[t].Waiting? || Owns(c.tasks[t], o)
    requires c.objects[o].holder.None? || c.objects[o].holder == Some(t)
    requires TaskFits(e, t, task, o)
    ensures Locks(c.(objects := c.objects[o := e], tasks := c.tasks[t := task]))
  {
    var d := c.(objects := c.objects[o := e], tasks := c.tasks[t := task]);
    forall p | p in d.objects ensures LockOk(d, p) {
      assert LockOk(c, p);
    }
    forall u | u in d.tasks ensures TaskOk(d, u) {
      if u != t { assert TaskOk(c, u); }
    }
  }

  /** `t` moves to `task` and its execution `o` becomes `e`. */
  lemma {:induction false} Move(c: Client, t: nat, o: nat, e: Execution, task: Task)
    requires Safe(c) && t in c.tasks && o in c.objects
    requires !e.terminal && !c.objects[o].terminal && e.ref == c.objects[o].ref
    requires c.tasks[t].Waiting? || Owns(c.tasks[t], o)
    requires c.objects[o].holder.None? || c.objects[o].holder == Some(t)
    requires TaskFits(e, t, task, o)
    ensures var d := c.(objects := c.objects[o := e], tasks := c.tasks[t := task]);
            && Registry(d) && Locks(d) && Counted(d)
            && forall p {:trigger BookOk(d.objects[p], d.tasks)} :: p in d.objects && p != o ==>
                BookOk(d.objects[p], d.tasks)
  {
    var d := c.(objects := c.objects[o := e], tasks := c.tasks[t := task]);
    SameRegistry(c, d);
    MoveKeepsLocks(c, t, o, e, task);
    SameBooks(c, d, t, o);
    assert Openings(d.tasks) == Openings(c.tasks);
  }

  /** `t`, which holds no lock, becomes `task`, which holds none either. */
  lemma {:induction false} TaskChange(c: Client, t: nat, task: Task)
    requires Registry(c) && Locks(c) && Books(c)
    requires t in c.tasks ==> c.tasks[t].Waiting? || c.tasks[t].Opening?
    requires task.Over? || task.Opening? || (task.Waiting? && task.target in c.objects)
    ensures var d := c.(tasks := c.tasks[t := task]);
            Registry(d) && Locks(d) && Books(d)
    ensures Openings(c.tasks[t := task]) == Openings(c.tasks) - {t} + (if task.Opening? then {t} else {})
  {
    var d := c.(tasks := c.tasks[t := task]);
    SameRegistry(c, d);
    forall o | o in d.objects ensures LockOk(d, o) && BookOk(d.objects[o], d.tasks) {
      assert LockOk(c, o) && BookOk(c.objects[o], c.tasks);
    }
    forall u | u in d.tasks ensures TaskOk(d, u) {
      if u != t { assert TaskOk(c, u); }
    }
  }

  lemma {:induction false} QuietChange(c: Client, t: nat, task: Task)
    requires Safe(c) && (t in c.tasks ==> c.tasks[t].Waiting?)
    requires task.Over? || (task.Waiting? && task.target in c.objects)
    ensures Safe(c.(tasks := c.tasks[t := task]))
  {
    TaskChange(c, t, task);
    assert t !in Openings(c.tasks);
  }

  /** The reservation count set to match the opens in progress. */
  lemma {:induction false} Recount(c: Client, pending: nat)
    requires Registry(c) && Locks(c) && Books(c)
    requires pending == |Openings(c.tasks)| && |c.live| + pending <= MAX_EXECUTIONS
    ensures Safe(c.(pending := pending))
  {
    var d := c.(pending := pending);
    SameRegistry(c, d);
    SameLocks(c, pending);
    assert Counted(d);
    forall o | o in d.objects ensures BookOk(d.objects[o], d.tasks) { assert BookOk(c.objects[o], c.tasks); }
  }

  lemma {:induction false} SameLocks(c: Client, pending: nat)
    requires Locks(c)
    ensures Locks(c.(pending := pending))
  {
    var d := c.(pending := pending);
    forall o | o in d.objects ensures LockOk(d, o) { assert LockOk(c, o); }
    forall t | t in d.tasks ensures TaskOk(d, t) { assert TaskOk(c, t); }
  }

  lemma {:induction false} OneMoreTask(before: set<nat>, after: set<nat>, t: nat)
    requires t !in before && after == before - {t} + {t}
    ensures |after| == |before| + 1
  {
    assert after == before + {t};
  }

  lemma {:induction false} ReserveKeepsSafe(c: Client, t: nat, task: Task)
    requires Safe(c) && t !in c.tasks && task.Opening? && |c.live| + c.pending < MAX_EXECUTIONS
    ensures Safe(c.(tasks := c.tasks[t := task], pending := c.pending + 1))
  {
    TaskChange(c, t, task);
    OneMoreTask(Openings(c.tasks), Openings(c.tasks[t := task]), t);
    Recount(c.(tasks := c.tasks[t := task]), c.pending + 1);
  }

  lemma {:induction false} AdmitKeepsSafe(c: Client, t: nat, request: OpenRequest, order: seq<nat>)
    requires Safe(c) && Enabled(c, Open(t, request, order))
    ensures Safe(Admit(c, t, request, order))
  {
    if request.schema != 1 {
      QuietChange(c, t, Over);
    } else {
      ReapKeepsSafe(c, order);
      AdmitSwept(Reap(c, order), t, request);
    }
  }

  lemma {:induction false} AdmitSwept(s: Client, t: nat, request: OpenRequest)
    requires Safe(s) && t !in s.tasks
    ensures if |s.live| + s.pending >= MAX_EXECUTIONS then Safe(Finish(s, t))
            else Safe(s.(pending := s.pending + 1, tasks := s.tasks[t := Opening(request, s.now)]))
  {
    if |s.live| + s.pending >= MAX_EXECUTIONS {
      QuietChange(s, t, Over);
    } else {
      ReserveKeepsSafe(s, t, Opening(request, s.now));
    }
  }

  lemma {:induction false} AddKeepsRegistry(c: Client, o: nat, e: Execution)
    requires Registry(c) && o !in c.objects && e.ref.id !in c.live && e.ref.id !in c.tombstones && !e.terminal
    ensures Registry(c.(objects := c.objects[o := e], live := c.live[e.ref.id := o]))
  {
    var d := c.(objects := c.objects[o := e], live := c.live[e.ref.id := o]);
    forall p | p in d.objects ensures Registered(d, p) {
      if p in c.objects { assert Registered(c, p); }
    }
  }

  lemma {:induction false} AddKeepsLocks(c: Client, o: nat, e: Execution)
    requires Locks(c) && o !in c.objects && e.holder.None?
    ensures Locks(c.(objects := c.objects[o := e], live := c.live[e.ref.id := o]))
  {
    var d := c.(objects := c.objects[o := e], live := c.live[e.ref.id := o]);
    forall p | p in d.objects ensures LockOk(d, p) {
      if p in c.objects { assert LockOk(c, p); }
    }
    forall u | u in d.tasks ensures TaskOk(d, u) { assert TaskOk(c, u); }
  }

  /** A new execution, under an id that is neither live nor fenced. */
  lemma {:induction false} AddKeepsSafe(c: Client, o: nat, e: Execution)
    requires Safe(c) && o !in c.objects && e.ref.id !in c.live && e.ref.id !in c.tombstones
    requires !e.terminal && e.holder.None? && e.trace == [] && e.expected == e.rows == e.bytes == 0
    requires |c.live| + c.pending < MAX_EXECUTIONS
    ensures Safe(c.(objects := c.objects[o := e], live := c.live[e.ref.id := o]))
  {
    AddKeepsRegistry(c, o, e);
    AddKeepsLocks(c, o, e);
    var d := c.(objects := c.objects[o := e], live := c.live[e.ref.id := o]);
    forall p | p in d.objects ensures BookOk(d.objects[p], d.tasks) {
      if p in c.objects { assert BookOk(c.objects[p], c.tasks); }
    }
  }

  lemma {:induction false} OneOpeningLess(c: Client, t: nat)
    requires Counted(c) && t in c.tasks && c.tasks[t].Opening? && c.pending > 0
    ensures c.pending - 1 == |Openings(Finish(c, t).tasks)|
  {
    var before, after := Openings(c.tasks), Openings(Finish(c, t).tasks);
    assert after == before - {t};
    OneMoreTask(after, before, t);
  }

  /** An open that is over gives its reservation back. */
  lemma {:induction false} ReleaseKeepsSafe(c: Client, t: nat, d: Client)
    requires Safe(c) && t in c.tasks && c.tasks[t].Opening? && c.pending > 0 && d == Finish(c, t)
    ensures Safe(d.(pending := c.pending - 1))
  {
    ReleaseParts(c, t, d);
    Recount(d, c.pending - 1);
  }

  lemma {:induction false} ReleaseParts(c: Client, t: nat, d: Client)
    requires Safe(c) && t in c.tasks && c.tasks[t].Opening? && c.pending > 0 && d == Finish(c, t)
    ensures Registry(d) && Locks(d) && Books(d)
    ensures c.pending - 1 == |Openings(d.tasks)| && |d.live| + c.pending - 1 <= MAX_EXECUTIONS
  {
    TaskChange(c, t, Over);
    OneOpeningLess(c, t);
  }

  lemma {:induction false} InstallKeepsSafe(c: Client, t: nat, o: nat, reply: OpenReply)
    requires Safe(c) && Enabled(c, ReceiveOpen(t, o, reply))
    ensures Safe(Install(c, t, o, reply))
  {
    ReleaseKeepsSafe(c, t, Finish(c, t));
    var d := Finish(c, t).(pending := c.pending - 1);
    if Install(c, t, o, reply) != d {
      AddKeepsSafe(d, o, Install(c, t, o, reply).objects[o]);
    }
  }

  /** A phase is sent under the lock. */
  lemma {:induction false} SendKeepsSafe(c: Client, t: nat, o: nat, phase: Phase)
    requires Safe(c) && t in c.tasks && c.tasks[t] == Waiting(o, phase) && o in c.objects
    requires !c.objects[o].terminal && c.objects[o].holder.None?
    requires Sendable(c.objects[o], phase) && phase.ref == c.objects[o].ref
    ensures var e := c.objects[o];
            Safe(c.(objects := c.objects[o := e.(holder := Some(t), trace := e.trace + [Sent(phase)])],
                    tasks := c.tasks[t := InFlight(o, phase)]))
  {
    var e := c.objects[o];
    assert BookOk(e, c.tasks);
    ReplayOne(TermsOf(e), e.trace, Sent(phase));
    Move(c, t, o, e.(holder := Some(t), trace := e.trace + [Sent(phase)]), InFlight(o, phase));
  }

  /** An execution found expired is closed, once or twice. */
  lemma {:induction false} ExpireKeepsSafe(c: Client, t: nat, o: nat)
    requires Safe(c) && t in c.tasks && c.tasks[t].Waiting? && o in c.objects
    requires !c.objects[o].terminal && c.objects[o].holder.None?
    ensures Safe(Finish(Terminalize(c, o), t))
    ensures Terminalize(Terminalize(c, o), o) == Terminalize(c, o)
  {
    assert BookOk(c.objects[o], c.tasks);
    QuietChange(c, t, Over);
    TerminalizeKeepsSafe(Finish(c, t), o);
    TerminalizeTwice(c, o);
    assert Finish(Terminalize(c, o), t) == Terminalize(Finish(c, t), o);
  }

  /** The four outcomes of entering the lock. */
  predicate Entered(c: Client, t: nat, o: nat, phase: Phase, d: Client)
    requires o in c.objects
  {
    var e := c.objects[o];
    || d == Finish(c, t)
    || (!e.terminal && d == Finish(Terminalize(c, o), t))
    || (!e.terminal && d == Finish(Terminalize(Terminalize(c, o), o), t))
    || (!e.terminal && Sendable(e, phase) && e.ref == phase.ref
        && d == c.(objects := c.objects[o := e.(holder := Some(t), trace := e.trace + [Sent(phase)])],
                   tasks := c.tasks[t := InFlight(o, phase)]))
  }

  lemma {:induction false} EnterIs(c: Client, t: nat, later: int, laterWall: int)
    requires Enabled(c, Enter(t, later, laterWall))
    ensures Entered(c, t, c.tasks[t].target, c.tasks[t].phase, EnterLock(c, t, later, laterWall))
  {
  }

  lemma {:induction false} EnteredIsSafe(c: Client, t: nat, o: nat, phase: Phase, d: Client)
    requires Safe(c) && t in c.tasks && c.tasks[t] == Waiting(o, phase) && o in c.objects && c.objects[o].holder.None?
    requires Entered(c, t, o, phase, d)
    ensures Safe(d)
  {
    if d == Finish(c, t) {
      QuietChange(c, t, Over);
    } else {
      ExpireKeepsSafe(c, t, o);
      if Sendable(c.objects[o], phase) && phase.ref == c.objects[o].ref { SendKeepsSafe(c, t, o, phase); }
    }
  }

  lemma {:induction false} EnterKeepsSafe(c: Client, t: nat, later: int, laterWall: int)
    requires Safe(c) && Enabled(c, Enter(t, later, laterWall))
    ensures Safe(EnterLock(c, t, later, laterWall))
  {
    EnterIs(c, t, later, laterWall);
    EnteredIsSafe(c, t, c.tasks[t].target, c.tasks[t].phase, EnterLock(c, t, later, laterWall));
  }

  lemma {:induction false} CloseKeepsSafe(c: Client, t: nat, o: nat, e: Execution)
    requires Safe(c) && t in c.tasks && Owns(c.tasks[t], o) && o in c.objects
    requires e.holder.None? && !e.terminal && e.ref == c.objects[o].ref
    requires BookOk(e.(terminal := true), c.tasks)
    ensures Safe(Finish(Terminalize(Put(c, o, e), o), t))
  {
    assert TaskOk(c, t) && LockOk(c, o);
    Move(c, t, o, e, Over);
    var d := Finish(Put(c, o, e), t);
    TerminalizeKeepsSafe(d, o);
    assert Finish(Terminalize(Put(c, o, e), o), t) == Terminalize(d, o);
  }

  lemma {:induction false} FailKeepsSafe(c: Client, t: nat)
    requires Safe(c) && t in c.tasks && c.tasks[t].InFlight? && c.tasks[t].target in c.objects
        && !c.tasks[t].phase.Abort?
    ensures var o := c.tasks[t].target;
            var e := c.objects[o];
            && !e.terminal
            && Safe(Put(c, o, e.(trace := e.trace + [PhaseFailed, CleanupSent(e.ref, e.expected)]))
                    .(tasks := c.tasks[t := Cleaning(o)]))
  {
    var o := c.tasks[t].target;
    var e := c.objects[o];
    assert TaskOk(c, t) && LockOk(c, o) && BookOk(e, c.tasks);
    ReplayOne(TermsOf(e), e.trace, PhaseFailed);
    var cleanup := CleanupSent(e.ref, e.expected);
    ReplayOne(TermsOf(e), e.trace + [PhaseFailed], cleanup);
    assert e.trace + [PhaseFailed] + [cleanup] == e.trace + [PhaseFailed, cleanup];
    Move(c, t, o, e.(trace := e.trace + [PhaseFailed, cleanup]), Cleaning(o));
  }

  /** A phase that ends the execution records its outcome and closes it. */
  lemma {:induction false} EndKeepsSafe(c: Client, t: nat, event: Event)
    requires Safe(c) && t in c.tasks && c.tasks[t].InFlight? && c.tasks[t].target in c.objects
    requires var e, phase := c.objects[c.tasks[t].target], c.tasks[t].phase;
             || (phase.Abort? && event.PhaseFailed?)
             || (!phase.Chunk? && event.Accepted? && Accepts(e, phase, event.answer))
    ensures var o := c.tasks[t].target;
            var e := c.objects[o];
            Safe(Finish(Terminalize(Put(c, o, e.(holder := None, trace := e.trace + [event])), o), t))
  {
    var o := c.tasks[t].target;
    var e := c.objects[o];
    assert TaskOk(c, t) && LockOk(c, o) && BookOk(e, c.tasks);
    ReplayOne(TermsOf(e), e.trace, event);
    CloseKeepsSafe(c, t, o, e.(holder := None, trace := e.trace + [event]));
  }

  lemma {:induction false} AcceptKeepsSafe(c: Client, t: nat, answer: Answer)
    requires Safe(c) && t in c.tasks && c.tasks[t].InFlight? && c.tasks[t].target in c.objects
        && c.tasks[t].phase.Chunk?
    requires Accepts(c.objects[c.tasks[t].target], c.tasks[t].phase, answer)
    ensures var o, phase := c.tasks[t].target, c.tasks[t].phase;
            var e := c.objects[o];
            Safe(Finish(Put(c, o, e.(holder := None, expected := answer.next, rows := answer.totalRows,
                                     bytes := answer.totalBytes,
                                     trace := e.trace + [Accepted(answer)])), t))
  {
    var o, phase := c.tasks[t].target, c.tasks[t].phase;
    var e := c.objects[o];
    assert TaskOk(c, t) && LockOk(c, o) && BookOk(e, c.tasks);
    var event := Accepted(answer);
    ReplayOne(TermsOf(e), e.trace, event);
    Move(c, t, o, e.(holder := None, expected := answer.next, rows := answer.totalRows,
                     bytes := answer.totalBytes, trace := e.trace + [event]), Over);
  }

  lemma {:induction false} ReceiveKeepsSafe(c: Client, t: nat, answer: Answer)
    requires Safe(c) && Enabled(c, Receive(t, answer))
    ensures Safe(ReceiveAnswer(c, t, answer))
  {
    var e, phase := c.objects[c.tasks[t].target], c.tasks[t].phase;
    if phase.Abort? {
      EndKeepsSafe(c, t, if Accepts(e, phase, answer) then Accepted(answer) else PhaseFailed);
    } else if !Accepts(e, phase, answer) {
      FailKeepsSafe(c, t);
    } else if phase.Chunk? {
      AcceptKeepsSafe(c, t, answer);
    } else {
      EndKeepsSafe(c, t, Accepted(answer));
    }
  }

  lemma {:induction false} CleanupKeepsSafe(c: Client, t: nat)
    requires Safe(c) && Enabled(c, Cleaned(t))
    ensures Safe(EndCleanup(c, t))
  {
    var o := c.tasks[t].target;
    assert TaskOk(c, t) && LockOk(c, o) && BookOk(c.objects[o], c.tasks);
    CloseKeepsSafe(c, t, o, c.objects[o].(holder := None));
  }

  lemma {:induction false} StepKeepsSafe(c: Client, step: Step)
    requires Safe(c) && Enabled(c, step)
    ensures Safe(Do(c, step))
  {
    match step
    case Clock(_, _) =>
      var d := Do(c, step);
      SameRegistry(c, d);
      forall o | o in d.objects ensures LockOk(d, o) { assert LockOk(c, o); }
      forall t | t in d.tasks ensures TaskOk(d, t) { assert TaskOk(c, t); }
    case Open(t, request, order) => AdmitKeepsSafe(c, t, request, order);
    case ReceiveOpen(t, o, reply) => InstallKeepsSafe(c, t, o, reply);
    case Find(t, phase) =>
      QuietChange(c, t, if phase.ref.id in c.live then Waiting(c.live[phase.ref.id], phase) else Over);
    case Quit(t) => QuietChange(c, t, Over);
    case Enter(t, now, wall) => EnterKeepsSafe(c, t, now, wall);
    case Receive(t, answer) => ReceiveKeepsSafe(c, t, answer);
    case Cleaned(t) => CleanupKeepsSafe(c, t);
  }

  lemma {:induction false} RunSafe(states: seq<Client>, steps: seq<Step>, n: nat)
    requires Run(states, steps) && n < |states|
    ensures Safe(states[n])
  {
    if n > 0 {
      RunSafe(states, steps, n - 1);
      assert Follows(states[n - 1], steps[n - 1], states[n - 1 + 1]);
      StepKeepsSafe(states[n - 1], steps[n - 1]);
    } else {
      assert Openings(states[0].tasks) == {};
    }
  }
}
