/** The foreign-read client: open, chunk, complete and abort over one transport,
    called by any number of concurrent tasks.

    Tasks interleave only where the client awaits: for a reply, or for an
    execution's lock. Each step below is the code between two awaits. Replies
    are chosen by an adversary; a reply may also never come (a timeout, a
    transport failure or a cancellation). */
module ForeignRead {
  import opened Common

  const MAX_EXECUTIONS := 1024

  datatype Ref = Ref(id: nat, digest: string)

  datatype Limits = Limits(maxRows: nat, maxBytes: nat, chunkRows: nat, chunkBytes: nat)

  datatype Phase =
    | Chunk(ref: Ref, sequence: nat, identity: string, rows: nat, encoded: Option<nat>)
    | Complete(ref: Ref, sequence: nat)
    | Abort(ref: Ref, sequence: nat, reason: string)

  datatype Answer =
    | NoAnswer
    | ChunkAnswer(ref: Ref, sequence: nat, accepted: nat, totalRows: nat, totalBytes: nat, next: nat)
    | CompleteAnswer(ref: Ref, sequence: nat, totalRows: nat, totalBytes: nat)
    | AbortAnswer(ref: Ref, sequence: nat, reason: string)

  /** What crossed the transport for one execution, in order: requests as they were
      sent, replies as they were accepted, failures, and the abort that cleans up. */
  datatype Event = Sent(phase: Phase) | Accepted(answer: Answer) | PhaseFailed | CleanupSent(ref: Ref, sequence: nat)

  datatype Execution = Execution(
    ref: Ref,
    identity: string,
    limits: Limits,
    deadlineAt: int,
    expiresAt: int,
    expected: nat,
    rows: nat,
    bytes: nat,
    terminal: bool,
    holder: Option<nat>,               // the task inside the execution's lock
    trace: seq<Event>)

  datatype OpenRequest = OpenRequest(schema: nat, digest: string, limits: Limits, deadline: nat)

  datatype Task =
    | Opening(request: OpenRequest, started: int)
    | Waiting(target: nat, phase: Phase)
    | InFlight(target: nat, phase: Phase)
    | Cleaning(target: nat)
    | Over

  /** `objects` holds every execution ever tracked; `live` is the client's
      table, `tombstones` its replay fence, oldest first. `closed` records the
      ids in the order in which their executions closed. */
  datatype Client = Client(
    objects: map<nat, Execution>,
    live: map<nat, nat>,
    tombstones: seq<nat>,
    closed: seq<nat>,
    pending: nat,
    tasks: map<nat, Task>,
    now: int,
    wall: int)

  // ----- closing an execution -----

  function Without(ids: seq<nat>, id: nat): (rest: seq<nat>)
    ensures |rest| <= |ids|
    ensures forall x :: x in rest <==> x in ids && x != id
    ensures id !in ids ==> rest == ids
  {
    if ids == [] then []
    else if ids[0] == id then Without(ids[1..], id)
    else [ids[0]] + Without(ids[1..], id)
  }

  function Newest(ids: seq<nat>): seq<nat> {
    if |ids| > MAX_EXECUTIONS then ids[|ids| - MAX_EXECUTIONS..] else ids
  }

  function Entomb(tombstones: seq<nat>, id: nat): seq<nat> {
    Newest(Without(tombstones, id) + [id])
  }

  function Terminalize(c: Client, o: nat): Client
    requires o in c.objects
  {
    var e := c.objects[o];
    c.(objects := c.objects[o := e.(terminal := true)],
       live := c.live - {e.ref.id},
       tombstones := Entomb(c.tombstones, e.ref.id),
       closed := if e.terminal then c.closed else c.closed + [e.ref.id])
  }

  predicate Expired(e: Execution, now: int, wall: int) {
    e.deadlineAt <= now || e.expiresAt <= wall
  }

  predicate Reapable(c: Client, id: nat) {
    && id in c.live && c.live[id] in c.objects
    && var e := c.objects[c.live[id]];
    e.holder.None? && Expired(e, c.now, c.wall)
  }

  /** Close the given executions one after the other. */
  function Reap(c: Client, order: seq<nat>): Client
    decreases |order|
  {
    if order == [] then c
    else if order[0] in c.live && c.live[order[0]] in c.objects then
      Reap(Terminalize(c, c.live[order[0]]), order[1..])
    else Reap(c, order[1..])
  }

  // ----- steps -----

  datatype OpenReply =
    | OpenFailed
    | Opened(schema: nat, ref: Ref, next: nat, expiresAt: int, identity: string)

  datatype Step =
    | Clock(now: int, wall: int)
    | Open(task: nat, request: OpenRequest, order: seq<nat>)
    | ReceiveOpen(task: nat, target: nat, reply: OpenReply)
    | Find(task: nat, phase: Phase)
    | Quit(task: nat)
    | Enter(task: nat, now: int, wall: int)
    | Receive(task: nat, answer: Answer)
    | Cleaned(task: nat)

  ghost predicate Enumerates(order: seq<nat>, c: Client) {
    && (forall i, j :: 0 <= i < j < |order| ==> order[i] != order[j])
    && (forall id :: id in order <==> Reapable(c, id))
  }

  /** The sweep visits the expired, unlocked executions, each once, in any
      order; the second clock reading of `Enter` is no earlier than the first. */
  ghost predicate Enabled(c: Client, step: Step) {
    match step
    case Clock(now, _) => c.now <= now
    case Open(t, _, order) => t !in c.tasks && Enumerates(order, c)
    case ReceiveOpen(t, o, _) => t in c.tasks && c.tasks[t].Opening? && o !in c.objects && c.pending > 0
    case Find(t, _) => t !in c.tasks
    case Quit(t) => t in c.tasks && c.tasks[t].Waiting?
    case Enter(t, now, _) =>
      && t in c.tasks && c.tasks[t].Waiting? && c.tasks[t].target in c.objects
      && c.objects[c.tasks[t].target].holder.None? && c.now <= now
    case Receive(t, _) => t in c.tasks && c.tasks[t].InFlight? && c.tasks[t].target in c.objects
    case Cleaned(t) => t in c.tasks && c.tasks[t].Cleaning? && c.tasks[t].target in c.objects
  }

  function Finish(c: Client, t: nat): Client { c.(tasks := c.tasks[t := Over]) }

  function Admit(c: Client, t: nat, request: OpenRequest, order: seq<nat>): Client {
    if request.schema != 1 then Finish(c, t)
    else
      var swept := Reap(c, order);
      if |swept.live| + swept.pending >= MAX_EXECUTIONS then Finish(swept, t)
      else swept.(pending := swept.pending + 1, tasks := swept.tasks[t := Opening(request, swept.now)])
  }

  predicate Trusted(c: Client, request: OpenRequest, reply: OpenReply) {
    && reply.Opened? && reply.schema == 1
    && reply.ref.digest == request.digest
    && reply.next == 0 && reply.expiresAt > c.wall
  }

  /** The reservation ends here, whether or not an execution is installed. */
  function Install(c: Client, t: nat, o: nat, reply: OpenReply): Client
    requires t in c.tasks && c.tasks[t].Opening? && c.pending > 0
  {
    var request := c.tasks[t].request;
    var done := Finish(c, t).(pending := c.pending - 1);
    if !Trusted(c, request, reply) || reply.ref.id in c.live || reply.ref.id in c.tombstones then done
    else
      var e := Execution(reply.ref, reply.identity, request.limits, c.tasks[t].started + request.deadline,
                         reply.expiresAt, reply.next, 0, 0, false, None, []);
      done.(objects := c.objects[o := e], live := c.live[reply.ref.id := o])
  }

  /** An id that is not live is refused, as terminal or as unknown. */
  function Look(c: Client, t: nat, phase: Phase): Client {
    if phase.ref.id in c.live then c.(tasks := c.tasks[t := Waiting(c.live[phase.ref.id], phase)])
    else Finish(c, t)
  }

  /** The checks made before a phase is sent. */
  predicate Sendable(e: Execution, phase: Phase) {
    && phase.sequence == e.expected
    && (phase.Chunk? ==>
          && phase.identity == e.identity
          && phase.rows <= e.limits.chunkRows
          && phase.encoded.Some? && phase.encoded.value <= e.limits.chunkBytes
          && e.rows + phase.rows <= e.limits.maxRows
          && e.bytes + phase.encoded.value <= e.limits.maxBytes)
  }

  function EnterLock(c: Client, t: nat, later: int, laterWall: int): Client
    requires t in c.tasks && c.tasks[t].Waiting? && c.tasks[t].target in c.objects
  {
    var o, phase := c.tasks[t].target, c.tasks[t].phase;
    var e := c.objects[o];
    if e.terminal || e.ref != phase.ref then Finish(c, t)
    else if Expired(e, c.now, c.wall) then Finish(Terminalize(c, o), t)
    else if !Sendable(e, phase) then Finish(c, t)
    else if Expired(e, later, laterWall) then
      // the timeout computation closes it, and the failure handler closes it again
      var once := Terminalize(c, o);
      Finish(Terminalize(once, o), t)
    else
      c.(objects := c.objects[o := e.(holder := Some(t), trace := e.trace + [Sent(phase)])],
         tasks := c.tasks[t := InFlight(o, phase)])
  }

  /** `_check_totals` */
  predicate TotalsOk(e: Execution, totalRows: nat, totalBytes: nat, added: nat) {
    && totalRows == e.rows + added
    && e.bytes <= totalBytes && totalRows <= e.limits.maxRows
    && totalBytes - e.bytes <= e.limits.chunkBytes
    && totalBytes <= e.limits.maxBytes
  }

  predicate Accepts(e: Execution, phase: Phase, answer: Answer) {
    match phase
    case Chunk(ref, sequence, _, rows, _) =>
      && answer.ChunkAnswer? && answer.ref == ref && answer.sequence == sequence
      && answer.accepted == rows
      && TotalsOk(e, answer.totalRows, answer.totalBytes, rows)
      && answer.next == sequence + 1
    case Complete(_, sequence) =>
      && answer.CompleteAnswer? && answer.ref == e.ref && answer.sequence == sequence
      && answer.totalRows == e.rows && answer.totalBytes == e.bytes
    case Abort(_, sequence, reason) =>
      answer.AbortAnswer? && answer.ref == e.ref && answer.sequence == sequence && answer.reason == reason
  }

  function Put(c: Client, o: nat, e: Execution): Client { c.(objects := c.objects[o := e]) }

  function ReceiveAnswer(c: Client, t: nat, answer: Answer): Client
    requires t in c.tasks && c.tasks[t].InFlight? && c.tasks[t].target in c.objects
  {
    var o, phase := c.tasks[t].target, c.tasks[t].phase;
    var e := c.objects[o];
    if phase.Abort? then
      var event := if Accepts(e, phase, answer) then Accepted(answer) else PhaseFailed;
      Finish(Terminalize(Put(c, o, e.(holder := None, trace := e.trace + [event])), o), t)
    else if !Accepts(e, phase, answer) then
      var sent := if e.terminal then [PhaseFailed] else [PhaseFailed, CleanupSent(e.ref, e.expected)];
      Put(c, o, e.(trace := e.trace + sent)).(tasks := c.tasks[t := Cleaning(o)])
    else if phase.Chunk? then
      Finish(Put(c, o, e.(holder := None, expected := answer.next, rows := answer.totalRows, bytes := answer.totalBytes,
                          trace := e.trace + [Accepted(answer)])), t)
    else
      Finish(Terminalize(Put(c, o, e.(holder := None, trace := e.trace + [Accepted(answer)])), o), t)
  }

  function EndCleanup(c: Client, t: nat): Client
    requires t in c.tasks && c.tasks[t].Cleaning? && c.tasks[t].target in c.objects
  {
    var o := c.tasks[t].target;
    Finish(Terminalize(Put(c, o, c.objects[o].(holder := None)), o), t)
  }

  ghost function Do(c: Client, step: Step): Client
    requires Enabled(c, step)
  {
    match step
    case Clock(now, wall) => c.(now := now, wall := wall)
    case Open(t, request, order) => Admit(c, t, request, order)
    case ReceiveOpen(t, o, reply) => Install(c, t, o, reply)
    case Find(t, phase) => Look(c, t, phase)
    case Quit(t) => Finish(c, t)
    case Enter(t, now, wall) => EnterLock(c, t, now, wall)
    case Receive(t, answer) => ReceiveAnswer(c, t, answer)
    case Cleaned(t) => EndCleanup(c, t)
  }

  predicate Initial(c: Client) {
    c.objects == map[] && c.live == map[] && c.tombstones == [] && c.closed == [] && c.pending == 0 && c.tasks == map[]
  }

  ghost predicate Follows(c: Client, step: Step, d: Client) {
    Enabled(c, step) && d == Do(c, step)
  }

  ghost predicate Run(states: seq<Client>, steps: seq<Step>) {
    && |states| == |steps| + 1
    && Initial(states[0])
    && forall i :: 0 <= i < |steps| ==> Follows(states[i], steps[i], states[i + 1])
  }
}
