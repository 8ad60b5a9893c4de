/** What the foreign-read client gives: against a server that repeats each request and
    adds up, every read within its limits is sent, accepted and certified. */
module ForeignReadSession {
  import opened Common
  import opened ForeignRead
  import opened ForeignReadSafety

  // ----- a read, step by step -----

  datatype Page = Page(rows: nat, encoded: nat)

  /** An open, chunks and a complete, by the tasks from `task` on. The open is answered
      with `ref`; every phase is sent at `now` and `wall`. */
  datatype Session = Session(
    task: nat, target: nat, request: OpenRequest, order: seq<nat>,
    ref: Ref, identity: string, expiresAt: int, pages: seq<Page>, now: int, wall: int)

  function Rows(pages: seq<Page>, n: nat): nat
    requires n <= |pages|
  {
    if n == 0 then 0 else Rows(pages, n - 1) + pages[n - 1].rows
  }

  function Bytes(pages: seq<Page>, n: nat): nat
    requires n <= |pages|
  {
    if n == 0 then 0 else Bytes(pages, n - 1) + pages[n - 1].encoded
  }

  function OpenSteps(s: Session): seq<Step> {
    [Open(s.task, s.request, s.order), ReceiveOpen(s.task, s.target, Opened(1, s.ref, 0, s.expiresAt, s.identity))]
  }

  /** One phase: the task finds the execution, sends, and receives the answer. */
  function PhaseSteps(s: Session, t: nat, phase: Phase, answer: Answer): seq<Step> {
    [Find(t, phase), Enter(t, s.now, s.wall), Receive(t, answer)]
  }

  /** Chunk `n`, and the server's answer to it. */
  function ChunkSteps(s: Session, n: nat): seq<Step>
    requires n < |s.pages|
  {
    var page := s.pages[n];
    PhaseSteps(s, s.task + 1 + n, Chunk(s.ref, n, s.identity, page.rows, Some(page.encoded)),
               ChunkAnswer(s.ref, n, page.rows, Rows(s.pages, n + 1), Bytes(s.pages, n + 1), n + 1))
  }

  function AllChunkSteps(s: Session, n: nat): seq<Step>
    requires n <= |s.pages|
  {
    if n == 0 then [] else AllChunkSteps(s, n - 1) + ChunkSteps(s, n - 1)
  }

  function Certificate(s: Session): Answer {
    CompleteAnswer(s.ref, |s.pages|, Rows(s.pages, |s.pages|), Bytes(s.pages, |s.pages|))
  }

  function CompleteSteps(s: Session): seq<Step> {
    PhaseSteps(s, s.task + 1 + |s.pages|, Complete(s.ref, |s.pages|), Certificate(s))
  }

  function SessionSteps(s: Session): seq<Step> {
    OpenSteps(s) + AllChunkSteps(s, |s.pages|) + CompleteSteps(s)
  }

  /** Each step can be taken, and the last one leads to `d`. */
  ghost predicate Goes(c: Client, steps: seq<Step>, d: Client)
    decreases |steps|
  {
    if steps == [] then c == d else Enabled(c, steps[0]) && Goes(Do(c, steps[0]), steps[1..], d)
  }

  lemma {:induction false} GoesOn(c: Client, first: seq<Step>, d: Client, second: seq<Step>, e: Client)
    requires Goes(c, first, d) && Goes(d, second, e)
    ensures Goes(c, first + second, e)
    decreases |first|
  {
    if first == [] {
      assert first + second == second;
    } else {
      GoesOn(Do(c, first[0]), first[1..], d, second, e);
      assert (first + second)[1..] == first[1..] + second;
    }
  }

  lemma {:induction false} TwoGo(c: Client, a: Step, b: Step)
    requires Enabled(c, a) && Enabled(Do(c, a), b)
    ensures Goes(c, [a, b], Do(Do(c, a), b))
  {
    assert [a, b][1..] == [b] && [b][1..] == [];
    assert Goes(Do(c, a), [b], Do(Do(c, a), b));
  }

  lemma {:induction false} ThreeGo(c: Client, a: Step, b: Step, e: Step)
    requires Enabled(c, a) && Enabled(Do(c, a), b) && Enabled(Do(Do(c, a), b), e)
    ensures Goes(c, [a, b, e], Do(Do(Do(c, a), b), e))
  {
    TwoGo(Do(c, a), b, e);
    assert [a, b, e][1..] == [b, e];
  }

  // ----- what makes a read possible -----

  /** Room for one more execution, a server that answers the open for this query under a
      new id, and time left. */
  ghost predicate Opens(c: Client, s: Session) {
    && |c.live| + c.pending < MAX_EXECUTIONS && Enumerates(s.order, c)
    && s.request.schema == 1 && s.ref.digest == s.request.digest
    && s.ref.id !in c.live && s.ref.id !in c.closed && s.target !in c.objects
    && (forall u :: u in c.tasks ==> u < s.task)
    && c.now <= s.now < c.now + s.request.deadline && c.wall < s.expiresAt && s.wall < s.expiresAt
  }

  /** Every chunk, and all of them together, are within the limits. */
  predicate WithinLimits(s: Session) {
    var limits := s.request.limits;
    && (forall i :: 0 <= i < |s.pages| ==>
          s.pages[i].rows <= limits.chunkRows && s.pages[i].encoded <= limits.chunkBytes)
    && Rows(s.pages, |s.pages|) <= limits.maxRows && Bytes(s.pages, |s.pages|) <= limits.maxBytes
  }

  lemma {:induction false} TotalsGrow(pages: seq<Page>, n: nat, m: nat)
    requires n <= m <= |pages|
    ensures Rows(pages, n) <= Rows(pages, m) && Bytes(pages, n) <= Bytes(pages, m)
    decreases m
  {
    if n < m { TotalsGrow(pages, n, m - 1); }
  }

  /** `n` chunks were accepted, and the execution is open and idle. */
  predicate Midway(c: Client, s: Session, n: nat, start: int)
    requires n <= |s.pages|
  {
    && s.target in c.objects && s.ref.id in c.live && c.live[s.ref.id] == s.target
    && var e := c.objects[s.target];
    && e.ref == s.ref && e.identity == s.identity && e.limits == s.request.limits
    && e.deadlineAt == start + s.request.deadline && e.expiresAt == s.expiresAt
    && e.expected == n && e.rows == Rows(s.pages, n) && e.bytes == Bytes(s.pages, n)
    && !e.terminal && e.holder.None?
    && (forall u :: u in c.tasks ==> u < s.task + 1 + n)
    && c.now <= s.now < start + s.request.deadline && c.wall < s.expiresAt && s.wall < s.expiresAt
  }

  // ----- the open -----

  lemma {:induction false} ReapKeepsRoom(c: Client, order: seq<nat>)
    ensures var d := Reap(c, order);
            && d.tasks == c.tasks && d.pending == c.pending && d.now == c.now && d.wall == c.wall
            && d.live.Keys <= c.live.Keys && d.objects.Keys == c.objects.Keys
    decreases |order|
  {
    if order != [] {
      if order[0] in c.live && c.live[order[0]] in c.objects {
        ReapKeepsRoom(Terminalize(c, c.live[order[0]]), order[1..]);
      } else {
        ReapKeepsRoom(c, order[1..]);
      }
    }
  }

  /** A sweep closes listed ids only. */
  lemma {:induction false} ReapClosesListed(c: Client, order: seq<nat>)
    requires Safe(c) && Distinct(order) && forall id :: id in order ==> Reapable(c, id)
    ensures forall id :: id in Reap(c, order).closed ==> id in c.closed || id in order
    decreases |order|
  {
    if order != [] {
      assert Reapable(c, order[0]);
      ReapOne(c, order[0]);
      ReapClosesListed(Terminalize(c, c.live[order[0]]), order[1..]);
    }
  }

  lemma {:induction false} FenceIsClosed(c: Client, id: nat)
    requires Registry(c) && id !in c.closed
    ensures id !in c.tombstones
  {
  }

  lemma {:induction false} SweptForOpen(c: Client, s: Session)
    requires Safe(c) && Opens(c, s)
    ensures var d := Reap(c, s.order);
            && Safe(d) && |d.live| + d.pending < MAX_EXECUTIONS && d.tasks == c.tasks
            && d.now == c.now && d.wall == c.wall && s.target !in d.objects
            && s.ref.id !in d.live && s.ref.id !in d.tombstones
  {
    var d := Reap(c, s.order);
    ReapKeepsSafe(c, s.order);
    ReapKeepsRoom(c, s.order);
    ReapClosesListed(c, s.order);
    CardinalityMonotone(d.live.Keys, c.live.Keys);
    assert |d.live| == |d.live.Keys| && |c.live| == |c.live.Keys|;
    FenceIsClosed(d, s.ref.id);
  }

  lemma {:induction false} OpenGoes(c: Client, s: Session) returns (d: Client)
    requires Safe(c) && Opens(c, s)
    ensures Goes(c, OpenSteps(s), d) && Midway(d, s, 0, c.now)
  {
    var swept := Reap(c, s.order);
    SweptForOpen(c, s);
    var first, second := OpenSteps(s)[0], OpenSteps(s)[1];
    var a := Do(c, first);
    assert a == swept.(pending := swept.pending + 1, tasks := swept.tasks[s.task := Opening(s.request, c.now)]);
    d := Do(a, second);
    TwoGo(c, first, second);
  }

  // ----- a phase -----

  /** The client with the phase of a task under way. */
  function SentBy(c: Client, o: nat, t: nat, phase: Phase): Client
    requires o in c.objects
  {
    var e := c.objects[o];
    c.(objects := c.objects[o := e.(holder := Some(t), trace := e.trace + [Sent(phase)])],
       tasks := c.tasks[t := InFlight(o, phase)])
  }

  /** A request that is due is found and sent. */
  lemma {:induction false} PhaseSent(c: Client, s: Session, n: nat, start: int, t: nat, phase: Phase)
    requires n <= |s.pages| && Midway(c, s, n, start) && t == s.task + 1 + n
    requires phase.ref == s.ref && phase.sequence == n
    requires phase.Chunk? ==> n < |s.pages| && WithinLimits(s) && phase.identity == s.identity
                              && phase.rows == s.pages[n].rows && phase.encoded == Some(s.pages[n].encoded)
    ensures Enabled(c, Find(t, phase)) && Enabled(Do(c, Find(t, phase)), Enter(t, s.now, s.wall))
    ensures Do(Do(c, Find(t, phase)), Enter(t, s.now, s.wall)) == SentBy(c, s.target, t, phase)
  {
    var a := Do(c, Find(t, phase));
    assert a.tasks[t] == Waiting(s.target, phase);
    if phase.Chunk? { TotalsGrow(s.pages, n + 1, |s.pages|); }
    var d := Do(a, Enter(t, s.now, s.wall));
    assert d.tasks == SentBy(c, s.target, t, phase).tasks;
  }

  lemma {:induction false} ChunkGoes(c: Client, s: Session, n: nat, start: int) returns (d: Client)
    requires n < |s.pages| && Midway(c, s, n, start) && WithinLimits(s)
    ensures Goes(c, ChunkSteps(s, n), d) && Midway(d, s, n + 1, start)
  {
    var t, steps := s.task + 1 + n, ChunkSteps(s, n);
    var phase := steps[0].phase;
    PhaseSent(c, s, n, start, t, phase);
    var b := SentBy(c, s.target, t, phase);
    TotalsGrow(s.pages, n + 1, |s.pages|);
    d := Do(b, steps[2]);
    ThreeGo(c, steps[0], steps[1], steps[2]);
  }

  lemma {:induction false} ChunksGo(c: Client, s: Session, n: nat, start: int) returns (d: Client)
    requires n <= |s.pages| && Midway(c, s, 0, start) && WithinLimits(s)
    ensures Goes(c, AllChunkSteps(s, n), d) && Midway(d, s, n, start)
  {
    if n == 0 {
      d := c;
    } else {
      var b := ChunksGo(c, s, n - 1, start);
      d := ChunkGoes(b, s, n - 1, start);
      GoesOn(c, AllChunkSteps(s, n - 1), b, ChunkSteps(s, n - 1), d);
    }
  }

  /** The read is over, and its certificate is the last thing that crossed. */
  predicate Certified(d: Client, s: Session) {
    && s.target in d.objects && s.ref.id !in d.live && s.ref.id in d.closed
    && var e := d.objects[s.target];
    && e.terminal && e.ref == s.ref && e.expected == |s.pages|
    && e.rows == Rows(s.pages, |s.pages|) && e.bytes == Bytes(s.pages, |s.pages|)
    && e.trace != [] && e.trace[|e.trace| - 1] == Accepted(Certificate(s))
  }

  lemma {:induction false} CompleteGoes(c: Client, s: Session, start: int) returns (d: Client)
    requires Midway(c, s, |s.pages|, start)
    ensures Goes(c, CompleteSteps(s), d) && Certified(d, s)
  {
    var n := |s.pages|;
    var t, steps := s.task + 1 + n, CompleteSteps(s);
    PhaseSent(c, s, n, start, t, steps[0].phase);
    d := Do(SentBy(c, s.target, t, steps[0].phase), steps[2]);
    ThreeGo(c, steps[0], steps[1], steps[2]);
  }

  // ----- the whole read -----

  /** From every state of every run: where there is room, and a server repeats each
      request and adds up, a read within its limits goes through, chunk by chunk, and is
      certified with exactly its rows and bytes. */
  lemma {:induction false} ReadCertified(states: seq<Client>, steps: seq<Step>, n: nat, s: Session)
      returns (d: Client)
    requires Run(states, steps) && n < |states| && Opens(states[n], s) && WithinLimits(s)
    ensures Goes(states[n], SessionSteps(s), d) && Certified(d, s)
  {
    var c := states[n];
    RunSafe(states, steps, n);
    var a := OpenGoes(c, s);
    var b := ChunksGo(a, s, |s.pages|, c.now);
    d := CompleteGoes(b, s, c.now);
    GoesOn(c, OpenSteps(s), a, AllChunkSteps(s, |s.pages|), b);
    GoesOn(c, OpenSteps(s) + AllChunkSteps(s, |s.pages|), b, CompleteSteps(s), d);
  }

  function AbortSteps(s: Session, n: nat, reason: string): seq<Step> {
    PhaseSteps(s, s.task + 1 + n, Abort(s.ref, n, reason), AbortAnswer(s.ref, n, reason))
  }

  /** And after any number of its chunks it can be aborted. */
  lemma {:induction false} ReadAborted(states: seq<Client>, steps: seq<Step>, n: nat, s: Session, m: nat,
      reason: string) returns (d: Client)
    requires Run(states, steps) && n < |states| && Opens(states[n], s) && WithinLimits(s) && m <= |s.pages|
    ensures Goes(states[n], OpenSteps(s) + AllChunkSteps(s, m) + AbortSteps(s, m, reason), d)
    ensures s.target in d.objects && s.ref.id !in d.live && s.ref.id in d.closed
    ensures var e := d.objects[s.target];
            && e.terminal && e.rows == Rows(s.pages, m) && e.trace != []
            && e.trace[|e.trace| - 1] == Accepted(AbortAnswer(s.ref, m, reason))
  {
    var c := states[n];
    RunSafe(states, steps, n);
    var a := OpenGoes(c, s);
    var b := ChunksGo(a, s, m, c.now);
    d := AbortGoes(b, s, m, c.now, reason);
    GoesOn(c, OpenSteps(s), a, AllChunkSteps(s, m), b);
    GoesOn(c, OpenSteps(s) + AllChunkSteps(s, m), b, AbortSteps(s, m, reason), d);
  }

  lemma {:induction false} AbortGoes(c: Client, s: Session, m: nat, start: int, reason: string) returns (d: Client)
    requires m <= |s.pages| && Midway(c, s, m, start)
    ensures Goes(c, AbortSteps(s, m, reason), d)
    ensures s.target in d.objects && s.ref.id !in d.live && s.ref.id in d.closed
    ensures var e := d.objects[s.target];
            && e.terminal && e.rows == Rows(s.pages, m) && e.trace != []
            && e.trace[|e.trace| - 1] == Accepted(AbortAnswer(s.ref, m, reason))
  {
    var t, steps := s.task + 1 + m, AbortSteps(s, m, reason);
    PhaseSent(c, s, m, start, t, steps[0].phase);
    d := Do(SentBy(c, s.target, t, steps[0].phase), steps[2]);
    ThreeGo(c, steps[0], steps[1], steps[2]);
  }
}
