/** Deadlines of the foreign-read client: from the clock reading at the open to the
    last request, over every run. */
module ForeignReadTimes {
  import opened Common
  import opened ForeignRead
  import opened ForeignReadSafety

  /** The same execution, as it was opened. */
  predicate SameOpening(e: Execution, f: Execution) {
    && e.ref == f.ref && e.identity == f.identity && e.limits == f.limits
    && e.deadlineAt == f.deadlineAt && e.expiresAt == f.expiresAt
  }

  lemma {:induction false} ReapKeepsOpening(c: Client, order: seq<nat>, o: nat)
    requires o in c.objects
    ensures o in Reap(c, order).objects && SameOpening(c.objects[o], Reap(c, order).objects[o])
    ensures Reap(c, order).objects[o].trace == c.objects[o].trace
    ensures Reap(c, order).tasks == c.tasks && Reap(c, order).now == c.now
    ensures Reap(c, order).objects.Keys == c.objects.Keys
    decreases |order|
  {
    if order != [] {
      if order[0] in c.live && c.live[order[0]] in c.objects {
        ReapKeepsOpening(Terminalize(c, c.live[order[0]]), order[1..], o);
      } else {
        ReapKeepsOpening(c, order[1..], o);
      }
    }
  }

  lemma {:induction false} ReapKeepsTasks(c: Client, order: seq<nat>)
    ensures Reap(c, order).tasks == c.tasks && Reap(c, order).now == c.now
    ensures Reap(c, order).objects.Keys == c.objects.Keys
    decreases |order|
  {
    if order != [] {
      if order[0] in c.live && c.live[order[0]] in c.objects {
        ReapKeepsTasks(Terminalize(c, c.live[order[0]]), order[1..]);
      } else {
        ReapKeepsTasks(c, order[1..]);
      }
    }
  }

  /** No step changes what an execution was opened with. */
  lemma {:induction false} StepKeepsOpening(c: Client, step: Step, o: nat)
    requires Enabled(c, step) && o in c.objects
    ensures o in Do(c, step).objects && SameOpening(c.objects[o], Do(c, step).objects[o])
  {
    match step
    case Open(_, _, order) => ReapKeepsOpening(c, order, o);
    case Enter(t, now, wall) => EnterKeepsOpening(c, t, now, wall, o);
    case Receive(t, answer) => ReceiveKeepsOpening(c, t, answer, o);
    case _ =>
  }

  lemma {:induction false} EnterKeepsOpening(c: Client, t: nat, now: int, wall: int, o: nat)
    requires Enabled(c, Enter(t, now, wall)) && o in c.objects
    ensures var d := EnterLock(c, t, now, wall); o in d.objects && SameOpening(c.objects[o], d.objects[o])
  {
    var target, phase, d := c.tasks[t].target, c.tasks[t].phase, EnterLock(c, t, now, wall);
    EnterIs(c, t, now, wall);
    EnteredKeepsOpening(c, t, target, phase, d, o);
  }

  lemma {:induction false} EnteredKeepsOpening(c: Client, t: nat, target: nat, phase: Phase, d: Client, o: nat)
    requires target in c.objects && Entered(c, t, target, phase, d) && o in c.objects
    ensures o in d.objects && SameOpening(c.objects[o], d.objects[o])
  {
  }

  lemma {:induction false} ReceiveKeepsOpening(c: Client, t: nat, answer: Answer, o: nat)
    requires Enabled(c, Receive(t, answer)) && o in c.objects
    ensures var d := ReceiveAnswer(c, t, answer); o in d.objects && SameOpening(c.objects[o], d.objects[o])
  {
  }

  lemma {:induction false} OpeningKept(states: seq<Client>, steps: seq<Step>, m: nat, n: nat, o: nat)
    requires Run(states, steps) && m <= n < |states| && o in states[m].objects
    ensures o in states[n].objects && SameOpening(states[m].objects[o], states[n].objects[o])
    decreases n
  {
    if m < n {
      OpeningKept(states, steps, m, n - 1, o);
      assert Follows(states[n - 1], steps[n - 1], states[n]);
      StepKeepsOpening(states[n - 1], steps[n - 1], o);
    }
  }

  predicate OverOr(c: Client, t: nat, task: Task) {
    t in c.tasks && (c.tasks[t] == task || c.tasks[t].Over?)
  }

  lemma {:induction false} StepKeepsTask(c: Client, step: Step, t: nat, task: Task)
    requires Enabled(c, step) && (task.Opening? || task.Over?) && OverOr(c, t, task)
    ensures OverOr(Do(c, step), t, task)
  {
    if step.Open? { ReapKeepsTasks(c, step.order); }
  }

  /** An open in progress goes on as it began, until it is over. */
  lemma {:induction false} TaskKept(states: seq<Client>, steps: seq<Step>, m: nat, n: nat, t: nat, task: Task)
    requires Run(states, steps) && m <= n < |states| && (task.Opening? || task.Over?) && OverOr(states[m], t, task)
    ensures OverOr(states[n], t, task)
    decreases n
  {
    if m < n {
      TaskKept(states, steps, m, n - 1, t, task);
      assert Follows(states[n - 1], steps[n - 1], states[n]);
      StepKeepsTask(states[n - 1], steps[n - 1], t, task);
    }
  }

  /** An execution is opened as it was asked for: by the digest of the open before
      it, under an id that is neither live nor among those closed last, with time
      left, and with its deadline counted from the clock reading at the open. */
  lemma {:induction false} OpenedAsAsked(states: seq<Client>, steps: seq<Step>, k: nat, j: nat, o: nat)
    requires Run(states, steps) && k < j < |steps| && steps[k].Open?
    requires steps[j].ReceiveOpen? && steps[j].task == steps[k].task && steps[j].target == o
    requires o in states[j + 1].objects
    ensures var request, reply, e := steps[k].request, steps[j].reply, states[j + 1].objects[o];
            && request.schema == 1 && reply.Opened? && reply.schema == 1 && reply.next == 0
            && reply.ref.digest == request.digest
            && reply.ref.id !in states[j].live && reply.ref.id !in states[j].tombstones
            && states[j].wall < reply.expiresAt
            && e.ref == reply.ref && e.identity == reply.identity && e.limits == request.limits
            && e.deadlineAt == states[k].now + request.deadline && e.expiresAt == reply.expiresAt
            && e.trace == [] && !e.terminal && states[j + 1].live == states[j].live[reply.ref.id := o]
  {
    var t, request := steps[k].task, steps[k].request;
    assert Follows(states[k], steps[k], states[k + 1]);
    assert Follows(states[j], steps[j], states[j + 1]);
    ReapKeepsTasks(states[k], steps[k].order);
    TaskKept(states, steps, k + 1, j, t, states[k + 1].tasks[t]);
  }

  /** The event that comes next for an execution is a request. */
  predicate SendsFor(before: Client, after: Client, o: nat) {
    && o in before.objects && o in after.objects
    && var sent, now := before.objects[o].trace, after.objects[o].trace;
       |sent| < |now| && now[|sent|].Sent?
  }

  lemma {:induction false} OnlyEntering(c: Client, step: Step, o: nat)
    requires Enabled(c, step) && !step.Enter? && !step.Receive?
    ensures !SendsFor(c, Do(c, step), o)
  {
    if step.Open? && o in c.objects { ReapKeepsOpening(c, step.order, o); }
  }

  lemma {:induction false} NotReceiving(c: Client, t: nat, answer: Answer, o: nat)
    requires Enabled(c, Receive(t, answer))
    ensures !SendsFor(c, ReceiveAnswer(c, t, answer), o)
  {
  }

  lemma {:induction false} MustEnter(c: Client, step: Step, o: nat)
    requires Enabled(c, step) && SendsFor(c, Do(c, step), o)
    ensures step.Enter?
  {
    match step
    case Enter(_, _, _) =>
    case Receive(t, answer) => NotReceiving(c, t, answer, o);
    case _ => OnlyEntering(c, step, o);
  }

  /** A request is sent only by a phase that got the lock in time. */
  lemma {:induction false} EntersInTime(c: Client, t: nat, now: int, wall: int, o: nat)
    requires Enabled(c, Enter(t, now, wall)) && SendsFor(c, EnterLock(c, t, now, wall), o)
    ensures now < c.objects[o].deadlineAt && c.wall < c.objects[o].expiresAt && wall < c.objects[o].expiresAt
  {
  }

  /** Over every run: whatever is sent for an execution is sent before the deadline
      that its open asked for has passed and before its server lets it expire. */
  lemma {:induction false} SentInTime(states: seq<Client>, steps: seq<Step>, k: nat, j: nat, i: nat, o: nat)
    requires Run(states, steps) && k < j < i < |steps| && steps[k].Open?
    requires steps[j].ReceiveOpen? && steps[j].task == steps[k].task && steps[j].target == o
    requires o in states[j + 1].objects && SendsFor(states[i], states[i + 1], o)
    ensures steps[i].Enter? && steps[i].now < states[k].now + steps[k].request.deadline
    ensures steps[i].wall < steps[j].reply.expiresAt
  {
    OpenedAsAsked(states, steps, k, j, o);
    OpeningKept(states, steps, j + 1, i, o);
    assert Follows(states[i], steps[i], states[i + 1]);
    MustEnter(states[i], steps[i], o);
    EntersInTime(states[i], steps[i].task, steps[i].now, steps[i].wall, o);
  }

  /** The sweep of an open closes exactly the executions that nobody holds and that
      are past their deadline or expiry. */
  lemma {:induction false} SweepExact(c: Client, t: nat, request: OpenRequest, order: seq<nat>, id: nat)
    requires Safe(c) && Enabled(c, Open(t, request, order)) && request.schema == 1 && id in c.live
    ensures var e := c.objects[c.live[id]];
            id !in Do(c, Open(t, request, order)).live <==>
              e.holder.None? && (e.deadlineAt <= c.now || e.expiresAt <= c.wall)
  {
    ReapLive(c, order, id);
    assert Registered(c, c.live[id]);
  }

  lemma {:induction false} ReapLive(c: Client, order: seq<nat>, id: nat)
    requires Safe(c) && Distinct(order) && forall x :: x in order ==> Reapable(c, x)
    ensures id in Reap(c, order).live <==> id in c.live && id !in order
    decreases |order|
  {
    if order != [] {
      assert Reapable(c, order[0]);
      ReapOne(c, order[0]);
      ReapLive(Terminalize(c, c.live[order[0]]), order[1..], id);
    }
  }
}
