/** The client object itself: the two loops that close executions, run on its
    own fields and proved against the step machine. */
module ForeignReadTables {
  import opened Common
  import opened ForeignRead
  import opened ForeignReadSafety

  class Tables {
    var objects: map<nat, Execution>
    var live: map<nat, nat>
    var tombstones: seq<nat>
    var pending: nat
    var tasks: map<nat, Task>
    var now: int
    var wall: int
    ghost var closed: seq<nat>

    ghost function View(): Client
      reads this
    {
      Client(objects, live, tombstones, closed, pending, tasks, now, wall)
    }

    constructor ()
      ensures Initial(View())
    {
      objects, live, tombstones, pending, tasks := map[], map[], [], 0, map[];
      now, wall, closed := 0, 0, [];
    }

    /** Drop the payload of `o` but keep its id behind the fence. */
    method Terminalize(o: nat)
      requires o in objects
      modifies this
      ensures View() == ForeignRead.Terminalize(old(View()), o)
    {
      var e := objects[o];
      closed := if e.terminal then closed else closed + [e.ref.id];
      objects := objects[o := e.(terminal := true)];
      live := live - {e.ref.id};
      var fence := Without(tombstones, e.ref.id) + [e.ref.id];
      while |fence| > MAX_EXECUTIONS
        invariant Newest(fence) == Entomb(old(tombstones), e.ref.id)
      {
        fence := fence[1..];
      }
      tombstones := fence;
    }

    /** Close every expired execution whose lock is free. */
    method ReapExpired() returns (ghost order: seq<nat>)
      requires Safe(View())
      modifies this
      ensures Enumerates(order, old(View()))
      ensures View() == Reap(old(View()), order)
      ensures Safe(View())
      ensures forall id :: !Reapable(View(), id)
    {
      var rest := live.Keys;
      order := [];
      ghost var start := View();
      SweepStarts(start);
      while rest != {}
        invariant Sweep(start, View(), order, rest)
        decreases rest
      {
        var id :| id in rest;
        rest := rest - {id};
        assert Registered(View(), live[id]);
        var e := objects[live[id]];
        SweepStep(start, View(), order, rest + {id}, id);
        assert rest + {id} - {id} == rest;
        if e.holder.None? && Expired(e, now, wall) {
          Terminalize(live[id]);
          order := order + [id];
        }
      }
    }
  }

  /** Part way through: `order` is closed, `rest` is still to be looked at. */
  ghost predicate Sweep(start: Client, c: Client, order: seq<nat>, rest: set<nat>) {
    && Safe(c) && c == Reap(start, order)
    && rest <= c.live.Keys
    && Distinct(order)
    && (forall id :: id in order ==> Reapable(start, id) && id !in rest)
    && (forall id :: Reapable(start, id) ==> id in order || id in rest)
    && (forall id :: id in rest ==> (Reapable(c, id) <==> Reapable(start, id)))
    && (forall id :: Reapable(c, id) ==> id in rest)
  }

  lemma {:induction false} SweepStarts(start: Client)
    requires Safe(start)
    ensures Sweep(start, start, [], start.live.Keys)
  {
  }

  lemma {:induction false} SweepStep(start: Client, c: Client, order: seq<nat>, rest: set<nat>, id: nat)
    requires Sweep(start, c, order, rest) && id in rest
    ensures id in c.live && c.live[id] in c.objects
    ensures !Reapable(c, id) ==> Sweep(start, c, order, rest - {id})
    ensures Reapable(c, id) ==> Sweep(start, ForeignRead.Terminalize(c, c.live[id]), order + [id], rest - {id})
  {
    var o := c.live[id];
    assert Registered(c, o);
    if Reapable(c, id) {
      ReapOne(c, id);
      ReapAppend(start, order, id);
      var d := ForeignRead.Terminalize(c, o);
      assert Reap(c, [id]) == d by { assert Reap(d, []) == d; assert [id][1..] == []; }
      forall x | x in rest - {id} ensures Reapable(d, x) <==> Reapable(c, x) {
        StillReapable(c, o, x);
      }
      forall x | Reapable(d, x) ensures x in rest - {id} {
        StillReapable(c, o, x);
      }
    }
  }

  /** Closing one execution makes no other one reapable. */
  lemma {:induction false} StillReapable(c: Client, o: nat, x: nat)
    requires Registry(c) && o in c.objects && x != c.objects[o].ref.id
    ensures Reapable(ForeignRead.Terminalize(c, o), x) <==> Reapable(c, x)
  {
  }

  lemma {:induction false} ReapAppend(c: Client, order: seq<nat>, id: nat)
    ensures Reap(c, order + [id]) == Reap(Reap(c, order), [id])
    decreases |order|
  {
    if order == [] {
      assert order + [id] == [id];
    } else {
      assert (order + [id])[1..] == order[1..] + [id];
      var d := if order[0] in c.live && c.live[order[0]] in c.objects then ForeignRead.Terminalize(c, c.live[order[0]])
          else c;
      ReapAppend(d, order[1..], id);
    }
  }
}
