/** Event identities of one feed: an accepted index, and pages staged over it
    without copying it. */
module EventIdentity {
  import opened Common

  datatype Entry = Entry(id: string, digest: string)

  datatype Outcome = New | Duplicate | Conflict | Exhausted

  datatype Limits = Limits(entries: nat, bytes: nat)

  // ----- what a log of identities says -----

  function Utf8Width(c: char): nat {
    if c < '\U{80}' then 1 else if c < '\U{800}' then 2 else if c < '\U{10000}' then 3 else 4
  }

  function Utf8(s: string): (n: nat)
    ensures n >= |s|
  {
    if s == [] then 0 else Utf8(s[..|s| - 1]) + Utf8Width(s[|s| - 1])
  }

  function Size(e: Entry): nat { Utf8(e.id) + Utf8(e.digest) }

  function Bytes(log: seq<Entry>): nat {
    if log == [] then 0 else Bytes(log[..|log| - 1]) + Size(log[|log| - 1])
  }

  /** The digest recorded for `id`, the latest one first. */
  function Known(log: seq<Entry>, id: string): Option<string> {
    if log == [] then None
    else if log[|log| - 1].id == id then Some(log[|log| - 1].digest)
    else Known(log[..|log| - 1], id)
  }

  predicate HasRoom(limits: Limits, count: nat, bytes: nat, more: nat, size: nat) {
    count + more <= limits.entries && bytes + size <= limits.bytes
  }

  /** What an identity means against what is known, and the room that is left. */
  function Judge(limits: Limits, known: Option<string>, count: nat, bytes: nat, e: Entry): Outcome {
    match known
    case Some(digest) => if digest == e.digest then Duplicate else Conflict
    case None => if HasRoom(limits, count, bytes, 1, Size(e)) then New else Exhausted
  }

  /** The same on one log, with nothing staged. */
  function JudgeOn(limits: Limits, log: seq<Entry>, e: Entry): Outcome {
    Judge(limits, Known(log, e.id), |log|, Bytes(log), e)
  }

  lemma {:induction false} BytesSum(a: seq<Entry>, b: seq<Entry>)
    ensures Bytes(a + b) == Bytes(a) + Bytes(b)
    decreases |b|
  {
    if b == [] {
      assert a + b == a;
    } else {
      BytesSum(a, b[..|b| - 1]);
      assert (a + b)[..|a + b| - 1] == a + b[..|b| - 1];
    }
  }

  lemma {:induction false} KnownSum(a: seq<Entry>, b: seq<Entry>, id: string)
    ensures Known(a + b, id) == if Known(b, id).Some? then Known(b, id) else Known(a, id)
    decreases |b|
  {
    if b == [] {
      assert a + b == a;
    } else {
      KnownSum(a, b[..|b| - 1], id);
      assert (a + b)[..|a + b| - 1] == a + b[..|b| - 1];
    }
  }

  lemma {:induction false} BytesOne(log: seq<Entry>, e: Entry)
    ensures Bytes(log + [e]) == Bytes(log) + Size(e)
  {
    assert (log + [e])[..|log|] == log;
  }

  lemma {:induction false} KnownOne(log: seq<Entry>, e: Entry, id: string)
    ensures Known(log + [e], id) == if e.id == id then Some(e.digest) else Known(log, id)
  {
    assert (log + [e])[..|log|] == log;
  }

  /** Nothing known in `a` is also in `b`. */
  ghost predicate Apart(a: seq<Entry>, b: seq<Entry>) {
    forall id {:trigger Known(b, id)} :: Known(b, id).Some? ==> Known(a, id).None?
  }

  // ----- the index and the trackers over it -----

  /** The dictionary of recorded digests; a candidate shares the one it forked
      from. The log lists the entries in the order they came in. */
  class Index {
    var digests: map<string, string>
    ghost var log: seq<Entry>
    ghost const limits: Limits
    ghost const root: bool

    ghost predicate Valid()
      reads this
    {
      && |digests| == |log|
      && forall id {:trigger id in digests} {:trigger Known(log, id)} ::
           (id in digests <==> Known(log, id).Some?) && (id in digests ==> digests[id] == Known(log, id).value)
    }

    constructor (limits: Limits, ghost root: bool)
      ensures Valid() && log == [] && this.limits == limits && this.root == root
    {
      digests := map[];
      log := [];
      this.limits := limits;
      this.root := root;
    }

    method Record(e: Entry)
      requires Valid() && Known(log, e.id).None?
      modifies this
      ensures Valid() && log == old(log) + [e]
    {
      ghost var before := log;
      assert e.id !in digests;
      digests := digests[e.id := e.digest];
      log := log + [e];
      forall id
        ensures Known(log, id) == if e.id == id then Some(e.digest) else Known(before, id)
      {
        KnownOne(before, e, id);
      }
    }

    /** `dict.update` with entries that are all new. */
    method Update(other: Index)
      requires Valid() && other.Valid() && other != this && Apart(log, other.log)
      modifies this
      ensures Valid() && log == old(log) + other.log
    {
      ghost var before := log;
      forall id | id in other.digests ensures id !in digests { assert Known(other.log, id).Some?; }
      MergeSize(digests, other.digests);
      digests := digests + other.digests;
      log := log + other.log;
      forall id
        ensures Known(log, id) == if Known(other.log, id).Some? then Known(other.log, id) else Known(before, id)
      {
        KnownSum(before, other.log, id);
      }
    }
  }

  lemma {:induction false} MergeSize(a: map<string, string>, b: map<string, string>)
    requires forall id :: id in b ==> id !in a
    ensures |a + b| == |a| + |b|
  {
    assert (a + b).Keys == a.Keys + b.Keys;
    assert |a| == |a.Keys| && |b| == |b.Keys| && |a + b| == |(a + b).Keys|;
  }

  class Tracker {
    const limits: Limits
    const index: Index
    const base: Index?
    const baseBytes: nat
    const baseCount: nat
    var bytes: nat
    ghost const forked: seq<Entry>     // what the base held when this was forked

    ghost predicate Valid()
      reads this, index, base
    {
      && index.Valid() && index.limits == limits && index.root == (base == null)
      && bytes == Bytes(index.log) && baseBytes == Bytes(forked) && baseCount == |forked|
      && HasRoom(limits, |forked|, Bytes(forked), |index.log|, bytes)
      && (if base == null then forked == []
          else base != index && base.Valid() && base.root && base.limits == limits
               && forked <= base.log && Apart(forked, index.log))
    }

    /** Everything this tracker has seen: the base as it is now, then its own. */
    ghost function Seen(): seq<Entry>
      reads this, index, base
    {
      if base == null then index.log else base.log + index.log
    }

    constructor (limits: Limits)
      ensures Valid() && fresh(index) && base == null && this.limits == limits && Seen() == []
    {
      this.limits := limits;
      base := null;
      baseBytes, baseCount, bytes, forked := 0, 0, 0, [];
      var empty := new Index(limits, true);
      index := empty;
    }

    constructor Over(root: Tracker)
      requires root.Valid() && root.base == null
      ensures Valid() && fresh(index) && base == root.index && limits == root.limits
      ensures forked == root.index.log && index.log == [] && Seen() == root.Seen()
    {
      limits := root.limits;
      base := root.index;
      baseBytes, baseCount, bytes := root.bytes, |root.index.digests|, 0;
      forked := root.index.log;
      var empty := new Index(root.limits, false);
      index := empty;
    }

    /** `fork`: refused on a staged tracker. */
    method Fork() returns (candidate: Option<Tracker>)
      requires Valid()
      ensures candidate.Some? <==> base == null
      ensures candidate.Some? ==>
                var c := candidate.value;
                && fresh(c) && fresh(c.index) && c.Valid() && c.base == index && c.limits == limits
                && c.forked == index.log && c.index.log == [] && c.Seen() == Seen()
    {
      if base != null { return None; }
      var c := new Tracker.Over(this);
      candidate := Some(c);
    }

    method Lookup(id: string) returns (known: Option<string>)
      requires Valid()
      ensures known == Known(Seen(), id)
    {
      if base != null { KnownSum(base.log, index.log, id); }
      known :=
        if id in index.digests then Some(index.digests[id])
        else if base != null && id in base.digests then Some(base.digests[id])
        else None;
    }

    /** `classify`, with `Conflict` and `Exhausted` for its two errors. */
    method Classify(e: Entry) returns (outcome: Outcome)
      requires Valid()
      modifies this, index
      ensures Valid()
      ensures outcome == Judge(limits, Known(old(Seen()), e.id), |old(Seen())|, baseBytes + old(bytes), e)
      ensures index.log == if outcome.New? then old(index.log) + [e] else old(index.log)
    {
      var known := Lookup(e.id);
      if known.Some? { return if known.value == e.digest then Duplicate else Conflict; }
      if |e.id| + |e.digest| > limits.bytes { return Exhausted; }
      var count := |index.digests| + if base == null then 0 else |base.digests|;
      if !HasRoom(limits, count, baseBytes + bytes, 1, Size(e)) { return Exhausted; }
      if base != null {
        KnownSum(base.log, index.log, e.id);
        KnownPrefix(forked, base.log, e.id);
        ApartOne(forked, index.log, e);
      }
      BytesOne(index.log, e);
      index.Record(e);
      bytes := bytes + Size(e);
      outcome := New;
    }

    /** `merge`: goes through exactly when the candidate was forked from this
        tracker and nothing was recorded since; there is always room, and nothing
        is overwritten. */
    method Merge(candidate: Tracker) returns (merged: bool)
      requires Valid() && candidate.Valid()
      modifies this, index
      ensures Valid() && candidate.Valid()
      ensures merged <==> candidate.base == index && candidate.forked == old(index.log)
      ensures index.log == if merged then old(index.log) + candidate.index.log else old(index.log)
    {
      var belongs := candidate.base == index && candidate.baseCount == |index.digests|;
      if !belongs { return false; }
      SamePrefix(candidate.forked, index.log);
      merged := HasRoom(limits, |index.digests|, baseBytes + bytes, |candidate.index.digests|, candidate.bytes);
      if merged {
        BytesSum(index.log, candidate.index.log);
        index.Update(candidate.index);
        bytes := bytes + candidate.bytes;
      }
    }
  }

  lemma {:induction false} SamePrefix<T>(a: seq<T>, b: seq<T>)
    requires a <= b && |a| == |b|
    ensures a == b
  {
  }

  lemma {:induction false} KnownPrefix(a: seq<Entry>, b: seq<Entry>, id: string)
    requires a <= b && Known(b, id).None?
    ensures Known(a, id).None?
  {
    KnownSum(a, b[|a|..], id);
    assert b == a + b[|a|..];
  }

  lemma {:induction false} ApartOne(a: seq<Entry>, b: seq<Entry>, e: Entry)
    requires Apart(a, b) && Known(a, e.id).None?
    ensures Apart(a, b + [e])
  {
    forall id | Known(b + [e], id).Some? ensures Known(a, id).None? {
      KnownOne(b, e, id);
      assert Known(b, id).Some? || id == e.id;
    }
  }
}
