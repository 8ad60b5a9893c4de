/** What a feed makes of a page, told by the events delivered before: which pages
    are accepted, what is new in them, and what delivering a page again does. */
module EventDeliveries {
  import opened Common
  import opened EventIdentity
  import opened EventPages

  /** One id with two digests. */
  predicate Clash(a: Entry, b: Entry) { a.id == b.id && a.digest != b.digest }

  /** The event at `i` is the first of its id, in the page and against the log. */
  predicate FirstAt(log: seq<Entry>, events: seq<Entry>, i: nat)
    requires i < |events|
  {
    Known(log, events[i].id).None? && forall k :: 0 <= k < i ==> events[k].id != events[i].id
  }

  /** The first event of every id the log does not know, in order. */
  function Firsts(log: seq<Entry>, events: seq<Entry>): seq<Entry> {
    if events == [] then []
    else
      var n := |events| - 1;
      Firsts(log, events[..n]) + if FirstAt(log, events, n) then [events[n]] else []
  }

  /** The event at `i` contradicts neither the log nor the page before it. */
  predicate Agrees(log: seq<Entry>, events: seq<Entry>, i: nat)
    requires i < |events|
  {
    && (Known(log, events[i].id).Some? ==> Known(log, events[i].id).value == events[i].digest)
    && forall k :: 0 <= k < i ==> !Clash(events[k], events[i])
  }

  ghost predicate Coherent(log: seq<Entry>, events: seq<Entry>) {
    forall i :: 0 <= i < |events| ==> Agrees(log, events, i)
  }

  ghost predicate Fits(limits: Limits, log: seq<Entry>, news: seq<Entry>) {
    news == [] || (|log| + |news| <= limits.entries && Bytes(log) + Bytes(news) <= limits.bytes)
  }

  ghost predicate CoherentTo(log: seq<Entry>, events: seq<Entry>, n: nat) {
    n <= |events| && forall i :: 0 <= i < n ==> Agrees(log, events, i)
  }

  lemma {:induction false} FirstsNext(log: seq<Entry>, events: seq<Entry>, n: nat)
    requires n < |events|
    ensures Firsts(log, events[..n + 1]) == Firsts(log, events[..n]) + if FirstAt(log, events, n) then [events[n]]
        else []
  {
    var page := events[..n + 1];
    assert page[..n] == events[..n] && page[n] == events[n];
    assert FirstAt(log, page, n) == FirstAt(log, events, n);
  }

  /** What `known` says of `id` is what some of the first `n` events say, or none. */
  ghost predicate Says(events: seq<Entry>, n: nat, id: string, known: Option<string>)
    requires n <= |events|
  {
    match known
    case None => forall k :: 0 <= k < n ==> events[k].id != id
    case Some(d) => exists k :: 0 <= k < n && events[k] == Entry(id, d)
  }

  lemma {:induction false} SaysNext(events: seq<Entry>, n: nat, id: string, known: Option<string>)
    requires n < |events| && Says(events, n, id, known)
    ensures events[n].id != id || known.Some? ==> Says(events, n + 1, id, known)
    ensures events[n].id == id ==> Says(events, n + 1, id, Some(events[n].digest))
  {
    if known.Some? {
      var k :| 0 <= k < n && events[k] == Entry(id, known.value);
      assert 0 <= k < n + 1 && events[k] == Entry(id, known.value);
    }
    if events[n].id == id { assert 0 <= n < n + 1 && events[n] == Entry(id, events[n].digest); }
  }

  /** What the first events of a page's first `n` tell. */
  lemma {:induction false} FirstsKnown(log: seq<Entry>, events: seq<Entry>, n: nat, id: string)
    requires n <= |events|
    ensures Known(log, id).Some? ==> Known(Firsts(log, events[..n]), id).None?
    ensures Known(log, id).None? ==> Says(events, n, id, Known(Firsts(log, events[..n]), id))
  {
    if n > 0 {
      FirstsKnown(log, events, n - 1, id);
      FirstsNext(log, events, n - 1);
      FirstKnown(log, events, n - 1, Firsts(log, events[..n - 1]), id);
    }
  }

  lemma {:induction false} FirstKnown(log: seq<Entry>, events: seq<Entry>, n: nat, before: seq<Entry>, id: string)
    requires n < |events|
    requires Known(log, id).Some? ==> Known(before, id).None?
    requires Known(log, id).None? ==> Says(events, n, id, Known(before, id))
    ensures var after := before + if FirstAt(log, events, n) then [events[n]] else [];
            && (Known(log, id).Some? ==> Known(after, id).None?)
            && (Known(log, id).None? ==> Says(events, n + 1, id, Known(after, id)))
  {
    KnownOne(before, events[n], id);
    assert before + [] == before;
    if Known(log, id).None? { SaysNext(events, n, id, Known(before, id)); }
  }

  /** The verdict on the next event, by what comes before it. */
  ghost predicate Judged(limits: Limits, log: seq<Entry>, events: seq<Entry>, n: nat, before: seq<Entry>)
    requires n < |events|
  {
    match JudgeOn(limits, log + before, events[n])
    case New => Agrees(log, events, n) && FirstAt(log, events, n) && Fits(limits, log, before + [events[n]])
    case Duplicate => Agrees(log, events, n) && !FirstAt(log, events, n)
    case Conflict => !Agrees(log, events, n)
    case Exhausted => FirstAt(log, events, n) && !Fits(limits, log, before + [events[n]])
  }

  lemma {:induction false} JudgedNext(limits: Limits, log: seq<Entry>, events: seq<Entry>, n: nat)
    requires n < |events| && CoherentTo(log, events, n)
    ensures Judged(limits, log, events, n, Firsts(log, events[..n]))
  {
    var before, e := Firsts(log, events[..n]), events[n];
    KnownSum(log, before, e.id);
    FirstsKnown(log, events, n, e.id);
    BytesSum(log, before);
    BytesOne(before, e);
    if Known(log, e.id).None? && Known(before, e.id).Some? {
      assert Says(events, n, e.id, Known(before, e.id));
      var k :| 0 <= k < n && events[k] == Entry(e.id, Known(before, e.id).value);
      SameDigest(log, events, n, k);
    }
    if Known(log, e.id).Some? {
      forall k | 0 <= k < n ensures Clash(events[k], e) ==> Known(log, e.id).value != e.digest {
        assert Agrees(log, events, k);
      }
    }
  }

  /** Among events that agree, one with the id of the next decides whether that agrees. */
  lemma {:induction false} SameDigest(log: seq<Entry>, events: seq<Entry>, n: nat, k: nat)
    requires k < n < |events| && CoherentTo(log, events, n) && events[k].id == events[n].id
    requires Known(log, events[n].id).None?
    ensures Agrees(log, events, n) <==> events[k].digest == events[n].digest
  {
    if events[k].digest != events[n].digest {
      assert Clash(events[k], events[n]);
    } else {
      forall j | 0 <= j < n ensures !Clash(events[j], events[n]) {
        if j < k { assert Agrees(log, events, k); }
        if k < j { assert Agrees(log, events, j); }
      }
    }
  }

  lemma {:induction false} FitsBefore(limits: Limits, log: seq<Entry>, news: seq<Entry>, e: Entry)
    requires Fits(limits, log, news + [e])
    ensures Fits(limits, log, news)
  {
    BytesOne(news, e);
  }

  /** What a page comes to after one event more. */
  lemma {:induction false} WalkOneMore(limits: Limits, log: seq<Entry>, events: seq<Entry>, n: nat)
    requires n < |events|
    ensures Walk(limits, log, events[..n + 1]) ==
            match Walk(limits, log, events[..n])
            case Refused => Refused
            case Ok(before) =>
              match JudgeOn(limits, log + before, events[n])
              case New => Ok(before + [events[n]])
              case Duplicate => Ok(before)
              case _ => Refused
  {
    var page := events[..n + 1];
    assert page[..n] == events[..n] && page[n] == events[n];
  }

  /** `news` is what the first `n` events add, or they are refused. */
  ghost predicate WalksTo(limits: Limits, log: seq<Entry>, events: seq<Entry>, n: nat, news: seq<Entry>,
      result: Result<seq<Entry>>)
  {
    result == if CoherentTo(log, events, n) && Fits(limits, log, news) then Ok(news) else Refused
  }

  lemma {:induction false} WalkExact(limits: Limits, log: seq<Entry>, events: seq<Entry>, n: nat)
    requires n <= |events|
    ensures WalksTo(limits, log, events, n, Firsts(log, events[..n]), Walk(limits, log, events[..n]))
  {
    if n > 0 {
      WalkExact(limits, log, events, n - 1);
      WalkOneMore(limits, log, events, n - 1);
      FirstsNext(log, events, n - 1);
      if CoherentTo(log, events, n - 1) { JudgedNext(limits, log, events, n - 1); }
      WalkedNext(limits, log, events, n - 1, Firsts(log, events[..n - 1]), Walk(limits, log, events[..n - 1]));
    }
  }

  lemma {:induction false} WalkedNext(limits: Limits, log: seq<Entry>, events: seq<Entry>, n: nat, news: seq<Entry>,
      result: Result<seq<Entry>>)
    requires n < |events| && WalksTo(limits, log, events, n, news, result)
    requires CoherentTo(log, events, n) ==> Judged(limits, log, events, n, news)
    ensures WalksTo(limits, log, events, n + 1, news + if FirstAt(log, events, n) then [events[n]] else [],
              match result
              case Refused => Refused
              case Ok(before) =>
                match JudgeOn(limits, log + before, events[n])
                case New => Ok(before + [events[n]])
                case Duplicate => Ok(before)
                case _ => Refused)
  {
    assert CoherentTo(log, events, n + 1) <==> CoherentTo(log, events, n) && Agrees(log, events, n);
    assert news + [] == news;
    if Fits(limits, log, news + [events[n]]) { FitsBefore(limits, log, news, events[n]); }
  }

  /** A page goes through exactly when it contradicts nothing and its first events
      fit; these are what it adds. */
  lemma {:induction false} PageExact(limits: Limits, log: seq<Entry>, events: seq<Entry>)
    ensures Walk(limits, log, events) ==
            if Coherent(log, events) && Fits(limits, log, Firsts(log, events)) then Ok(Firsts(log, events)) else Refused
  {
    WalkExact(limits, log, events, |events|);
    TakeAll(events);
  }

  // ----- over all calls -----

  /** The event was in an accepted page. */
  ghost predicate Delivered(pages: seq<Staged>, e: Entry) {
    exists j, i :: 0 <= j < |pages| && 0 <= i < |pages[j].events| && pages[j].events[i] == e
  }

  lemma {:induction false} DeliveredNext(pages: seq<Staged>, page: Staged, e: Entry)
    ensures Delivered(pages + [page], e) <==> Delivered(pages, e) || e in page.events
  {
    var more := pages + [page];
    if Delivered(pages, e) {
      var j, i :| 0 <= j < |pages| && 0 <= i < |pages[j].events| && pages[j].events[i] == e;
      assert more[j].events[i] == e;
    }
    if e in page.events {
      var i :| 0 <= i < |page.events| && page.events[i] == e;
      assert more[|pages|].events[i] == e;
    }
  }

  /** After one page more is known what was known, and the events of the page. */
  lemma {:induction false} PageKnown(log: seq<Entry>, events: seq<Entry>, e: Entry)
    requires Coherent(log, events)
    ensures Known(log + Firsts(log, events), e.id) == Some(e.digest) <==>
              Known(log, e.id) == Some(e.digest) || e in events
  {
    var news := Firsts(log, events);
    KnownSum(log, news, e.id);
    FirstsKnown(log, events, |events|, e.id);
    TakeAll(events);
    if e in events {
      var k :| 0 <= k < |events| && events[k] == e;
      assert Agrees(log, events, k);
      if Known(log, e.id).None? {
        assert Says(events, |events|, e.id, Known(news, e.id));
        var d := Known(news, e.id).value;
        var j :| 0 <= j < |events| && events[j] == Entry(e.id, d);
        assert Agrees(log, events, j);
        assert !Clash(events[k], events[j]) && !Clash(events[j], events[k]);
      }
    }
  }

  lemma {:induction false} DirectDelivered(limits: Limits, pages: seq<Staged>, e: Entry)
    requires Direct(limits, pages).Ok?
    ensures Known(Direct(limits, pages).value, e.id) == Some(e.digest) <==> Delivered(pages, e)
  {
    if pages != [] {
      var n := |pages| - 1;
      var log := Direct(limits, pages[..n]).value;
      DirectDelivered(limits, pages[..n], e);
      PageExact(limits, log, pages[n].events);
      PageKnown(log, pages[n].events, e);
      DeliveredNext(pages[..n], pages[n], e);
      assert pages == pages[..n] + [pages[n]];
    }
  }

  /** After any calls the feed knows exactly the events of its accepted pages. */
  lemma {:induction false} KnownIsDelivered(limits: Limits, calls: seq<Call>, e: Entry)
    ensures var f := FeedAfter(limits, calls);
            Known(f.log, e.id) == Some(e.digest) <==> Delivered(f.accepted, e)
  {
    NoTrace(limits, calls);
    DirectDelivered(limits, FeedAfter(limits, calls).accepted, e);
  }

  /** No event of the page clashes with an accepted one or with another of the page. */
  ghost predicate Clashless(pages: seq<Staged>, events: seq<Entry>) {
    && (forall i, e: Entry {:trigger Delivered(pages, e), events[i]} ::
        0 <= i < |events| && Delivered(pages, e) ==> !Clash(e, events[i]))
    && (forall i, k :: 0 <= k < i < |events| ==> !Clash(events[k], events[i]))
  }

  lemma {:induction false} ClashlessCoherent(limits: Limits, calls: seq<Call>, events: seq<Entry>)
    ensures var f := FeedAfter(limits, calls);
            Clashless(f.accepted, events) <==> Coherent(f.log, events)
  {
    var f := FeedAfter(limits, calls);
    if Coherent(f.log, events) {
      forall i, e: Entry {:trigger Delivered(f.accepted, e), events[i]} |
          0 <= i < |events| && Delivered(f.accepted, e)
        ensures !Clash(e, events[i])
      {
        KnownIsDelivered(limits, calls, e);
        assert Agrees(f.log, events, i);
      }
      forall i, k | 0 <= k < i < |events| ensures !Clash(events[k], events[i]) { assert Agrees(f.log, events, i); }
    }
    if Clashless(f.accepted, events) {
      forall i | 0 <= i < |events| ensures Agrees(f.log, events, i) {
        var known := Known(f.log, events[i].id);
        if known.Some? {
          KnownIsDelivered(limits, calls, Entry(events[i].id, known.value));
          assert !Clash(Entry(events[i].id, known.value), events[i]);
        }
      }
    }
  }

  /** After any calls that leave nothing open, a page is handed out exactly when it
      clashes with no accepted event and its new events fit; a known id with
      another digest refuses it. */
  lemma {:induction false} PageJudged(limits: Limits, calls: seq<Call>, events: seq<Entry>, replay: bool)
    requires !FeedAfter(limits, calls).extracting && !FeedAfter(limits, calls).waiting
    ensures var f, g := FeedAfter(limits, calls),
        FeedAfter(limits, calls + [BeginPage, EndPage(events, false, replay)]);
            var news := Firsts(f.log, events);
            g == if Clashless(f.accepted, events) && Fits(limits, f.log, news)
                 then f.(pages := f.pages + [Staged(events, news, if replay then [] else news)], waiting := true)
                 else f
  {
    TwoCalls(limits, calls, BeginPage, EndPage(events, false, replay));
    PageExact(limits, FeedAfter(limits, calls).log, events);
    ClashlessCoherent(limits, calls, events);
  }

  lemma {:induction false} TwoCalls(limits: Limits, calls: seq<Call>, a: Call, b: Call)
    ensures FeedAfter(limits, calls + [a, b]) == Next(limits, Next(limits, FeedAfter(limits, calls), a), b)
  {
    OneCall(limits, calls, a);
    OneCall(limits, calls + [a], b);
    assert calls + [a] + [b] == calls + [a, b];
  }

  lemma {:induction false} OneCall(limits: Limits, calls: seq<Call>, a: Call)
    ensures FeedAfter(limits, calls + [a]) == Next(limits, FeedAfter(limits, calls), a)
  {
    assert (calls + [a])[..|calls|] == calls;
  }

  lemma {:induction false} NothingFirst(log: seq<Entry>, events: seq<Entry>)
    requires forall i :: 0 <= i < |events| ==> Known(log, events[i].id).Some?
    ensures Firsts(log, events) == []
  {
    if events != [] { NothingFirst(log, events[..|events| - 1]); }
  }

  /** Delivering an accepted page again, whatever the limits: it is handed out,
      holds nothing new, and accepting it leaves the log as it was. */
  lemma {:induction false} Redelivered(limits: Limits, calls: seq<Call>, j: nat, replay: bool)
    requires !FeedAfter(limits, calls).extracting && !FeedAfter(limits, calls).waiting
    requires j < |FeedAfter(limits, calls).accepted|
    ensures var f := FeedAfter(limits, calls);
            var again := f.accepted[j].events;
            var done := calls + [BeginPage, EndPage(again, false, replay)] + [FinishPage(|f.pages|, true)];
            FeedAfter(limits, done)
              == f.(pages := f.pages + [Staged(again, [], [])], accepted := f.accepted + [Staged(again, [], [])])
  {
    var f := FeedAfter(limits, calls);
    var again := f.accepted[j].events;
    var begun := calls + [BeginPage, EndPage(again, false, replay)];
    forall i | 0 <= i < |again| ensures Known(f.log, again[i].id) == Some(again[i].digest) {
      assert Delivered(f.accepted, again[i]);
      KnownIsDelivered(limits, calls, again[i]);
    }
    NothingFirst(f.log, again);
    PageJudged(limits, calls, again, replay);
    AllKnownClashless(limits, calls, again);
    OneCall(limits, begun, FinishPage(|f.pages|, true));
  }

  lemma {:induction false} AllKnownClashless(limits: Limits, calls: seq<Call>, events: seq<Entry>)
    requires var f := FeedAfter(limits, calls);
             forall i :: 0 <= i < |events| ==> Known(f.log, events[i].id) == Some(events[i].digest)
    ensures Clashless(FeedAfter(limits, calls).accepted, events)
  {
    ClashlessCoherent(limits, calls, events);
  }

  /** An event is new exactly when no accepted page and nothing before it in its
      page has its id. */
  lemma {:induction false} FirstMeans(limits: Limits, calls: seq<Call>, events: seq<Entry>, i: nat)
    requires i < |events|
    ensures FirstAt(FeedAfter(limits, calls).log, events, i) <==>
              && (forall e: Entry :: Delivered(FeedAfter(limits, calls).accepted, e) ==> e.id != events[i].id)
              && (forall k :: 0 <= k < i ==> events[k].id != events[i].id)
  {
    var f := FeedAfter(limits, calls);
    var known := Known(f.log, events[i].id);
    if known.Some? {
      KnownIsDelivered(limits, calls, Entry(events[i].id, known.value));
      assert Delivered(f.accepted, Entry(events[i].id, known.value));
    } else {
      forall e: Entry | Delivered(f.accepted, e) ensures e.id != events[i].id { KnownIsDelivered(limits, calls, e); }
    }
  }

  /** After any calls the log is within both limits. */
  lemma {:induction false} LogWithin(limits: Limits, calls: seq<Call>)
    ensures |FeedAfter(limits, calls).log| <= limits.entries && Bytes(FeedAfter(limits, calls).log) <= limits.bytes
  {
    NoTrace(limits, calls);
    DirectWithin(limits, FeedAfter(limits, calls).accepted);
  }

  lemma {:induction false} DirectWithin(limits: Limits, pages: seq<Staged>)
    requires Direct(limits, pages).Ok?
    ensures |Direct(limits, pages).value| <= limits.entries && Bytes(Direct(limits, pages).value) <= limits.bytes
  {
    if pages != [] {
      var n := |pages| - 1;
      var log := Direct(limits, pages[..n]).value;
      DirectWithin(limits, pages[..n]);
      PageExact(limits, log, pages[n].events);
      BytesSum(log, Firsts(log, pages[n].events));
    }
  }
}
