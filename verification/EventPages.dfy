/** Pages of an event feed: staged over the accepted identities, and committed
    only when the worker accepts them. */
module EventPages {
  import opened Common
  import opened EventIdentity

  // ----- what a page adds -----

  /** The entries of a page that are new, or a refusal at the first conflict or
      when there is no room left. */
  function Walk(limits: Limits, log: seq<Entry>, events: seq<Entry>): Result<seq<Entry>> {
    if events == [] then Ok([])
    else
      var before, last := Walk(limits, log, events[..|events| - 1]), events[|events| - 1];
      if before.Refused? then Refused
      else
        match JudgeOn(limits, log + before.value, last)
        case New => Ok(before.value + [last])
        case Duplicate => before
        case _ => Refused
  }

  lemma {:induction false} WalkStops(limits: Limits, log: seq<Entry>, events: seq<Entry>, n: nat)
    requires n <= |events| && Walk(limits, log, events[..n]).Refused?
    ensures Walk(limits, log, events).Refused?
    decreases |events| - n
  {
    if n < |events| {
      assert events[..n + 1][..n] == events[..n];
      WalkStops(limits, log, events, n + 1);
    } else {
      assert events[..n] == events;
    }
  }

  /** What a page adds was unknown before, and is added once. */
  lemma {:induction false} WalkIsNew(limits: Limits, log: seq<Entry>, events: seq<Entry>, i: nat)
    requires Walk(limits, log, events).Ok? && i < |Walk(limits, log, events).value|
    ensures var news := Walk(limits, log, events).value;
            Known(log + news[..i], news[i].id).None? && Known(log, news[i].id).None?
    decreases |events|
  {
    var n := |events| - 1;
    var before := Walk(limits, log, events[..n]).value;
    var news := Walk(limits, log, events).value;
    if i < |before| {
      WalkIsNew(limits, log, events[..n], i);
      assert news[..i] == before[..i];
    } else {
      assert news[..i] == before;
      KnownSum(log, before, news[i].id);
    }
  }

  /** What a tracker that is not stale counts is what it has seen. */
  lemma {:induction false} SeenBytes(t: Tracker)
    requires t.Valid() && (t.base != null ==> t.base.log == t.forked)
    ensures t.baseBytes + t.bytes == Bytes(t.Seen()) && t.Seen() == t.forked + t.index.log
  {
    BytesSum(t.forked, t.index.log);
    assert [] + t.index.log == t.index.log;
  }

  /** On a tracker that is not stale, one event means what it means to one log. */
  method ClassifyNext(t: Tracker, e: Entry) returns (outcome: Outcome)
    requires t.Valid() && (t.base != null ==> t.base.log == t.forked)
    modifies t, t.index
    ensures t.Valid() && (t.base != null ==> t.base.log == t.forked)
    ensures outcome == JudgeOn(t.limits, old(t.Seen()), e)
    ensures t.index.log == old(t.index.log) + if outcome.New? then [e] else []
    ensures t.Seen() == old(t.Seen()) + if outcome.New? then [e] else []
  {
    ghost var own := t.index.log;
    SeenBytes(t);
    outcome := t.Classify(e);
    SeenBytes(t);
    Grown(t.forked, own, e);
  }

  lemma {:induction false} Grown<T>(a: seq<T>, b: seq<T>, e: T)
    ensures a + (b + [e]) == a + b + [e] && b + [] == b && a + b + [] == a + b
  {
  }

  /** Classify a page's events in order, on the tracker that is given: the
      accepted index itself, or a candidate over it that is not stale. Both do
      the same, because both answer for what they have seen. */
  method ClassifyAll(t: Tracker, events: seq<Entry>) returns (news: Result<seq<Entry>>)
    requires t.Valid() && (t.base != null ==> t.base.log == t.forked)
    modifies t, t.index
    ensures t.Valid()
    ensures news == Walk(t.limits, old(t.Seen()), events)
    ensures news.Ok? ==> t.index.log == old(t.index.log) + news.value && t.Seen() == old(t.Seen()) + news.value
  {
    ghost var own, seen := t.index.log, t.Seen();
    var added: seq<Entry> := [];
    TakeAll(events);
    assert own + added == own && seen + added == seen;
    for n := 0 to |events|
      invariant t.Valid() && (t.base != null ==> t.base.log == t.forked)
      invariant Walk(t.limits, seen, events[..n]) == Ok(added)
      invariant t.index.log == own + added && t.Seen() == seen + added
    {
      var outcome := ClassifyNext(t, events[n]);
      WalkNext(t.limits, seen, events, n);
      if outcome == Conflict || outcome == Exhausted {
        WalkStops(t.limits, seen, events, n + 1);
        return Refused;
      }
      Longer(own, added, events[n]);
      Longer(seen, added, events[n]);
      if outcome == New { added := added + [events[n]]; }
    }
    news := Ok(added);
  }

  lemma {:induction false} WalkNext(limits: Limits, log: seq<Entry>, events: seq<Entry>, n: nat)
    requires n < |events| && Walk(limits, log, events[..n]).Ok?
    ensures var before := Walk(limits, log, events[..n]).value;
            Walk(limits, log, events[..n + 1]) == match JudgeOn(limits, log + before, events[n])
                                                  case New => Ok(before + [events[n]])
                                                  case Duplicate => Ok(before)
                                                  case _ => Refused
  {
    assert events[..n + 1][..n] == events[..n];
  }

  lemma {:induction false} Longer<T>(s: seq<T>, added: seq<T>, e: T)
    ensures s + added + [e] == s + (added + [e]) && s + added + [] == s + added
  {
  }

  // ----- staging -----

  /** A page handed to the worker; two pages are never the same object. */
  class Page {
    const records: seq<Entry>

    constructor (records: seq<Entry>)
      ensures this.records == records
    {
      this.records := records;
    }
  }

  class PageIdentity {
    const tracker: Tracker
    var extracting: bool
    var page: Page?
    var candidate: Tracker?

    ghost predicate Valid()
      reads this, tracker, tracker.index, tracker.base, candidate
      reads if candidate == null then {} else {candidate.index, candidate.base}
    {
      && tracker.Valid() && tracker.base == null
      && (candidate == null <==> page == null)
      && (candidate != null ==>
            && !extracting && candidate != tracker && candidate.base == tracker.index
            && candidate.Valid() && candidate.forked == tracker.index.log)
    }

    ghost function Log(): seq<Entry>
      reads this, tracker, tracker.index
    {
      tracker.index.log
    }

    constructor (limits: Limits)
      ensures Valid() && fresh(tracker) && fresh(tracker.index) && tracker.limits == limits
      ensures Log() == [] && !extracting && page == null
    {
      var t := new Tracker(limits);
      tracker, extracting, page, candidate := t, false, null, null;
    }

    /** `begin`: refused while a page is being extracted or waits for its outcome. */
    method Begin() returns (candidate: Option<Tracker>)
      requires Valid()
      modifies this`extracting
      ensures Valid()
      ensures candidate.Some? <==> !old(extracting) && page == null
      ensures extracting == (old(extracting) || candidate.Some?)
      ensures candidate.Some? ==>
                var c := candidate.value;
                && fresh(c) && fresh(c.index) && c.Valid() && c.base == tracker.index && c.limits == tracker.limits
                && c.forked == Log() && c.index.log == [] && c.Seen() == Log()
    {
      if extracting || page != null { return None; }
      extracting := true;
      candidate := tracker.Fork();
    }

    /** The candidate of the page being extracted, still empty. */
    ghost predicate Staging(staged: Tracker)
      reads this, tracker, tracker.index, staged, staged.index, staged.base
    {
      && extracting && page == null && staged != tracker && staged.index != tracker.index
      && staged.Valid() && staged.base == tracker.index && staged.limits == tracker.limits
      && staged.forked == Log() && staged.index.log == [] && staged.Seen() == Log()
    }

    /** The rest of `extract`, from classification to `end`: `fails` stands for any
        other failure before the page is staged, `replay` for the exact replay of the
        last page, whose records are suppressed. */
    method Complete(staged: Tracker, events: seq<Entry>, fails: bool, replay: bool) returns (result: Option<Page>)
      requires Valid() && Staging(staged)
      modifies this`extracting, this`page, this`candidate, staged, staged.index
      ensures Valid() && !extracting && Log() == old(Log())
      ensures var news := Walk(tracker.limits, old(Log()), events);
              && (result.Some? <==> !fails && news.Ok?)
              && (result.Some? ==>
                    && fresh(result.value) && page == result.value && candidate == staged
                    && candidate.index.log == news.value
                    && result.value.records == if replay then [] else news.value)
              && (result.None? ==> page == null && candidate == null)
    {
      var news := ClassifyAll(staged, events);
      extracting := false;
      if news.Refused? || fails { return None; }
      var made := new Page(if replay then [] else news.value);
      page, candidate := made, staged;
      result := Some(made);
    }

    /** `extract`, with nothing in between. */
    method Extract(events: seq<Entry>, fails: bool, replay: bool) returns (result: Option<Page>)
      requires Valid()
      modifies this
      ensures Valid() && extracting == old(extracting) && Log() == old(Log())
      ensures var news := Walk(tracker.limits, old(Log()), events);
              && (result.Some? <==> !old(extracting) && old(page) == null && !fails && news.Ok?)
              && (result.Some? ==>
                    && fresh(result.value) && page == result.value && candidate != null && fresh(candidate)
                    && candidate.index.log == news.value
                    && result.value.records == if replay then [] else news.value)
              && (result.None? ==> page == old(page) && candidate == old(candidate))
    {
      var staged := Begin();
      if staged.None? { return None; }
      result := Complete(staged.value, events, fails, replay);
    }

    /** `finish`: refused for any page but the one that waits; an accepted page
        always merges. */
    method Finish(done: Page, accepted: bool) returns (ok: bool)
      requires Valid()
      modifies this`page, this`candidate, tracker, tracker.index
      ensures Valid()
      ensures ok <==> old(page) == done
      ensures Log() == if ok && accepted then old(Log()) + old(if candidate == null then [] else candidate.index.log)
          else old(Log())
      ensures if ok then page == null else page == old(page) && candidate == old(candidate)
    {
      if page != done { return false; }
      ok := true;
      if accepted { ok := tracker.Merge(candidate); }
      page, candidate := null, null;
    }
  }

  // ----- whole runs -----

  /** A call on the feed: `BeginPage` and `EndPage` are the two parts of an extraction,
      with any other calls in between; `FinishPage` names any page handed out so far. */
  datatype Call =
    | BeginPage
    | EndPage(events: seq<Entry>, fails: bool, replay: bool)
    | FinishPage(page: nat, accepted: bool)

  /** A page as it was staged: its events, the new ones, and the records handed on. */
  datatype Staged = Staged(events: seq<Entry>, news: seq<Entry>, records: seq<Entry>)

  /** The feed: what is accepted, every page handed out, and whether the last one waits. */
  datatype Feed = Feed(log: seq<Entry>, extracting: bool, pages: seq<Staged>, waiting: bool, accepted: seq<Staged>)

  /** What one call does; a refused call does nothing. */
  function Next(limits: Limits, f: Feed, call: Call): Feed {
    match call
    case BeginPage => if f.extracting || f.waiting then f else f.(extracting := true)
    case EndPage(events, fails, replay) =>
      if !f.extracting then f
      else
        var news := Walk(limits, f.log, events);
        if fails || news.Refused? then f.(extracting := false)
        else
          var page := Staged(events, news.value, if replay then [] else news.value);
          f.(extracting := false, pages := f.pages + [page], waiting := true)
    case FinishPage(page, accepted) =>
      if !f.waiting || page + 1 != |f.pages| then f
      else if !accepted then f.(waiting := false)
      else f.(waiting := false, log := f.log + f.pages[page].news, accepted := f.accepted + [f.pages[page]])
  }

  const Idle: Feed := Feed([], false, [], false, [])

  function FeedAfter(limits: Limits, calls: seq<Call>): Feed {
    if calls == [] then Idle
    else Next(limits, FeedAfter(limits, calls[..|calls| - 1]), calls[|calls| - 1])
  }

  lemma {:induction false} CallNext(limits: Limits, calls: seq<Call>, n: nat)
    requires n < |calls|
    ensures FeedAfter(limits, calls[..n + 1]) == Next(limits, FeedAfter(limits, calls[..n]), calls[n])
  {
    assert calls[..n + 1][..n] == calls[..n];
  }

  /** The page objects, all different, and what they hold. */
  ghost predicate Handed(pages: seq<Page>, staged: seq<Staged>) {
    && |pages| == |staged| && (forall k :: 0 <= k < |pages| ==> pages[k].records == staged[k].records)
    && (forall j, k :: 0 <= j < k < |pages| ==> pages[j] != pages[k])
  }

  /** The objects and what they stand for. */
  ghost predicate Stands(feed: PageIdentity, staged: Option<Tracker>, pages: seq<Page>, f: Feed)
    reads feed, feed.tracker, feed.tracker.index, feed.tracker.base, feed.candidate
    reads if feed.candidate == null then {} else {feed.candidate.index, feed.candidate.base}
    reads if staged.None? then {} else {staged.value, staged.value.index, staged.value.base}
  {
    && feed.Valid() && feed.Log() == f.log && feed.extracting == f.extracting
    && (f.extracting <==> staged.Some?) && (staged.Some? ==> feed.Staging(staged.value))
    && Handed(pages, f.pages)
    && (f.waiting <==> feed.page != null)
    && (f.waiting ==>
          |pages| > 0 && feed.page == pages[|pages| - 1]
          && feed.candidate.index.log == f.pages[|pages| - 1].news)
  }

  method PlayBegin(feed: PageIdentity, staged: Option<Tracker>, ghost pages: seq<Page>, ghost f: Feed)
    returns (held: Option<Tracker>)
    requires Stands(feed, staged, pages, f)
    modifies feed`extracting
    ensures Stands(feed, held, pages, Next(feed.tracker.limits, f, BeginPage))
    ensures held == staged || (held.Some? && fresh(held.value) && fresh(held.value.index))
  {
    held := feed.Begin();
    if held.None? { held := staged; }
  }

  method PlayEnd(feed: PageIdentity, staged: Tracker, pages: seq<Page>, events: seq<Entry>, fails: bool, replay: bool,
      ghost f: Feed)
    returns (handed: seq<Page>)
    requires Stands(feed, Some(staged), pages, f)
    modifies feed, staged, staged.index
    ensures Stands(feed, None, handed, Next(feed.tracker.limits, f, EndPage(events, fails, replay)))
  {
    var result := feed.Complete(staged, events, fails, replay);
    handed := if result.Some? then pages + [result.value] else pages;
  }

  method PlayFinish(feed: PageIdentity, ghost staged: Option<Tracker>, pages: seq<Page>, page: nat, accepted: bool,
      ghost f: Feed)
    requires Stands(feed, staged, pages, f) && page < |pages|
    modifies feed`page, feed`candidate, feed.tracker, feed.tracker.index
    ensures Stands(feed, staged, pages, Next(feed.tracker.limits, f, FinishPage(page, accepted)))
  {
    var ok := feed.Finish(pages[page], accepted);
  }

  /** One call. */
  method Play(feed: PageIdentity, staged: Option<Tracker>, pages: seq<Page>, call: Call, ghost f: Feed)
    returns (held: Option<Tracker>, handed: seq<Page>)
    requires Stands(feed, staged, pages, f)
    modifies feed, feed.tracker, feed.tracker.index
    modifies if staged.None? then {} else {staged.value, staged.value.index}
    ensures Stands(feed, held, handed, Next(feed.tracker.limits, f, call))
    ensures held.None? || held == staged || (fresh(held.value) && fresh(held.value.index))
  {
    held, handed := staged, pages;
    match call
    case BeginPage => held := PlayBegin(feed, staged, pages, f);
    case EndPage(events, fails, replay) =>
      if staged.Some? {
        handed := PlayEnd(feed, staged.value, pages, events, fails, replay, f);
        held := None;
      }
    case FinishPage(page, accepted) =>
      if page < |pages| { PlayFinish(feed, staged, pages, page, accepted, f); }
  }

  /** Any calls in any order leave the feed as specified. */
  method PlayCalls(limits: Limits, calls: seq<Call>) returns (feed: PageIdentity, handed: seq<Page>)
    ensures feed.Valid() && feed.Log() == FeedAfter(limits, calls).log
    ensures |handed| == |FeedAfter(limits, calls).pages|
    ensures forall k :: 0 <= k < |handed| ==> handed[k].records == FeedAfter(limits, calls).pages[k].records
  {
    feed := new PageIdentity(limits);
    handed := [];
    var staged: Option<Tracker> := None;
    TakeAll(calls);
    for n := 0 to |calls|
      invariant fresh(feed) && fresh(feed.tracker) && fresh(feed.tracker.index) && feed.tracker.limits == limits
      invariant staged.Some? ==> fresh(staged.value) && fresh(staged.value.index)
      invariant Stands(feed, staged, handed, FeedAfter(limits, calls[..n]))
    {
      CallNext(limits, calls, n);
      staged, handed := Play(feed, staged, handed, calls[n], FeedAfter(limits, calls[..n]));
    }
  }

  // ----- only accepted pages count -----

  /** The log of a tracker that only ever saw these pages, classified on it directly. */
  function Direct(limits: Limits, pages: seq<Staged>): Result<seq<Entry>> {
    if pages == [] then Ok([])
    else
      match Direct(limits, pages[..|pages| - 1])
      case Refused => Refused
      case Ok(log) =>
        match Walk(limits, log, pages[|pages| - 1].events)
        case Refused => Refused
        case Ok(news) => Ok(log + news)
  }

  /** A page holds what was new to `log`, and hands on that or nothing. */
  predicate StagedOn(limits: Limits, log: seq<Entry>, page: Staged) {
    Walk(limits, log, page.events) == Ok(page.news) && (page.records == page.news || page.records == [])
  }

  predicate AcceptedAt(limits: Limits, accepted: seq<Staged>, i: nat) {
    && i < |accepted| && Direct(limits, accepted[..i]).Ok?
    && StagedOn(limits, Direct(limits, accepted[..i]).value, accepted[i])
  }

  ghost predicate Orderly(limits: Limits, f: Feed) {
    && (f.waiting ==> !f.extracting && f.pages != [] && StagedOn(limits, f.log, f.pages[|f.pages| - 1]))
    && Direct(limits, f.accepted) == Ok(f.log)
    && forall i {:trigger AcceptedAt(limits, f.accepted, i)} :: 0 <= i < |f.accepted| ==>
        AcceptedAt(limits, f.accepted, i)
  }

  lemma {:induction false} DirectNext(limits: Limits, pages: seq<Staged>, page: Staged)
    ensures Direct(limits, pages + [page]) == match Direct(limits, pages)
                                              case Refused => Refused
                                              case Ok(log) =>
                                                match Walk(limits, log, page.events)
                                                case Refused => Refused
                                                case Ok(news) => Ok(log + news)
  {
    assert (pages + [page])[..|pages|] == pages;
  }

  lemma {:induction false} NextKeepsOrderly(limits: Limits, f: Feed, call: Call)
    requires Orderly(limits, f)
    ensures Orderly(limits, Next(limits, f, call))
  {
    var g := Next(limits, f, call);
    if g.accepted != f.accepted {
      var page := f.pages[|f.pages| - 1];
      DirectNext(limits, f.accepted, page);
      forall i | 0 <= i < |g.accepted| ensures AcceptedAt(limits, g.accepted, i) {
        AcceptedNext(limits, f.accepted, page, i);
        if i < |f.accepted| { assert AcceptedAt(limits, f.accepted, i); }
      }
    }
  }

  lemma {:induction false} AcceptedNext(limits: Limits, accepted: seq<Staged>, page: Staged, i: nat)
    requires i <= |accepted|
    ensures (accepted + [page])[..i] == accepted[..i]
    ensures i == |accepted| ==> accepted[..i] == accepted
  {
  }

  lemma {:induction false} RunIsOrderly(limits: Limits, calls: seq<Call>)
    ensures Orderly(limits, FeedAfter(limits, calls))
  {
    if calls != [] {
      RunIsOrderly(limits, calls[..|calls| - 1]);
      NextKeepsOrderly(limits, FeedAfter(limits, calls[..|calls| - 1]), calls[|calls| - 1]);
    }
  }

  /** Refused calls, failed extractions and rejected pages leave no trace: after any
      calls the log is that of a tracker on which the accepted pages alone were
      classified, directly and in order. */
  lemma {:induction false} NoTrace(limits: Limits, calls: seq<Call>)
    ensures Direct(limits, FeedAfter(limits, calls).accepted) == Ok(FeedAfter(limits, calls).log)
  {
    RunIsOrderly(limits, calls);
  }

  /** What is known once stays known. */
  lemma {:induction false} KnownLater(limits: Limits, pages: seq<Staged>, i: nat, j: nat, id: string)
    requires i <= j <= |pages| && Direct(limits, pages[..j]).Ok?
    ensures Direct(limits, pages[..i]).Ok?
    ensures Known(Direct(limits, pages[..i]).value, id).Some? ==> Known(Direct(limits, pages[..j]).value, id).Some?
    decreases j
  {
    if i < j {
      TakeNext(pages, j - 1);
      DirectNext(limits, pages[..j - 1], pages[j - 1]);
      KnownLater(limits, pages, i, j - 1, id);
      var before := Direct(limits, pages[..j - 1]).value;
      KnownSum(before, Walk(limits, before, pages[j - 1].events).value, id);
    }
  }

  lemma {:induction false} KnownMember(log: seq<Entry>, k: nat)
    requires k < |log|
    ensures Known(log, log[k].id).Some?
  {
    if k < |log| - 1 { KnownMember(log[..|log| - 1], k); }
  }

  /** An id of an accepted page is known once that page is counted. */
  lemma {:induction false} NewsKnown(limits: Limits, accepted: seq<Staged>, i: nat, a: nat)
    requires AcceptedAt(limits, accepted, i) && a < |accepted[i].news|
    ensures Direct(limits, accepted[..i + 1]).Ok?
    ensures Known(Direct(limits, accepted[..i + 1]).value, accepted[i].news[a].id).Some?
  {
    var before := Direct(limits, accepted[..i]).value;
    TakeNext(accepted, i);
    DirectNext(limits, accepted[..i], accepted[i]);
    KnownMember(accepted[i].news, a);
    KnownSum(before, accepted[i].news, accepted[i].news[a].id);
  }

  /** Over any calls, no id is emitted in two accepted pages, nor twice in one. */
  lemma {:induction false} EmittedOnce(limits: Limits, calls: seq<Call>, i: nat, j: nat, a: nat, b: nat)
    requires i <= j < |FeedAfter(limits, calls).accepted| && (i == j ==> a < b)
    requires a < |FeedAfter(limits, calls).accepted[i].records| && b < |FeedAfter(limits, calls).accepted[j].records|
    ensures FeedAfter(limits, calls).accepted[i].records[a].id != FeedAfter(limits, calls).accepted[j].records[b].id
  {
    var accepted := FeedAfter(limits, calls).accepted;
    RunIsOrderly(limits, calls);
    assert AcceptedAt(limits, accepted, i) && AcceptedAt(limits, accepted, j);
    NewsApart(limits, accepted, i, j, a, b);
  }

  lemma {:induction false} NewsApart(limits: Limits, accepted: seq<Staged>, i: nat, j: nat, a: nat, b: nat)
    requires i <= j < |accepted| && (i == j ==> a < b)
    requires AcceptedAt(limits, accepted, i) && AcceptedAt(limits, accepted, j)
    requires a < |accepted[i].news| && b < |accepted[j].news|
    ensures accepted[i].news[a].id != accepted[j].news[b].id
  {
    var later, news := Direct(limits, accepted[..j]).value, accepted[j].news;
    WalkIsNew(limits, later, accepted[j].events, b);
    if i < j {
      NewsKnown(limits, accepted, i, a);
      KnownLater(limits, accepted, i + 1, j, accepted[i].news[a].id);
    } else {
      KnownMember(news[..b], a);
      KnownSum(later, news[..b], news[a].id);
    }
  }
}
