/** Incremental sweeps of a tool-backed source: pages, parents to fan out over,
    and the watermark that moves only when a sweep is complete. */
module SourceSweep {
  import opened Common
  import opened Sorting

  // ----- times, compared as text; "" stands for none -----

  function Later(a: string, b: string): string { if Before(a, b) then b else a }

  lemma {:induction false} LaterLaws(a: string, b: string, c: string)
    ensures Later(Later(a, b), c) == Later(a, Later(b, c))
    ensures Later(a, b) == Later(b, a) && Later(a, a) == a && Later("", a) == a
  {
    BeforeIsStrict();
  }

  datatype Item = Item(id: string, updated: Option<string>)

  function Time(r: Item): string { if r.updated.None? then "" else r.updated.value }

  function Latest(from: string, records: seq<Item>): string {
    if records == [] then from else Later(Latest(from, records[..|records| - 1]), Time(records[|records| - 1]))
  }

  lemma {:induction false} LatestFrom(a: string, b: string, records: seq<Item>)
    ensures Latest(Later(a, b), records) == Later(a, Latest(b, records))
  {
    if records != [] {
      var n := |records| - 1;
      LatestFrom(a, b, records[..n]);
      LaterLaws(a, Latest(b, records[..n]), Time(records[n]));
    }
  }

  lemma {:induction false} LatestSum(from: string, a: seq<Item>, b: seq<Item>)
    ensures Latest(from, a + b) == Latest(Latest(from, a), b)
    decreases |b|
  {
    if b == [] {
      assert a + b == a;
    } else {
      LatestSum(from, a, b[..|b| - 1]);
      assert (a + b)[..|a + b| - 1] == a + b[..|b| - 1];
    }
  }

  lemma {:induction false} LaterIs(a: string, b: string, c: string)
    ensures Later(a, b) == a || Later(a, b) == b
    ensures !Before(a, c) ==> !Before(Later(a, b), c)
    ensures !Before(Later(a, b), b)
  {
    BeforeIsStrict();
  }

  /** No time compared is later than the latest. */
  lemma {:induction false} LatestAbove(from: string, records: seq<Item>, i: nat)
    requires i < |records|
    ensures !Before(Latest(from, records), from) && !Before(Latest(from, records), Time(records[i]))
  {
    var n := |records| - 1;
    var before := Latest(from, records[..n]);
    if n > 0 { LatestAbove(from, records[..n], if i < n then i else 0); } else { BeforeIrreflexive(from); }
    LaterIs(before, Time(records[n]), from);
    LaterIs(before, Time(records[n]), Time(records[i]));
  }

  /** The latest time is one of those compared. */
  lemma {:induction false} LatestMet(from: string, records: seq<Item>) returns (i: nat)
    ensures i <= |records| && Latest(from, records) == if i == |records| then from else Time(records[i])
  {
    if records == [] { return 0; }
    var n := |records| - 1;
    i := LatestMet(from, records[..n]);
    LaterIs(Latest(from, records[..n]), Time(records[n]), from);
    if Latest(from, records) == Time(records[n]) { return n; }
    if i == n { return n + 1; }
  }

  /** At or below the watermark, an item is left out. */
  predicate Old(since: string, r: Item) {
    since != "" && r.updated.Some? && !Before(since, r.updated.value)
  }

  function Kept(since: string, raw: seq<Item>): seq<Item> {
    if raw == [] then []
    else Kept(since, raw[..|raw| - 1]) + if Old(since, raw[|raw| - 1]) then [] else [raw[|raw| - 1]]
  }

  lemma {:induction false} KeptLast(since: string, raw: seq<Item>, last: Item)
    ensures Kept(since, raw + [last]) == Kept(since, raw) + if Old(since, last) then [] else [last]
  {
    assert (raw + [last])[..|raw + [last]| - 1] == raw;
  }

  lemma {:induction false} KeptSum(since: string, a: seq<Item>, b: seq<Item>)
    ensures Kept(since, a + b) == Kept(since, a) + Kept(since, b)
    decreases |b|
  {
    if b == [] {
      assert a + b == a && Kept(since, a) + [] == Kept(since, a);
    } else {
      var n := |b| - 1;
      KeptSum(since, a, b[..n]);
      assert a + b == (a + b[..n]) + [b[n]];
      KeptLast(since, a + b[..n], b[n]);
      Associates(Kept(since, a), Kept(since, b[..n]), if Old(since, b[n]) then [] else [b[n]]);
    }
  }

  // ----- pagination -----

  datatype Pagination = Unpaged | ByOffset | ByPage(start: nat) | ByCursor(flagged: bool)

  datatype Preset = Preset(pagination: Pagination, pageSize: nat, fanned: bool)

  /** A position inside one listing. */
  datatype Inner = Start | Offset(at: nat) | PageNo(number: nat) | Cursor(token: string)

  /** A provider's answer: the rows, its flag for more, and its cursor. */
  datatype Answer = Answer(raw: seq<Item>, more: bool, token: Option<string>)

  type Provider = (nat, Inner) -> Answer

  /** What the provider would answer at the time of each page of a sweep. */
  type Source = nat -> Provider

  /** A provider whose answers do not change during the sweep. */
  ghost predicate Steady(source: Source, provider: Provider) { forall i :: source(i) == provider }

  function OffsetIn(inner: Inner): nat { if inner.Offset? then inner.at else 0 }

  function PageIn(start: nat, inner: Inner): nat { if inner.PageNo? then inner.number else start }

  /** `next_position`: refused when the provider's cursor does not move. */
  function NextInner(preset: Preset, inner: Inner, answer: Answer): Result<Option<Inner>> {
    match preset.pagination
    case Unpaged => Ok(None)
    case ByCursor(flagged) =>
      if (flagged && !answer.more) || answer.token.None? then Ok(None)
      else if inner == Cursor(answer.token.value) then Refused
      else Ok(Some(Cursor(answer.token.value)))
    case ByOffset =>
      if answer.raw == [] || |answer.raw| < preset.pageSize then Ok(None)
      else Ok(Some(Offset(OffsetIn(inner) + |answer.raw|)))
    case ByPage(start) =>
      if answer.raw == [] || |answer.raw| < preset.pageSize then Ok(None)
      else Ok(Some(PageNo(PageIn(start, inner) + 1)))
  }

  /** `fan` is the parent being read; `pending` the latest time met so far in a
      sweep that is not complete. */
  datatype Checkpoint = Checkpoint(fan: Option<nat>, inner: Inner, watermark: string, pending: string)

  datatype Page = Page(records: seq<Item>, checkpoint: Checkpoint, exhausted: bool)

  /** `checkpoint_after_page` */
  function CheckpointAfter(c: Checkpoint, records: seq<Item>, next: Option<Inner>): Checkpoint {
    var high := Latest(c.pending, records);
    match next
    case Some(inner) => Checkpoint(None, inner, c.watermark, high)
    case None => Checkpoint(None, Start, Later(high, c.watermark), "")
  }

  /** `extract` of one listing, without a provider-declared checkpoint. */
  function ExtractInner(preset: Preset, provider: Provider, parent: nat, c: Checkpoint): Result<Page> {
    var answer := provider(parent, c.inner);
    var records := Kept(c.watermark, answer.raw);
    match NextInner(preset, c.inner, answer)
    case Refused => Refused
    case Ok(next) => Ok(Page(records, CheckpointAfter(c, records, next), next.None?))
  }

  function Parent(c: Checkpoint): nat { if c.fan.None? then 0 else c.fan.value }

  /** `extract_fanned`, over the `n` parent values. */
  function ExtractFanned(preset: Preset, provider: Provider, n: nat, c: Checkpoint): Result<Page> {
    var index := Parent(c);
    if index >= n then Ok(Page([], Checkpoint(None, Start, Later(c.pending, c.watermark), ""), true))
    else
      match ExtractInner(preset, provider, index, c.(fan := None))
      case Refused => Refused
      case Ok(page) =>
        if !page.exhausted then Ok(page.(checkpoint := page.checkpoint.(fan := Some(index))))
        else if index + 1 < n then
          var pending := if page.checkpoint.watermark != "" then page.checkpoint.watermark else c.pending;
          Ok(Page(page.records, Checkpoint(Some(index + 1), Start, c.watermark, pending), false))
        else Ok(page)
  }

  function Extract(preset: Preset, provider: Provider, n: nat, c: Checkpoint): Result<Page> {
    if preset.fanned then ExtractFanned(preset, provider, n, c) else ExtractInner(preset, provider, 0, c)
  }

  // ----- a complete sweep -----

  function At(start: Checkpoint, pages: seq<Page>, i: nat): Checkpoint
    requires i <= |pages|
  {
    if i == 0 then start else pages[i - 1].checkpoint
  }

  predicate Turned(preset: Preset, source: Source, n: nat, start: Checkpoint, pages: seq<Page>, i: nat)
    requires i < |pages|
  {
    && Extract(preset, source(i), n, At(start, pages, i)) == Ok(pages[i])
    && (pages[i].exhausted <==> i == |pages| - 1)
  }

  predicate Fresh(c: Checkpoint) { c.fan == None && c.inner == Start && c.pending == "" }

  /** The pages of a sweep, from a fresh checkpoint to the page that exhausts it. */
  ghost predicate Sweep(preset: Preset, source: Source, n: nat, start: Checkpoint, pages: seq<Page>) {
    && pages != [] && Fresh(start)
    && forall i {:trigger Turned(preset, source, n, start, pages, i)} ::
         0 <= i < |pages| ==> Turned(preset, source, n, start, pages, i)
  }

  function Parents(preset: Preset, n: nat): nat { if preset.fanned then n else 1 }

  /** The watermark stays where it was until the last page. */
  lemma {:induction false} WatermarkHeld(preset: Preset, source: Source, n: nat, start: Checkpoint, pages: seq<Page>,
      i: nat)
    requires Sweep(preset, source, n, start, pages) && i < |pages|
    ensures At(start, pages, i).watermark == start.watermark
  {
    if i > 0 {
      WatermarkHeld(preset, source, n, start, pages, i - 1);
      assert Turned(preset, source, n, start, pages, i - 1);
    }
  }

  /** The rows of the answer read at a checkpoint. */
  function RowsOf(preset: Preset, provider: Provider, n: nat, c: Checkpoint): seq<Item> {
    if !preset.fanned then provider(0, c.inner).raw
    else if Parent(c) < n then provider(Parent(c), c.inner).raw
    else []
  }

  /** Each page holds the rows read that are not old. */
  lemma {:induction false} PageFiltered(preset: Preset, source: Source, n: nat, start: Checkpoint, pages: seq<Page>,
      i: nat)
    requires Sweep(preset, source, n, start, pages) && i < |pages|
    ensures pages[i].records == Kept(start.watermark, RowsOf(preset, source(i), n, At(start, pages, i)))
  {
    WatermarkHeld(preset, source, n, start, pages, i);
    assert Turned(preset, source, n, start, pages, i);
  }

  /** A page either goes on in its listing, or ends it and starts the next
      parent's; the last page ends the last parent's. */
  lemma {:induction false} ParentsInOrder(preset: Preset, source: Source, n: nat, start: Checkpoint, pages: seq<Page>,
      i: nat)
    requires Sweep(preset, source, n, start, pages) && i < |pages| && 0 < Parents(preset, n)
    ensures var c := At(start, pages, i);
            var next := NextInner(preset, c.inner, source(i)(Parent(c), c.inner));
            && Parent(c) < Parents(preset, n) && next.Ok?
            && (i == 0 ==> Parent(c) == 0 && c.inner == Start)
            && (i + 1 < |pages| ==>
                  var d := At(start, pages, i + 1);
                  if next.value.Some? then Parent(d) == Parent(c) && d.inner == next.value.value
                  else Parent(d) == Parent(c) + 1 && d.inner == Start)
            && (i + 1 == |pages| ==> next.value.None? && Parent(c) == Parents(preset, n) - 1)
  {
    assert Turned(preset, source, n, start, pages, i);
    if i > 0 {
      ParentsInOrder(preset, source, n, start, pages, i - 1);
      assert Turned(preset, source, n, start, pages, i - 1);
    }
  }

  function Emitted(pages: seq<Page>): seq<Item> {
    if pages == [] then [] else Emitted(pages[..|pages| - 1]) + pages[|pages| - 1].records
  }

  /** The latest time known at a checkpoint. */
  function Known(c: Checkpoint): string { Later(c.watermark, c.pending) }

  lemma {:induction false} KnownAfter(c: Checkpoint, records: seq<Item>, next: Option<Inner>)
    ensures Known(CheckpointAfter(c, records, next)) == Latest(Known(c), records)
  {
    var high := Latest(c.pending, records);
    LatestFrom(c.watermark, c.pending, records);
    LaterLaws(c.watermark, high, "");
    LaterLaws(high, c.watermark, "");
    LaterLaws("", Later(high, c.watermark), "");
  }

  lemma {:induction false} NoTime(pending: string, watermark: string, records: seq<Item>)
    requires Later(Latest(pending, records), watermark) == ""
    ensures pending == "" && watermark == ""
  {
    LaterIs(Latest(pending, records), watermark, "");
    LaterIs(pending, "", "");
    if records != [] { LatestAbove(pending, records, 0); }
  }

  lemma {:induction false} KnownTurn(preset: Preset, provider: Provider, n: nat, c: Checkpoint, page: Page)
    requires Extract(preset, provider, n, c) == Ok(page)
    ensures Known(page.checkpoint) == Latest(Known(c), page.records)
    ensures page.exhausted ==> page.checkpoint.pending == "" && Known(page.checkpoint) == page.checkpoint.watermark
  {
    var index := if preset.fanned then Parent(c) else 0;
    var inner := c.inner;
    LaterLaws(c.watermark, c.pending, "");
    LaterLaws("", page.checkpoint.watermark, "");
    if !preset.fanned || index < n {
      var records := Kept(c.watermark, provider(index, inner).raw);
      var next := NextInner(preset, inner, provider(index, inner));
      KnownAfter(c, records, next.value);
      var high := Latest(c.pending, records);
      LaterLaws(c.watermark, high, c.watermark);
      LaterLaws(high, c.watermark, "");
      LatestFrom(c.watermark, c.pending, records);
      if Later(high, c.watermark) == "" { NoTime(c.pending, c.watermark, records); }
    }
  }

  lemma {:induction false} EmittedPrefix(pages: seq<Page>, i: nat)
    requires i < |pages|
    ensures Emitted(pages[..i + 1]) == Emitted(pages[..i]) + pages[i].records
  {
    assert pages[..i + 1][..i] == pages[..i];
  }

  lemma {:induction false} KnownSoFar(preset: Preset, source: Source, n: nat, start: Checkpoint, pages: seq<Page>,
      i: nat)
    requires Sweep(preset, source, n, start, pages) && i <= |pages|
    ensures Known(At(start, pages, i)) == Latest(start.watermark, Emitted(pages[..i]))
  {
    if i == 0 {
      LaterLaws(start.watermark, "", "");
    } else {
      KnownSoFar(preset, source, n, start, pages, i - 1);
      assert Turned(preset, source, n, start, pages, i - 1);
      KnownTurn(preset, source(i - 1), n, At(start, pages, i - 1), pages[i - 1]);
      EmittedPrefix(pages, i - 1);
      LatestSum(start.watermark, Emitted(pages[..i - 1]), pages[i - 1].records);
    }
  }

  /** A sweep ends at the latest of the old watermark and all times emitted, ready
      for the next sweep. */
  lemma {:induction false} WatermarkReached(preset: Preset, source: Source, n: nat, start: Checkpoint, pages: seq<Page>)
    requires Sweep(preset, source, n, start, pages)
    ensures var last := pages[|pages| - 1].checkpoint;
            last.watermark == Latest(start.watermark, Emitted(pages)) && Fresh(last)
  {
    var i := |pages| - 1;
    KnownSoFar(preset, source, n, start, pages, |pages|);
    assert Turned(preset, source, n, start, pages, i);
    KnownTurn(preset, source(i), n, At(start, pages, i), pages[i]);
    assert pages[..|pages|] == pages;
  }

  // ----- what a listing holds -----

  /** The rows read by following a listing from a position to its end, within `k` pages. */
  function Follow(preset: Preset, provider: Provider, p: nat, inner: Inner, k: nat): Result<seq<Item>>
    decreases k
  {
    if k == 0 then Refused
    else
      var answer := provider(p, inner);
      match NextInner(preset, inner, answer)
      case Refused => Refused
      case Ok(None) => Ok(answer.raw)
      case Ok(Some(following)) =>
        match Follow(preset, provider, p, following, k - 1)
        case Refused => Refused
        case Ok(more) => Ok(answer.raw + more)
  }

  /** The provider serves `list` for parent `p`: at once, in windows of the page
      size, or in blocks that each name the cursor of the next. */
  ghost predicate Serves(preset: Preset, provider: Provider, p: nat, list: seq<Item>) {
    match preset.pagination
    case Unpaged => provider(p, Start).raw == list
    case ByCursor(_) => exists blocks, tokens {:trigger Blocks(preset, provider, p, blocks, tokens)} ::
      Blocks(preset, provider, p, blocks, tokens) && list == Flat(blocks)
    case _ => preset.pageSize >= 1 && Windows(preset, provider, p, list)
  }

  /** The provider serves one fixed list per parent. */
  ghost predicate Listing(preset: Preset, provider: Provider, lists: seq<seq<Item>>) {
    forall p {:trigger Serves(preset, provider, p, lists[p])} :: 0 <= p < |lists| ==>
      Serves(preset, provider, p, lists[p])
  }

  function Flat(lists: seq<seq<Item>>): seq<Item> {
    if lists == [] then [] else lists[0] + Flat(lists[1..])
  }

  // Cursors.

  function CursorAt(tokens: seq<string>, i: nat): Inner
    requires i <= |tokens|
  {
    if i == 0 then Start else Cursor(tokens[i - 1])
  }

  ghost predicate Blocks(preset: Preset, provider: Provider, p: nat, blocks: seq<seq<Item>>, tokens: seq<string>)
    requires preset.pagination.ByCursor?
  {
    && |blocks| == |tokens| + 1
    && forall i {:trigger Block(preset, provider, p, blocks, tokens, i)} ::
         0 <= i < |blocks| ==> Block(preset, provider, p, blocks, tokens, i)
  }

  /** One block: the answer names the next token, which differs from its own, or says
      that nothing follows. */
  predicate Block(preset: Preset, provider: Provider, p: nat, blocks: seq<seq<Item>>, tokens: seq<string>, i: nat)
    requires |blocks| == |tokens| + 1 && i < |blocks| && preset.pagination.ByCursor?
  {
    var answer := provider(p, CursorAt(tokens, i));
    && answer.raw == blocks[i]
    && if i < |tokens| then
         && answer.token == Some(tokens[i]) && (preset.pagination.flagged ==> answer.more)
         && CursorAt(tokens, i) != Cursor(tokens[i])
       else answer.token.None? || (preset.pagination.flagged && !answer.more)
  }

  lemma {:induction false} FollowBlocks(preset: Preset, provider: Provider, p: nat, blocks: seq<seq<Item>>,
      tokens: seq<string>, i: nat)
    requires preset.pagination.ByCursor? && Blocks(preset, provider, p, blocks, tokens) && i < |blocks|
    ensures Follow(preset, provider, p, CursorAt(tokens, i), |blocks| - i) == Ok(Flat(blocks[i..]))
    decreases |blocks| - i
  {
    assert Block(preset, provider, p, blocks, tokens, i);
    FlatNext(blocks, i);
    if i + 1 < |blocks| { FollowBlocks(preset, provider, p, blocks, tokens, i + 1); }
  }

  lemma {:induction false} FlatNext(lists: seq<seq<Item>>, i: nat)
    requires i < |lists|
    ensures Flat(lists[i..]) == lists[i] + Flat(lists[i + 1..])
    ensures i + 1 == |lists| ==> Flat(lists[i..]) == lists[i]
  {
    DropNext(lists, i);
    if i + 1 == |lists| { assert lists[i + 1..] == []; }
  }

  // Numbered pages.

  predicate Numbered(preset: Preset) {
    (preset.pagination.ByOffset? || preset.pagination.ByPage?) && preset.pageSize >= 1
  }

  function OffsetOf(preset: Preset, inner: Inner): nat {
    match preset.pagination
    case ByOffset => OffsetIn(inner)
    case ByPage(start) => if PageIn(start, inner) < start then 0 else (PageIn(start, inner) - start) * preset.pageSize
    case _ => 0
  }

  function Rest(list: seq<Item>, at: nat): seq<Item> { if at >= |list| then [] else list[at..] }

  function Window(list: seq<Item>, at: nat, size: nat): seq<Item> {
    if |Rest(list, at)| <= size then Rest(list, at) else Rest(list, at)[..size]
  }

  ghost predicate Windows(preset: Preset, provider: Provider, p: nat, list: seq<Item>) {
    forall inner {:trigger provider(p, inner)} ::
      provider(p, inner).raw == Window(list, OffsetOf(preset, inner), preset.pageSize)
  }

  predicate Reached(preset: Preset, inner: Inner) {
    preset.pagination.ByPage? ==> PageIn(preset.pagination.start, inner) >= preset.pagination.start
  }

  lemma {:induction false} NextPage(start: nat, number: nat, size: nat)
    requires number >= start
    ensures (number + 1 - start) * size == (number - start) * size + size
  {
  }

  /** A window is followed by the rest of the list, or was its end. */
  lemma {:induction false} WindowNext(preset: Preset, inner: Inner, answer: Answer, list: seq<Item>)
    requires Numbered(preset) && Reached(preset, inner)
    requires answer.raw == Window(list, OffsetOf(preset, inner), preset.pageSize)
    ensures var next := NextInner(preset, inner, answer);
            next.Ok? &&
            match next.value
            case None => answer.raw == Rest(list, OffsetOf(preset, inner))
            case Some(following) =>
              Reached(preset, following)
              && answer.raw + Rest(list, OffsetOf(preset, following)) == Rest(list, OffsetOf(preset, inner))
  {
    WindowIs(list, OffsetOf(preset, inner), preset.pageSize, answer.raw);
    NextOffset(preset, inner, answer);
  }

  lemma {:induction false} WindowIs(list: seq<Item>, at: nat, size: nat, window: seq<Item>)
    requires window == Window(list, at, size)
    ensures |window| <= size && (|window| < size ==> window == Rest(list, at))
    ensures |window| == size ==> window + Rest(list, at + size) == Rest(list, at)
  {
    if |window| == size { SplitRest(list, at, size); }
  }

  /** A full page moves the offset on by its size. */
  lemma {:induction false} NextOffset(preset: Preset, inner: Inner, answer: Answer)
    requires Numbered(preset) && Reached(preset, inner) && |answer.raw| <= preset.pageSize
    ensures var next := NextInner(preset, inner, answer);
            && next.Ok? && (next.value.Some? <==> |answer.raw| == preset.pageSize)
            && (next.value.Some? ==> Reached(preset, next.value.value)
                                     && OffsetOf(preset, next.value.value) == OffsetOf(preset, inner) + preset.pageSize)
  {
    if preset.pagination.ByPage? {
      NextPage(preset.pagination.start, PageIn(preset.pagination.start, inner), preset.pageSize);
    }
  }

  lemma {:induction false} SplitRest(list: seq<Item>, at: nat, size: nat)
    requires size <= |Rest(list, at)|
    ensures Rest(list, at)[..size] + Rest(list, at + size) == Rest(list, at)
  {
  }

  lemma {:induction false} FollowWindows(preset: Preset, provider: Provider, p: nat, list: seq<Item>, inner: Inner,
      k: nat)
    requires Numbered(preset) && Windows(preset, provider, p, list) && Reached(preset, inner)
    requires |Rest(list, OffsetOf(preset, inner))| < k
    ensures Follow(preset, provider, p, inner, k) == Ok(Rest(list, OffsetOf(preset, inner)))
    decreases k
  {
    var answer := provider(p, inner);
    WindowNext(preset, inner, answer, list);
    NextOffset(preset, inner, answer);
    var next := NextInner(preset, inner, answer).value;
    if next.Some? { FollowWindows(preset, provider, p, list, next.value, k - 1); }
  }

  /** Following the listing of a parent from its start reads the list served. */
  lemma {:induction false} ServesFollow(preset: Preset, provider: Provider, p: nat, list: seq<Item>) returns (k: nat)
    requires Serves(preset, provider, p, list)
    ensures Follow(preset, provider, p, Start, k) == Ok(list)
  {
    match preset.pagination
    case Unpaged => k := 1;
    case ByCursor(_) =>
      var blocks, tokens :| Blocks(preset, provider, p, blocks, tokens) && list == Flat(blocks);
      FollowBlocks(preset, provider, p, blocks, tokens, 0);
      assert blocks[0..] == blocks;
      k := |blocks|;
    case _ =>
      FollowWindows(preset, provider, p, list, Start, |list| + 1);
      k := |list| + 1;
  }

  // ----- what a sweep emits -----

  lemma {:induction false} EmittedSum(a: seq<Page>, b: seq<Page>)
    ensures Emitted(a + b) == Emitted(a) + Emitted(b)
    decreases |b|
  {
    if b == [] {
      assert a + b == a && Emitted(a) + [] == Emitted(a);
    } else {
      var n := |b| - 1;
      EmittedSum(a, b[..n]);
      assert (a + b)[..|a + b| - 1] == a + b[..n];
      assert Emitted(a) + Emitted(b[..n]) + b[n].records == Emitted(a) + (Emitted(b[..n]) + b[n].records);
    }
  }

  lemma {:induction false} EmittedFirst(pages: seq<Page>, i: nat)
    requires i < |pages|
    ensures Emitted(pages[i..]) == pages[i].records + Emitted(pages[i + 1..])
  {
    EmittedSum([pages[i]], pages[i + 1..]);
    assert pages[i..] == [pages[i]] + pages[i + 1..];
    assert Emitted([pages[i]]) == [] + pages[i].records;
  }

  /** The rows of all answers read up to a page, in order. */
  function RowsRead(preset: Preset, source: Source, n: nat, start: Checkpoint, pages: seq<Page>, i: nat): seq<Item>
    requires i <= |pages|
  {
    if i == 0 then []
    else
      RowsRead(preset, source, n, start, pages, i - 1) + RowsOf(preset, source(i - 1), n, At(start, pages, i - 1))
  }

  lemma {:induction false} KeptStep(since: string, emitted: seq<Item>, read: seq<Item>, records: seq<Item>,
      raw: seq<Item>)
    requires emitted == Kept(since, read) && records == Kept(since, raw)
    ensures emitted + records == Kept(since, read + raw)
  {
    KeptSum(since, read, raw);
  }

  /** What the first pages emit. */
  function EmittedTo(pages: seq<Page>, i: nat): seq<Item>
    requires i <= |pages|
  {
    if i == 0 then [] else EmittedTo(pages, i - 1) + pages[i - 1].records
  }

  lemma {:induction false} EmittedToIs(pages: seq<Page>, i: nat)
    requires i <= |pages|
    ensures EmittedTo(pages, i) == Emitted(pages[..i])
  {
    if i > 0 {
      EmittedToIs(pages, i - 1);
      EmittedPrefix(pages, i - 1);
    }
  }

  lemma {:induction false} EmittedSoFar(preset: Preset, source: Source, n: nat, start: Checkpoint, pages: seq<Page>,
      i: nat)
    requires Sweep(preset, source, n, start, pages) && i <= |pages|
    ensures EmittedTo(pages, i) == Kept(start.watermark, RowsRead(preset, source, n, start, pages, i))
  {
    if i > 0 {
      EmittedSoFar(preset, source, n, start, pages, i - 1);
      PageFiltered(preset, source, n, start, pages, i - 1);
      KeptStep(start.watermark, EmittedTo(pages, i - 1), RowsRead(preset, source, n, start, pages, i - 1),
               pages[i - 1].records, RowsOf(preset, source(i - 1), n, At(start, pages, i - 1)));
    }
  }

  /** In every pagination mode a sweep emits exactly the rows read that are not at or
      below the old watermark, in order, also when the provider's answers change. */
  lemma {:induction false} SweepEmitsRead(preset: Preset, source: Source, n: nat, start: Checkpoint, pages: seq<Page>)
    requires Sweep(preset, source, n, start, pages)
    ensures Emitted(pages) == Kept(start.watermark, RowsRead(preset, source, n, start, pages, |pages|))
  {
    EmittedSoFar(preset, source, n, start, pages, |pages|);
    EmittedToIs(pages, |pages|);
    TakeAll(pages);
  }

  /** What a page of a sweep with parents holds, and what comes after it. */
  lemma {:induction false} PageRead(preset: Preset, source: Source, n: nat, start: Checkpoint, pages: seq<Page>, i: nat)
    requires Sweep(preset, source, n, start, pages) && i < |pages| && 0 < Parents(preset, n)
    ensures var c := At(start, pages, i);
            && Parent(c) < Parents(preset, n)
            && Emitted(pages[i..])
               == Kept(start.watermark, source(i)(Parent(c), c.inner).raw) + Emitted(pages[i + 1..])
  {
    ParentsInOrder(preset, source, n, start, pages, i);
    PageFiltered(preset, source, n, start, pages, i);
    UnfannedFirst(preset, source, n, start, pages, i);
    EmittedFirst(pages, i);
  }

  lemma {:induction false} NothingLeft(since: string, pages: seq<Page>, i: nat, lists: seq<seq<Item>>, p: nat)
    requires i == |pages| && p == |lists|
    ensures Emitted(pages[i..]) == Kept(since, Flat(lists[p..]))
  {
    assert pages[i..] == [] && lists[p..] == [];
  }

  lemma {:induction false} UnfannedFirst(preset: Preset, source: Source, n: nat, start: Checkpoint, pages: seq<Page>,
      i: nat)
    requires Sweep(preset, source, n, start, pages) && i < |pages|
    ensures !preset.fanned ==> Parent(At(start, pages, i)) == 0
  {
    if i > 0 { assert Turned(preset, source, n, start, pages, i - 1); }
  }

  lemma {:induction false} KeptParts(since: string, raw: seq<Item>, more: seq<Item>, rest: seq<Item>, left: seq<Item>)
    requires rest == raw + more
    ensures Kept(since, rest + left) == Kept(since, raw) + Kept(since, more + left)
  {
    assert rest + left == raw + (more + left);
    KeptSum(since, raw, more + left);
  }

  /** From any page on, a sweep emits what is left, but for the old items. */
  lemma {:induction false} EmitsLeft(preset: Preset, source: Source, provider: Provider, n: nat, lists: seq<seq<Item>>,
      start: Checkpoint, pages: seq<Page>, i: nat, k: nat, rest: seq<Item>)
    requires Sweep(preset, source, n, start, pages) && i < |pages| && |lists| == Parents(preset, n) && lists != []
    requires Steady(source, provider) && Listing(preset, provider, lists)
    requires Follow(preset, provider, Parent(At(start, pages, i)), At(start, pages, i).inner, k) == Ok(rest)
    ensures var p := Parent(At(start, pages, i));
            p < |lists| && Emitted(pages[i..]) == Kept(start.watermark, rest + Flat(lists[p + 1..]))
    decreases |pages| - i, 1
  {
    var c := At(start, pages, i);
    var p, answer := Parent(c), provider(Parent(c), c.inner);
    assert source(i) == provider;
    PageRead(preset, source, n, start, pages, i);
    ParentsInOrder(preset, source, n, start, pages, i);
    var next := NextInner(preset, c.inner, answer).value;
    if next.Some? {
      var more := Follow(preset, provider, p, next.value, k - 1).value;
      EmitsLeft(preset, source, provider, n, lists, start, pages, i + 1, k - 1, more);
      KeptParts(start.watermark, answer.raw, more, rest, Flat(lists[p + 1..]));
    } else {
      ListEnds(preset, source, provider, n, lists, start, pages, i);
    }
  }

  /** The last page of a listing is followed by the next listing, or by nothing. */
  lemma {:induction false} ListEnds(preset: Preset, source: Source, provider: Provider, n: nat, lists: seq<seq<Item>>,
      start: Checkpoint, pages: seq<Page>, i: nat)
    requires Sweep(preset, source, n, start, pages) && i < |pages| && |lists| == Parents(preset, n) && lists != []
    requires Steady(source, provider) && Listing(preset, provider, lists)
    requires var c := At(start, pages, i); NextInner(preset, c.inner, provider(Parent(c), c.inner)) == Ok(None)
    ensures var c := At(start, pages, i);
            && Parent(c) < |lists|
            && Emitted(pages[i..]) == Kept(start.watermark,
                provider(Parent(c), c.inner).raw + Flat(lists[Parent(c) + 1..]))
    decreases |pages| - i, 0
  {
    var c := At(start, pages, i);
    var p, raw := Parent(c), provider(Parent(c), c.inner).raw;
    assert source(i) == provider;
    PageRead(preset, source, n, start, pages, i);
    ParentsInOrder(preset, source, n, start, pages, i);
    if i + 1 < |pages| {
      NextList(preset, source, provider, n, lists, start, pages, i + 1);
    } else {
      NothingLeft(start.watermark, pages, i + 1, lists, p + 1);
    }
    KeptStep(start.watermark, Kept(start.watermark, raw), raw, Emitted(pages[i + 1..]), Flat(lists[p + 1..]));
  }

  /** A page at the start of a parent's listing. */
  lemma {:induction false} NextList(preset: Preset, source: Source, provider: Provider, n: nat, lists: seq<seq<Item>>,
      start: Checkpoint, pages: seq<Page>, i: nat)
    requires Sweep(preset, source, n, start, pages) && i < |pages| && |lists| == Parents(preset, n) && lists != []
    requires Steady(source, provider) && Listing(preset, provider, lists) && At(start, pages, i).inner == Start
    ensures var p := Parent(At(start, pages, i));
            p < |lists| && Emitted(pages[i..]) == Kept(start.watermark, Flat(lists[p..]))
    decreases |pages| - i, 2
  {
    var p := Parent(At(start, pages, i));
    ParentsInOrder(preset, source, n, start, pages, i);
    assert Serves(preset, provider, p, lists[p]);
    var k := ServesFollow(preset, provider, p, lists[p]);
    EmitsLeft(preset, source, provider, n, lists, start, pages, i, k, lists[p]);
    FlatNext(lists, p);
  }

  /** A sweep emits every listed item that is not at or below the old watermark, parent
      by parent, in listing order and once each. */
  lemma {:induction false} SweepEmitsAll(preset: Preset, source: Source, provider: Provider, n: nat,
      lists: seq<seq<Item>>, start: Checkpoint, pages: seq<Page>)
    requires Sweep(preset, source, n, start, pages) && |lists| == Parents(preset, n)
    requires Steady(source, provider) && Listing(preset, provider, lists)
    ensures Emitted(pages) == Kept(start.watermark, Flat(lists))
  {
    if lists == [] {
      NoParents(preset, source, n, start, pages);
    } else {
      ParentsInOrder(preset, source, n, start, pages, 0);
      NextList(preset, source, provider, n, lists, start, pages, 0);
      assert pages[0..] == pages && lists[0..] == lists;
    }
  }

  lemma {:induction false} NoParents(preset: Preset, source: Source, n: nat, start: Checkpoint, pages: seq<Page>)
    requires Sweep(preset, source, n, start, pages) && Parents(preset, n) == 0
    ensures Emitted(pages) == []
  {
    assert Turned(preset, source, n, start, pages, 0);
    assert |pages| == 1 && pages[..0] == [] && pages[0].records == [];
  }

  // ----- reconcile -----

  datatype Report = Report(missing: set<string>, unknown: set<string>)

  function Ids(records: seq<Item>): set<string> { set r | r in records :: r.id }

  lemma {:induction false} IdsSum(a: seq<Item>, b: seq<Item>)
    ensures Ids(a + b) == Ids(a) + Ids(b)
  {
    forall r | r in a ensures r.id in Ids(a + b) { assert r in a + b; }
    forall r | r in b ensures r.id in Ids(a + b) { assert r in a + b; }
  }

  /** A page of an unfinished sweep. */
  predicate TurnedOn(preset: Preset, source: Source, n: nat, start: Checkpoint, pages: seq<Page>, i: nat)
    requires i < |pages|
  {
    Extract(preset, source(i), n, At(start, pages, i)) == Ok(pages[i]) && !pages[i].exhausted
  }

  /** The pages of an unfinished sweep begin any complete one. */
  lemma {:induction false} SweepDetermined(preset: Preset, source: Source, n: nat, start: Checkpoint, pages: seq<Page>,
      sweep: seq<Page>, i: nat)
    requires Sweep(preset, source, n, start, sweep) && i <= |pages|
    requires forall j {:trigger TurnedOn(preset, source, n, start, pages, j)} ::
      0 <= j < |pages| ==> TurnedOn(preset, source, n, start, pages, j)
    ensures i < |sweep| && At(start, sweep, i) == At(start, pages, i)
  {
    if i > 0 {
      SweepDetermined(preset, source, n, start, pages, sweep, i - 1);
      assert TurnedOn(preset, source, n, start, pages, i - 1) && Turned(preset, source, n, start, sweep, i - 1);
    }
  }

  const Origin: Checkpoint := Checkpoint(None, Start, "", "")

  /** A complete sweep without a watermark, within the budget of pages. */
  ghost predicate Budgeted(preset: Preset, source: Source, n: nat, maxPages: nat, pages: seq<Page>) {
    Sweep(preset, source, n, Origin, pages) && |pages| <= maxPages
  }

  /** A report is given exactly when such a sweep exists, and compares what it emits. */
  ghost predicate Reconciled(preset: Preset, source: Source, n: nat, known: set<string>, maxPages: nat,
      report: Result<Report>)
  {
    && (report.Ok? <==> exists pages :: Budgeted(preset, source, n, maxPages, pages))
    && (forall pages :: Budgeted(preset, source, n, maxPages, pages) ==>
          report == Ok(Report(known - Ids(Emitted(pages)), Ids(Emitted(pages)) - known)))
  }

  lemma {:induction false} PageGiven(preset: Preset, source: Source, n: nat, start: Checkpoint, pages: seq<Page>,
      i: nat)
    requires Sweep(preset, source, n, start, pages) && i < |pages|
    ensures Extract(preset, source(i), n, At(start, pages, i)).Ok?
  {
    assert Turned(preset, source, n, start, pages, i);
  }

  /** A refused page, and a budget that is used up, rule out every complete sweep. */
  lemma {:induction false} NoSweep(preset: Preset, source: Source, n: nat, known: set<string>, maxPages: nat,
      pages: seq<Page>)
    requires forall j {:trigger TurnedOn(preset, source, n, Origin, pages, j)} ::
      0 <= j < |pages| ==> TurnedOn(preset, source, n, Origin, pages, j)
    requires Extract(preset, source(|pages|), n, At(Origin, pages, |pages|)).Refused? || |pages| == maxPages
    ensures Reconciled(preset, source, n, known, maxPages, Refused)
  {
    forall sweep ensures !Budgeted(preset, source, n, maxPages, sweep) {
      if Budgeted(preset, source, n, maxPages, sweep) {
        SweepDetermined(preset, source, n, Origin, pages, sweep, |pages|);
        PageGiven(preset, source, n, Origin, sweep, |pages|);
      }
    }
  }

  lemma {:induction false} SweepEnds(preset: Preset, source: Source, n: nat, pages: seq<Page>)
    requires pages != [] && pages[|pages| - 1].exhausted
    requires Extract(preset, source(|pages| - 1), n, At(Origin, pages, |pages| - 1)) == Ok(pages[|pages| - 1])
    requires forall j {:trigger TurnedOn(preset, source, n, Origin, pages, j)} ::
      0 <= j < |pages| - 1 ==> TurnedOn(preset, source, n, Origin, pages, j)
    ensures Sweep(preset, source, n, Origin, pages)
  {
    forall j | 0 <= j < |pages| ensures Turned(preset, source, n, Origin, pages, j) {
      if j < |pages| - 1 { assert TurnedOn(preset, source, n, Origin, pages, j); }
    }
  }

  /** A sweep on its way: the pages so far, where it goes on, and the ids seen. */
  ghost predicate Underway(preset: Preset, source: Source, n: nat, pages: seq<Page>, next: Checkpoint,
      seen: set<string>) {
    && next == At(Origin, pages, |pages|) && next.watermark == "" && seen == Ids(Emitted(pages))
    && forall j {:trigger TurnedOn(preset, source, n, Origin, pages, j)} ::
         0 <= j < |pages| ==> TurnedOn(preset, source, n, Origin, pages, j)
  }

  /** One more page. */
  lemma {:induction false} PageTaken(preset: Preset, source: Source, n: nat, pages: seq<Page>, next: Checkpoint,
      seen: set<string>, page: Page)
    requires Underway(preset, source, n, pages, next, seen) && Extract(preset, source(|pages|), n, next) == Ok(page)
    ensures var more := pages + [page];
            && Ids(Emitted(more)) == seen + Ids(page.records)
            && if page.exhausted then Sweep(preset, source, n, Origin, more)
               else Underway(preset, source, n, more, page.checkpoint.(watermark := ""), seen + Ids(page.records))
  {
    var more := pages + [page];
    assert more[..|pages|] == pages;
    IdsSum(Emitted(pages), page.records);
    forall j | 0 <= j < |pages| ensures TurnedOn(preset, source, n, Origin, more, j) {
      assert TurnedOn(preset, source, n, Origin, pages, j);
      assert At(Origin, more, j) == At(Origin, pages, j) && more[j] == pages[j];
    }
    if page.exhausted { SweepEnds(preset, source, n, more); }
  }

  /** `reconcile`: a sweep without a watermark, within a budget of pages. */
  method Reconcile(preset: Preset, source: Source, n: nat, known: set<string>, maxPages: nat)
    returns (report: Result<Report>)
    ensures Reconciled(preset, source, n, known, maxPages, report)
  {
    var seen: set<string> := {};
    ghost var pages: seq<Page> := [];
    var checkpoint := Origin;
    for i := 0 to maxPages
      invariant |pages| == i && Underway(preset, source, n, pages, checkpoint, seen)
    {
      var page := Extract(preset, source(i), n, checkpoint);
      if page.Refused? {
        NoSweep(preset, source, n, known, maxPages, pages);
        return Refused;
      }
      PageTaken(preset, source, n, pages, checkpoint, seen, page.value);
      pages := pages + [page.value];
      seen := seen + Ids(page.value.records);
      if page.value.exhausted {
        OnlySweep(preset, source, n, known, maxPages, pages);
        return Ok(Report(known - seen, seen - known));
      }
      checkpoint := page.value.checkpoint.(watermark := "");
    }
    NoSweep(preset, source, n, known, maxPages, pages);
    report := Refused;
  }

  lemma {:induction false} SamePage(preset: Preset, source: Source, n: nat, start: Checkpoint, a: seq<Page>,
      b: seq<Page>, i: nat)
    requires Sweep(preset, source, n, start, a) && Sweep(preset, source, n, start, b) && i < |a|
    ensures i < |b| && a[i] == b[i]
  {
    if i > 0 {
      SamePage(preset, source, n, start, a, b, i - 1);
      assert Turned(preset, source, n, start, a, i - 1) && Turned(preset, source, n, start, b, i - 1);
    }
    assert Turned(preset, source, n, start, a, i) && Turned(preset, source, n, start, b, i);
  }

  /** There is at most one complete sweep. */
  lemma {:induction false} SweepUnique(preset: Preset, source: Source, n: nat, start: Checkpoint, a: seq<Page>,
      b: seq<Page>)
    requires Sweep(preset, source, n, start, a) && Sweep(preset, source, n, start, b)
    ensures a == b
  {
    forall i | 0 <= i < |a| ensures i < |b| && a[i] == b[i] { SamePage(preset, source, n, start, a, b, i); }
    SamePage(preset, source, n, start, a, b, |a| - 1);
    SamePage(preset, source, n, start, b, a, |b| - 1);
  }

  lemma {:induction false} OnlySweep(preset: Preset, source: Source, n: nat, known: set<string>, maxPages: nat,
      pages: seq<Page>)
    requires Budgeted(preset, source, n, maxPages, pages)
    ensures Reconciled(preset, source, n, known, maxPages,
                       Ok(Report(known - Ids(Emitted(pages)), Ids(Emitted(pages)) - known)))
  {
    forall sweep | Budgeted(preset, source, n, maxPages, sweep) ensures sweep == pages {
      SweepUnique(preset, source, n, Origin, sweep, pages);
    }
  }

  lemma {:induction false} KeptAll(raw: seq<Item>)
    ensures Kept("", raw) == raw
  {
    if raw != [] {
      KeptAll(raw[..|raw| - 1]);
      assert raw == raw[..|raw| - 1] + [raw[|raw| - 1]];
    }
  }

  /** A reconciliation compares with everything the source lists. */
  lemma {:induction false} ReconcileSeesAll(preset: Preset, source: Source, provider: Provider, n: nat,
      lists: seq<seq<Item>>, pages: seq<Page>)
    requires Sweep(preset, source, n, Origin, pages) && |lists| == Parents(preset, n)
    requires Steady(source, provider) && Listing(preset, provider, lists)
    ensures Ids(Emitted(pages)) == Ids(Flat(lists))
  {
    SweepEmitsAll(preset, source, provider, n, lists, Origin, pages);
    KeptAll(Flat(lists));
  }
}
