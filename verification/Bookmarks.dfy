/** Paging through a bookmark file, with duplicate rows dropped. */
module Bookmarks {
  import opened Common

  /** A row as validated: refused, or an identity with its canonical encoding. */
  datatype Row = Invalid | Row(identity: string, encoded: string)

  datatype Page = Page(offsets: seq<nat>, next: Option<nat>)

  /** The first row with its identity. */
  predicate First(rows: seq<Row>, k: nat) {
    k < |rows| && rows[k].Row? && forall j :: 0 <= j < k ==> rows[j].Row? ==> rows[j].identity != rows[k].identity
  }

  /** The first occurrences from `lo` up to `hi`. */
  function Firsts(rows: seq<Row>, lo: nat, hi: nat): (offsets: seq<nat>)
    requires lo <= hi <= |rows|
    decreases hi
  {
    if lo == hi then [] else Firsts(rows, lo, hi - 1) + if First(rows, hi - 1) then [hi - 1] else []
  }

  /** Row `k` is valid, and agrees with every earlier row of its identity. */
  predicate Agrees(rows: seq<Row>, k: nat)
    requires k < |rows|
  {
    rows[k].Row? && forall j :: 0 <= j < k ==> rows[j].Row? && rows[j].identity == rows[k].identity ==>
        rows[j].encoded == rows[k].encoded
  }

  predicate Clean(rows: seq<Row>, n: nat)
    requires n <= |rows|
  {
    forall k :: 0 <= k < n ==> Agrees(rows, k)
  }

  ghost predicate Seen(rows: seq<Row>, n: nat, seen: map<string, string>)
    requires n <= |rows|
  {
    && (forall k :: 0 <= k < n ==>
        rows[k].Row? && rows[k].identity in seen && seen[rows[k].identity] == rows[k].encoded)
    && (forall id :: id in seen ==> exists k :: 0 <= k < n && rows[k].Row? && rows[k].identity == id)
  }

  /** `_result`: the page holds the first occurrences from the offset on, as many
      as fit, and names the next one as the next offset. */
  method ReadPage(rows: seq<Row>, offset: nat, size: nat) returns (page: Result<Page>)
    requires size >= 1
    ensures page.Refused? ==> offset > |rows| || !Clean(rows, |rows|)
    ensures page.Ok? && page.value.next.None? ==>
              offset <= |rows| && page.value.offsets == Firsts(rows, offset, |rows|) && |page.value.offsets| <= size
                  && Clean(rows, |rows|)
    ensures page.Ok? && page.value.next.Some? ==>
              var next := page.value.next.value;
              && offset <= next < |rows| && First(rows, next) && Clean(rows, next)
              && page.value.offsets == Firsts(rows, offset, next) && |page.value.offsets| == size
  {
    if offset > |rows| { return Refused; }
    var offsets: seq<nat> := [];
    var seen: map<string, string> := map[];
    for k := 0 to |rows|
      invariant Seen(rows, k, seen) && Clean(rows, k)
      invariant offsets == if k < offset then [] else Firsts(rows, offset, k)
      invariant |offsets| <= size
    {
      var row := rows[k];
      if row.Invalid? {
        assert !Agrees(rows, k);
        return Refused;
      }
      if row.identity in seen {
        var j :| 0 <= j < k && rows[j].Row? && rows[j].identity == row.identity;
        assert !First(rows, k);
        if seen[row.identity] != row.encoded {
          assert !Agrees(rows, k);
          return Refused;
        }
        continue;
      }
      assert First(rows, k) && Agrees(rows, k);
      seen := seen[row.identity := row.encoded];
      if k < offset { continue; }
      if |offsets| == size { return Ok(Page(offsets, Some(k))); }
      offsets := offsets + [k];
    }
    page := Ok(Page(offsets, None));
  }

  lemma {:induction false} FirstsSum(rows: seq<Row>, a: nat, b: nat, c: nat)
    requires a <= b <= c <= |rows|
    ensures Firsts(rows, a, b) + Firsts(rows, b, c) == Firsts(rows, a, c)
    decreases c
  {
    if b < c { FirstsSum(rows, a, b, c - 1); }
  }

  lemma {:induction false} FirstsInside(rows: seq<Row>, lo: nat, hi: nat)
    requires lo <= hi <= |rows|
    ensures Firsts(rows, lo, hi) != [] ==> lo < hi
  {
  }

  /** Following the next offsets from 0 always ends, and joins to the first
      occurrence of every identity, in source order. */
  method ReadAllPages(rows: seq<Row>, sizes: nat -> nat) returns (offsets: Result<seq<nat>>)
    requires forall n :: sizes(n) >= 1
    ensures Clean(rows, |rows|) ==> offsets == Ok(Firsts(rows, 0, |rows|))
    ensures offsets.Ok? ==> Clean(rows, |rows|)
  {
    var all: seq<nat> := [];
    var at: nat := 0;
    var pages: nat := 0;
    while true
      invariant at <= |rows| && all == Firsts(rows, 0, at)
      decreases |rows| - at
    {
      var page := ReadPage(rows, at, sizes(pages));
      if page.Refused? { return Refused; }
      all := all + page.value.offsets;
      if page.value.next.None? {
        FirstsSum(rows, 0, at, |rows|);
        return Ok(all);
      }
      FirstsSum(rows, 0, at, page.value.next.value);
      FirstsInside(rows, at, page.value.next.value);
      at := page.value.next.value;
      pages := pages + 1;
    }
  }

  /** Every identity is there, at its first row, and only once. */
  lemma {:induction false} FirstsExact(rows: seq<Row>, n: nat, k: nat)
    requires k < n <= |rows| && rows[k].Row?
    ensures exists i ::
              0 <= i < |Firsts(rows, 0, n)| && Firsts(rows, 0, n)[i] < |rows|
              && First(rows, Firsts(rows, 0, n)[i])
              && rows[Firsts(rows, 0, n)[i]].identity == rows[k].identity
    decreases n, k
  {
    var offsets := Firsts(rows, 0, n);
    if First(rows, k) {
      FirstListed(rows, n, k);
    } else {
      var j :| 0 <= j < k && rows[j].Row? && rows[j].identity == rows[k].identity;
      FirstsExact(rows, n, j);
    }
  }

  lemma {:induction false} FirstListed(rows: seq<Row>, n: nat, k: nat)
    requires k < n <= |rows| && First(rows, k)
    ensures k in Firsts(rows, 0, n)
  {
    if k < n - 1 { FirstListed(rows, n - 1, k); }
  }

  lemma {:induction false} FirstsAscend(rows: seq<Row>, n: nat, i: nat, j: nat)
    requires n <= |rows| && i < j < |Firsts(rows, 0, n)|
    ensures Firsts(rows, 0, n)[i] < Firsts(rows, 0, n)[j] < n
    ensures First(rows, Firsts(rows, 0, n)[i]) && First(rows, Firsts(rows, 0, n)[j])
    ensures rows[Firsts(rows, 0, n)[i]].identity != rows[Firsts(rows, 0, n)[j]].identity
  {
    if j < |Firsts(rows, 0, n - 1)| {
      FirstsAscend(rows, n - 1, i, j);
    } else {
      FirstsBelow(rows, n - 1, i);
    }
  }

  lemma {:induction false} FirstsBelow(rows: seq<Row>, n: nat, i: nat)
    requires n <= |rows| && i < |Firsts(rows, 0, n)|
    ensures Firsts(rows, 0, n)[i] < n && First(rows, Firsts(rows, 0, n)[i])
  {
    if i < |Firsts(rows, 0, n - 1)| { FirstsBelow(rows, n - 1, i); }
  }
}
