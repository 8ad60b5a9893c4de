/** The merge as the service runs it, and the composition of a search. */
module PaperSearch {
  import opened Common
  import opened Sorting
  import opened Papers
  import opened PaperRecords
  import opened PaperMerge
  import PaperIdentity

  // ----- merge_paper_records -----

  lemma {:induction false} AdmissiblePrefix(query: Query, records: seq<Paper>, n: nat)
    requires n <= |records| && Admissible(query, records)
    ensures Admissible(query, records[..n])
  {
    forall p | p in query.providers ensures CountOf(records[..n], p) <= query.pageBound {
      CountAppend(records[..n], records[n..], p);
      assert records == records[..n] + records[n..];
    }
  }

  /** The tables of the first loop after the records of `seen`. */
  ghost predicate Noted(query: Query, seen: seq<Paper>, unique: map<Id, Paper>, order: seq<Id>,
      counts: map<Identity, nat>) {
    && Admissible(query, seen)
    && order == Dedup(Ids(seen))
    && Indexed(seen, unique)
    && Counted(query, seen, counts)
  }

  ghost predicate Indexed(seen: seq<Paper>, unique: map<Id, Paper>) {
    && (forall id :: id in unique ==> unique[id] in seen && IdOf(unique[id]) == id)
    && (forall r :: r in seen ==> IdOf(r) in unique)
  }

  ghost predicate Counted(query: Query, seen: seq<Paper>, counts: map<Identity, nat>) {
    forall p :: p in query.providers ==> p in counts && counts[p] == CountOf(seen, p)
  }

  lemma {:induction false} IdsAppend(seen: seq<Paper>, paper: Paper)
    ensures Ids(seen + [paper]) == Ids(seen) + [IdOf(paper)]
    ensures IdOf(paper) in Ids(seen) <==> Known(seen, IdOf(paper))
  {
    if IdOf(paper) in Ids(seen) {
      var i :| 0 <= i < |seen| && Ids(seen)[i] == IdOf(paper);
      assert seen[i] in seen;
    }
    if Known(seen, IdOf(paper)) {
      var r :| r in seen && IdOf(r) == IdOf(paper);
      var i :| 0 <= i < |seen| && seen[i] == r;
      assert Ids(seen)[i] == IdOf(paper);
    }
  }

  lemma {:induction false} CountNext(seen: seq<Paper>, paper: Paper, p: Identity)
    ensures CountOf(seen + [paper], p) == CountOf(seen, p) + if paper.reference.provider == p then 1 else 0
  {
    assert (seen + [paper])[..|seen|] == seen;
  }

  lemma {:induction false} CountedStep(query: Query, seen: seq<Paper>, counts: map<Identity, nat>, paper: Paper)
    requires Counted(query, seen, counts) && paper.reference.provider in query.providers
    ensures Counted(query, seen + [paper], counts[paper.reference.provider := counts[paper.reference.provider] + 1])
  {
    forall p | p in query.providers
      ensures CountOf(seen + [paper], p) == CountOf(seen, p) + if paper.reference.provider == p then 1 else 0
    {
      CountNext(seen, paper, p);
    }
  }

  lemma {:induction false} AdmissibleStep(query: Query, seen: seq<Paper>, unique: map<Id, Paper>,
      counts: map<Identity, nat>, paper: Paper)
    requires Admissible(query, seen) && Indexed(seen, unique) && Counted(query, seen, counts)
    requires paper.reference.provider in query.providers && counts[paper.reference.provider] < query.pageBound
    requires IdOf(paper) in unique ==> unique[IdOf(paper)] == paper
    ensures Admissible(query, seen + [paper])
  {
    var more := seen + [paper];
    forall p | p in query.providers ensures CountOf(more, p) <= query.pageBound { CountNext(seen, paper, p); }
    forall a | a in seen ensures IdOf(a) == IdOf(paper) ==> a == paper {
      assert IdOf(a) in unique && !Clash(a, unique[IdOf(a)]);
    }
    forall a, b | a in more && b in more ensures !Clash(a, b) {
      if a in seen && b in seen { assert !Clash(a, b); }
    }
  }

  lemma {:induction false} NoteStep(query: Query, seen: seq<Paper>, unique: map<Id, Paper>, order: seq<Id>,
      counts: map<Identity, nat>, paper: Paper)
    requires Noted(query, seen, unique, order, counts)
    requires paper.reference.provider in query.providers && counts[paper.reference.provider] < query.pageBound
    requires IdOf(paper) in unique ==> unique[IdOf(paper)] == paper
    ensures Noted(query, seen + [paper], unique[IdOf(paper) := paper],
                  if IdOf(paper) in unique then order else order + [IdOf(paper)],
                  counts[paper.reference.provider := counts[paper.reference.provider] + 1])
  {
    AdmissibleStep(query, seen, unique, counts, paper);
    CountedStep(query, seen, counts, paper);
    IdsAppend(seen, paper);
    DedupAppend(Ids(seen), IdOf(paper));
    assert IdOf(paper) in unique <==> Known(seen, IdOf(paper));
  }

  lemma {:induction false} RefuseStep(query: Query, records: seq<Paper>, n: nat, unique: map<Id, Paper>, order: seq<Id>,
      counts: map<Identity, nat>)
    requires n < |records| && Noted(query, records[..n], unique, order, counts)
    requires var paper := records[n];
             || paper.reference.provider !in query.providers
             || counts[paper.reference.provider] >= query.pageBound
             || (IdOf(paper) in unique && unique[IdOf(paper)] != paper)
    ensures !Admissible(query, records)
  {
    var paper := records[n];
    assert records[..n + 1] == records[..n] + [paper];
    if Admissible(query, records) {
      AdmissiblePrefix(query, records, n + 1);
      if paper.reference.provider in query.providers { CountNext(records[..n], paper, paper.reference.provider); }
      if IdOf(paper) in unique && unique[IdOf(paper)] != paper {
        assert unique[IdOf(paper)] in records && paper in records;
        assert Clash(unique[IdOf(paper)], paper);
      }
    }
  }

  /** The first loop of `merge_paper_records`: one record per id, or a refusal. */
  method Unique(query: Query, records: seq<Paper>) returns (ordered: Result<seq<Paper>>)
    ensures ordered == if Admissible(query, records) then Ok(Ordered(query, records)) else Refused
  {
    var unique: map<Id, Paper> := map[];
    var order: seq<Id> := [];
    var counts := map p | p in query.providers :: 0 as nat;
    for n := 0 to |records|
      invariant Noted(query, records[..n], unique, order, counts)
    {
      var paper := records[n];
      var provider, id := paper.reference.provider, IdOf(paper);
      assert records[..n + 1] == records[..n] + [paper];
      if provider !in query.providers || counts[provider] >= query.pageBound || (id in unique && unique[id] != paper) {
        RefuseStep(query, records, n, unique, order, counts);
        return Refused;
      }
      NoteStep(query, records[..n], unique, order, counts, paper);
      if id !in unique { order := order + [id]; }
      unique := unique[id := paper];
      counts := counts[provider := counts[provider] + 1];
    }
    assert records[..|records|] == records;
    var ids := Sort(IdOrder(query), order);
    UniqueIsOrdered(query, records, unique);
    ordered := Ok(Selected(unique, ids));
  }

  function Selected(unique: map<Id, Paper>, ids: seq<Id>): seq<Paper>
    requires forall i :: 0 <= i < |ids| ==> ids[i] in unique
  {
    seq(|ids|, i requires 0 <= i < |ids| => unique[ids[i]])
  }

  lemma {:induction false} UniqueIsOrdered(query: Query, records: seq<Paper>, unique: map<Id, Paper>)
    requires Admissible(query, records) && Indexed(records, unique)
    ensures var ids := SortedIds(query, records);
            && (forall i :: 0 <= i < |ids| ==> ids[i] in unique)
            && Selected(unique, ids) == Ordered(query, records)
  {
    SortedIdsExact(query, records);
    var ids := SortedIds(query, records);
    forall i | 0 <= i < |ids| ensures ids[i] in unique && unique[ids[i]] == Ordered(query, records)[i] {
      assert ids[i] in ids && Known(records, ids[i]);
      assert !Clash(unique[ids[i]], Ordered(query, records)[i]);
    }
  }

  /** One record for each group, or a refusal when some group does not merge. */
  method MergeGroups(env: Env, groups: seq<seq<Paper>>) returns (made: Result<seq<Record>>)
    ensures made == All(Judgements(env, groups))
  {
    ghost var outcomes := Judgements(env, groups);
    AllOf(outcomes);
    var records: seq<Record> := [];
    for g := 0 to |groups|
      invariant All(outcomes[..g]) == Ok(records)
    {
      AllNext(outcomes, g);
      var outcome := JudgeGroup(env, groups[g]);
      if outcome.Refused? { return Refused; }
      records := records + [outcome.value];
    }
    made := Ok(records);
  }

  /** One group: at most one DOI, and every field must merge. */
  method JudgeGroup(env: Env, group: seq<Paper>) returns (outcome: Result<Record>)
    ensures outcome == Judgement(env, group)
  {
    if !OneDoi(env, group) { return Refused; }
    outcome := MergeGroup(env, group);
  }

  method AllTokenized(env: Env, papers: seq<Paper>) returns (valid: bool)
    ensures valid <==> Tokenized(env, papers)
  {
    for n := 0 to |papers|
      invariant forall i :: 0 <= i < n ==> Tokens(env, papers[i]).Ok?
    {
      if Tokens(env, papers[n]).Refused? {
        assert papers[n] in papers;
        return false;
      }
    }
    valid := true;
  }

  /** Group, check and merge a batch in declared order. */
  method MergeOrdered(env: Env, ordered: seq<Paper>) returns (made: Result<seq<Record>>)
    ensures made == MergedGroups(env, ordered)
  {
    var valid := AllTokenized(env, ordered);
    if !valid { return Refused; }
    var indices := PaperIdentity.Collect(KeysOf(env, ordered));
    IndicesInRange(env, ordered);
    made := MergeGroups(env, PickAll(ordered, indices));
  }

  method MergeRecords(env: Env, query: Query, records: seq<Paper>) returns (merged: Result<seq<Record>>)
    ensures merged == Merge(env, query, records)
  {
    if |records| > MAX_BATCH { return Refused; }
    var unique := Unique(query, records);
    if unique.Refused? { return Refused; }
    var made := MergeOrdered(env, unique.value);
    merged := if made.Refused? then Refused else Ok(Sort(RecordBefore, made.value));
  }

  // ----- _compose -----

  datatype Outcome = Fine | Failed | RateLimited | Declined

  datatype Report = Report(provider: Identity, outcome: Outcome, reason: string)

  datatype Completeness = Nothing | Partial | Complete

  datatype SearchResult = SearchResult(records: seq<Record>, reports: seq<Report>, completeness: Completeness)

  type Page = (Report, seq<Paper>)

  function Rejected(report: Report): Report { Report(report.provider, Failed, "provider_failed") }

  /** The records of the pages still reported fine. */
  function Kept(pages: seq<Page>, reports: seq<Report>): seq<Paper>
    requires |reports| == |pages|
  {
    if pages == [] then []
    else
      var n := |pages| - 1;
      Kept(pages[..n], reports[..n]) + if reports[n].outcome.Fine? then pages[n].1 else []
  }

  function Fines(reports: seq<Report>): nat {
    if reports == [] then 0
    else Fines(reports[..|reports| - 1]) + if reports[|reports| - 1].outcome.Fine? then 1 else 0
  }

  /** Each report stands, unless its page would not merge with the ones before it. */
  ghost predicate Judged(env: Env, query: Query, pages: seq<Page>, reports: seq<Report>, i: nat)
    requires i < |pages| == |reports|
  {
    var before := Kept(pages[..i], reports[..i]);
    reports[i] == if pages[i].0.outcome.Fine? && Merge(env, query, before + pages[i].1).Refused?
                  then Report(pages[i].0.provider, Failed, "provider_failed") else pages[i].0
  }

  lemma {:induction false} FinesBounded(reports: seq<Report>)
    ensures Fines(reports) <= |reports|
    ensures Fines(reports) == |reports| <==> forall i :: 0 <= i < |reports| ==> reports[i].outcome.Fine?
    ensures Fines(reports) == 0 <==> forall i :: 0 <= i < |reports| ==> !reports[i].outcome.Fine?
  {
    if reports != [] {
      var n := |reports| - 1;
      FinesBounded(reports[..n]);
      assert forall i :: 0 <= i < n ==> reports[..n][i] == reports[i];
    }
  }

  lemma {:induction false} MergeNothing(env: Env, query: Query)
    ensures Merge(env, query, []) == Ok([])
  {
    assert Dedup(Ids([])) == [];
    assert Ordered(query, []) == [];
    assert KeysOf(env, []) == [];
    assert Judgements(env, GroupsOf(env, [])) == [];
  }

  ghost predicate AllJudged(env: Env, query: Query, pages: seq<Page>, reports: seq<Report>) {
    |reports| == |pages| && forall i {:trigger Judged(env, query, pages, reports, i)} ::
      0 <= i < |pages| ==> Judged(env, query, pages, reports, i)
  }

  lemma {:induction false} JudgeNext(env: Env, query: Query, pages: seq<Page>, reports: seq<Report>, page: Page,
      report: Report)
    requires AllJudged(env, query, pages, reports)
    requires report == if page.0.outcome.Fine? && Merge(env, query, Kept(pages, reports) + page.1).Refused?
                       then Rejected(page.0) else page.0
    ensures AllJudged(env, query, pages + [page], reports + [report])
    ensures Kept(pages + [page], reports + [report]) == Kept(pages, reports)
         + if report.outcome.Fine? then page.1 else []
  {
    var morePages, moreReports := pages + [page], reports + [report];
    assert morePages[..|pages|] == pages && moreReports[..|pages|] == reports;
    forall i | 0 <= i < |morePages| ensures Judged(env, query, morePages, moreReports, i) {
      if i < |pages| {
        assert Judged(env, query, pages, reports, i);
        assert morePages[..i] == pages[..i] && moreReports[..i] == reports[..i];
      }
    }
  }

  /** One page: merged with what was kept before it, or its report replaced. */
  method Judge(env: Env, query: Query, page: Page, records: seq<Paper>, merged: seq<Record>)
    returns (report: Report, kept: seq<Paper>, result: seq<Record>)
    requires Merge(env, query, records) == Ok(merged)
    ensures report == if page.0.outcome.Fine? && Merge(env, query, records + page.1).Refused?
                      then Report(page.0.provider, Failed, "provider_failed") else page.0
    ensures kept == records + if report.outcome.Fine? then page.1 else []
    ensures Merge(env, query, kept) == Ok(result)
  {
    if !page.0.outcome.Fine? {
      assert records + [] == records;
      return page.0, records, merged;
    }
    var candidate := MergeRecords(env, query, records + page.1);
    if candidate.Refused? {
      assert records + [] == records;
      return Rejected(page.0), records, merged;
    }
    return page.0, records + page.1, candidate.value;
  }

  lemma {:induction false} ComposeStarts(env: Env, query: Query, pages: seq<Page>)
    ensures AllJudged(env, query, pages[..0], []) && Kept(pages[..0], []) == [] && Merge(env, query, []) == Ok([])
  {
    MergeNothing(env, query);
  }

  method Compose(env: Env, query: Query, pages: seq<Page>) returns (result: SearchResult)
    ensures AllJudged(env, query, pages, result.reports)
    ensures Merge(env, query, Kept(pages, result.reports)) == Ok(result.records)
    ensures result.completeness.Nothing? <==> forall i :: 0 <= i < |pages| ==> !result.reports[i].outcome.Fine?
    ensures pages != [] ==>
      (result.completeness.Complete? <==> forall i :: 0 <= i < |pages| ==> result.reports[i].outcome.Fine?)
  {
    var records: seq<Paper> := [];
    var merged: seq<Record> := [];
    var reports: seq<Report> := [];
    ComposeStarts(env, query, pages);
    for n := 0 to |pages|
      invariant AllJudged(env, query, pages[..n], reports)
      invariant records == Kept(pages[..n], reports)
      invariant Merge(env, query, records) == Ok(merged)
    {
      var report, kept, candidate := Judge(env, query, pages[n], records, merged);
      TakeNext(pages, n);
      JudgeNext(env, query, pages[..n], reports, pages[n], report);
      reports, records, merged := reports + [report], kept, candidate;
    }
    TakeAll(pages);
    FinesBounded(reports);
    var count := CountFine(reports);
    result := SearchResult(merged, reports,
                           if count == 0 then Nothing else if count == |reports| then Complete else Partial);
  }

  method CountFine(reports: seq<Report>) returns (count: nat)
    ensures count == Fines(reports)
  {
    count := 0;
    for n := 0 to |reports|
      invariant count == Fines(reports[..n])
    {
      assert reports[..n + 1][..n] == reports[..n];
      if reports[n].outcome.Fine? { count := count + 1; }
    }
    assert reports[..|reports|] == reports;
  }
}
