/** `GenerateController`: the bulk actions that queue one generation job per
    image asset, site by site and page by page, and the single-asset action
    that writes the fallback alt text at once. */
module GenerateController {
  import opened Wrappers
  import Php
  import opened Assets

  /** `$limit`, the page size of the batch queries. */
  const PageSize: nat := 100

  /** The `siteId` request parameter used as a condition: absent and 0 are
      both false. */
  predicate SiteGiven(siteParam: Option<int>) {
    siteParam.Some? && siteParam.value != 0
  }

  /** `getSiteById`: the first registered site with that id. */
  function FindSite(registry: seq<Site>, id: int): (r: Option<Site>)
    ensures r.Some? ==> r.value in registry && r.value.id == id
    ensures r.None? ==> forall k :: 0 <= k < |registry| ==> registry[k].id != id
  {
    if |registry| == 0 then None
    else if registry[0].id == id then Some(registry[0])
    else FindSite(registry[1..], id)
  }

  /** The sites a bulk action covers: the one named, or all of them; None
      when the one named does not exist. */
  function ResolveSites(siteParam: Option<int>, registry: seq<Site>): (r: Option<seq<Site>>)
    ensures r.None? <==> SiteGiven(siteParam) && FindSite(registry, siteParam.value).None?
    ensures r.Some? && SiteGiven(siteParam) ==> |r.value| == 1 && r.value[0].id == siteParam.value && r.value[0] in registry
    ensures !SiteGiven(siteParam) ==> r == Some(registry)
  {
    if SiteGiven(siteParam) then
      match FindSite(registry, siteParam.value)
      case None => None
      case Some(site) => Some([site])
    else Some(registry)
  }

  /** One page: `->offset($offset)->limit(100)->all()`. */
  function Page(store: seq<AssetRecord>, siteId: int, filter: Filter, offset: nat): (r: seq<AssetRecord>)
    ensures |r| <= PageSize
    // The window of the matches starting at `offset`: empty past their
    // end, otherwise as long as a page or the rest of the matches.
    ensures offset >= |Select(store, siteId, filter)| ==> r == []
    ensures offset < |Select(store, siteId, filter)| ==>
              |r| == Min(PageSize, |Select(store, siteId, filter)| - offset)
              && forall k :: 0 <= k < |r| ==> r[k] == Select(store, siteId, filter)[offset + k]
  {
    var m := Select(store, siteId, filter);
    if offset >= |m| then [] else m[offset..Min(offset + PageSize, |m|)]
  }

  function Min(a: int, b: int): int {
    if a <= b then a else b
  }

  /** A job handed to the queue for one asset on one site. */
  datatype Dispatch = Dispatch(assetId: int, siteId: int)

  /** The missing-alt action's `!empty($asset->alt)` re-check. */
  predicate Skipped(filter: Filter, a: AssetRecord) {
    filter == MissingAltOnly && !Php.Empty(a.alt)
  }

  /** The jobs queued for `assets` of one site: skipped assets and those
      whose dispatch throws (`failing`) queue nothing. */
  function Dispatched(assets: seq<AssetRecord>, siteId: int, filter: Filter, failing: set<Dispatch>): (r: seq<Dispatch>)
    ensures |r| <= |assets|
  {
    if |assets| == 0 then []
    else
      var a := assets[|assets| - 1];
      var d := Dispatch(a.id, siteId);
      Dispatched(assets[..|assets| - 1], siteId, filter, failing)
      + (if Skipped(filter, a) || d in failing then [] else [d])
  }

  /** One page fetch: the site, the offset and the number of assets returned. */
  datatype Fetch = Fetch(siteId: int, offset: int, size: nat)

  /** The fetches of one site from `offset` on, when the query matches `n`
      assets: pages until the first empty one. */
  function FetchPlan(siteId: int, n: nat, offset: nat): seq<Fetch>
    decreases n + PageSize - offset
  {
    if offset >= n then [Fetch(siteId, offset, 0)]
    else [Fetch(siteId, offset, Min(PageSize, n - offset))] + FetchPlan(siteId, n, offset + PageSize)
  }

  /** The count phase: the sum over the sites of the count query. */
  function CountAll(store: seq<AssetRecord>, sites: seq<Site>, filter: Filter): nat {
    if |sites| == 0 then 0
    else CountAll(store, sites[..|sites| - 1], filter) + |Select(store, sites[|sites| - 1].id, filter)|
  }

  function DispatchedAll(store: seq<AssetRecord>, sites: seq<Site>, filter: Filter, failing: set<Dispatch>): seq<Dispatch> {
    if |sites| == 0 then []
    else
      var s := sites[|sites| - 1];
      DispatchedAll(store, sites[..|sites| - 1], filter, failing) + Dispatched(Select(store, s.id, filter), s.id, filter, failing)
  }

  function FetchesAll(store: seq<AssetRecord>, sites: seq<Site>, filter: Filter): seq<Fetch> {
    if |sites| == 0 then []
    else
      var s := sites[|sites| - 1];
      FetchesAll(store, sites[..|sites| - 1], filter) + FetchPlan(s.id, |Select(store, s.id, filter)|, 0)
  }

  /** What a bulk action reports: an unknown site, or the three counters
      with the jobs queued and the page fetches made. */
  datatype BatchResult =
    | InvalidSite(siteId: int)
    | Ran(totalCount: nat, processedCount: nat, queuedCount: nat, queued: seq<Dispatch>, fetches: seq<Fetch>)

  /** A bulk action over the sites chosen. The count query reads
      `countStore` and the pages read `store`: the store may change between
      the two phases. */
  function Batch(filter: Filter, siteParam: Option<int>, registry: seq<Site>,
                 countStore: seq<AssetRecord>, store: seq<AssetRecord>, failing: set<Dispatch>): (r: BatchResult)
    ensures r.InvalidSite? <==> SiteGiven(siteParam) && FindSite(registry, siteParam.value).None?
    ensures r.InvalidSite? ==> r.siteId == siteParam.value
    ensures r.Ran? ==> r.queuedCount == |r.queued| <= r.processedCount
    ensures r.Ran? ==> r.processedCount == SumSizes(r.fetches)
    ensures r.Ran? ==> forall k :: 0 <= k < |r.fetches| ==> r.fetches[k].size <= PageSize
  {
    match ResolveSites(siteParam, registry)
    case None => InvalidSite(siteParam.value)
    case Some(sites) =>
      var queued := DispatchedAll(store, sites, filter, failing);
      QueuedAtMostProcessed(store, sites, filter, failing);
      ProcessedIsFetched(store, sites, filter);
      PagesAreBounded(store, sites, filter);
      Ran(CountAll(countStore, sites, filter), CountAll(store, sites, filter), |queued|, queued, FetchesAll(store, sites, filter))
  }

  function SumSizes(fetches: seq<Fetch>): nat {
    if |fetches| == 0 then 0 else SumSizes(fetches[..|fetches| - 1]) + fetches[|fetches| - 1].size
  }

  // ---------------------------------------------------------------------
  // Properties of the specification

  lemma {:induction false} DispatchedAppend(xs: seq<AssetRecord>, ys: seq<AssetRecord>, siteId: int, filter: Filter, failing: set<Dispatch>)
    ensures Dispatched(xs + ys, siteId, filter, failing) == Dispatched(xs, siteId, filter, failing) + Dispatched(ys, siteId, filter, failing)
    decreases |ys|
  {
    if |ys| == 0 {
      assert xs + ys == xs;
    } else {
      var zs, init, a := xs + ys, ys[..|ys| - 1], ys[|ys| - 1];
      var d := Dispatch(a.id, siteId);
      var last := if Skipped(filter, a) || d in failing then [] else [d];
      assert zs[..|zs| - 1] == xs + init;
      assert zs[|zs| - 1] == a;
      assert Dispatched(zs, siteId, filter, failing) == Dispatched(xs + init, siteId, filter, failing) + last;
      assert Dispatched(ys, siteId, filter, failing) == Dispatched(init, siteId, filter, failing) + last;
      DispatchedAppend(xs, init, siteId, filter, failing);
      var dx, di := Dispatched(xs, siteId, filter, failing), Dispatched(init, siteId, filter, failing);
      assert (dx + di) + last == dx + (di + last);
    }
  }

  /** A job is queued exactly for each asset of the run that is not
      skipped and whose dispatch does not throw. */
  lemma {:induction false} DispatchedMembers(assets: seq<AssetRecord>, siteId: int, filter: Filter, failing: set<Dispatch>)
    ensures forall d :: d in Dispatched(assets, siteId, filter, failing) <==>
              exists k :: 0 <= k < |assets| && d == Dispatch(assets[k].id, siteId)
                          && !Skipped(filter, assets[k]) && d !in failing
  {
    if |assets| > 0 {
      var init, a := assets[..|assets| - 1], assets[|assets| - 1];
      DispatchedMembers(init, siteId, filter, failing);
      forall d
        ensures d in Dispatched(assets, siteId, filter, failing) <==>
                exists k :: 0 <= k < |assets| && d == Dispatch(assets[k].id, siteId)
                            && !Skipped(filter, assets[k]) && d !in failing
      {
        if exists k :: 0 <= k < |init| && d == Dispatch(init[k].id, siteId) && !Skipped(filter, init[k]) && d !in failing {
          var k :| 0 <= k < |init| && d == Dispatch(init[k].id, siteId) && !Skipped(filter, init[k]) && d !in failing;
          assert assets[k] == init[k];
        }
        if exists k :: 0 <= k < |assets| && d == Dispatch(assets[k].id, siteId) && !Skipped(filter, assets[k]) && d !in failing {
          var k :| 0 <= k < |assets| && d == Dispatch(assets[k].id, siteId) && !Skipped(filter, assets[k]) && d !in failing;
          if k < |init| {
            assert init[k] == assets[k];
          }
        }
      }
    }
  }

  /** A dispatch that throws loses only its own job: the assets after it
      are still queued. */
  lemma FailureIsLocal(xs: seq<AssetRecord>, a: AssetRecord, ys: seq<AssetRecord>, siteId: int, filter: Filter, failing: set<Dispatch>)
    requires Dispatch(a.id, siteId) in failing
    ensures Dispatched(xs + [a] + ys, siteId, filter, failing) == Dispatched(xs, siteId, filter, failing) + Dispatched(ys, siteId, filter, failing)
  {
    DispatchedAppend(xs + [a], ys, siteId, filter, failing);
    assert (xs + [a])[..|xs|] == xs;
  }

  /** With no dispatch failing and nothing skipped, every asset gets a job,
      in order. */
  lemma {:induction false} AllQueued(xs: seq<AssetRecord>, siteId: int, filter: Filter)
    requires forall k :: 0 <= k < |xs| ==> !Skipped(filter, xs[k])
    ensures |Dispatched(xs, siteId, filter, {})| == |xs|
    ensures forall k :: 0 <= k < |xs| ==> Dispatched(xs, siteId, filter, {})[k] == Dispatch(xs[k].id, siteId)
    decreases |xs|
  {
    if |xs| > 0 {
      AllQueued(xs[..|xs| - 1], siteId, filter);
    }
  }

  /** The re-check never fires on a page read from the same store as the
      missing-alt query: everything it returns is PHP-empty. */
  lemma MissingAltPagesSkipNothing(store: seq<AssetRecord>, siteId: int)
    ensures forall a :: a in Select(store, siteId, MissingAltOnly) ==> !Skipped(MissingAltOnly, a)
  {
    forall a | a in Select(store, siteId, MissingAltOnly) ensures !Skipped(MissingAltOnly, a) {
      MissingAltFilterIsEmpty(a.alt);
    }
  }

  lemma {:induction false} QueuedAtMostProcessed(store: seq<AssetRecord>, sites: seq<Site>, filter: Filter, failing: set<Dispatch>)
    ensures |DispatchedAll(store, sites, filter, failing)| <= CountAll(store, sites, filter)
    decreases |sites|
  {
    if |sites| > 0 {
      QueuedAtMostProcessed(store, sites[..|sites| - 1], filter, failing);
    }
  }

  lemma {:induction false} SumSizesAppend(xs: seq<Fetch>, ys: seq<Fetch>)
    ensures SumSizes(xs + ys) == SumSizes(xs) + SumSizes(ys)
    decreases |ys|
  {
    if |ys| == 0 {
      assert xs + ys == xs;
    } else {
      assert (xs + ys)[..|xs + ys| - 1] == xs + ys[..|ys| - 1];
      SumSizesAppend(xs, ys[..|ys| - 1]);
    }
  }

  /** The shape of one site's fetches: offsets 0, 100, 200, ..., every page
      but the last non-empty and at most 100 long, the last one empty,
      ceil(n/100) + 1 fetches in all, and the sizes adding up to n. */
  lemma {:induction false} FetchPlanShape(siteId: int, n: nat, offset: nat)
    ensures var p := FetchPlan(siteId, n, offset);
            |p| == (if offset >= n then 1 else (n - offset + PageSize - 1) / PageSize + 1)
            && SumSizes(p) == (if offset >= n then 0 else n - offset)
            && (forall k :: 0 <= k < |p| ==> p[k].siteId == siteId && p[k].offset == offset + k * PageSize && p[k].size <= PageSize)
            && (forall k :: 0 <= k < |p| ==> (p[k].size == 0 <==> k == |p| - 1))
    decreases n + PageSize - offset
  {
    var p := FetchPlan(siteId, n, offset);
    if offset < n {
      var head := Fetch(siteId, offset, Min(PageSize, n - offset));
      var tail := FetchPlan(siteId, n, offset + PageSize);
      FetchPlanShape(siteId, n, offset + PageSize);
      assert p == [head] + tail;
      SumSizesAppend([head], tail);
      assert SumSizes([head]) == head.size;
      forall k | 0 < k < |p| ensures p[k].offset == offset + k * PageSize {
        assert p[k] == tail[k - 1];
      }
    }
  }

  /** The pagination example: 250 matching assets take pages of 100, 100 and
      50 and then one empty fetch at offset 300. */
  lemma TwoHundredFiftyAssets(siteId: int)
    ensures FetchPlan(siteId, 250, 0)
            == [Fetch(siteId, 0, 100), Fetch(siteId, 100, 100), Fetch(siteId, 200, 50), Fetch(siteId, 300, 0)]
  {
    assert FetchPlan(siteId, 250, 300) == [Fetch(siteId, 300, 0)];
    assert FetchPlan(siteId, 250, 200) == [Fetch(siteId, 200, 50)] + FetchPlan(siteId, 250, 300);
    assert FetchPlan(siteId, 250, 100) == [Fetch(siteId, 100, 100)] + FetchPlan(siteId, 250, 200);
  }

  lemma {:induction false} ProcessedIsFetched(store: seq<AssetRecord>, sites: seq<Site>, filter: Filter)
    ensures SumSizes(FetchesAll(store, sites, filter)) == CountAll(store, sites, filter)
    decreases |sites|
  {
    if |sites| > 0 {
      var s := sites[|sites| - 1];
      ProcessedIsFetched(store, sites[..|sites| - 1], filter);
      FetchPlanShape(s.id, |Select(store, s.id, filter)|, 0);
      SumSizesAppend(FetchesAll(store, sites[..|sites| - 1], filter), FetchPlan(s.id, |Select(store, s.id, filter)|, 0));
    }
  }

  lemma {:induction false} PagesAreBounded(store: seq<AssetRecord>, sites: seq<Site>, filter: Filter)
    ensures forall k :: 0 <= k < |FetchesAll(store, sites, filter)| ==> FetchesAll(store, sites, filter)[k].size <= PageSize
    decreases |sites|
  {
    if |sites| > 0 {
      var s := sites[|sites| - 1];
      var front := FetchesAll(store, sites[..|sites| - 1], filter);
      var plan := FetchPlan(s.id, |Select(store, s.id, filter)|, 0);
      PagesAreBounded(store, sites[..|sites| - 1], filter);
      FetchPlanShape(s.id, |Select(store, s.id, filter)|, 0);
      var all: seq<Fetch> := front + plan;
      forall k | 0 <= k < |all| ensures all[k].size <= PageSize {
        if k >= |front| {
          assert all[k] == plan[k - |front|];
          assert plan[k - |front|].size <= PageSize;
        } else {
          assert all[k] == front[k];
          assert front[k].size <= PageSize;
        }
      }
    }
  }

  /** When nothing changes between the count and the pages, the reported
      total equals the number of assets processed. */
  lemma ConsistentStoreCountsAgree(filter: Filter, siteParam: Option<int>, registry: seq<Site>,
                                   store: seq<AssetRecord>, failing: set<Dispatch>)
    requires Batch(filter, siteParam, registry, store, store, failing).Ran?
    ensures var r := Batch(filter, siteParam, registry, store, store, failing);
            r.totalCount == r.processedCount
  {
  }

  /** One more site in the prefix adds that site's share to each total. */
  lemma ExtendSites(store: seq<AssetRecord>, sites: seq<Site>, i: nat, filter: Filter, failing: set<Dispatch>)
    requires i < |sites|
    ensures var s := sites[i];
            var m := Select(store, s.id, filter);
            CountAll(store, sites[..i + 1], filter) == CountAll(store, sites[..i], filter) + |m|
            && DispatchedAll(store, sites[..i + 1], filter, failing) == DispatchedAll(store, sites[..i], filter, failing) + Dispatched(m, s.id, filter, failing)
            && FetchesAll(store, sites[..i + 1], filter) == FetchesAll(store, sites[..i], filter) + FetchPlan(s.id, |m|, 0)
  {
    assert sites[..i + 1][..i] == sites[..i];
  }

  /** The state of the pagination loop of one site before the fetch at
      `offset`: everything before `offset` has been processed, and the
      fetches still to come are the rest of the plan. */
  ghost predicate Progress(matching: seq<AssetRecord>, siteId: int, filter: Filter, failing: set<Dispatch>,
                           offset: nat, processed: nat, queued: seq<Dispatch>, fetches: seq<Fetch>)
  {
    && offset % PageSize == 0
    && (offset == 0 || offset - PageSize < |matching|)
    && processed == Min(offset, |matching|)
    && queued == Dispatched(matching[..Min(offset, |matching|)], siteId, filter, failing)
    && FetchPlan(siteId, |matching|, 0) == fetches + FetchPlan(siteId, |matching|, offset)
  }

  /** The state once the loop has stopped. */
  ghost predicate Finished(matching: seq<AssetRecord>, siteId: int, filter: Filter, failing: set<Dispatch>,
                           processed: nat, queued: seq<Dispatch>, fetches: seq<Fetch>)
  {
    && processed == |matching|
    && queued == Dispatched(matching, siteId, filter, failing)
    && fetches == FetchPlan(siteId, |matching|, 0)
  }

  /** A non-empty page moves the loop on by one page. */
  lemma FullPage(matching: seq<AssetRecord>, siteId: int, filter: Filter, failing: set<Dispatch>,
                 offset: nat, processed: nat, queued: seq<Dispatch>, fetches: seq<Fetch>)
    requires Progress(matching, siteId, filter, failing, offset, processed, queued, fetches)
    requires offset < |matching|
    ensures var page := matching[offset..Min(offset + PageSize, |matching|)];
            Progress(matching, siteId, filter, failing, offset + PageSize, processed + |page|,
                     queued + Dispatched(page, siteId, filter, failing),
                     fetches + [Fetch(siteId, offset, |page|)])
  {
    var upTo := Min(offset + PageSize, |matching|);
    var page := matching[offset..upTo];
    assert Dispatched(matching[..upTo], siteId, filter, failing) == queued + Dispatched(page, siteId, filter, failing) by {
      assert matching[..upTo] == matching[..offset] + page;
      DispatchedAppend(matching[..offset], page, siteId, filter, failing);
    }
    var next := [Fetch(siteId, offset, |page|)];
    var rest := FetchPlan(siteId, |matching|, offset + PageSize);
    assert FetchPlan(siteId, |matching|, 0) == (fetches + next) + rest by {
      assert FetchPlan(siteId, |matching|, offset) == next + rest;
      assert fetches + (next + rest) == (fetches + next) + rest;
    }
  }

  /** The empty page at the end of the matches ends the loop. */
  lemma FinalPage(matching: seq<AssetRecord>, siteId: int, filter: Filter, failing: set<Dispatch>,
                  offset: nat, processed: nat, queued: seq<Dispatch>, fetches: seq<Fetch>)
    requires Progress(matching, siteId, filter, failing, offset, processed, queued, fetches)
    requires offset >= |matching|
    ensures Finished(matching, siteId, filter, failing, processed, queued, fetches + [Fetch(siteId, offset, 0)])
  {
    assert matching[..|matching|] == matching;
  }

  // ---------------------------------------------------------------------
  // The bulk actions

  /** The inner `foreach` over one page: skip, dispatch, or catch. */
  method DispatchPage(assets: seq<AssetRecord>, siteId: int, filter: Filter, failing: set<Dispatch>)
    returns (queued: seq<Dispatch>)
    ensures queued == Dispatched(assets, siteId, filter, failing)
  {
    queued := [];
    for j := 0 to |assets|
      invariant queued == Dispatched(assets[..j], siteId, filter, failing)
    {
      var asset := assets[j];
      assert assets[..j + 1][..j] == assets[..j];
      if filter == MissingAltOnly && !Php.Empty(asset.alt) {
        // already has alt text: skipped
      } else {
        var job := Dispatch(asset.id, siteId);
        if job in failing {
          // the dispatch threw; the error is logged and the loop goes on
        } else {
          queued := queued + [job];
        }
      }
    }
    assert assets[..|assets|] == assets;
  }

  /** The `while ($hasMore)` loop of one site: fetch the page at `offset`,
      stop on an empty page, otherwise dispatch it and move on by 100.
      Returns what the site adds to the processed counter, the jobs queued
      and the fetches made. */
  method PaginateSite(site: Site, filter: Filter, store: seq<AssetRecord>, failing: set<Dispatch>)
    returns (processed: nat, queued: seq<Dispatch>, fetches: seq<Fetch>)
    ensures var matching := Select(store, site.id, filter);
            processed == |matching|
            && queued == Dispatched(matching, site.id, filter, failing)
            && fetches == FetchPlan(site.id, |matching|, 0)
  {
    ghost var matching := Select(store, site.id, filter);
    processed, queued, fetches := 0, [], [];
    var offset := 0;
    var hasMore := true;
    while hasMore
      invariant hasMore ==> Progress(matching, site.id, filter, failing, offset, processed, queued, fetches)
      invariant !hasMore ==> Finished(matching, site.id, filter, failing, processed, queued, fetches)
      decreases hasMore, |matching| + PageSize - offset
    {
      var assets := Page(store, site.id, filter, offset);
      assert offset < |matching| ==> assets == matching[offset..Min(offset + PageSize, |matching|)];
      var batchSize := |assets|;
      if batchSize == 0 {
        FinalPage(matching, site.id, filter, failing, offset, processed, queued, fetches);
        processed := processed + batchSize;
        fetches := fetches + [Fetch(site.id, offset, batchSize)];
        hasMore := false;
      } else {
        var jobs := DispatchPage(assets, site.id, filter, failing);
        FullPage(matching, site.id, filter, failing, offset, processed, queued, fetches);
        processed := processed + batchSize;
        fetches := fetches + [Fetch(site.id, offset, batchSize)];
        queued := queued + jobs;
        offset := offset + PageSize;
      }
    }
  }

  /** The count phase: `$totalCount += ...->count()` for every site. */
  method CountPhase(sites: seq<Site>, filter: Filter, countStore: seq<AssetRecord>) returns (totalCount: nat)
    ensures totalCount == CountAll(countStore, sites, filter)
  {
    totalCount := 0;
    for i := 0 to |sites|
      invariant totalCount == CountAll(countStore, sites[..i], filter)
    {
      assert sites[..i + 1][..i] == sites[..i];
      totalCount := totalCount + |Select(countStore, sites[i].id, filter)|;
    }
    assert sites[..|sites|] == sites;
  }

  /** The processing phase: every site in turn, accumulating
      `$processedCount` and `$queuedCount`. */
  method ProcessSites(sites: seq<Site>, filter: Filter, store: seq<AssetRecord>, failing: set<Dispatch>)
    returns (processedCount: nat, queuedCount: nat, queued: seq<Dispatch>, fetches: seq<Fetch>)
    ensures processedCount == CountAll(store, sites, filter)
    ensures queued == DispatchedAll(store, sites, filter, failing) && queuedCount == |queued|
    ensures fetches == FetchesAll(store, sites, filter)
  {
    processedCount, queuedCount, queued, fetches := 0, 0, [], [];
    for i := 0 to |sites|
      invariant processedCount == CountAll(store, sites[..i], filter)
      invariant queued == DispatchedAll(store, sites[..i], filter, failing)
      invariant queuedCount == |queued|
      invariant fetches == FetchesAll(store, sites[..i], filter)
    {
      ExtendSites(store, sites, i, filter, failing);
      var processed, jobs, siteFetches := PaginateSite(sites[i], filter, store, failing);
      processedCount := processedCount + processed;
      queued := queued + jobs;
      queuedCount := queuedCount + |jobs|;
      fetches := fetches + siteFetches;
    }
    assert sites[..|sites|] == sites;
  }

  /** The body shared by both bulk actions: resolve the sites (an unknown
      site stops here), count, then process. */
  method RunBatch(filter: Filter, siteParam: Option<int>, registry: seq<Site>,
                  countStore: seq<AssetRecord>, store: seq<AssetRecord>, failing: set<Dispatch>)
    returns (r: BatchResult)
    ensures r == Batch(filter, siteParam, registry, countStore, store, failing)
  {
    var resolved := ResolveSites(siteParam, registry);
    if resolved.None? {
      return InvalidSite(siteParam.value);
    }
    var sites := resolved.value;
    var totalCount := CountPhase(sites, filter, countStore);
    var processedCount, queuedCount, queued, fetches := ProcessSites(sites, filter, store, failing);
    r := Ran(totalCount, processedCount, queuedCount, queued, fetches);
  }

  /** `actionGenerateAssetsWithoutAltText`: images whose alt is null or ''. */
  method GenerateAssetsWithoutAltText(siteParam: Option<int>, registry: seq<Site>,
                                      countStore: seq<AssetRecord>, store: seq<AssetRecord>, failing: set<Dispatch>)
    returns (r: BatchResult)
    ensures r == Batch(MissingAltOnly, siteParam, registry, countStore, store, failing)
  {
    r := RunBatch(MissingAltOnly, siteParam, registry, countStore, store, failing);
  }

  /** `actionGenerateAllAssets`: every image. */
  method GenerateAllAssets(siteParam: Option<int>, registry: seq<Site>,
                           countStore: seq<AssetRecord>, store: seq<AssetRecord>, failing: set<Dispatch>)
    returns (r: BatchResult)
    ensures r == Batch(AllImages, siteParam, registry, countStore, store, failing)
  {
    r := RunBatch(AllImages, siteParam, registry, countStore, store, failing);
  }

  // ---------------------------------------------------------------------
  // The single-asset action

  /** The JSON reply of `actionSingleAsset`, or the 403 that
      `requirePermission` raises outside the `try`. */
  datatype SingleReply = Reply(success: bool, message: string) | Forbidden

  /** The reply and the record handed to the save, if one was. */
  datatype SingleRun = SingleRun(reply: SingleReply, saved: Option<AssetRecord>)

  /** `actionSingleAsset` over the asset the lookup found (if any), the
      volumes the user may save to, and the store's save. */
  function SingleAsset(found: Option<AssetRecord>, permitted: set<int>, save: AssetRecord -> SaveOutcome): (r: SingleRun)
    ensures found.None? ==> r == SingleRun(Reply(false, "Asset not found"), None)
    ensures found.Some? && found.value.volume !in permitted ==> r == SingleRun(Forbidden, None)
    // Permitted: the fallback overwrites whatever alt the asset had.
    ensures r.saved.Some? <==> found.Some? && found.value.volume in permitted
    ensures r.saved.Some? ==> r.saved.value == found.value.(alt := Some(Fallback(found.value.filename)))
    ensures r.saved.Some? ==> (r.reply.Reply? && r.reply.success <==> save(r.saved.value) == Saved)
    ensures r.saved.Some? && save(r.saved.value) == Saved ==> r.reply == Reply(true, "Alt text has been generated")
    ensures r.saved.Some? && save(r.saved.value) != Saved ==> r.reply == Reply(false, SaveFailure(save(r.saved.value)))
  {
    match found
    case None => SingleRun(Reply(false, "Asset not found"), None)
    case Some(a) =>
      if a.volume !in permitted then SingleRun(Forbidden, None)
      else
        var record := a.(alt := Some(Fallback(a.filename)));
        var outcome := save(record);
        if outcome == Saved then SingleRun(Reply(true, "Alt text has been generated"), Some(record))
        else SingleRun(Reply(false, SaveFailure(outcome)), Some(record))
  }

  /** The action itself: the asset is loaded into an element whose `alt`
      is assigned before the save. */
  method SingleAssetAction(found: Option<AssetRecord>, permitted: set<int>, save: AssetRecord -> SaveOutcome)
    returns (r: SingleRun)
    ensures r == SingleAsset(found, permitted, save)
  {
    if found.None? {
      return SingleRun(Reply(false, "Asset not found"), None);
    }
    var asset := new Asset(found.value);
    if asset.volume !in permitted {
      return SingleRun(Forbidden, None);
    }
    asset.alt := Some(Fallback(asset.filename));
    var record := asset.Record();
    var outcome := save(record);
    if outcome == Saved {
      r := SingleRun(Reply(true, "Alt text has been generated"), Some(record));
    } else {
      r := SingleRun(Reply(false, SaveFailure(outcome)), Some(record));
    }
  }

  /** Unlike the queued job, the single-asset action writes the fallback
      over existing alt text; what it saves always has alt text. */
  lemma SingleAssetOverwrites(a: AssetRecord, permitted: set<int>, save: AssetRecord -> SaveOutcome)
    requires a.volume in permitted
    ensures var r := SingleAsset(Some(a), permitted, save);
            r.saved.Some? && r.saved.value.alt != a.alt <==> a.alt != Some(Fallback(a.filename))
    ensures var r := SingleAsset(Some(a), permitted, save);
            r.saved.Some? && HasAltText(r.saved.value.alt) && !Php.Empty(r.saved.value.alt)
  {
    FallbackHasAltText(a.filename);
  }
}
