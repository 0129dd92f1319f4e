/** The plugin class: the after-save hook that queues a generation job for
    a new image, and the per-site alt-text figures of the settings page. */
module AltTextGenerator {
  import opened Wrappers
  import Php
  import opened Assets
  import AltTextService
  import GenerateAltTextJob

  // ---------------------------------------------------------------------
  // The after-save hook

  /** A job pushed to the queue, carrying the id of the asset. */
  datatype QueuedJob = GenerateJob(assetId: int)

  /** Whether the hook fires for a save of `asset`. */
  predicate Triggers(isNew: bool, asset: AssetRecord, settings: Settings) {
    isNew && asset.kind == Image && settings.generateForNewAssets && !Php.EmptyString(settings.apiKey)
  }

  /** The jobs the `EVENT_AFTER_SAVE` handler pushes for one save. */
  function AfterSave(isNew: bool, asset: AssetRecord, settings: Settings): (jobs: seq<QueuedJob>)
    ensures |jobs| <= 1
    ensures jobs == [GenerateJob(asset.id)] <==> Triggers(isNew, asset, settings)
    ensures jobs == [] <==> !Triggers(isNew, asset, settings)
  {
    if Triggers(isNew, asset, settings) then [GenerateJob(asset.id)] else []
  }

  /** A job the hook pushed, for an image still without alt text when it
      runs, gets past the service's key guard: the hook and the service
      test the key the same way, so the fired job looks the URL up. */
  lemma HookedJobPassesKeyGuard(asset: AssetRecord, settings: Settings, io: AltTextService.Io)
    requires AfterSave(true, asset, settings) != []
    requires Php.Empty(asset.alt)
    ensures var run := GenerateAltTextJob.Execute(GenerateAltTextJob.Found(asset), settings, io);
            run.generation.Some? && run.generation.value.trace.urlLookedUp
  {
  }

  /** Settings without the auto-generate switch, or without a key (also
      the key "0"), queue nothing. */
  lemma DisabledHookQueuesNothing(isNew: bool, asset: AssetRecord, settings: Settings)
    requires !settings.generateForNewAssets || Php.EmptyString(settings.apiKey)
    ensures AfterSave(isNew, asset, settings) == []
  {
  }

  // ---------------------------------------------------------------------
  // The settings-page figures

  /** The figures of one site: images, with alt text, without. */
  datatype Counts = Counts(total: nat, with: nat, without: nat)

  const Zero := Counts(0, 0, 0)

  /** Images counted as having alt text (not null, not blank after `trim`). */
  function CountWith(assets: seq<AssetRecord>): nat {
    if |assets| == 0 then 0
    else CountWith(assets[..|assets| - 1]) + if HasAltText(assets[|assets| - 1].alt) then 1 else 0
  }

  function CountWithout(assets: seq<AssetRecord>): nat {
    if |assets| == 0 then 0
    else CountWithout(assets[..|assets| - 1]) + if HasAltText(assets[|assets| - 1].alt) then 0 else 1
  }

  /** The figures of a site whose query succeeds. */
  function SiteCounts(store: seq<AssetRecord>, siteId: int): Counts {
    var images := Select(store, siteId, AllImages);
    Counts(|images|, CountWith(images), CountWithout(images))
  }

  /** The figures of one site as stored: zeros when its query throws
      (`failing` holds those sites). */
  function Entry(store: seq<AssetRecord>, siteId: int, failing: set<int>): Counts {
    if siteId in failing then Zero else SiteCounts(store, siteId)
  }

  /** `$siteAltTextCounts` after the loop over `sites`. */
  function Table(sites: seq<Site>, store: seq<AssetRecord>, failing: set<int>): map<int, Counts> {
    if |sites| == 0 then map[]
    else
      var s := sites[|sites| - 1];
      Table(sites[..|sites| - 1], store, failing)[s.id := Entry(store, s.id, failing)]
  }

  /** The all-sites totals, site by site. */
  function TotalWith(sites: seq<Site>, store: seq<AssetRecord>, failing: set<int>): nat {
    if |sites| == 0 then 0
    else TotalWith(sites[..|sites| - 1], store, failing) + Entry(store, sites[|sites| - 1].id, failing).with
  }

  function TotalWithout(sites: seq<Site>, store: seq<AssetRecord>, failing: set<int>): nat {
    if |sites| == 0 then 0
    else TotalWithout(sites[..|sites| - 1], store, failing) + Entry(store, sites[|sites| - 1].id, failing).without
  }

  /** The images of all sites whose query succeeds. */
  function TotalImages(sites: seq<Site>, store: seq<AssetRecord>, failing: set<int>): nat {
    if |sites| == 0 then 0
    else TotalImages(sites[..|sites| - 1], store, failing) + Entry(store, sites[|sites| - 1].id, failing).total
  }

  /** What `settingsHtml` hands to its template. */
  datatype Figures = Figures(table: map<int, Counts>, withAll: nat, withoutAll: nat, current: Counts)

  /** The figures for the current site: its entry, or 0 for each figure
      when it has none (`?? 0`). */
  function Current(table: map<int, Counts>, currentSiteId: int): Counts {
    if currentSiteId in table then table[currentSiteId] else Zero
  }

  function SettingsFigures(sites: seq<Site>, currentSiteId: int, store: seq<AssetRecord>, failing: set<int>): Figures {
    var table := Table(sites, store, failing);
    Figures(table, TotalWith(sites, store, failing), TotalWithout(sites, store, failing), Current(table, currentSiteId))
  }

  // ---------------------------------------------------------------------
  // Properties of the figures

  /** Every image is counted once: with and without add up to the total. */
  lemma {:induction false} WithPlusWithout(assets: seq<AssetRecord>)
    ensures CountWith(assets) + CountWithout(assets) == |assets|
  {
    if |assets| > 0 {
      WithPlusWithout(assets[..|assets| - 1]);
    }
  }

  /** The counter's "without" covers at least what the missing-alt query
      matches: every `alt IS NULL OR alt = ''` image lacks alt text (a
      blank alt is counted without but not matched). */
  lemma {:induction false} WithoutCoversMissingAlt(store: seq<AssetRecord>, siteId: int)
    ensures CountWithout(Select(store, siteId, AllImages)) >= |Select(store, siteId, MissingAltOnly)|
  {
    if |store| > 0 {
      var init, last := store[..|store| - 1], store[|store| - 1];
      WithoutCoversMissingAlt(init, siteId);
      var images := Select(init, siteId, AllImages);
      if Matches(last, siteId, AllImages) {
        assert Select(store, siteId, AllImages) == images + [last];
        assert (images + [last])[..|images|] == images;
        if MatchesMissingAltFilter(last.alt) {
          MissingAltFilterIsEmpty(last.alt);
        }
      }
    }
  }

  /** Each site's entry is consistent: with + without == total, the total
      is the number of its images, and a failing site has zeros. */
  lemma EntryConsistent(store: seq<AssetRecord>, siteId: int, failing: set<int>)
    ensures var c := Entry(store, siteId, failing);
            c.with + c.without == c.total
            && (siteId in failing ==> c == Zero)
            && (siteId !in failing ==> c.total == |Select(store, siteId, AllImages)|)
  {
    WithPlusWithout(Select(store, siteId, AllImages));
  }

  /** The table has an entry for exactly the sites iterated, and each is
      the entry of that site. */
  lemma {:induction false} TableEntries(sites: seq<Site>, store: seq<AssetRecord>, failing: set<int>)
    ensures forall id :: id in Table(sites, store, failing) <==> exists k :: 0 <= k < |sites| && sites[k].id == id
    ensures forall id :: id in Table(sites, store, failing) ==> Table(sites, store, failing)[id] == Entry(store, id, failing)
  {
    if |sites| > 0 {
      var init := sites[..|sites| - 1];
      TableEntries(init, store, failing);
      forall id
        ensures id in Table(sites, store, failing) <==> exists k :: 0 <= k < |sites| && sites[k].id == id
      {
        if exists k :: 0 <= k < |init| && init[k].id == id {
          var k :| 0 <= k < |init| && init[k].id == id;
          assert sites[k] == init[k];
        }
        if exists k :: 0 <= k < |sites| && sites[k].id == id {
          var k :| 0 <= k < |sites| && sites[k].id == id;
          if k < |init| {
            assert init[k] == sites[k];
          }
        }
      }
    }
  }

  /** The all-sites totals add up to the images of the sites whose query
      succeeded. */
  lemma {:induction false} TotalsAddUp(sites: seq<Site>, store: seq<AssetRecord>, failing: set<int>)
    ensures TotalWith(sites, store, failing) + TotalWithout(sites, store, failing) == TotalImages(sites, store, failing)
  {
    if |sites| > 0 {
      TotalsAddUp(sites[..|sites| - 1], store, failing);
      EntryConsistent(store, sites[|sites| - 1].id, failing);
    }
  }

  /** A site absent from the list has all its current figures 0. */
  lemma CurrentDefaultsToZero(sites: seq<Site>, currentSiteId: int, store: seq<AssetRecord>, failing: set<int>)
    requires forall k :: 0 <= k < |sites| ==> sites[k].id != currentSiteId
    ensures SettingsFigures(sites, currentSiteId, store, failing).current == Zero
  {
    TableEntries(sites, store, failing);
  }

  /** The current site's figures are its own entry when it is listed. */
  lemma CurrentIsEntry(sites: seq<Site>, currentSiteId: int, store: seq<AssetRecord>, failing: set<int>)
    requires exists k :: 0 <= k < |sites| && sites[k].id == currentSiteId
    ensures SettingsFigures(sites, currentSiteId, store, failing).current == Entry(store, currentSiteId, failing)
  {
    TableEntries(sites, store, failing);
  }

  // ---------------------------------------------------------------------
  // The counting loops

  /** The inner `foreach`: one pass over a site's images. */
  method CountAltText(assets: seq<AssetRecord>) returns (with: nat, without: nat)
    ensures with == CountWith(assets) && without == CountWithout(assets)
  {
    with, without := 0, 0;
    for i := 0 to |assets|
      invariant with == CountWith(assets[..i]) && without == CountWithout(assets[..i])
    {
      assert assets[..i + 1][..i] == assets[..i];
      var altText := assets[i].alt;
      if altText.Some? && Php.Trim(altText.value) != "" {
        with := with + 1;
      } else {
        without := without + 1;
      }
    }
    assert assets[..|assets|] == assets;
  }

  /** The counting part of `settingsHtml`. */
  method CountFigures(sites: seq<Site>, currentSiteId: int, store: seq<AssetRecord>, failing: set<int>)
    returns (f: Figures)
    ensures f == SettingsFigures(sites, currentSiteId, store, failing)
  {
    var table: map<int, Counts> := map[];
    var withAll, withoutAll := 0, 0;
    for i := 0 to |sites|
      invariant table == Table(sites[..i], store, failing)
      invariant withAll == TotalWith(sites[..i], store, failing)
      invariant withoutAll == TotalWithout(sites[..i], store, failing)
    {
      assert sites[..i + 1][..i] == sites[..i];
      var site := sites[i];
      table := table[site.id := Zero];
      if site.id !in failing {
        var assets := Select(store, site.id, AllImages);
        var with, without := CountAltText(assets);
        table := table[site.id := Counts(|assets|, with, without)];
        withAll := withAll + with;
        withoutAll := withoutAll + without;
      }
    }
    assert sites[..|sites|] == sites;
    f := Figures(table, withAll, withoutAll, Current(table, currentSiteId));
  }
}
