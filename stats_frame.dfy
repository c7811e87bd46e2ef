/** Which sites and players the statistics page shows
    (pyfpdb/GuiPlayerStats.py, `fillStatsFrame`): the selected sites' ids,
    the players found for their heroes, the PokerStars default and the two
    early exits. */
module StatsFrame {
  import opened PyValues

  /** One entry of the sites dictionary, in iteration order: site name and
      whether it is selected. */
  type SiteEntry = (string, PyValue)

  /** Site id used when no site is selected (PokerStars). */
  const DEFAULT_SITE: PyValue := PyInt(2, false)

  /** The loop over the sites: the site ids of the selected sites, and the
      ids of the heroes whose name lookup returned exactly one row; or the
      key whose absence raised `KeyError`. */
  datatype Scan = Scan(sitenos: seq<PyValue>, playerids: seq<PyValue>) | Missing(key: string)

  /** What `fillStatsFrame` ends with. */
  datatype Frame =
    | FrameKeyError(key: string)
    | NoPlayerIds
    | NoLimits
    | Tables(playerids: seq<PyValue>, sitenos: seq<PyValue>, limits: seq<PyValue>, seats: map<string, PyValue>)

  predicate Selected(e: SiteEntry)
  {
    EqualsTrue(e.1)
  }

  /** The scan of the sites seen so far; `playerRows(hero)` is the first
      column of the rows the player lookup returns for that hero name. */
  function ScanSites(sites: seq<SiteEntry>, siteids: map<string, PyValue>, heroes: map<string, string>,
                     playerRows: string -> seq<PyValue>): (r: Scan)
    ensures r.Scan? ==> |r.playerids| <= |r.sitenos| <= |sites|
    decreases |sites|
  {
    if sites == [] then Scan([], [])
    else
      match ScanSites(sites[..|sites| - 1], siteids, heroes, playerRows)
      case Missing(k) => Missing(k)
      case Scan(sitenos, playerids) =>
        var (site, _) := sites[|sites| - 1];
        if !Selected(sites[|sites| - 1]) then Scan(sitenos, playerids)
        else if site !in siteids then Missing(site)
        else if site !in heroes then Missing(site)
        else
          var rows := playerRows(heroes[site]);
          Scan(sitenos + [siteids[site]], if |rows| == 1 then playerids + [rows[0]] else playerids)
  }

  /** The whole procedure: scan, default the site list, then stop without
      player ids or without limits. */
  function FillFrame(sites: seq<SiteEntry>, siteids: map<string, PyValue>, heroes: map<string, string>,
                     playerRows: string -> seq<PyValue>, limits: seq<PyValue>, seats: map<string, PyValue>): (r: Frame)
    ensures var scan := ScanSites(sites, siteids, heroes, playerRows);
            r.Tables? <==> scan.Scan? && scan.playerids != [] && limits != []
    ensures r.Tables? ==> r.playerids == ScanSites(sites, siteids, heroes, playerRows).playerids
                          && r.sitenos == ScanSites(sites, siteids, heroes, playerRows).sitenos
                          && r.limits == limits && r.seats == seats
    ensures r.FrameKeyError? <==> ScanSites(sites, siteids, heroes, playerRows).Missing?
    ensures var scan := ScanSites(sites, siteids, heroes, playerRows);
            scan.Scan? && scan.playerids == [] ==> r.NoPlayerIds?
    ensures r.NoLimits? ==> ScanSites(sites, siteids, heroes, playerRows).playerids != [] && limits == []
  {
    match ScanSites(sites, siteids, heroes, playerRows)
    case Missing(k) => FrameKeyError(k)
    case Scan(sitenos, playerids) =>
      var sitenos' := if sitenos == [] then [DEFAULT_SITE] else sitenos;
      if playerids == [] then NoPlayerIds
      else if limits == [] then NoLimits
      else Tables(playerids, sitenos', limits, seats)
  }

  // ---------------------------------------------------------------------
  // Reference descriptions.
  // ---------------------------------------------------------------------

  /** The names of the selected sites, in order. */
  function SelectedNames(sites: seq<SiteEntry>): (r: seq<string>)
    decreases |sites|
  {
    if sites == [] then []
    else
      var rest := SelectedNames(sites[..|sites| - 1]);
      if Selected(sites[|sites| - 1]) then rest + [sites[|sites| - 1].0] else rest
  }

  /** Some selected site lacks a site id or a hero. */
  predicate SomeUnknown(sites: seq<SiteEntry>, siteids: map<string, PyValue>, heroes: map<string, string>)
  {
    exists j :: 0 <= j < |sites| && Selected(sites[j]) && (sites[j].0 !in siteids || sites[j].0 !in heroes)
  }

  /** Every selected site with exactly one player row gives one player id. */
  function FoundIds(names: seq<string>, heroes: map<string, string>, playerRows: string -> seq<PyValue>): seq<PyValue>
    requires forall k :: 0 <= k < |names| ==> names[k] in heroes
    decreases |names|
  {
    if names == [] then []
    else
      var rest := FoundIds(names[..|names| - 1], heroes, playerRows);
      var rows := playerRows(heroes[names[|names| - 1]]);
      if |rows| == 1 then rest + [rows[0]] else rest
  }

  /** The scan fails exactly when a selected site lacks an id or a hero;
      otherwise it lists the selected sites' ids in order and the ids of
      the heroes found. */
  lemma {:induction false} ScanMeaning(sites: seq<SiteEntry>, siteids: map<string, PyValue>, heroes: map<string, string>,
                                       playerRows: string -> seq<PyValue>)
    ensures ScanSites(sites, siteids, heroes, playerRows).Missing? <==> SomeUnknown(sites, siteids, heroes)
    ensures var r := ScanSites(sites, siteids, heroes, playerRows);
            var names := SelectedNames(sites);
            r.Scan? ==>
              && (forall k :: 0 <= k < |names| ==> names[k] in siteids && names[k] in heroes)
              && r.sitenos == seq(|names|, k requires 0 <= k < |names| && names[k] in siteids => siteids[names[k]])
              && r.playerids == FoundIds(names, heroes, playerRows)
    decreases |sites|
  {
    if sites != [] {
      var init := sites[..|sites| - 1];
      var last := sites[|sites| - 1];
      ScanMeaning(init, siteids, heroes, playerRows);
      var names0 := SelectedNames(init);
      var names := SelectedNames(sites);
      UnknownLast(sites, siteids, heroes);
      if !SomeUnknown(sites, siteids, heroes) && Selected(last) {
        assert names == names0 + [last.0];
        assert names[..|names| - 1] == names0;
      }
    }
  }

  /** Some selected site is unknown iff one before the last is, or the
      last is. */
  lemma UnknownLast(sites: seq<SiteEntry>, siteids: map<string, PyValue>, heroes: map<string, string>)
    requires sites != []
    ensures var last := sites[|sites| - 1];
            SomeUnknown(sites, siteids, heroes)
            <==> SomeUnknown(sites[..|sites| - 1], siteids, heroes)
                 || (Selected(last) && (last.0 !in siteids || last.0 !in heroes))
  {
    var init := sites[..|sites| - 1];
    if SomeUnknown(init, siteids, heroes) {
      var j :| 0 <= j < |init| && Selected(init[j]) && (init[j].0 !in siteids || init[j].0 !in heroes);
      assert sites[j] == init[j];
    }
    if SomeUnknown(sites, siteids, heroes) {
      var j :| 0 <= j < |sites| && Selected(sites[j]) && (sites[j].0 !in siteids || sites[j].0 !in heroes);
      if j < |init| {
        assert sites[j] == init[j];
      }
    }
  }

  /** With no site selected nothing is shown: the PokerStars default for
      the site list never reaches the tables, since no player id can be
      found without a selected site. */
  lemma DefaultSiteNeverShown(sites: seq<SiteEntry>, siteids: map<string, PyValue>, heroes: map<string, string>,
                              playerRows: string -> seq<PyValue>, limits: seq<PyValue>, seats: map<string, PyValue>)
    requires forall j :: 0 <= j < |sites| ==> !Selected(sites[j])
    ensures FillFrame(sites, siteids, heroes, playerRows, limits, seats) == NoPlayerIds
  {
    NoSelectionScansNothing(sites, siteids, heroes, playerRows);
  }

  lemma {:induction false} NoSelectionScansNothing(sites: seq<SiteEntry>, siteids: map<string, PyValue>,
                                                   heroes: map<string, string>, playerRows: string -> seq<PyValue>)
    requires forall j :: 0 <= j < |sites| ==> !Selected(sites[j])
    ensures ScanSites(sites, siteids, heroes, playerRows) == Scan([], [])
    decreases |sites|
  {
    if sites != [] {
      NoSelectionScansNothing(sites[..|sites| - 1], siteids, heroes, playerRows);
    }
  }

  /** A `KeyError` ends the scan: later sites change nothing. */
  lemma {:induction false} MissingStays(sites: seq<SiteEntry>, n: nat, siteids: map<string, PyValue>,
                                        heroes: map<string, string>, playerRows: string -> seq<PyValue>)
    requires n <= |sites|
    requires ScanSites(sites[..n], siteids, heroes, playerRows).Missing?
    ensures ScanSites(sites, siteids, heroes, playerRows) == ScanSites(sites[..n], siteids, heroes, playerRows)
    decreases |sites| - n
  {
    if n < |sites| {
      assert sites[..n + 1][..n] == sites[..n];
      MissingStays(sites, n + 1, siteids, heroes, playerRows);
    } else {
      assert sites[..n] == sites;
    }
  }
}
