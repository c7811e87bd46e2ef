/** Detection of installed poker clients (pyfpdb/DetectInstalledSites.py):
    for a site whose client is known, look in its default hand-history
    folder for this platform and take the first entry found there as the
    hero's name. The machine (platform strings, shell folders, home
    directory, existing paths and directory listings) is a parameter. */
module SiteDetection {
  import opened Text
  import opened PyValues

  /** What the detector reads from the machine. `existing` answers
      `os.path.exists`; `listing` gives the entries of the directories
      `os.listdir` can read, in the order it returns them. */
  datatype Host = Host(system: string, release: string, programFiles: string, localAppData: string,
                       home: string, existing: set<string>, listing: map<string, seq<string>>)

  /** One entry of `sitestatusdict`: `{detected, hhpath, heroname}`. */
  datatype SiteStatus = SiteStatus(detected: bool, hhpath: string, heroname: string)

  const NotDetected: SiteStatus := SiteStatus(false, "", "")

  const FULL_TILT: string := "Full Tilt Poker"
  const POKERSTARS: string := "PokerStars"

  /** The sites the detector is asked about when given "All". */
  const SupportedSites: seq<string> := [
    "Full Tilt Poker", "PokerStars", "Everleaf", "Win2day", "OnGame", "UltimateBet", "Betfair", "Absolute",
    "PartyPoker", "PacificPoker", "Partouche", "Carbon", "PKR", "iPoker", "Winamax", "Everest"
  ]

  const SupportedPlatforms: seq<string> := ["Linux", "XP", "Win7"]

  /** Where wine keeps the Windows program folder, below the home directory. */
  const WINE_PROGRAM_FILES: string := "/.wine/drive_c/Program Files/"

  /** The platform name the detector works with: Windows becomes "XP" or,
      for any other release, "Win7"; other systems keep their name. */
  function UserPlatform(system: string, release: string): (r: string)
    ensures system == "Windows" ==> (r == "XP" <==> release == "XP") && (r == "XP" || r == "Win7")
    ensures system != "Windows" ==> r == system
  {
    if system == "Windows" then (if release != "XP" then "Win7" else release) else system
  }

  /** Only Linux and Windows machines have hand-history folders to look
      in. */
  lemma PlatformSupported(system: string, release: string)
    requires system != "XP" && system != "Win7"
    ensures UserPlatform(system, release) in SupportedPlatforms <==> system == "Windows" || system == "Linux"
  {
    if system != "Windows" && system != "Linux" {
      assert system != SupportedPlatforms[0];
    }
  }

  /** `s.rstrip('/')`. */
  function RStripSlash(s: string): (r: string)
    ensures r <= s && (r == [] || r[|r| - 1] != '/')
    decreases |s|
  {
    if s != [] && s[|s| - 1] == '/' then RStripSlash(s[..|s| - 1]) else s
  }

  /** A path `os.path.expanduser` leaves alone. */
  predicate NoTilde(path: string)
  {
    path == [] || path[0] != '~'
  }

  /** `os.path.expanduser` for a path starting with `~/`: the home
      directory, without trailing slashes, replaces the `~`. Other paths
      are returned as they are. */
  function ExpandUser(home: string, path: string): (r: string)
    ensures |path| >= 2 && path[..2] == "~/" ==> r == RStripSlash(home) + path[1..]
    ensures !(|path| >= 2 && path[..2] == "~/") ==> r == path
    ensures NoTilde(path) ==> r == path
  {
    if |path| >= 2 && path[..2] == "~/" then RStripSlash(home) + path[1..] else path
  }

  /** A site's hand-history folder in the wine tree, relative to the home
      directory. */
  function WineHandHistory(site: string): (r: string)
    ensures r != [] && r[0] == '/'
  {
    WINE_PROGRAM_FILES + site + "/HandHistory/"
  }

  /** `~` followed by that folder expands to the folder below the home
      directory. */
  lemma WineExpands(home: string, site: string)
    ensures ExpandUser(home, "~" + WineHandHistory(site)) == RStripSlash(home) + WineHandHistory(site)
  {
    var folder := WineHandHistory(site);
    assert ("~" + folder)[..2] == "~/" && ("~" + folder)[1..] == folder;
  }

  /** The Full Tilt hand-history folder for the platform: under the wine
      tree on Linux, under Program Files on both Windows platforms. */
  function FullTiltBase(host: Host, platform: string): (r: Option<string>)
    ensures r.Some? <==> platform in SupportedPlatforms
    ensures platform == "Linux"
            ==> r == Some(RStripSlash(host.home) + WineHandHistory(FULL_TILT))
    ensures (platform == "XP" || platform == "Win7") && NoTilde(host.programFiles)
            ==> r == Some(host.programFiles + "\\Full Tilt Poker\\HandHistory\\")
    ensures r.Some? ==> r.value != ""
  {
    if platform == "Linux" then
      WineExpands(host.home, FULL_TILT);
      Some(ExpandUser(host.home, "~" + WineHandHistory(FULL_TILT)))
    else if platform == "XP" then Some(ExpandUser(host.home, host.programFiles + "\\Full Tilt Poker\\HandHistory\\"))
    else if platform == "Win7" then Some(ExpandUser(host.home, host.programFiles + "\\Full Tilt Poker\\HandHistory\\"))
    else None
  }

  /** The PokerStars hand-history folder: under Program Files on XP but
      under the local application data folder on Win7. */
  function PokerStarsBase(host: Host, platform: string): (r: Option<string>)
    ensures r.Some? <==> platform in SupportedPlatforms
    ensures platform == "Linux"
            ==> r == Some(RStripSlash(host.home) + WineHandHistory(POKERSTARS))
    ensures platform == "XP" && NoTilde(host.programFiles) ==> r == Some(host.programFiles + "\\PokerStars\\HandHistory\\")
    ensures platform == "Win7" && NoTilde(host.localAppData)
            ==> r == Some(host.localAppData + "\\PokerStars\\HandHistory\\")
    ensures r.Some? ==> r.value != ""
  {
    if platform == "Linux" then
      WineExpands(host.home, POKERSTARS);
      Some(ExpandUser(host.home, "~" + WineHandHistory(POKERSTARS)))
    else if platform == "XP" then Some(ExpandUser(host.home, host.programFiles + "\\PokerStars\\HandHistory\\"))
    else if platform == "Win7" then Some(ExpandUser(host.home, host.localAppData + "\\PokerStars\\HandHistory\\"))
    else None
  }

  /** `os.listdir(path)`; it fails on the empty path and on anything that
      is not a readable directory. */
  function ListDir(host: Host, path: string): Option<seq<string>>
  {
    if path == "" || path !in host.listing then None else Some(host.listing[path])
  }

  /** One site detector on the found path and hero so far: no folder for
      the platform changes nothing; otherwise the folder is kept if it
      exists, and when the path found can be listed and is not empty, its
      first entry becomes the hero and is appended to the path. A failed
      listing or an empty folder is ignored. */
  function Probe(host: Host, base: Option<string>, pathfound: string, herofound: string): (r: (string, string))
  {
    if base.None? then (pathfound, herofound)
    else
      var path := if base.value in host.existing then base.value else pathfound;
      match ListDir(host, path)
      case Some(entries) =>
        if |entries| > 0 then (path + entries[0], entries[0]) else (path, herofound)
      case None => (path, herofound)
  }

  /** Path and hero found for a site, starting from nothing found. */
  function Found(host: Host, platform: string, site: string): (string, string)
  {
    if site == FULL_TILT then Probe(host, FullTiltBase(host, platform), "", "")
    else if site == POKERSTARS then Probe(host, PokerStarsBase(host, platform), "", "")
    else ("", "")
  }

  /** The entry `Detect` returns for a site. */
  function Detection(host: Host, platform: string, site: string): (r: SiteStatus)
    ensures r.detected <==> r.hhpath != "" && r.heroname != ""
    ensures !r.detected ==> r == NotDetected
    ensures site != FULL_TILT && site != POKERSTARS ==> r == NotDetected
    ensures platform !in SupportedPlatforms ==> r == NotDetected
  {
    var (path, hero) := Found(host, platform, site);
    if path != "" && hero != "" then SiteStatus(true, path, hero) else NotDetected
  }

  /** The hand-history folder the detector looks in for a site. */
  function BaseFor(host: Host, platform: string, site: string): Option<string>
  {
    if site == FULL_TILT then FullTiltBase(host, platform)
    else if site == POKERSTARS then PokerStarsBase(host, platform)
    else None
  }

  /** A site is detected exactly when its folder for this platform exists,
      can be listed and has a first entry that is not empty; the hero is
      then that entry and the path the folder followed by it. */
  lemma DetectedMeans(host: Host, platform: string, site: string)
    ensures var r := Detection(host, platform, site);
            var base := BaseFor(host, platform, site);
            && (r.detected <==> base.Some? && base.value in host.existing && ListDir(host, base.value).Some?
                                && |ListDir(host, base.value).value| > 0 && ListDir(host, base.value).value[0] != "")
            && (r.detected ==> r.heroname == ListDir(host, base.value).value[0]
                               && r.hhpath == base.value + r.heroname)
  {
    var base := BaseFor(host, platform, site);
    if base.Some? {
      assert Found(host, platform, site) == Probe(host, base, "", "");
      if base.value !in host.existing {
        assert ListDir(host, "") == None;
      }
    }
  }

  /** Why `Detect` clears the found path and hero first: a detector run on
      a stale path whose folder is missing lists the stale path instead. */
  lemma StalePathLeaks(host: Host, base: string, stale: string, hero: string)
    requires base !in host.existing && stale != "" && stale in host.listing && |host.listing[stale]| > 0
    ensures Probe(host, Some(base), stale, hero) == (stale + host.listing[stale][0], host.listing[stale][0])
  {
  }

  /** `sitestatusdict` after construction with "All": one entry per
      supported site. */
  function AllStatuses(host: Host, platform: string, sites: seq<string>): (r: map<string, SiteStatus>)
    ensures forall s :: s in r <==> s in sites
    ensures forall s :: s in r ==> r[s] == Detection(host, platform, s)
  {
    map s | s in sites :: Detection(host, platform, s)
  }

  /** Detecting one more site adds its entry. */
  lemma AllStatusesAppend(host: Host, platform: string, sites: seq<string>, site: string,
                          m: map<string, SiteStatus>)
    ensures m + AllStatuses(host, platform, sites + [site])
            == (m + AllStatuses(host, platform, sites))[site := Detection(host, platform, site)]
  {
    var longer := sites + [site];
    assert forall s :: s in longer <==> s in sites || s == site;
  }

  /** Every site of the list except the two with detectors is reported as
      not detected, whatever the machine holds. */
  lemma OnlyTwoDetectors(host: Host, platform: string)
    ensures forall s :: s in AllStatuses(host, platform, SupportedSites) && s != FULL_TILT && s != POKERSTARS
                        ==> AllStatuses(host, platform, SupportedSites)[s] == NotDetected
    ensures "Everleaf" in AllStatuses(host, platform, SupportedSites)
  {
    assert SupportedSites[2] == "Everleaf";
  }

  /** The detector object: the site asked about, the platform name, the
      result dictionary and, for a single site, its entry's fields. The
      found path and hero carry results from a site detector to `Detect`. */
  class DetectInstalledSites {
    const host: Host
    var sitestatusdict: map<string, SiteStatus>
    var sitename: string
    var heroname: string
    var hhpath: string
    /** "" until a single site has been detected, then that site's flag. */
    var detected: PyValue
    var supportedSites: seq<string>
    var supportedPlatforms: seq<string>
    var userPlatform: string
    var pathfound: string
    var herofound: string

    constructor (sitename: string, host: Host)
      ensures this.host == host && this.sitename == sitename
      ensures supportedSites == SupportedSites && supportedPlatforms == SupportedPlatforms
      ensures userPlatform == UserPlatform(host.system, host.release)
      ensures sitename == "All" ==>
                (sitestatusdict == AllStatuses(host, userPlatform, SupportedSites)
                 && heroname == "" && hhpath == "" && detected == PyStr(""))
      ensures sitename != "All" ==>
                var entry := Detection(host, userPlatform, sitename);
                && sitestatusdict == map[sitename := entry]
                && heroname == entry.heroname && hhpath == entry.hhpath && detected == PyBool(entry.detected)
    {
      this.host := host;
      sitestatusdict := map[];
      this.sitename := sitename;
      heroname := "";
      hhpath := "";
      detected := PyStr("");
      supportedSites := SupportedSites;
      supportedPlatforms := SupportedPlatforms;
      pathfound := "";
      herofound := "";
      var platform := host.system;
      if platform == "Windows" {
        platform := host.release;
        if platform != "XP" {
          platform := "Win7";
        }
      }
      userPlatform := platform;
      new;
      if sitename == "All" {
        DetectAll();
      } else {
        var status := Detect(sitename);
        sitestatusdict := sitestatusdict[sitename := status];
        heroname := sitestatusdict[sitename].heroname;
        hhpath := sitestatusdict[sitename].hhpath;
        detected := PyBool(sitestatusdict[sitename].detected);
      }
    }

    /** The loop over the supported sites: one entry each, added to the
        dictionary. The found path and hero are left as the last site's
        detector set them. */
    method DetectAll()
      modifies this`sitestatusdict, this`pathfound, this`herofound
      ensures sitestatusdict == old(sitestatusdict) + AllStatuses(host, userPlatform, supportedSites)
      ensures supportedSites == [] ==> pathfound == old(pathfound) && herofound == old(herofound)
      ensures supportedSites != []
              ==> (pathfound, herofound) == Found(host, userPlatform, supportedSites[|supportedSites| - 1])
    {
      var i := 0;
      while i < |supportedSites|
        invariant 0 <= i <= |supportedSites|
        invariant sitestatusdict == old(sitestatusdict) + AllStatuses(host, userPlatform, supportedSites[..i])
        invariant i == 0 ==> pathfound == old(pathfound) && herofound == old(herofound)
        invariant i > 0 ==> (pathfound, herofound) == Found(host, userPlatform, supportedSites[i - 1])
      {
        var siteiter := supportedSites[i];
        var status := Detect(siteiter);
        sitestatusdict := sitestatusdict[siteiter := status];
        AllStatusesAppend(host, userPlatform, supportedSites[..i], siteiter, old(sitestatusdict));
        assert supportedSites[..i + 1] == supportedSites[..i] + [siteiter];
        i := i + 1;
      }
      assert supportedSites[..i] == supportedSites;
    }

    /** Clears the found path and hero, runs the site's detector, and
        reports the site as detected only when both were found. */
    method Detect(siteToDetect: string) returns (status: SiteStatus)
      modifies this`pathfound, this`herofound
      ensures status == Detection(host, userPlatform, siteToDetect)
      ensures (pathfound, herofound) == Found(host, userPlatform, siteToDetect)
    {
      pathfound := "";
      herofound := "";
      if siteToDetect == FULL_TILT {
        DetectFullTilt();
      } else if siteToDetect == POKERSTARS {
        DetectPokerStars();
      }
      if pathfound != "" && herofound != "" {
        return SiteStatus(true, pathfound, herofound);
      } else {
        return SiteStatus(false, "", "");
      }
    }

    /** Looks for the Full Tilt hand-history folder of this platform. */
    method DetectFullTilt()
      modifies this`pathfound, this`herofound
      ensures (pathfound, herofound) == Probe(host, FullTiltBase(host, userPlatform), old(pathfound), old(herofound))
    {
      var hhp: string;
      if userPlatform == "Linux" {
        hhp := ExpandUser(host.home, "~" + WineHandHistory(FULL_TILT));
      } else if userPlatform == "XP" {
        hhp := ExpandUser(host.home, host.programFiles + "\\Full Tilt Poker\\HandHistory\\");
      } else if userPlatform == "Win7" {
        hhp := ExpandUser(host.home, host.programFiles + "\\Full Tilt Poker\\HandHistory\\");
      } else {
        return;
      }
      Look(hhp);
    }

    /** Looks for the PokerStars hand-history folder of this platform. */
    method DetectPokerStars()
      modifies this`pathfound, this`herofound
      ensures (pathfound, herofound) == Probe(host, PokerStarsBase(host, userPlatform), old(pathfound), old(herofound))
    {
      var hhp: string;
      if userPlatform == "Linux" {
        hhp := ExpandUser(host.home, "~" + WineHandHistory(POKERSTARS));
      } else if userPlatform == "XP" {
        hhp := ExpandUser(host.home, host.programFiles + "\\PokerStars\\HandHistory\\");
      } else if userPlatform == "Win7" {
        hhp := ExpandUser(host.home, host.localAppData + "\\PokerStars\\HandHistory\\");
      } else {
        return;
      }
      Look(hhp);
    }

    /** The part both detectors share: keep the folder if it exists, then
        take the first entry of the path found, ignoring any failure. */
    method Look(hhp: string)
      modifies this`pathfound, this`herofound
      ensures (pathfound, herofound) == Probe(host, Some(hhp), old(pathfound), old(herofound))
    {
      if hhp in host.existing {
        pathfound := hhp;
      }
      var entries := ListDir(host, pathfound);
      if entries.Some? && |entries.value| > 0 {
        herofound := entries.value[0];
        pathfound := pathfound + herofound;
      }
    }
  }
}
