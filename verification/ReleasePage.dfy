/** The download panel of one release (scripts/build_site.py): assets are classified by name,
  * grouped, sorted and rendered, and each must appear exactly once.
  *
  * The regular expressions are outside the model: `Matcher` says what each makes of a name.
  * Rendering is reduced to the sequence of assets linked. */
module ReleasePage {
  import opened Common

  datatype Platform = MacOs | Windows | Linux | Rpi | Android | Ios | Web | Handheld | OtherPlatform

  const PLATFORMS: nat := 9

  /** The platform table, in display order. */
  function PlatformAt(k: nat): Platform {
    match k
    case 0 => MacOs case 1 => Windows case 2 => Linux case 3 => Rpi case 4 => Android
    case 5 => Ios case 6 => Web case 7 => Handheld case _ => OtherPlatform
  }

  function PlatformIndex(p: Platform): (k: nat)
    ensures k < PLATFORMS && PlatformAt(k) == p
  {
    match p
    case MacOs => 0 case Windows => 1 case Linux => 2 case Rpi => 3 case Android => 4
    case Ios => 5 case Web => 6 case Handheld => 7 case OtherPlatform => 8
  }

  datatype Asset = Asset(name: string, url: string)

  // ---------------------------------------------------------------- core file names

  function StartsWith(s: string, prefix: string): bool { prefix <= s }

  /** core_platform: platform and short target of a core file's middle part. */
  function CorePlatform(target: string): (Platform, string) {
    if StartsWith(target, "linux-rpi") then (Rpi, target[6..])
    else if StartsWith(target, "windows-") then (Windows, target[8..])
    else if StartsWith(target, "macos-") then (MacOs, target[6..])
    else if StartsWith(target, "linux-") then (Linux, target[6..])
    else if StartsWith(target, "android-") then (Android, target[8..])
    else if StartsWith(target, "emscripten-") then (Web, target[11..])
    else if StartsWith(target, "ios-") then (Ios, "iOS " + target[4..])
    else if StartsWith(target, "tvos-") then (Ios, "tvOS " + target[5..])
    else if target == "switch" || target == "vita" then (Handheld, target)
    else (OtherPlatform, target)
  }

  lemma FirstLetters(s: string)
    ensures "windows-" <= s ==> s[0] == 'w'
    ensures "macos-" <= s ==> s[0] == 'm'
    ensures "linux-" <= s || "linux-rpi" <= s ==> s[0] == 'l'
    ensures "android-" <= s ==> s[0] == 'a'
    ensures "emscripten-" <= s ==> s[0] == 'e'
    ensures "ios-" <= s ==> s[0] == 'i'
    ensures "tvos-" <= s ==> s[0] == 't'
  {
  }

  /** Build names by platform: each prefix of its own, in whatever order they are tried, and what is
    * left of the name says which build.  Raspberry Pi builds are told from other Linux builds. */
  lemma PlatformOfTarget(s: string)
    ensures "windows-" <= s ==> CorePlatform(s) == (Windows, s[8..])
    ensures "macos-" <= s ==> CorePlatform(s) == (MacOs, s[6..])
    ensures "linux-rpi" <= s ==> CorePlatform(s) == (Rpi, s[6..])
    ensures "linux-" <= s && !("linux-rpi" <= s) ==> CorePlatform(s) == (Linux, s[6..])
    ensures "android-" <= s ==> CorePlatform(s) == (Android, s[8..])
    ensures "emscripten-" <= s ==> CorePlatform(s) == (Web, s[11..])
    ensures "ios-" <= s ==> CorePlatform(s) == (Ios, "iOS " + s[4..])
    ensures "tvos-" <= s ==> CorePlatform(s) == (Ios, "tvOS " + s[5..])
    ensures s == "switch" || s == "vita" ==> CorePlatform(s) == (Handheld, s)
  {
    FirstLetters(s);
    assert "switch"[0] == 's' && "vita"[0] == 'v';
  }

  // ---------------------------------------------------------------- classification

  datatype AppKind = AppKind(platform: Platform, arch: string, caption: string)

  /** The ten rows of APP_KINDS, in display order. */
  function KindAt(k: nat): AppKind {
    match k
    case 0 => AppKind(MacOs, "universal", "App (zip)")
    case 1 => AppKind(Windows, "x64", "Installer")
    case 2 => AppKind(Windows, "x64", "Portable zip")
    case 3 => AppKind(Windows, "arm64", "Installer")
    case 4 => AppKind(Windows, "arm64", "Portable zip")
    case 5 => AppKind(Linux, "x86_64", "AppImage")
    case 6 => AppKind(Linux, "x86_64", ".deb")
    case 7 => AppKind(Linux, "x86_64", "Flatpak")
    case 8 => AppKind(Linux, "aarch64", "AppImage")
    case _ => AppKind(Linux, "aarch64", ".deb")
  }

  /** The table by package: which kinds share a platform, an architecture and a caption. */
  lemma KindsByPackage(k: nat)
    requires k < KINDS
    ensures KindAt(k).platform == if k == 0 then MacOs else if k <= 4 then Windows else Linux
    ensures KindAt(k).arch == if k == 0 then "universal" else if k <= 2 then "x64" else if k <= 4 then "arm64"
      else if k <= 7 then "x86_64" else "aarch64"
    ensures KindAt(k).caption == if k == 0 then "App (zip)" else if k in {1, 3} then "Installer"
      else if k in {2, 4} then "Portable zip" else if k in {5, 8} then "AppImage"
      else if k in {6, 9} then ".deb" else "Flatpak"
  {
  }

  const KINDS := 10
  const SUMS_NAME := "SHA256SUMS.txt"
  const INFO_NAME := "virtualjaguar_libretro.info"

  datatype ToolId = ToolId(tool: string, platform: Platform, arch: string)

  datatype Matcher = Matcher(
    app: string -> bool,
    kind: (string, nat) -> bool,
    debug: string -> Option<string>,
    core: string -> Option<(string, string)>,
    tool: string -> Option<ToolId>)

  datatype AppRow = AppRow(platform: Platform, arch: string, caption: string, asset: Asset)
  datatype CoreRow = CoreRow(platform: Platform, target: string, ext: string, asset: Asset)
  datatype DebugRow = DebugRow(platform: Platform, target: string, asset: Asset)
  datatype ToolRow = ToolRow(tool: string, platform: Platform, arch: string, asset: Asset)

  datatype Classes = Classes(app: seq<AppRow>, core: seq<CoreRow>, debug: seq<DebugRow>, tools: seq<ToolRow>,
                             other: seq<Asset>, sums: Option<Asset>, info: Option<Asset>)

  function Linked<R>(rows: seq<R>, link: R -> Asset): (a: seq<Asset>)
    ensures |a| == |rows| && forall i :: 0 <= i < |a| ==> a[i] == link(rows[i])
  {
    seq(|rows|, i requires 0 <= i < |rows| => link(rows[i]))
  }

  function AppAssets(rows: seq<AppRow>): seq<Asset> { Linked(rows, (r: AppRow) => r.asset) }
  function CoreAssets(rows: seq<CoreRow>): seq<Asset> { Linked(rows, (r: CoreRow) => r.asset) }
  function DebugAssets(rows: seq<DebugRow>): seq<Asset> { Linked(rows, (r: DebugRow) => r.asset) }
  function ToolAssets(rows: seq<ToolRow>): seq<Asset> { Linked(rows, (r: ToolRow) => r.asset) }

  lemma AppPlus(rows: seq<AppRow>, r: AppRow)
    ensures AppAssets(rows + [r]) == AppAssets(rows) + [r.asset]
  {
  }

  lemma CorePlus(rows: seq<CoreRow>, r: CoreRow)
    ensures CoreAssets(rows + [r]) == CoreAssets(rows) + [r.asset]
  {
  }

  lemma DebugPlus(rows: seq<DebugRow>, r: DebugRow)
    ensures DebugAssets(rows + [r]) == DebugAssets(rows) + [r.asset]
  {
  }

  lemma ToolPlus(rows: seq<ToolRow>, r: ToolRow)
    ensures ToolAssets(rows + [r]) == ToolAssets(rows) + [r.asset]
  {
  }

  function Slot(a: Option<Asset>): seq<Asset> { if a.Some? then [a.value] else [] }

  /** Every asset a classification holds, with multiplicity. */
  ghost function Held(c: Classes): multiset<Asset> {
    multiset(AppAssets(c.app)) + multiset(CoreAssets(c.core)) + multiset(DebugAssets(c.debug))
    + multiset(ToolAssets(c.tools)) + multiset(c.other) + multiset(Slot(c.sums)) + multiset(Slot(c.info))
  }

  ghost predicate UniqueNames(assets: seq<Asset>) {
    forall i, j :: 0 <= i < j < |assets| ==> assets[i].name != assets[j].name
  }

  /** The assets whose names the app pass took, and those it left. */
  ghost function Taken(assets: seq<Asset>, seen: set<string>): multiset<Asset> {
    if assets == [] then multiset{}
    else Taken(assets[..|assets|-1], seen)
         + if assets[|assets|-1].name in seen then multiset{assets[|assets|-1]} else multiset{}
  }

  ghost function Left(assets: seq<Asset>, seen: set<string>): multiset<Asset> {
    if assets == [] then multiset{}
    else Left(assets[..|assets|-1], seen)
         + if assets[|assets|-1].name in seen then multiset{} else multiset{assets[|assets|-1]}
  }

  lemma {:induction false} TakenAndLeft(assets: seq<Asset>, seen: set<string>)
    ensures Taken(assets, seen) + Left(assets, seen) == multiset(assets)
  {
    if assets != [] {
      TakenAndLeft(assets[..|assets|-1], seen);
      assert assets == assets[..|assets|-1] + [assets[|assets|-1]];
    }
  }

  lemma {:induction false} TakenUnseen(assets: seq<Asset>, seen: set<string>, n: string)
    requires forall i :: 0 <= i < |assets| ==> assets[i].name != n
    ensures Taken(assets, seen + {n}) == Taken(assets, seen)
  {
    if assets != [] {
      TakenUnseen(assets[..|assets|-1], seen, n);
    }
  }

  /** Taking one more name takes exactly its asset. */
  lemma {:induction false} TakenOneMore(assets: seq<Asset>, seen: set<string>, j: nat)
    requires UniqueNames(assets) && j < |assets| && assets[j].name !in seen
    ensures Taken(assets, seen + {assets[j].name}) == Taken(assets, seen) + multiset{assets[j]}
  {
    var front := assets[..|assets|-1];
    if j == |assets| - 1 {
      TakenUnseen(front, seen, assets[j].name);
    } else {
      TakenOneMore(front, seen, j);
      assert assets[|assets|-1].name != assets[j].name;
    }
  }

  lemma LinkedPlus<R>(rows: seq<R>, r: R, link: R -> Asset)
    ensures Linked(rows + [r], link) == Linked(rows, link) + [link(r)]
  {
  }

  /** Where a row of the app table belongs: its line of the page, in the order of KindAt. */
  function Rank(p: Platform, arch: string): nat {
    match p
    case MacOs => 0
    case Windows => if arch == "x64" then 1 else 2
    case Linux => if arch == "x86_64" then 3 else 4
    case _ => 5
  }

  /** The platforms and architectures of KindAt, and those of a package without a row there. */
  predicate OnTable(p: Platform, arch: string) {
    match p
    case MacOs => arch == "universal"
    case Windows => arch == "x64" || arch == "arm64"
    case Linux => arch == "x86_64" || arch == "aarch64"
    case OtherPlatform => arch == ""
    case _ => false
  }

  function RowRank(r: AppRow): nat { Rank(r.platform, r.arch) }

  ghost predicate Ascending(rows: seq<AppRow>) {
    && (forall i :: 0 <= i < |rows| ==> OnTable(rows[i].platform, rows[i].arch))
    && (forall i, j :: 0 <= i < j < |rows| ==> RowRank(rows[i]) <= RowRank(rows[j]))
  }

  ghost predicate UpTo(rows: seq<AppRow>, top: nat) {
    forall i :: 0 <= i < |rows| ==> RowRank(rows[i]) <= top
  }

  function KindRow(k: nat, a: Asset): AppRow {
    AppRow(KindAt(k).platform, KindAt(k).arch, KindAt(k).caption, a)
  }

  function KindRank(k: nat): nat { Rank(KindAt(k).platform, KindAt(k).arch) }

  lemma KindsAscend(k: nat)
    requires k < KINDS
    ensures OnTable(KindAt(k).platform, KindAt(k).arch)
    ensures k + 1 < KINDS ==> KindRank(k) <= KindRank(k + 1)
  {
  }

  lemma RowAscends(rows: seq<AppRow>, r: AppRow)
    requires Ascending(rows) && UpTo(rows, RowRank(r)) && OnTable(r.platform, r.arch)
    ensures Ascending(rows + [r]) && UpTo(rows + [r], RowRank(r))
  {
  }

  lemma TakeOne(assets: seq<Asset>, app: seq<AppRow>, seen: set<string>, j: nat, k: nat)
    requires UniqueNames(assets) && j < |assets| && assets[j].name !in seen && k < KINDS
    requires Sound(assets, app, seen, k)
    ensures Sound(assets, app + [KindRow(k, assets[j])], seen + {assets[j].name}, k)
  {
    var row := KindRow(k, assets[j]);
    AppPlus(app, row);
    KindsAscend(k);
    RowAscends(app, row);
    TakenOneMore(assets, seen, j);
  }

  /** The app rows so far: those of the names taken, in table order up to kind k. */
  ghost predicate Sound(assets: seq<Asset>, app: seq<AppRow>, seen: set<string>, k: nat) {
    multiset(AppAssets(app)) == Taken(assets, seen) && Ascending(app) && UpTo(app, KindRank(k))
  }

  predicate IsApp(m: Matcher, a: Asset, k: nat) { m.app(a.name) && m.kind(a.name, k) }

  /** The row an asset gets: that of the first kind it matches. */
  ghost predicate FirstKind(m: Matcher, r: AppRow, k: nat) {
    IsApp(m, r.asset, k) && r == KindRow(k, r.asset) && forall q :: 0 <= q < k ==> !IsApp(m, r.asset, q)
  }

  ghost predicate HasFirstKind(m: Matcher, r: AppRow, k: nat) {
    exists q: nat :: q < k && FirstKind(m, r, q)
  }

  ghost predicate KindsRight(m: Matcher, app: seq<AppRow>, k: nat) {
    forall i :: 0 <= i < |app| ==> HasFirstKind(m, app[i], k)
  }

  lemma KindsWiden(m: Matcher, app: seq<AppRow>, k: nat)
    requires KindsRight(m, app, k)
    ensures KindsRight(m, app, k + 1)
  {
    forall i | 0 <= i < |app| ensures HasFirstKind(m, app[i], k + 1) {
      var q: nat :| q < k && FirstKind(m, app[i], q);
      assert q < k + 1 && FirstKind(m, app[i], q);
    }
  }

  lemma KindsPlus(m: Matcher, app: seq<AppRow>, r: AppRow, k: nat)
    requires KindsRight(m, app, k + 1) && FirstKind(m, r, k)
    ensures KindsRight(m, app + [r], k + 1)
  {
    assert HasFirstKind(m, r, k + 1);
  }

  /** One row of the kind table against every asset. */
  method ClassifyKind(m: Matcher, assets: seq<Asset>, k: nat, app0: seq<AppRow>, seen0: set<string>)
    returns (app: seq<AppRow>, seen: set<string>)
    requires UniqueNames(assets) && k < KINDS && Sound(assets, app0, seen0, k) && KindsRight(m, app0, k)
    requires forall i, q :: 0 <= i < |assets| && 0 <= q < k && IsApp(m, assets[i], q) ==> assets[i].name in seen0
    ensures Sound(assets, app, seen, k) && KindsRight(m, app, k + 1)
    ensures forall i :: 0 <= i < |assets| ==>
      (assets[i].name in seen <==> assets[i].name in seen0 || IsApp(m, assets[i], k))
  {
    app, seen := app0, seen0;
    KindsWiden(m, app0, k);
    for j := 0 to |assets|
      invariant Sound(assets, app, seen, k) && KindsRight(m, app, k + 1) && seen0 <= seen
      invariant forall i :: 0 <= i < |assets| ==>
        (assets[i].name in seen <==> assets[i].name in seen0 || (i < j && IsApp(m, assets[i], k)))
    {
      var a := assets[j];
      if m.app(a.name) && a.name !in seen && m.kind(a.name, k) {
        TakeOne(assets, app, seen, j, k);
        KindsPlus(m, app, KindRow(k, a), k);
        app := app + [KindRow(k, a)];
        seen := seen + {a.name};
      }
    }
  }

  /** The first loop nest: app packages, in the order of the kind table. */
  method ClassifyApps(m: Matcher, assets: seq<Asset>) returns (app: seq<AppRow>, seen: set<string>)
    requires UniqueNames(assets)
    ensures multiset(AppAssets(app)) == Taken(assets, seen) && Ascending(app) && KindsRight(m, app, KINDS)
    ensures forall i :: 0 <= i < |assets| ==>
      (assets[i].name in seen <==> exists k :: 0 <= k < KINDS && IsApp(m, assets[i], k))
  {
    app, seen := [], {};
    NoneTaken(assets);
    for k := 0 to KINDS
      invariant multiset(AppAssets(app)) == Taken(assets, seen) && Ascending(app) && KindsRight(m, app, k)
      invariant k < KINDS ==> UpTo(app, KindRank(k))
      invariant forall i :: 0 <= i < |assets| ==>
        (assets[i].name in seen <==> exists q :: 0 <= q < k && IsApp(m, assets[i], q))
    {
      app, seen := ClassifyKind(m, assets, k, app, seen);
      KindsAscend(k);
    }
  }

  lemma {:induction false} NoneTaken(assets: seq<Asset>)
    ensures Taken(assets, {}) == multiset{}
  {
    if assets != [] {
      NoneTaken(assets[..|assets|-1]);
    }
  }

  /** One asset of the second loop. */
  function Place(m: Matcher, c: Classes, a: Asset): Classes {
    var n := a.name;
    if n == SUMS_NAME then c.(sums := Some(a))
    else if n == INFO_NAME then c.(info := Some(a))
    else if m.debug(n).Some? then
      c.(debug := c.debug + [DebugRow(CorePlatform(m.debug(n).value).0, m.debug(n).value, a)])
    else if m.core(n).Some? then
      var (plat, tgt) := CorePlatform(m.core(n).value.0);
      c.(core := c.core + [CoreRow(plat, tgt, "." + m.core(n).value.1, a)])
    else if m.tool(n).Some? then
      c.(tools := c.tools + [ToolRow(m.tool(n).value.tool, m.tool(n).value.platform, m.tool(n).value.arch, a)])
    else if m.app(n) then c.(app := c.app + [AppRow(OtherPlatform, "", n, a)])
    else c.(other := c.other + [a])
  }

  /** Each asset placed is held once more, provided its named slot, if it has one, is free. */
  lemma PlaceHolds(m: Matcher, c: Classes, a: Asset)
    requires a.name == SUMS_NAME ==> c.sums.None?
    requires a.name == INFO_NAME ==> c.info.None?
    ensures Held(Place(m, c, a)) == Held(c) + multiset{a}
  {
    var n, t := a.name, Place(m, c, a);
    if n == SUMS_NAME || n == INFO_NAME {
    } else if m.debug(n).Some? {
      DebugPlus(c.debug, DebugRow(CorePlatform(m.debug(n).value).0, m.debug(n).value, a));
      assert multiset(DebugAssets(t.debug)) == multiset(DebugAssets(c.debug)) + multiset{a};
    } else if m.core(n).Some? {
      var (plat, tgt) := CorePlatform(m.core(n).value.0);
      CorePlus(c.core, CoreRow(plat, tgt, "." + m.core(n).value.1, a));
      assert multiset(CoreAssets(t.core)) == multiset(CoreAssets(c.core)) + multiset{a};
    } else if m.tool(n).Some? {
      ToolPlus(c.tools, ToolRow(m.tool(n).value.tool, m.tool(n).value.platform, m.tool(n).value.arch, a));
      assert multiset(ToolAssets(t.tools)) == multiset(ToolAssets(c.tools)) + multiset{a};
    } else if m.app(n) {
      AppPlus(c.app, AppRow(OtherPlatform, "", n, a));
      assert multiset(AppAssets(t.app)) == multiset(AppAssets(c.app)) + multiset{a};
    }
  }

  function PlaceAll(m: Matcher, c: Classes, assets: seq<Asset>, seen: set<string>): Classes {
    if assets == [] then c
    else
      var p, a := PlaceAll(m, c, assets[..|assets|-1], seen), assets[|assets|-1];
      if a.name in seen then p else Place(m, p, a)
  }

  lemma {:induction false} SlotsFree(m: Matcher, c: Classes, assets: seq<Asset>, seen: set<string>, name: string)
    requires c.sums.None? && c.info.None? && forall i :: 0 <= i < |assets| ==> assets[i].name != name
    ensures name == SUMS_NAME ==> PlaceAll(m, c, assets, seen).sums.None?
    ensures name == INFO_NAME ==> PlaceAll(m, c, assets, seen).info.None?
  {
    if assets != [] {
      SlotsFree(m, c, assets[..|assets|-1], seen, name);
    }
  }

  lemma {:induction false} PlaceAllHolds(m: Matcher, c: Classes, assets: seq<Asset>, seen: set<string>)
    requires UniqueNames(assets) && c.sums.None? && c.info.None?
    ensures Held(PlaceAll(m, c, assets, seen)) == Held(c) + Left(assets, seen)
  {
    if assets != [] {
      var front, a := assets[..|assets|-1], assets[|assets|-1];
      PlaceAllHolds(m, c, front, seen);
      SlotsFree(m, c, front, seen, a.name);
      if a.name !in seen {
        PlaceHolds(m, PlaceAll(m, c, front, seen), a);
      }
    }
  }

  /** Packages without a row of their own go after all others. */
  lemma {:induction false} PlaceAllAscends(m: Matcher, c: Classes, assets: seq<Asset>, seen: set<string>)
    requires Ascending(c.app)
    ensures Ascending(PlaceAll(m, c, assets, seen).app)
  {
    if assets != [] {
      PlaceAllAscends(m, c, assets[..|assets|-1], seen);
    }
  }

  // ---------------------------------------------------------------- who goes where

  datatype Home = Apps | Sums | Info | DebugSymbols | Cores | Tools | Others

  ghost predicate HasKind(m: Matcher, name: string) {
    exists k :: 0 <= k < KINDS && m.app(name) && m.kind(name, k)
  }

  /** Where a file belongs, by its name. */
  ghost function HomeOf(m: Matcher, name: string): Home {
    if HasKind(m, name) then Apps
    else if name == "SHA256SUMS.txt" then Sums
    else if name == "virtualjaguar_libretro.info" then Info
    else if m.debug(name).Some? then DebugSymbols
    else if m.core(name).Some? then Cores
    else if m.tool(name).Some? then Tools
    else if m.app(name) then Apps
    else Others
  }

  /** The assets of one home, in the order of the release. */
  ghost function Going(m: Matcher, assets: seq<Asset>, h: Home): seq<Asset> {
    if assets == [] then []
    else
      var a := assets[|assets|-1];
      Going(m, assets[..|assets|-1], h) + if HomeOf(m, a.name) == h then [a] else []
  }

  ghost predicate AppRight(m: Matcher, r: AppRow) {
    || HasFirstKind(m, r, KINDS)
    || (HomeOf(m, r.asset.name) == Apps && !HasKind(m, r.asset.name)
        && r == AppRow(OtherPlatform, "", r.asset.name, r.asset))
  }

  ghost predicate CoreRight(m: Matcher, r: CoreRow) {
    var found := m.core(r.asset.name);
    found.Some? && (r.platform, r.target) == CorePlatform(found.value.0) && r.ext == "." + found.value.1
  }

  ghost predicate DebugRight(m: Matcher, r: DebugRow) {
    m.debug(r.asset.name) == Some(r.target) && r.platform == CorePlatform(r.target).0
  }

  ghost predicate ToolRight(m: Matcher, r: ToolRow) {
    m.tool(r.asset.name) == Some(ToolId(r.tool, r.platform, r.arch))
  }

  /** Every row says what its file name says. */
  ghost predicate RowsRight(m: Matcher, c: Classes) {
    && (forall r :: r in c.app ==> AppRight(m, r))
    && (forall r :: r in c.core ==> CoreRight(m, r))
    && (forall r :: r in c.debug ==> DebugRight(m, r))
    && (forall r :: r in c.tools ==> ToolRight(m, r))
  }

  /** The lists besides the apps hold the files that belong there, in the order of the release. */
  ghost predicate AtHome(m: Matcher, assets: seq<Asset>, c: Classes) {
    && CoreAssets(c.core) == Going(m, assets, Cores)
    && DebugAssets(c.debug) == Going(m, assets, DebugSymbols)
    && ToolAssets(c.tools) == Going(m, assets, Tools)
    && c.other == Going(m, assets, Others)
    && Slot(c.sums) == Going(m, assets, Sums) && Slot(c.info) == Going(m, assets, Info)
  }

  lemma {:induction false} NobodyGoes(m: Matcher, assets: seq<Asset>, h: Home, name: string)
    requires (h == Sums && name == SUMS_NAME) || (h == Info && name == INFO_NAME)
    requires forall i :: 0 <= i < |assets| ==> assets[i].name != name
    ensures Going(m, assets, h) == []
  {
    if assets != [] {
      NobodyGoes(m, assets[..|assets|-1], h, name);
    }
  }

  lemma GoingPlus(m: Matcher, assets: seq<Asset>, a: Asset, h: Home)
    ensures Going(m, assets + [a], h) == Going(m, assets, h) + if HomeOf(m, a.name) == h then [a] else []
  {
    assert (assets + [a])[..|assets|] == assets;
  }

  lemma PlaceGoes(m: Matcher, c: Classes, assets: seq<Asset>, a: Asset)
    requires AtHome(m, assets, c) && UniqueNames(assets + [a]) && !HasKind(m, a.name)
    ensures AtHome(m, assets + [a], Place(m, c, a))
  {
    var n, t := a.name, Place(m, c, a);
    GoingPlus(m, assets, a, Cores);
    GoingPlus(m, assets, a, DebugSymbols);
    GoingPlus(m, assets, a, Tools);
    GoingPlus(m, assets, a, Others);
    GoingPlus(m, assets, a, Sums);
    GoingPlus(m, assets, a, Info);
    assert forall i :: 0 <= i < |assets| ==> (assets + [a])[i].name != (assets + [a])[|assets|].name;
    if n == SUMS_NAME {
      NobodyGoes(m, assets, Sums, n);
    } else if n == INFO_NAME {
      NobodyGoes(m, assets, Info, n);
    } else if m.debug(n).Some? {
      DebugPlus(c.debug, t.debug[|c.debug|]);
    } else if m.core(n).Some? {
      CorePlus(c.core, t.core[|c.core|]);
    } else if m.tool(n).Some? {
      ToolPlus(c.tools, t.tools[|c.tools|]);
    }
  }

  lemma PlaceSaysRight(m: Matcher, c: Classes, a: Asset)
    requires RowsRight(m, c) && !HasKind(m, a.name)
    ensures RowsRight(m, Place(m, c, a))
  {
  }

  lemma {:induction false} PlaceAllGoes(m: Matcher, c: Classes, assets: seq<Asset>, seen: set<string>)
    requires UniqueNames(assets) && AtHome(m, [], c) && RowsRight(m, c)
    requires forall i :: 0 <= i < |assets| ==> (assets[i].name in seen <==> HasKind(m, assets[i].name))
    ensures AtHome(m, assets, PlaceAll(m, c, assets, seen)) && RowsRight(m, PlaceAll(m, c, assets, seen))
  {
    if assets != [] {
      var front, a := assets[..|assets|-1], assets[|assets|-1];
      PlaceAllGoes(m, c, front, seen);
      if a.name !in seen {
        assert front + [a] == assets;
        PlaceGoes(m, PlaceAll(m, c, front, seen), front, a);
        PlaceSaysRight(m, PlaceAll(m, c, front, seen), a);
      }
    }
  }

  /** classify_assets: every asset of a release with unique names lands in exactly one list or
    * named slot, and nothing is dropped; each list holds the files whose names belong there, with
    * what their names say of them; the app packages come in the order of the table. */
  method Classify(m: Matcher, assets: seq<Asset>) returns (c: Classes)
    requires UniqueNames(assets)
    ensures Held(c) == multiset(assets) && Ascending(c.app)
    ensures AtHome(m, assets, c) && RowsRight(m, c)
  {
    var app, seen := ClassifyApps(m, assets);
    c := Classes(app, [], [], [], [], None, None);
    ghost var apps := c;
    assert Held(apps) == Taken(assets, seen);
    for j := 0 to |assets|
      invariant c == PlaceAll(m, apps, assets[..j], seen)
    {
      assert assets[..j + 1][..j] == assets[..j];
      if assets[j].name !in seen {
        c := Place(m, c, assets[j]);
      }
    }
    assert assets[..|assets|] == assets;
    PlaceAllHolds(m, apps, assets, seen);
    PlaceAllAscends(m, apps, assets, seen);
    TakenAndLeft(assets, seen);
    AppsStartRight(m, apps, assets, seen);
    PlaceAllGoes(m, apps, assets, seen);
  }

  lemma AppsStartRight(m: Matcher, c: Classes, assets: seq<Asset>, seen: set<string>)
    requires c == Classes(c.app, [], [], [], [], None, None) && KindsRight(m, c.app, KINDS)
    requires forall i :: 0 <= i < |assets| ==>
      (assets[i].name in seen <==> exists k :: 0 <= k < KINDS && IsApp(m, assets[i], k))
    ensures AtHome(m, [], c) && RowsRight(m, c)
    ensures forall i :: 0 <= i < |assets| ==> (assets[i].name in seen <==> HasKind(m, assets[i].name))
  {
    forall i | 0 <= i < |assets|
      ensures assets[i].name in seen <==> HasKind(m, assets[i].name)
    {
      assert forall k :: IsApp(m, assets[i], k) <==> m.app(assets[i].name) && m.kind(assets[i].name, k);
    }
  }

  // ---------------------------------------------------------------- app table

  datatype ArchGroup = ArchGroup(arch: string, files: seq<AppRow>)
  datatype PlatGroup = PlatGroup(platform: Platform, archs: seq<ArchGroup>)

  function ArchRows(gs: seq<ArchGroup>): seq<AppRow> {
    if gs == [] then [] else ArchRows(gs[..|gs|-1]) + gs[|gs|-1].files
  }

  function PlatRows(gs: seq<PlatGroup>): seq<AppRow> {
    if gs == [] then [] else PlatRows(gs[..|gs|-1]) + ArchRows(gs[|gs|-1].archs)
  }

  ghost predicate ArchsRight(p: Platform, gs: seq<ArchGroup>) {
    forall i :: 0 <= i < |gs| ==>
      && gs[i].files != []
      && (forall j :: 0 <= j < |gs[i].files| ==> gs[i].files[j].arch == gs[i].arch && gs[i].files[j].platform == p)
      && (i > 0 ==> gs[i-1].arch != gs[i].arch)
  }

  /** Groups are maximal runs: no group is empty, no two neighbours could have been one. */
  ghost predicate GroupsRight(gs: seq<PlatGroup>) {
    forall i :: 0 <= i < |gs| ==>
      && gs[i].archs != [] && ArchsRight(gs[i].platform, gs[i].archs)
      && (i > 0 ==> gs[i-1].platform != gs[i].platform)
  }

  method AddToArchs(archs: seq<ArchGroup>, r: AppRow) returns (out: seq<ArchGroup>)
    requires ArchsRight(r.platform, archs)
    ensures ArchsRight(r.platform, out) && out != [] && ArchRows(out) == ArchRows(archs) + [r]
  {
    if archs == [] || archs[|archs|-1].arch != r.arch {
      out := archs + [ArchGroup(r.arch, [r])];
    } else {
      var g := archs[|archs|-1];
      out := archs[..|archs|-1] + [ArchGroup(g.arch, g.files + [r])];
    }
    assert out[..|out|-1] == if archs == [] || archs[|archs|-1].arch != r.arch then archs else archs[..|archs|-1];
  }

  lemma {:induction false} PlatRowsPlus(gs: seq<PlatGroup>, g: PlatGroup)
    requires GroupsRight(gs) && g.archs != [] && ArchsRight(g.platform, g.archs)
    requires gs == [] || gs[|gs|-1].platform != g.platform
    ensures GroupsRight(gs + [g]) && PlatRows(gs + [g]) == PlatRows(gs) + ArchRows(g.archs)
  {
    assert (gs + [g])[..|gs|] == gs;
  }

  method AddToPlats(gs: seq<PlatGroup>, r: AppRow) returns (out: seq<PlatGroup>)
    requires GroupsRight(gs)
    ensures GroupsRight(out) && PlatRows(out) == PlatRows(gs) + [r]
  {
    var front, archs := gs, [];
    if gs != [] && gs[|gs|-1].platform == r.platform {
      front, archs := gs[..|gs|-1], gs[|gs|-1].archs;
    }
    ghost var before := ArchRows(archs);
    assert PlatRows(gs) == PlatRows(front) + before;
    archs := AddToArchs(archs, r);
    out := front + [PlatGroup(r.platform, archs)];
    PlatRowsPlus(front, PlatGroup(r.platform, archs));
    assert PlatRows(front) + (before + [r]) == PlatRows(gs) + [r];
  }

  /** "One row per platform and architecture": merging neighbours is enough, because the rows
    * come in table order.  Platforms come once each, in display order, and so do the
    * architectures of each. */
  ghost predicate OneLineEach(gs: seq<PlatGroup>) {
    && (forall i, j :: 0 <= i < j < |gs| ==> PlatformIndex(gs[i].platform) < PlatformIndex(gs[j].platform))
    && (forall i :: 0 <= i < |gs| ==> ArchsOnce(gs[i].platform, gs[i].archs))
  }

  ghost predicate ArchsOnce(p: Platform, archs: seq<ArchGroup>) {
    forall i, j :: 0 <= i < j < |archs| ==> Rank(p, archs[i].arch) < Rank(p, archs[j].arch)
  }

  lemma AscendingParts(a: seq<AppRow>, b: seq<AppRow>)
    requires Ascending(a + b)
    ensures Ascending(a) && Ascending(b)
    ensures forall i, j :: 0 <= i < |a| && 0 <= j < |b| ==> RowRank(a[i]) <= RowRank(b[j])
  {
    var rows := a + b;
    assert forall i :: 0 <= i < |a| ==> rows[i] == a[i];
    assert forall j :: 0 <= j < |b| ==> rows[|a| + j] == b[j];
  }

  /** On the table, rank tells architectures of a platform apart and orders platforms. */
  lemma RankTells(x: AppRow, y: AppRow)
    requires OnTable(x.platform, x.arch) && OnTable(y.platform, y.arch) && RowRank(x) <= RowRank(y)
    ensures PlatformIndex(x.platform) <= PlatformIndex(y.platform)
    ensures x.platform == y.platform && x.arch != y.arch ==> RowRank(x) < RowRank(y)
  {
  }

  lemma {:induction false} ArchsNext(p: Platform, front: seq<ArchGroup>, g: ArchGroup)
    requires front != [] && ArchsRight(p, front) && ArchsRight(p, [g]) && front[|front|-1].arch != g.arch
    requires Ascending(ArchRows(front) + g.files)
    ensures Rank(p, front[|front|-1].arch) < Rank(p, g.arch)
  {
    var h := front[|front|-1];
    var x, y := h.files[|h.files|-1], [g][0].files[0];
    assert x == ArchRows(front)[|ArchRows(front)|-1];
    AscendingParts(ArchRows(front), g.files);
    RankTells(x, y);
  }

  lemma {:induction false} ArchsComeOnce(p: Platform, archs: seq<ArchGroup>)
    requires ArchsRight(p, archs) && Ascending(ArchRows(archs))
    ensures ArchsOnce(p, archs)
  {
    if archs != [] {
      var front, g := archs[..|archs|-1], archs[|archs|-1];
      AscendingParts(ArchRows(front), g.files);
      ArchsComeOnce(p, front);
      if front != [] {
        assert archs[|front|-1] == front[|front|-1];
        ArchsNext(p, front, g);
      }
    }
  }

  lemma {:induction false} PlatformNext(front: seq<PlatGroup>, g: PlatGroup)
    requires front != [] && GroupsRight(front) && GroupsRight([g]) && front[|front|-1].platform != g.platform
    requires Ascending(PlatRows(front) + ArchRows(g.archs))
    ensures PlatformIndex(front[|front|-1].platform) < PlatformIndex(g.platform)
  {
    var h := front[|front|-1];
    assert [g][0] == g;
    LastRow(h);
    FirstRow(g);
    var x, y := ArchRows(h.archs)[|ArchRows(h.archs)|-1], ArchRows(g.archs)[0];
    assert x == PlatRows(front)[|PlatRows(front)|-1];
    AscendingParts(PlatRows(front), ArchRows(g.archs));
    RankTells(x, y);
    assert PlatformAt(PlatformIndex(h.platform)) == h.platform;
    assert PlatformAt(PlatformIndex(g.platform)) == g.platform;
  }

  lemma {:induction false} OneRowPerArch(gs: seq<PlatGroup>)
    requires GroupsRight(gs) && Ascending(PlatRows(gs))
    ensures OneLineEach(gs)
  {
    if gs != [] {
      var front, g := gs[..|gs|-1], gs[|gs|-1];
      AscendingParts(PlatRows(front), ArchRows(g.archs));
      OneRowPerArch(front);
      ArchsComeOnce(g.platform, g.archs);
      if front != [] {
        assert gs[|front|-1] == front[|front|-1];
        PlatformNext(front, g);
      }
    }
  }

  lemma {:induction false} LastRow(g: PlatGroup)
    requires g.archs != [] && ArchsRight(g.platform, g.archs)
    ensures ArchRows(g.archs) != [] && ArchRows(g.archs)[|ArchRows(g.archs)|-1].platform == g.platform
  {
    var a := g.archs[|g.archs|-1];
    assert ArchRows(g.archs) == ArchRows(g.archs[..|g.archs|-1]) + a.files;
  }

  lemma {:induction false} FirstRow(g: PlatGroup)
    requires g.archs != [] && ArchsRight(g.platform, g.archs)
    ensures ArchRows(g.archs) != [] && ArchRows(g.archs)[0].platform == g.platform
    decreases |g.archs|
  {
    if |g.archs| > 1 {
      FirstRow(PlatGroup(g.platform, g.archs[..|g.archs|-1]));
    } else {
      assert ArchRows(g.archs) == ArchRows([]) + g.archs[0].files;
    }
  }

  /** The two-level grouping of _app_table: neither loses, repeats nor reorders a row,
    * and of rows in table order it makes one line per platform and architecture. */
  method GroupApps(rows: seq<AppRow>) returns (gs: seq<PlatGroup>)
    ensures PlatRows(gs) == rows && GroupsRight(gs)
    ensures Ascending(rows) ==> OneLineEach(gs)
  {
    gs := [];
    for i := 0 to |rows|
      invariant PlatRows(gs) == rows[..i] && GroupsRight(gs)
    {
      gs := AddToPlats(gs, rows[i]);
      assert rows[..i + 1] == rows[..i] + [rows[i]];
    }
    assert rows[..|rows|] == rows;
    if Ascending(rows) {
      OneRowPerArch(gs);
    }
  }

  // ---------------------------------------------------------------- core groups

  function OfPlatform(rows: seq<CoreRow>, p: Platform): seq<CoreRow> {
    if rows == [] then []
    else OfPlatform(rows[..|rows|-1], p) + if rows[|rows|-1].platform == p then [rows[|rows|-1]] else []
  }

  /** The groups rendered for the first n platforms. */
  function Grouped(rows: seq<CoreRow>, n: nat): seq<CoreRow>
    requires n <= PLATFORMS
  {
    if n == 0 then [] else Grouped(rows, n - 1) + OfPlatform(rows, PlatformAt(n-1))
  }

  lemma OfPlatformPlus(rows: seq<CoreRow>, r: CoreRow, p: Platform)
    ensures OfPlatform(rows + [r], p) == OfPlatform(rows, p) + if r.platform == p then [r] else []
  {
    assert (rows + [r])[..|rows|] == rows;
  }

  /** How often x stands in a list. */
  function Copies(rows: seq<CoreRow>, x: CoreRow): nat {
    if rows == [] then 0
    else Copies(rows[..|rows|-1], x) + if rows[|rows|-1] == x then 1 else 0
  }

  lemma {:induction false} CopiesConcat(a: seq<CoreRow>, b: seq<CoreRow>, x: CoreRow)
    ensures Copies(a + b, x) == Copies(a, x) + Copies(b, x)
  {
    if b == [] {
      assert a + b == a;
    } else {
      CopiesConcat(a, b[..|b|-1], x);
      assert (a + b)[..|a + b|-1] == a + b[..|b|-1];
    }
  }

  lemma {:induction false} CopiesAreCount(rows: seq<CoreRow>, x: CoreRow)
    ensures Copies(rows, x) == multiset(rows)[x]
  {
    if rows != [] {
      CopiesAreCount(rows[..|rows|-1], x);
      assert rows == rows[..|rows|-1] + [rows[|rows|-1]];
    }
  }

  lemma {:induction false} OfPlatformCount(rows: seq<CoreRow>, p: Platform, x: CoreRow)
    ensures Copies(OfPlatform(rows, p), x) == if x.platform == p then Copies(rows, x) else 0
  {
    if rows != [] {
      var front, last := rows[..|rows|-1], rows[|rows|-1];
      OfPlatformCount(front, p, x);
      CopiesConcat(OfPlatform(front, p), if last.platform == p then [last] else [], x);
    }
  }

  lemma PlatformPlaces(p: Platform, k: nat)
    requires k < PLATFORMS
    ensures PlatformAt(k) == p <==> PlatformIndex(p) == k
  {
  }

  lemma {:induction false} GroupedCount(rows: seq<CoreRow>, n: nat, x: CoreRow)
    requires n <= PLATFORMS
    ensures Copies(Grouped(rows, n), x) == if PlatformIndex(x.platform) < n then Copies(rows, x) else 0
  {
    if n > 0 {
      GroupedCount(rows, n - 1, x);
      OfPlatformCount(rows, PlatformAt(n - 1), x);
      PlatformPlaces(x.platform, n - 1);
      CopiesConcat(Grouped(rows, n - 1), OfPlatform(rows, PlatformAt(n - 1)), x);
    }
  }

  /** Grouping by platform in display order renders each core row exactly once. */
  lemma GroupedOnce(rows: seq<CoreRow>)
    ensures multiset(Grouped(rows, PLATFORMS)) == multiset(rows)
  {
    var all := Grouped(rows, PLATFORMS);
    forall x: CoreRow ensures multiset(all)[x] == multiset(rows)[x] {
      GroupedCount(rows, PLATFORMS, x);
      CopiesAreCount(all, x);
      CopiesAreCount(rows, x);
    }
  }

  function GroupIn(groups: map<Platform, seq<CoreRow>>, p: Platform): seq<CoreRow> {
    if p in groups then groups[p] else []
  }

  /** The dictionary of _core_groups, filled in one pass. */
  method FillGroups(rows: seq<CoreRow>) returns (groups: map<Platform, seq<CoreRow>>)
    ensures forall p: Platform :: GroupIn(groups, p) == OfPlatform(rows, p)
  {
    groups := map[];
    for i := 0 to |rows|
      invariant forall p: Platform :: GroupIn(groups, p) == OfPlatform(rows[..i], p)
    {
      var r := rows[i];
      ghost var before := groups;
      groups := groups[r.platform := GroupIn(groups, r.platform) + [r]];
      assert rows[..i + 1] == rows[..i] + [r];
      forall p: Platform ensures GroupIn(groups, p) == OfPlatform(rows[..i + 1], p) {
        OfPlatformPlus(rows[..i], r, p);
        assert GroupIn(before, p) == OfPlatform(rows[..i], p);
      }
    }
    assert rows[..|rows|] == rows;
  }

  /** _core_groups: the dictionary read out platform by platform. */
  method GroupCores(rows: seq<CoreRow>) returns (out: seq<CoreRow>)
    ensures out == Grouped(rows, PLATFORMS)
  {
    var groups := FillGroups(rows);
    out := [];
    for n := 0 to PLATFORMS
      invariant out == Grouped(rows, n)
    {
      var p := PlatformAt(n);
      assert GroupIn(groups, p) == OfPlatform(rows, p);
      if p in groups {
        out := out + groups[p];
      }
    }
  }

  // ---------------------------------------------------------------- tools table

  /** The sort key order: tool name, then platform position. */
  predicate Before(a: ToolRow, b: ToolRow, less: (string, string) -> bool) {
    less(a.tool, b.tool) || (a.tool == b.tool && PlatformIndex(a.platform) < PlatformIndex(b.platform))
  }

  /** Stable insertion: after every row it does not come before. */
  function Insert(rows: seq<ToolRow>, r: ToolRow, less: (string, string) -> bool): (out: seq<ToolRow>)
    ensures multiset(out) == multiset(rows) + multiset{r}
  {
    if rows != [] && Before(r, rows[|rows|-1], less) then
      assert rows == rows[..|rows|-1] + [rows[|rows|-1]];
      Insert(rows[..|rows|-1], r, less) + [rows[|rows|-1]]
    else rows + [r]
  }

  function Sorted(rows: seq<ToolRow>, less: (string, string) -> bool): (out: seq<ToolRow>)
    ensures multiset(out) == multiset(rows)
  {
    if rows == [] then []
    else
      assert rows == rows[..|rows|-1] + [rows[|rows|-1]];
      Insert(Sorted(rows[..|rows|-1], less), rows[|rows|-1], less)
  }

  ghost predicate StrictOrder(less: (string, string) -> bool) {
    && (forall a :: !less(a, a))
    && (forall a, b, c :: less(a, b) && less(b, c) ==> less(a, c))
    && (forall a, b :: less(a, b) || a == b || less(b, a))
  }

  ghost predicate InOrder(rows: seq<ToolRow>, less: (string, string) -> bool) {
    forall i, j :: 0 <= i < j < |rows| ==> !Before(rows[j], rows[i], less)
  }

  /** By tool name, and for one tool by the place of its platform. */
  ghost predicate ToolsInOrder(rows: seq<ToolRow>, less: (string, string) -> bool) {
    forall i, j :: 0 <= i < j < |rows| ==>
      && !less(rows[j].tool, rows[i].tool)
      && (rows[i].tool == rows[j].tool ==> PlatformIndex(rows[i].platform) <= PlatformIndex(rows[j].platform))
  }

  function Mine(r: ToolRow, tool: string, place: nat): seq<ToolRow> {
    if r.tool == tool && PlatformIndex(r.platform) == place then [r] else []
  }

  /** The rows of one sort key, in the order in which they stand. */
  function WithKey(rows: seq<ToolRow>, tool: string, place: nat): seq<ToolRow> {
    if rows == [] then [] else WithKey(rows[..|rows|-1], tool, place) + Mine(rows[|rows|-1], tool, place)
  }

  lemma WithKeyPlus(rows: seq<ToolRow>, r: ToolRow, tool: string, place: nat)
    ensures WithKey(rows + [r], tool, place) == WithKey(rows, tool, place) + Mine(r, tool, place)
  {
    assert (rows + [r])[..|rows|] == rows;
  }

  lemma NotBoth(a: ToolRow, b: ToolRow, less: (string, string) -> bool, tool: string, place: nat, w: seq<ToolRow>)
    requires Before(a, b, less) && forall t :: !less(t, t)
    ensures w + Mine(a, tool, place) + Mine(b, tool, place) == w + Mine(b, tool, place) + Mine(a, tool, place)
  {
    assert Mine(a, tool, place) == [] || Mine(b, tool, place) == [];
  }

  lemma {:induction false} InsertStable(rows: seq<ToolRow>, r: ToolRow, less: (string, string) -> bool,
      tool: string, place: nat)
    requires forall t :: !less(t, t)
    ensures WithKey(Insert(rows, r, less), tool, place) == WithKey(rows, tool, place) + Mine(r, tool, place)
  {
    if rows != [] && Before(r, rows[|rows|-1], less) {
      var front, last := rows[..|rows|-1], rows[|rows|-1];
      InsertStable(front, r, less, tool, place);
      WithKeyPlus(Insert(front, r, less), last, tool, place);
      NotBoth(r, last, less, tool, place, WithKey(front, tool, place));
    } else {
      WithKeyPlus(rows, r, tool, place);
    }
  }

  lemma NotBefore(a: ToolRow, b: ToolRow, c: ToolRow, less: (string, string) -> bool)
    requires StrictOrder(less)
    ensures Before(a, b, less) ==> !Before(b, a, less)
    ensures !Before(b, a, less) && !Before(c, b, less) ==> !Before(c, a, less)
  {
  }

  /** A row not before the last of an ordered list goes behind all of it. */
  lemma {:induction false} LastInOrder(rows: seq<ToolRow>, r: ToolRow, less: (string, string) -> bool)
    requires StrictOrder(less) && InOrder(rows, less) && (rows != [] ==> !Before(r, rows[|rows|-1], less))
    ensures InOrder(rows + [r], less)
  {
    forall i | 0 <= i < |rows| ensures !Before(r, rows[i], less) {
      NotBefore(rows[i], rows[|rows|-1], r, less);
    }
  }

  lemma {:induction false} InsertInOrder(rows: seq<ToolRow>, r: ToolRow, less: (string, string) -> bool)
    requires StrictOrder(less) && InOrder(rows, less)
    ensures InOrder(Insert(rows, r, less), less)
  {
    if rows != [] && Before(r, rows[|rows|-1], less) {
      var front, last := rows[..|rows|-1], rows[|rows|-1];
      var out := Insert(front, r, less);
      InsertInOrder(front, r, less);
      NotBefore(r, last, last, less);
      if out != [] {
        assert out[|out|-1] in multiset(out);
        assert out[|out|-1] == r || out[|out|-1] in front;
      }
      LastInOrder(out, last, less);
    } else {
      LastInOrder(rows, r, less);
    }
  }

  /** The tools table is sorted by tool and platform, and rows with the same key keep the order
    * of the release. */
  lemma {:induction false} SortedInOrder(rows: seq<ToolRow>, less: (string, string) -> bool, tool: string, place: nat)
    requires StrictOrder(less)
    ensures InOrder(Sorted(rows, less), less) && ToolsInOrder(Sorted(rows, less), less)
    ensures WithKey(Sorted(rows, less), tool, place) == WithKey(rows, tool, place)
  {
    if rows != [] {
      var front, last := rows[..|rows|-1], rows[|rows|-1];
      SortedInOrder(front, less, tool, place);
      InsertInOrder(Sorted(front, less), last, less);
      InsertStable(Sorted(front, less), last, less, tool, place);
    }
  }

  // ---------------------------------------------------------------- the panel

  lemma LinkedConcat<R>(p: seq<R>, q: seq<R>, link: R -> Asset)
    ensures Linked(p + q, link) == Linked(p, link) + Linked(q, link)
  {
  }

  lemma WithoutOne<R>(p: seq<R>, x: R, q: seq<R>, link: R -> Asset)
    ensures multiset(p + [x] + q) == multiset(p + q) + multiset{x}
    ensures multiset(Linked(p + [x] + q, link)) == multiset(Linked(p + q, link)) + multiset{link(x)}
  {
    LinkedConcat(p + [x], q, link);
    LinkedPlus(p, x, link);
    LinkedConcat(p, q, link);
  }

  lemma SameLinks<R>(x: R, rest: seq<R>, p: seq<R>, q: seq<R>, link: R -> Asset)
    requires multiset(Linked(rest, link)) == multiset(Linked(p + q, link))
    ensures multiset(Linked([x] + rest, link)) == multiset(Linked(p + [x] + q, link))
  {
    WithoutOne(p, x, q, link);
    LinkedConcat([x], rest, link);
    assert Linked([x], link) == [link(x)];
  }

  lemma SameRest<R>(x: R, rest: seq<R>, p: seq<R>, q: seq<R>)
    requires multiset([x] + rest) == multiset(p + [x] + q)
    ensures multiset(rest) == multiset(p + q)
  {
    assert multiset(rest) == multiset([x] + rest) - multiset{x};
    assert multiset(p + q) == multiset(p + [x] + q) - multiset{x};
  }

  lemma {:induction false} LinkedBag<R>(a: seq<R>, b: seq<R>, link: R -> Asset)
    requires multiset(a) == multiset(b)
    ensures multiset(Linked(a, link)) == multiset(Linked(b, link))
    decreases |a|
  {
    if a == [] {
      assert |multiset(b)| == 0;
    } else {
      var x, rest := a[0], a[1..];
      assert a == [x] + rest;
      assert x in multiset(b);
      var i :| 0 <= i < |b| && b[i] == x;
      var p, q := b[..i], b[i + 1..];
      assert b == p + [x] + q;
      SameRest(x, rest, p, q);
      LinkedBag(rest, p + q, link);
      SameLinks(x, rest, p, q, link);
    }
  }

  /** The links of a panel in the order they stand: the checksums, the app table, the cores platform
    * by platform, debug symbols, the sorted tools, the info file, the rest. */
  function Links(c: Classes, less: (string, string) -> bool): seq<Asset> {
    Slot(c.sums) + AppAssets(c.app) + CoreAssets(Grouped(c.core, PLATFORMS)) + DebugAssets(c.debug)
    + ToolAssets(Sorted(c.tools, less)) + Slot(c.info) + c.other
  }

  /** render_panel, in full form.  Every asset of a release with unique names is linked exactly once,
    * from the section its name belongs to. */
  method RenderPanel(m: Matcher, assets: seq<Asset>, less: (string, string) -> bool)
    returns (links: seq<Asset>, ghost c: Classes)
    requires UniqueNames(assets)
    ensures multiset(links) == multiset(assets)
    ensures forall a :: a in assets ==> multiset(links)[a] == 1
    ensures links == Links(c, less) && AtHome(m, assets, c) && RowsRight(m, c)
  {
    var classes := Classify(m, assets);
    c := classes;
    links := Slot(classes.sums);
    var groups := GroupApps(classes.app);
    links := links + AppAssets(PlatRows(groups));
    var cores := GroupCores(classes.core);
    GroupedOnce(c.core);
    LinkedBag(cores, c.core, (r: CoreRow) => r.asset);
    links := links + CoreAssets(cores) + DebugAssets(classes.debug);
    LinkedBag(Sorted(c.tools, less), c.tools, (r: ToolRow) => r.asset);
    links := links + ToolAssets(Sorted(classes.tools, less)) + Slot(classes.info) + classes.other;
    OnceEach(assets);
  }

  lemma {:induction false} OnceEach(assets: seq<Asset>)
    requires UniqueNames(assets)
    ensures forall a :: a in assets ==> multiset(assets)[a] == 1
  {
    if assets != [] {
      var front, x := assets[..|assets|-1], assets[|assets|-1];
      OnceEach(front);
      assert assets == front + [x];
      assert x !in front;
    }
  }

  /** Unique names are needed: two files named like the checksums share one slot, and the first
    * is dropped. */
  lemma SecondSumsDropsFirst(m: Matcher, c: Classes, a: Asset, b: Asset)
    requires a.name == b.name == SUMS_NAME && a != b && c.sums.None? && a !in Held(c)
    ensures a !in Held(Place(m, Place(m, c, a), b))
  {
  }
}
