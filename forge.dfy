/** The Forge installer thread: which Forge build belongs to a game version,
    the directory name, Maven id, installer URL and main class each era of
    Forge uses, the search for an install that already exists, the installer
    download order, and the profile files it writes or repairs. The network
    and the file system are parameters: the promotions list, the set of URLs
    that serve a usable installer, and the `versions` directory. */
module Forge {
  import opened Text
  import opened McVersion
  import opened Config
  import opened VersionJson

  const ModLauncherMain: string := "cpw.mods.modlauncher.Launcher"
  const LaunchWrapperMain: string := "net.minecraft.launchwrapper.Launch"
  const FmlTweakerMain: string := "cpw.mods.fml.common.launcher.FMLTweaker"
  const ForgeLibraryPath: string := "net/minecraftforge/forge"
  const MavenRoot: string := "https://maven.minecraftforge.net/net/minecraftforge/forge/"
  const FilesRoot: string := "https://files.minecraftforge.net/maven/net/minecraftforge/forge/"
  const TweakClassArgument: string := "--tweakClass cpw.mods.fml.common.launcher.FMLTweaker"
  const LaunchWrapperLib: string := "net.minecraft:launchwrapper:1.12"
  const AsmAllLib: string := "org.ow2.asm:asm-all:5.2"
  const ForgeLibPrefix: string := "net.minecraftforge:forge:"
  const NoIndevFlag: string := "-Dforge.forceNoIndev=true"
  const IgnoreCertsFlag: string := "-Dfml.ignoreInvalidMinecraftCertificates=true"
  const IgnorePatchFlag: string := "-Dfml.ignorePatchDiscrepancies=true"
  const NoLookupsFlag: string := "-Dlog4j2.formatMsgNoLookups=true"

  /** The `promos` object of `promotions_slim.json`, in iteration order. */
  type Promos = seq<(string, string)>

  datatype ForgeType = Modern | Legacy | VeryOld

  /** The fields `determine_forge_format` assigns. */
  datatype ForgeFormat = ForgeFormat(
    forgeType: ForgeType,
    versionName: string,
    versionId: string,
    installerUrl: string,
    mainClass: string,
    isModern: bool)

  function InstallerUrl(root: string, id: string): string {
    root + id + "/forge-" + id + "-installer.jar"
  }

  /** The main class each era of Forge starts. */
  function EraMainClass(major: int): string {
    if major >= 13 then ModLauncherMain
    else if major >= 8 then LaunchWrapperMain
    else FmlTweakerMain
  }

  function DetermineFormat(mc: string, fv: string, major: int): (f: ForgeFormat)
    ensures f.isModern <==> major >= 13
    ensures f.forgeType == Modern <==> major >= 13
    ensures f.forgeType == Legacy <==> 8 <= major < 13
    ensures f.forgeType == VeryOld <==> major < 8
    ensures f.mainClass == EraMainClass(major)
    ensures f.installerUrl == InstallerUrl(MavenRoot, f.versionId)
    ensures major >= 13 ==> f.versionName == mc + "-forge-" + fv && f.versionId == mc + "-" + fv
    ensures 8 <= major < 13 && '-' in fv ==> f.versionName == mc + "-Forge" + fv && f.versionId == fv
    ensures major < 13 && !(major >= 8 && '-' in fv) ==>
              f.versionName == mc + "-Forge" + fv + "-" + mc && f.versionId == mc + "-" + fv + "-" + mc
  {
    if major >= 13 then
      var id := mc + "-" + fv;
      ForgeFormat(Modern, mc + "-forge-" + fv, id, InstallerUrl(MavenRoot, id), ModLauncherMain, true)
    else if major >= 8 then
      var (name, id) :=
        if '-' in fv then (mc + "-Forge" + fv, fv)
        else (mc + "-Forge" + fv + "-" + mc, mc + "-" + fv + "-" + mc);
      ForgeFormat(Legacy, name, id, InstallerUrl(MavenRoot, id), LaunchWrapperMain, false)
    else
      var (name, id) :=
        if mc == "1.7.10" then (mc + "-Forge" + fv + "-" + mc, mc + "-" + fv + "-" + mc)
        else (mc + "-Forge" + fv + "-" + mc, mc + "-" + fv + "-" + mc);
      ForgeFormat(VeryOld, name, id, InstallerUrl(MavenRoot, id), FmlTweakerMain, false)
  }

  /** The directory filter of the existing-install scan and of the profile
      repair: the name mentions the game version and Forge in any case. The
      second spelling test adds nothing to the first (see `ForgeSpellingRedundant`). */
  function ForgeDirFor(name: string, mc: string): (ok: bool)
    ensures ok <==> Contains(name, mc) && ContainsCI(name, "forge")
  {
    ForgeSpellingRedundant(name);
    Contains(name, mc) && (ContainsCI(name, "forge") || Contains(name, "Forge"))
  }

  lemma ForgeSpellingRedundant(name: string)
    ensures ContainsCI(name, "forge") || Contains(name, "Forge") <==> ContainsCI(name, "forge")
  {
    if Contains(name, "Forge") {
      ContainsLower(name, "Forge");
      LowerForge();
    }
  }

  /** A name "<mc>-<word><rest>" with `word` a spelling of Forge passes the
      directory filter. */
  lemma ForgeNameScanned(mc: string, word: string, rest: string)
    requires Lower(word) == "forge"
    ensures StartsWith(mc + "-" + word + rest, mc)
    ensures ForgeDirFor(mc + "-" + word + rest, mc)
  {
    var name := mc + "-" + word + rest;
    assert name == (mc + "-") + word + rest;
    ContainsCIConcat(mc + "-", word, rest, "forge");
    assert name == [] + mc + ("-" + word + rest);
    ContainsConcat([], mc, "-" + word + rest);
    assert name[..|mc|] == mc;
  }

  /** Every directory name the installer derives starts with the game version
      and mentions Forge, so the scans of `check_existing_forge` and
      `fix_forge_profile` pick it up. */
  lemma FormatNameIsScanned(mc: string, fv: string, major: int)
    ensures StartsWith(DetermineFormat(mc, fv, major).versionName, mc)
    ensures ForgeDirFor(DetermineFormat(mc, fv, major).versionName, mc)
  {
    LowerForge();
    if major >= 13 {
      assert mc + "-forge-" + fv == mc + "-" + "forge" + ("-" + fv);
      ForgeNameScanned(mc, "forge", "-" + fv);
    } else if 8 <= major && '-' in fv {
      assert mc + "-Forge" + fv == mc + "-" + "Forge" + fv;
      ForgeNameScanned(mc, "Forge", fv);
    } else {
      assert mc + "-Forge" + (fv + "-" + mc) == mc + "-" + "Forge" + (fv + "-" + mc);
      assert mc + "-Forge" + fv + "-" + mc == mc + "-Forge" + (fv + "-" + mc);
      ForgeNameScanned(mc, "Forge", fv + "-" + mc);
    }
  }

  /** The 1.7.10 special case of the very old era yields the same strings as
      the general very old branch. */
  lemma VeryOld1710LikeOthers(fv: string, major: int)
    requires major < 8
    ensures DetermineFormat("1.7.10", fv, major).versionName == "1.7.10-Forge" + fv + "-1.7.10"
    ensures DetermineFormat("1.7.10", fv, major).versionId == "1.7.10-" + fv + "-1.7.10"
  {
  }

  // ---------------------------------------------------------------------
  // Choosing the Forge build

  /** A promotion key naming the recommended or the latest build of `mc`. */
  predicate IsPromoKey(mc: string, key: string) {
    key == mc + "-recommended" || key == mc + "-latest"
  }

  /** The build `get_forge_version` settles on: the table value, else the
      value of the first promotion key for `mc`, else "latest". */
  function ForgeVersionFor(mc: string, promos: Option<Promos>): (v: string)
    ensures mc in ForgeVersions ==> v == ForgeVersions[mc]
    ensures mc !in ForgeVersions && promos.None? ==> v == "latest"
    ensures mc !in ForgeVersions && promos.Some? ==>
              match FirstIndex(promos.value, (e: (string, string)) => IsPromoKey(mc, e.0))
              case Some(i) => v == promos.value[i].1
              case None => v == "latest"
  {
    if mc in ForgeVersions then ForgeVersions[mc]
    else if promos.None? then "latest"
    else
      match FirstIndex(promos.value, (e: (string, string)) => IsPromoKey(mc, e.0))
      case Some(i) => promos.value[i].1
      case None => "latest"
  }

  /** `get_forge_version`: a network failure, a non-200 answer or an answer
      without `promos` is `promos == None`. */
  method GetForgeVersion(mc: string, promos: Option<Promos>) returns (v: string)
    ensures v == ForgeVersionFor(mc, promos)
  {
    if mc in ForgeVersions {
      return ForgeVersions[mc];
    }
    if promos.Some? {
      var ps := promos.value;
      var i := 0;
      while i < |ps|
        invariant 0 <= i <= |ps|
        invariant forall j :: 0 <= j < i ==> !IsPromoKey(mc, ps[j].0)
      {
        var (key, value) := ps[i];
        if key == mc + "-recommended" {
          FirstIndexIs(ps, (e: (string, string)) => IsPromoKey(mc, e.0), i);
          return value;
        } else if key == mc + "-latest" {
          FirstIndexIs(ps, (e: (string, string)) => IsPromoKey(mc, e.0), i);
          return value;
        }
        i := i + 1;
      }
    }
    return "latest";
  }

  /** There is no preference for the recommended build: whichever of the two
      keys comes first in the promotions wins. */
  lemma {:induction false} LatestListedFirstWins(mc: string, a: string, b: string)
    requires mc !in ForgeVersions
    ensures ForgeVersionFor(mc, Some([(mc + "-latest", a), (mc + "-recommended", b)])) == a
  {
    var ps := [(mc + "-latest", a), (mc + "-recommended", b)];
    FirstIndexIs(ps, (e: (string, string)) => IsPromoKey(mc, e.0), 0);
  }

  /** The build `get_forge_version_info` offers after every download failed:
      the value of the first promotion key that starts with "<mc>-". */
  function PromoInfo(mc: string, promos: Option<Promos>): (r: Option<string>)
    ensures promos.None? ==> r.None?
    ensures promos.Some? ==>
              match FirstIndex(promos.value, (e: (string, string)) => StartsWith(e.0, mc + "-"))
              case Some(i) => r == Some(promos.value[i].1)
              case None => r.None?
  {
    if promos.None? then None
    else
      match FirstIndex(promos.value, (e: (string, string)) => StartsWith(e.0, mc + "-"))
      case Some(i) => Some(promos.value[i].1)
      case None => None
  }

  method GetForgeVersionInfo(mc: string, promos: Option<Promos>) returns (r: Option<string>)
    ensures r == PromoInfo(mc, promos)
  {
    if promos.Some? {
      var ps := promos.value;
      var i := 0;
      while i < |ps|
        invariant 0 <= i <= |ps|
        invariant forall j :: 0 <= j < i ==> !StartsWith(ps[j].0, mc + "-")
      {
        var (key, value) := ps[i];
        if StartsWith(key, mc + "-") {
          FirstIndexIs(ps, (e: (string, string)) => StartsWith(e.0, mc + "-"), i);
          return Some(value);
        }
        i := i + 1;
      }
    }
    return None;
  }

  /** A promotion for the recommended or latest build also starts with
      "<mc>-", so whenever `get_forge_version` found a promotion, the
      fall-back search finds one too. */
  lemma PromoKeyHasPrefix(mc: string, key: string)
    requires IsPromoKey(mc, key)
    ensures StartsWith(key, mc + "-")
  {
    assert key[..|mc + "-"|] == mc + "-";
  }

  // ---------------------------------------------------------------------
  // Installer download

  /** The installer URLs in the order they are tried. */
  function DownloadUrls(mc: string, fv: string, major: int): (urls: seq<string>)
    ensures |urls| == if major <= 8 then 5 else 4
    ensures urls[0] == DetermineFormat(mc, fv, major).installerUrl && urls[1] == urls[0]
    ensures major <= 8 ==> urls[4] == urls[0]
    ensures urls[3] == InstallerUrl(MavenRoot, mc + "-" + fv)
    ensures forall k :: 0 <= k < |urls| ==> EndsWith(urls[k], "-installer.jar")
  {
    var id := DetermineFormat(mc, fv, major).versionId;
    var four := [InstallerUrl(MavenRoot, id), InstallerUrl(MavenRoot, id),
                 InstallerUrl(FilesRoot, id), InstallerUrl(MavenRoot, mc + "-" + fv)];
    var urls := if major <= 8 then four + [InstallerUrl(MavenRoot, id)] else four;
    assert forall k :: 0 <= k < |urls| ==> exists root, x :: urls[k] == InstallerUrl(root, x);
    urls
  }

  /** The first URL that serves an installer larger than 100000 bytes. */
  function FirstServed(urls: seq<string>, served: set<string>): (r: Option<string>)
    ensures r.Some? ==> r.value in served && r.value in urls
    ensures r.None? <==> forall k :: 0 <= k < |urls| ==> urls[k] !in served
  {
    match FirstIndex(urls, (u: string) => u in served)
    case Some(i) => Some(urls[i])
    case None => None
  }

  method TryUrls(urls: seq<string>, served: set<string>) returns (r: Option<string>)
    ensures r == FirstServed(urls, served)
  {
    var i := 0;
    while i < |urls|
      invariant 0 <= i <= |urls|
      invariant forall j :: 0 <= j < i ==> urls[j] !in served
    {
      if urls[i] in served {
        FirstIndexIs(urls, (u: string) => u in served, i);
        return Some(urls[i]);
      }
      i := i + 1;
    }
    return None;
  }

  // ---------------------------------------------------------------------
  // Existing installs

  /** The names `check_existing_forge` tries first, in order. */
  function ExistingCandidates(versionName: string, mc: string, fv: string): (names: seq<string>)
    ensures |names| == 6 && names[0] == versionName
    ensures forall k :: 1 <= k < 6 ==> Contains(names[k], mc)
  {
    ContainsConcat([], mc, "-forge-" + fv);
    assert [] + mc + ("-forge-" + fv) == mc + "-forge-" + fv;
    ContainsConcat([], mc, "-Forge" + fv);
    assert [] + mc + ("-Forge" + fv) == mc + "-Forge" + fv;
    ContainsConcat([], mc, "-Forge" + fv + "-" + mc);
    assert [] + mc + ("-Forge" + fv + "-" + mc) == mc + "-Forge" + fv + "-" + mc;
    ContainsConcat("Forge-", mc, []);
    assert "Forge-" + mc + [] == "Forge-" + mc;
    ContainsConcat("forge-", mc, []);
    assert "forge-" + mc + [] == "forge-" + mc;
    [versionName, mc + "-forge-" + fv, mc + "-Forge" + fv, mc + "-Forge" + fv + "-" + mc,
     "Forge-" + mc, "forge-" + mc]
  }

  /** Acceptance of an exactly named candidate: a library named like Forge,
      or a profile that inherits from the game version. */
  function ExactAccepts(files: map<string, JsonFile>, name: string, mc: string): (ok: bool)
    ensures ok ==> name in files && files[name].Parsed?
    ensures name in files && files[name].Parsed? && files[name].profile.inheritsFrom == Some(mc) ==> ok
  {
    name in files && files[name].Parsed? &&
    var p := files[name].profile;
    (p.libraries.Some? && SomeLibNameHas(p.libraries.value, "forge")) || p.inheritsFrom == Some(mc)
  }

  /** A library that names Forge and the game version. */
  predicate SomeForgeLibFor(libs: seq<Library>, mc: string) {
    exists i :: 0 <= i < |libs| && ContainsCI(LibName(libs[i]), "forge") && Contains(LibName(libs[i]), mc)
  }

  /** Acceptance of a scanned directory. */
  function ScanAccepts(files: map<string, JsonFile>, name: string, mc: string): (ok: bool)
    ensures ok ==> ExactAccepts(files, name, mc)
  {
    ForgeDirFor(name, mc) && name in files && files[name].Parsed? &&
    var p := files[name].profile;
    p.inheritsFrom == Some(mc) || (p.libraries.Some? && SomeForgeLibFor(p.libraries.value, mc))
  }

  /** The first exactly named candidate that is accepted. */
  function ExactMatch(files: map<string, JsonFile>, names: seq<string>, mc: string): (r: Option<string>)
    ensures r.Some? ==> r.value in names && ExactAccepts(files, r.value, mc)
    ensures r.None? <==> forall k :: 0 <= k < |names| ==> !ExactAccepts(files, names[k], mc)
  {
    match FirstIndex(names, (n: string) => ExactAccepts(files, n, mc))
    case Some(i) => Some(names[i])
    case None => None
  }

  /** The first scanned directory that is accepted. */
  function ScanMatch(files: map<string, JsonFile>, dirs: seq<string>, mc: string): (r: Option<string>)
    ensures r.Some? ==> r.value in dirs && ScanAccepts(files, r.value, mc)
    ensures r.None? <==> forall k :: 0 <= k < |dirs| ==> !ScanAccepts(files, dirs[k], mc)
  {
    match FirstIndex(dirs, (n: string) => ScanAccepts(files, n, mc))
    case Some(i) => Some(dirs[i])
    case None => None
  }

  /** The install `check_existing_forge` settles on, if any. */
  function ExistingForge(dir: VersionsDir, versionName: string, mc: string, fv: string): (r: Option<string>)
    ensures r.Some? ==> ExactAccepts(dir.files, r.value, mc) || ScanAccepts(dir.files, r.value, mc)
    ensures r.None? <==>
              (forall k :: 0 <= k < 6 ==> !ExactAccepts(dir.files, ExistingCandidates(versionName, mc, fv)[k], mc)) &&
              (forall k :: 0 <= k < |dir.dirs| ==> !ScanAccepts(dir.files, dir.dirs[k], mc))
  {
    var exact := ExactMatch(dir.files, ExistingCandidates(versionName, mc, fv), mc);
    if exact.Some? then exact else ScanMatch(dir.files, dir.dirs, mc)
  }

  /** A profile that inherits from the game version, stored under the
      installer's own version name, is found by the first candidate. */
  lemma WrittenProfileIsFound(dir: VersionsDir, versionName: string, mc: string, fv: string, p: Profile)
    requires versionName in dir.files && dir.files[versionName] == Parsed(p) && p.inheritsFrom == Some(mc)
    ensures ExistingForge(dir, versionName, mc, fv) == Some(versionName)
  {
    var names := ExistingCandidates(versionName, mc, fv);
    FirstIndexIs(names, (n: string) => ExactAccepts(dir.files, n, mc), 0);
  }

  // ---------------------------------------------------------------------
  // Profiles written or repaired by the installer

  /** The jar names looked for in a candidate library directory. */
  function JarNames(candidate: string, mc: string, fv: string): (names: seq<string>)
    ensures |names| == 5
  {
    ["forge-" + candidate + ".jar", "forge-" + candidate + "-universal.jar",
     "forge-" + candidate + "-client.jar", "forge-" + mc + "-" + fv + ".jar", "forge-" + fv + ".jar"]
  }

  /** Library directory `k` of search path `b` names the game or Forge
      version and holds one of the expected jars. */
  predicate JarWitness(bases: seq<Option<seq<string>>>, jars: set<(nat, string, string)>,
                       mc: string, fv: string, b: nat, k: nat) {
    b < |bases| && bases[b].Some? && k < |bases[b].value| &&
    var c := bases[b].value[k];
    (Contains(c, mc) || Contains(c, fv)) &&
    exists t :: 0 <= t < 5 && (b, c, JarNames(c, mc, fv)[t]) in jars
  }

  /** The search of search path `b` from directory `k` on, with the find
      `prev` of the earlier paths: a matching directory with a jar gives its
      library; a matching directory without one ends the path when a library
      was already found; otherwise the search goes on. */
  function SearchPath(bases: seq<Option<seq<string>>>, jars: set<(nat, string, string)>,
                      mc: string, fv: string, b: nat, k: nat, prev: Option<string>): Option<string>
    requires b < |bases| && bases[b].Some?
    decreases |bases[b].value| - k
  {
    if k >= |bases[b].value| then prev
    else if JarWitness(bases, jars, mc, fv, b, k) then Some(ForgeLibPrefix + bases[b].value[k])
    else if prev.Some? && (Contains(bases[b].value[k], mc) || Contains(bases[b].value[k], fv)) then prev
    else SearchPath(bases, jars, mc, fv, b, k + 1, prev)
  }

  /** The search of the paths from `b` on; a path that does not exist is
      skipped. */
  function SearchPaths(bases: seq<Option<seq<string>>>, jars: set<(nat, string, string)>,
                       mc: string, fv: string, b: nat, prev: Option<string>): Option<string>
    decreases |bases| - b
  {
    if b >= |bases| then prev
    else
      var next := if bases[b].Some? then SearchPath(bases, jars, mc, fv, b, 0, prev) else prev;
      SearchPaths(bases, jars, mc, fv, b + 1, next)
  }

  lemma {:induction false} SearchPathWitness(bases: seq<Option<seq<string>>>, jars: set<(nat, string, string)>,
                                             mc: string, fv: string, b: nat, k: nat, prev: Option<string>)
    requires b < |bases| && bases[b].Some?
    ensures SearchPath(bases, jars, mc, fv, b, k, prev).None? <==>
            prev.None? && forall k': nat :: k <= k' ==> !JarWitness(bases, jars, mc, fv, b, k')
    ensures SearchPath(bases, jars, mc, fv, b, k, prev).Some? ==>
            SearchPath(bases, jars, mc, fv, b, k, prev) == prev ||
            exists k': nat :: JarWitness(bases, jars, mc, fv, b, k') &&
                              SearchPath(bases, jars, mc, fv, b, k, prev).value == ForgeLibPrefix + bases[b].value[k']
    decreases |bases[b].value| - k
  {
    if k < |bases[b].value| && !JarWitness(bases, jars, mc, fv, b, k) &&
       !(prev.Some? && (Contains(bases[b].value[k], mc) || Contains(bases[b].value[k], fv))) {
      SearchPathWitness(bases, jars, mc, fv, b, k + 1, prev);
    }
  }

  /** The library found is named after a directory that holds a jar, and
      there is none exactly when no directory does. */
  lemma {:induction false} SearchPathsWitness(bases: seq<Option<seq<string>>>, jars: set<(nat, string, string)>,
                                              mc: string, fv: string, b: nat, prev: Option<string>)
    requires prev.None? ==> forall b': nat, k: nat :: b' < b ==> !JarWitness(bases, jars, mc, fv, b', k)
    requires prev.Some? ==> exists b': nat, k: nat :: JarWitness(bases, jars, mc, fv, b', k) &&
                                                      prev.value == ForgeLibPrefix + bases[b'].value[k]
    ensures SearchPaths(bases, jars, mc, fv, b, prev).None? <==>
            forall b': nat, k: nat :: !JarWitness(bases, jars, mc, fv, b', k)
    ensures SearchPaths(bases, jars, mc, fv, b, prev).Some? ==>
            exists b': nat, k: nat :: JarWitness(bases, jars, mc, fv, b', k) &&
                                      SearchPaths(bases, jars, mc, fv, b, prev).value == ForgeLibPrefix + bases[b'].value[k]
    decreases |bases| - b
  {
    if b < |bases| {
      var next := if bases[b].Some? then SearchPath(bases, jars, mc, fv, b, 0, prev) else prev;
      if bases[b].Some? {
        SearchPathWitness(bases, jars, mc, fv, b, 0, prev);
      }
      SearchPathsWitness(bases, jars, mc, fv, b + 1, next);
    }
  }

  function LibNames(libs: seq<Library>): (r: seq<string>)
    ensures |r| == |libs|
    ensures forall i :: 0 <= i < |libs| ==> r[i] == LibName(libs[i])
  {
    if libs == [] then [] else [LibName(libs[0])] + LibNames(libs[1..])
  }

  function Lib(name: string): Library {
    Library(Some(name), None)
  }

  /** The profile `create_legacy_forge_profile` writes. */
  function LegacyProfile(versionName: string, mc: string, fv: string, mainClass: string, major: int,
                         forgeLib: Option<string>): (p: Profile)
    ensures p.id == Some(versionName) && p.inheritsFrom == Some(mc) && p.mainClass == Some(mainClass)
    ensures p.releaseTime == Some(FixedTimestamp) && p.time == Some(FixedTimestamp)
    ensures p.versionType == Some("release")
    ensures p.minecraftArguments == if major < 13 then Some(TweakClassArgument) else None
    ensures p.arguments == Some(Arguments(Some([Str(NoIndevFlag), Str(IgnoreCertsFlag),
                                                Str(IgnorePatchFlag), Str(NoLookupsFlag)]), None))
    ensures p.libraries.Some?
    ensures LibNames(p.libraries.value) ==
              (if forgeLib.Some? then [forgeLib.value] else []) +
              (if major < 13 then [LaunchWrapperLib, AsmAllLib] else []) +
              (if major < 13 && mc == "1.7.10" then ["cpw.mods:fml:1.7.10-" + fv] else [])
  {
    var forge := if forgeLib.Some? then [Lib(forgeLib.value)] else [];
    var wrapper := if major < 13 then [Lib(LaunchWrapperLib), Lib(AsmAllLib)] else [];
    var fml := if major < 13 && mc == "1.7.10" then [Lib("cpw.mods:fml:1.7.10-" + fv)] else [];
    var libs := forge + wrapper + fml;
    assert LibNames(libs) == LibNames(forge) + LibNames(wrapper) + LibNames(fml);
    Profile(Some(versionName), Some(mc), Some(FixedTimestamp), Some(FixedTimestamp), Some("release"),
            Some(mainClass), if major < 13 then Some(TweakClassArgument) else None,
            Some(Arguments(Some([Str(NoIndevFlag), Str(IgnoreCertsFlag), Str(IgnorePatchFlag), Str(NoLookupsFlag)]), None)),
            Some(libs))
  }

  /** The profile `create_missing_forge_profile` writes for the library
      directory `c` (only ever called for a pre-1.13 game). */
  function MissingProfile(mc: string, c: string, mainClass: string, major: int): (p: Profile)
    ensures p.id == Some(mc + "-forge-" + c) && p.inheritsFrom == Some(mc)
    ensures major < 13 ==> p.mainClass == Some(if mc == "1.7.10" then FmlTweakerMain else LaunchWrapperMain)
    ensures major >= 13 ==> p.mainClass == Some(mainClass) && p.arguments.None?
    ensures p.libraries.Some?
    ensures LibNames(p.libraries.value) ==
              [ForgeLibPrefix + c] + (if major < 13 && mc == "1.7.10" then [LaunchWrapperLib] else [])
    ensures major < 13 ==>
              p.arguments == Some(Arguments(Some([Str(NoIndevFlag), Str(IgnoreCertsFlag), Str(IgnorePatchFlag)]), None))
  {
    var name := mc + "-forge-" + c;
    var base := Profile(Some(name), Some(mc), Some(FixedTimestamp), Some(FixedTimestamp), Some("release"),
                        Some(mainClass), None, None, Some([Lib(ForgeLibPrefix + c)]));
    if major < 13 then
      var main := if mc == "1.7.10" then FmlTweakerMain else LaunchWrapperMain;
      var libs := if mc == "1.7.10" then [Lib(ForgeLibPrefix + c), Lib(LaunchWrapperLib)]
                  else [Lib(ForgeLibPrefix + c)];
      base.(mainClass := Some(main), minecraftArguments := Some(TweakClassArgument),
            libraries := Some(libs),
            arguments := Some(Arguments(Some([Str(NoIndevFlag), Str(IgnoreCertsFlag), Str(IgnorePatchFlag)]), None)))
    else base
  }

  /** The main class `fix_forge_profile` insists on before 1.13. */
  function RepairedMainClass(mc: string): string {
    if mc == "1.7.10" then FmlTweakerMain else LaunchWrapperMain
  }

  /** Before 1.13 a main class that is present is the era's one. */
  predicate MainClassRepaired(p: Profile, mc: string, major: int) {
    major < 13 && p.mainClass.Some? ==> p.mainClass.value == RepairedMainClass(mc)
  }

  /** Before 1.13 the JVM arguments carry the two Forge flags. */
  predicate ArgumentsRepaired(p: Profile, major: int) {
    major < 13 ==> p.arguments.Some? && Str(NoIndevFlag) in JvmOrEmpty(p) && Str(IgnoreCertsFlag) in JvmOrEmpty(p)
  }

  /** A 1.7.10 library list names the launch wrapper. */
  predicate LibrariesRepaired(p: Profile, mc: string) {
    mc == "1.7.10" && p.libraries.Some? ==> SomeLibNameHas(p.libraries.value, "launchwrapper")
  }

  /** The state `fix_forge_profile` brings a profile into; a profile in this
      state is left alone by it. */
  predicate IsRepaired(p: Profile, mc: string, major: int) {
    p.inheritsFrom == Some(mc) && MainClassRepaired(p, mc, major) &&
    ArgumentsRepaired(p, major) && LibrariesRepaired(p, mc)
  }

  /** `net.minecraft:launchwrapper:1.12` names the launch wrapper. */
  lemma LaunchWrapperLibNamed(name: string)
    requires OccursAt(name, "launchwrapper", 14)
    ensures ContainsCI(name, "launchwrapper")
  {
    LowerLaunchWrapper();
    ContainsCIAt(name, 14, "launchwrapper", "launchwrapper");
  }

  lemma LaunchWrapperLibIsNamed()
    ensures ContainsCI(LaunchWrapperLib, "launchwrapper")
  {
    assert OccursAt(LaunchWrapperLib, "launchwrapper", 14);
    LaunchWrapperLibNamed(LaunchWrapperLib);
  }

  /** A library list holding `net.minecraft:launchwrapper:1.12` names the
      launch wrapper. */
  lemma LaunchWrapperLibListed(libs: seq<Library>, i: nat)
    requires i < |libs| && LibName(libs[i]) == LaunchWrapperLib
    ensures SomeLibNameHas(libs, "launchwrapper")
  {
    LaunchWrapperLibIsNamed();
  }

  // ---------------------------------------------------------------------
  // The repair of a legacy profile, as values

  /** The main-class step: a main class that is present becomes the era's
      one before 1.13; an absent one stays absent. */
  function MainClassStep(data: Profile, mc: string, major: int): Profile {
    if data.mainClass.Some? && major < 13 then data.(mainClass := Some(RepairedMainClass(mc))) else data
  }

  /** `flag` appended to a JVM list unless it is already there. */
  function WithFlag(jvm: seq<Arg>, flag: string): seq<Arg> {
    if Str(flag) in jvm then jvm else jvm + [Str(flag)]
  }

  /** The arguments step: before 1.13 a missing `arguments` becomes
      `{"jvm": [], "game": []}`, then each of the two Forge flags that is
      missing from `jvm` is appended, in that order. */
  function ArgumentsStep(data: Profile, major: int): Profile {
    if major >= 13 then data
    else
      var args := if data.arguments.Some? then data.arguments.value else Arguments(Some([]), Some([]));
      var jvm := WithFlag(WithFlag(JvmOrEmpty(data), NoIndevFlag), IgnoreCertsFlag);
      data.(arguments := Some(args.(jvm := Some(jvm))))
  }

  /** The library step: a 1.7.10 library list naming no launch wrapper gets
      `{"name": "net.minecraft:launchwrapper:1.12"}` appended. */
  function LibrariesStep(data: Profile, mc: string): Profile {
    if mc == "1.7.10" && data.libraries.Some? && !SomeLibNameHas(data.libraries.value, "launchwrapper")
    then data.(libraries := Some(data.libraries.value + [Lib(LaunchWrapperLib)]))
    else data
  }

  /** The profile `fix_forge_profile` writes back for a legacy install: the
      three steps in order, then `inheritsFrom` set to the game version. */
  function Repaired(data: Profile, mc: string, major: int): Profile {
    LibrariesStep(ArgumentsStep(MainClassStep(data, mc, major), major), mc).(inheritsFrom := Some(mc))
  }

  /** The main-class step establishes its part of the repaired state and
      changes a profile exactly when that part was missing. */
  lemma MainClassStepRepairs(data: Profile, mc: string, major: int)
    ensures MainClassRepaired(MainClassStep(data, mc, major), mc, major)
    ensures MainClassStep(data, mc, major) == data <==> MainClassRepaired(data, mc, major)
    ensures MainClassStep(data, mc, major) == data.(mainClass := MainClassStep(data, mc, major).mainClass)
    ensures MainClassStep(data, mc, major).mainClass.Some? <==> data.mainClass.Some?
  {
  }

  /** `WithFlag` adds its flag, keeps every entry, and adds nothing when the
      flag is there. */
  lemma WithFlagAdds(jvm: seq<Arg>, flag: string)
    ensures Str(flag) in WithFlag(jvm, flag)
    ensures jvm <= WithFlag(jvm, flag)
    ensures WithFlag(jvm, flag) == jvm <==> Str(flag) in jvm
    ensures forall x :: x in WithFlag(jvm, flag) <==> x in jvm || x == Str(flag)
  {
    if Str(flag) !in jvm {
      assert WithFlag(jvm, flag)[|jvm|] == Str(flag);
      assert |WithFlag(jvm, flag)| != |jvm|;
    }
  }

  /** The arguments step establishes its part of the repaired state, only
      appends to the JVM list, leaves an existing game list alone, and changes
      a profile exactly when that part was missing. */
  lemma ArgumentsStepRepairs(data: Profile, major: int)
    ensures ArgumentsRepaired(ArgumentsStep(data, major), major)
    ensures ArgumentsStep(data, major) == data <==> ArgumentsRepaired(data, major)
    ensures ArgumentsStep(data, major) == data.(arguments := ArgumentsStep(data, major).arguments)
    ensures JvmOrEmpty(data) <= JvmOrEmpty(ArgumentsStep(data, major))
    ensures major < 13 ==>
              ArgumentsStep(data, major).arguments.value.game ==
              (if data.arguments.Some? then data.arguments.value.game else Some([]))
  {
    if major < 13 {
      var once := WithFlag(JvmOrEmpty(data), NoIndevFlag);
      WithFlagAdds(JvmOrEmpty(data), NoIndevFlag);
      WithFlagAdds(once, IgnoreCertsFlag);
      var q := ArgumentsStep(data, major);
      assert JvmOrEmpty(q) == WithFlag(once, IgnoreCertsFlag);
      if ArgumentsRepaired(data, major) {
        assert data.arguments.value.jvm.Some?;
        assert q.arguments == data.arguments;
      }
    }
  }

  /** The library step establishes its part of the repaired state, only
      appends, and changes a profile exactly when that part was missing. */
  lemma LibrariesStepRepairs(data: Profile, mc: string)
    ensures LibrariesRepaired(LibrariesStep(data, mc), mc)
    ensures LibrariesStep(data, mc) == data <==> LibrariesRepaired(data, mc)
    ensures LibrariesStep(data, mc) == data.(libraries := LibrariesStep(data, mc).libraries)
    ensures LibrariesStep(data, mc).libraries.Some? <==> data.libraries.Some?
    ensures data.libraries.Some? ==> data.libraries.value <= LibrariesStep(data, mc).libraries.value
  {
    if mc == "1.7.10" && data.libraries.Some? && !SomeLibNameHas(data.libraries.value, "launchwrapper") {
      var libs := data.libraries.value;
      var grown := libs + [Lib(LaunchWrapperLib)];
      assert LibName(grown[|libs|]) == LaunchWrapperLib;
      LaunchWrapperLibListed(grown, |libs|);
      assert |grown| != |libs|;
    }
  }

  /** The repair yields a repaired profile, changing only the four fields it
      is about, and only by replacing the main class, setting the ancestor
      and appending to the JVM and library lists. */
  lemma RepairedIsRepaired(data: Profile, mc: string, major: int)
    ensures IsRepaired(Repaired(data, mc, major), mc, major)
    ensures var p := Repaired(data, mc, major);
            p.id == data.id && p.releaseTime == data.releaseTime && p.time == data.time &&
            p.versionType == data.versionType && p.minecraftArguments == data.minecraftArguments &&
            (p.mainClass.Some? <==> data.mainClass.Some?) &&
            (p.libraries.Some? <==> data.libraries.Some?) &&
            (data.libraries.Some? ==> data.libraries.value <= p.libraries.value) &&
            JvmOrEmpty(data) <= JvmOrEmpty(p)
  {
    var p1 := MainClassStep(data, mc, major);
    var p2 := ArgumentsStep(p1, major);
    MainClassStepRepairs(data, mc, major);
    ArgumentsStepRepairs(p1, major);
    LibrariesStepRepairs(p2, mc);
  }

  /** A profile is left exactly as it is iff it is already repaired. */
  lemma RepairedFixedPoints(data: Profile, mc: string, major: int)
    ensures Repaired(data, mc, major) == data <==> IsRepaired(data, mc, major)
  {
    var p1 := MainClassStep(data, mc, major);
    var p2 := ArgumentsStep(p1, major);
    var p3 := LibrariesStep(p2, mc);
    MainClassStepRepairs(data, mc, major);
    ArgumentsStepRepairs(p1, major);
    LibrariesStepRepairs(p2, mc);
    RepairedIsRepaired(data, mc, major);
    if IsRepaired(data, mc, major) {
      assert p1 == data;
      assert p2 == data;
      assert p3 == data;
    }
  }

  /** Repairing twice is repairing once. */
  lemma RepairIdempotent(data: Profile, mc: string, major: int)
    ensures Repaired(Repaired(data, mc, major), mc, major) == Repaired(data, mc, major)
  {
    RepairedIsRepaired(data, mc, major);
    RepairedFixedPoints(Repaired(data, mc, major), mc, major);
  }

  // ---------------------------------------------------------------------
  // The repair, step by step

  /** The main-class step of `fix_forge_profile`. */
  method RepairMainClass(data: Profile, mc: string, major: int) returns (p: Profile, modified: bool)
    ensures p == MainClassStep(data, mc, major)
    ensures modified <==> p != data
  {
    p := data;
    modified := false;
    if p.mainClass.Some? && major < 13 {
      if mc == "1.7.10" {
        if p.mainClass.value != FmlTweakerMain {
          p := p.(mainClass := Some(FmlTweakerMain));
          modified := true;
        }
      } else {
        if p.mainClass.value != LaunchWrapperMain {
          p := p.(mainClass := Some(LaunchWrapperMain));
          modified := true;
        }
      }
    }
  }

  /** The arguments step of `fix_forge_profile`. */
  method RepairArguments(data: Profile, major: int) returns (p: Profile, modified: bool)
    ensures p == ArgumentsStep(data, major)
    ensures modified <==> p != data
  {
    p := data;
    modified := false;
    if major < 13 {
      if p.arguments.None? {
        p := p.(arguments := Some(Arguments(Some([]), Some([]))));
        modified := true;
      }
      if Str(NoIndevFlag) !in JvmOrEmpty(p) {
        p := p.(arguments := Some(p.arguments.value.(jvm := Some(JvmOrEmpty(p) + [Str(NoIndevFlag)]))));
        modified := true;
      }
      if Str(IgnoreCertsFlag) !in JvmOrEmpty(p) {
        p := p.(arguments := Some(p.arguments.value.(jvm := Some(JvmOrEmpty(p) + [Str(IgnoreCertsFlag)]))));
        modified := true;
      }
    }
    ArgumentsStepRepairs(data, major);
  }

  /** The `has_launchwrapper` loop. */
  method HasLaunchWrapper(libs: seq<Library>) returns (found: bool)
    ensures found <==> SomeLibNameHas(libs, "launchwrapper")
  {
    var needle := "launchwrapper";
    found := false;
    var i := 0;
    while i < |libs|
      invariant 0 <= i <= |libs|
      invariant !found
      invariant forall j :: 0 <= j < i ==> !ContainsCI(LibName(libs[j]), needle)
    {
      if ContainsCI(LibName(libs[i]), needle) {
        found := true;
        return;
      }
      i := i + 1;
    }
  }

  /** The library step of `fix_forge_profile`. */
  method RepairLibraries(data: Profile, mc: string) returns (p: Profile, modified: bool)
    ensures p == LibrariesStep(data, mc)
    ensures modified <==> p != data
  {
    p := data;
    modified := false;
    if mc == "1.7.10" && p.libraries.Some? {
      var libs := p.libraries.value;
      var hasLaunchWrapper := HasLaunchWrapper(libs);
      if !hasLaunchWrapper {
        p := p.(libraries := Some(libs + [Lib(LaunchWrapperLib)]));
        modified := true;
        assert |p.libraries.value| != |libs|;
      }
    }
  }

  /** The repair of one profile, step by step as `fix_forge_profile` does
      it; `modified` says whether the file gets written back, which is
      exactly when the profile was not yet repaired. */
  method RepairProfile(data: Profile, mc: string, major: int) returns (p: Profile, modified: bool)
    ensures p == Repaired(data, mc, major)
    ensures modified <==> p != data
    ensures modified <==> !IsRepaired(data, mc, major)
  {
    var p1, m1 := RepairMainClass(data, mc, major);
    var p2, m2 := RepairArguments(p1, major);
    var p3, m3 := RepairLibraries(p2, mc);
    MainClassStepRepairs(data, mc, major);
    ArgumentsStepRepairs(p1, major);
    LibrariesStepRepairs(p2, mc);
    p := p3;
    var m4 := p.inheritsFrom != Some(mc);
    if m4 {
      p := p.(inheritsFrom := Some(mc));
    }
    modified := m1 || m2 || m3 || m4;
    RepairedFixedPoints(data, mc, major);
  }

  /** The legacy profile is already in repaired form for 1.7.10 and for
      1.8 to 1.12 whenever it carries the era's main class. */
  lemma LegacyProfileIsRepaired(versionName: string, mc: string, fv: string, major: int, forgeLib: Option<string>)
    requires ParseMajor(mc) == Some(major) && major < 13 && (major >= 8 || mc == "1.7.10")
    ensures IsRepaired(LegacyProfile(versionName, mc, fv, DetermineFormat(mc, fv, major).mainClass, major, forgeLib), mc, major)
  {
    var p := LegacyProfile(versionName, mc, fv, DetermineFormat(mc, fv, major).mainClass, major, forgeLib);
    LegacyMainClassRepaired(versionName, mc, fv, major, forgeLib);
    LegacyArgumentsRepaired(versionName, mc, fv, major, forgeLib);
    LegacyLibrariesRepaired(versionName, mc, fv, major, forgeLib);
    assert p.inheritsFrom == Some(mc);
  }

  lemma LegacyArgumentsRepaired(versionName: string, mc: string, fv: string, major: int, forgeLib: Option<string>)
    ensures ArgumentsRepaired(LegacyProfile(versionName, mc, fv, DetermineFormat(mc, fv, major).mainClass, major, forgeLib), major)
  {
    var p := LegacyProfile(versionName, mc, fv, DetermineFormat(mc, fv, major).mainClass, major, forgeLib);
    var jvm := [Str(NoIndevFlag), Str(IgnoreCertsFlag), Str(IgnorePatchFlag), Str(NoLookupsFlag)];
    assert JvmOrEmpty(p) == jvm;
    assert jvm[0] == Str(NoIndevFlag) && jvm[1] == Str(IgnoreCertsFlag);
  }

  lemma LegacyMainClassRepaired(versionName: string, mc: string, fv: string, major: int, forgeLib: Option<string>)
    requires ParseMajor(mc) == Some(major) && major < 13 && (major >= 8 || mc == "1.7.10")
    ensures MainClassRepaired(LegacyProfile(versionName, mc, fv, DetermineFormat(mc, fv, major).mainClass, major, forgeLib), mc, major)
  {
    if mc == "1.7.10" {
      Parse1710();
    }
  }

  lemma LegacyLibrariesRepaired(versionName: string, mc: string, fv: string, major: int, forgeLib: Option<string>)
    requires major < 13
    ensures LibrariesRepaired(LegacyProfile(versionName, mc, fv, DetermineFormat(mc, fv, major).mainClass, major, forgeLib), mc)
  {
    var p := LegacyProfile(versionName, mc, fv, DetermineFormat(mc, fv, major).mainClass, major, forgeLib);
    if mc == "1.7.10" {
      var names := LibNames(p.libraries.value);
      var front := if forgeLib.Some? then [forgeLib.value] else [];
      assert names == front + [LaunchWrapperLib, AsmAllLib] + ["cpw.mods:fml:1.7.10-" + fv];
      assert names[|front|] == LaunchWrapperLib;
      assert LibName(p.libraries.value[|front|]) == LaunchWrapperLib;
      LaunchWrapperLibListed(p.libraries.value, |front|);
    }
  }

  /** Before 1.7.10 the legacy profile names FMLTweaker, which the repair
      then replaces with the launch wrapper. */
  lemma VeryOldLegacyProfileIsRewritten(versionName: string, mc: string, fv: string, major: int, forgeLib: Option<string>)
    requires major < 8 && mc != "1.7.10"
    ensures !IsRepaired(LegacyProfile(versionName, mc, fv, DetermineFormat(mc, fv, major).mainClass, major, forgeLib), mc, major)
  {
  }

  /** The profile written for a bare library directory is in repaired form. */
  lemma MissingProfileIsRepaired(mc: string, c: string, mainClass: string, major: int)
    requires major < 13
    ensures IsRepaired(MissingProfile(mc, c, mainClass, major), mc, major)
  {
    if mc == "1.7.10" {
      var p := MissingProfile(mc, c, mainClass, major);
      assert LibNames(p.libraries.value)[1] == LaunchWrapperLib;
      assert LibName(p.libraries.value[1]) == LaunchWrapperLib;
      LaunchWrapperLibListed(p.libraries.value, 1);
    }
  }

  /** The file a legacy pass leaves in a Forge directory: a readable
      profile is replaced by its repair, an unreadable one is skipped. */
  function FixedFile(f: JsonFile, mc: string, major: int): JsonFile {
    match f
    case Parsed(p) => Parsed(Repaired(p, mc, major))
    case Unreadable => Unreadable
  }

  /** The profile files after `fix_forge_profile` for a legacy install has
      visited the directories `dirs`. */
  function FixedFiles(dirs: seq<string>, files: map<string, JsonFile>, mc: string, major: int): map<string, JsonFile> {
    map n | n in files :: if n in dirs && ForgeDirFor(n, mc) then FixedFile(files[n], mc, major) else files[n]
  }

  /** Fixing a file twice is fixing it once; a readable file stays readable
      and ends up repaired. */
  lemma FixedFileRepairs(f: JsonFile, mc: string, major: int)
    ensures FixedFile(FixedFile(f, mc, major), mc, major) == FixedFile(f, mc, major)
    ensures FixedFile(f, mc, major).Parsed? <==> f.Parsed?
    ensures f.Parsed? ==> IsRepaired(FixedFile(f, mc, major).profile, mc, major)
  {
    if f.Parsed? {
      RepairIdempotent(f.profile, mc, major);
      RepairedIsRepaired(f.profile, mc, major);
    }
  }

  /** A legacy pass keeps every file name, leaves every file outside the
      Forge directories and every unreadable file as it was, repairs every
      readable Forge profile, and a second pass changes nothing. */
  lemma FixedFilesRepair(dirs: seq<string>, files: map<string, JsonFile>, mc: string, major: int)
    ensures FixedFiles(dirs, files, mc, major).Keys == files.Keys
    ensures forall n :: n in files && !(n in dirs && ForgeDirFor(n, mc)) ==> FixedFiles(dirs, files, mc, major)[n] == files[n]
    ensures forall n :: n in files && files[n].Unreadable? ==> FixedFiles(dirs, files, mc, major)[n] == files[n]
    ensures forall n :: n in dirs && ForgeDirFor(n, mc) && n in files && files[n].Parsed? ==>
              FixedFiles(dirs, files, mc, major)[n].Parsed? && IsRepaired(FixedFiles(dirs, files, mc, major)[n].profile, mc, major)
    ensures FixedFiles(dirs, FixedFiles(dirs, files, mc, major), mc, major) == FixedFiles(dirs, files, mc, major)
  {
    var once := FixedFiles(dirs, files, mc, major);
    forall n | n in files
      ensures FixedFile(FixedFile(files[n], mc, major), mc, major) == FixedFile(files[n], mc, major)
      ensures files[n].Parsed? ==> IsRepaired(FixedFile(files[n], mc, major).profile, mc, major)
    {
      FixedFileRepairs(files[n], mc, major);
    }
    assert FixedFiles(dirs, once, mc, major) == once;
  }

  /** What a pass of the repair over the directories in `done` leaves:
      every Forge directory among them fixed, every other file as it was. */
  ghost predicate RepairedAmong(files: map<string, JsonFile>, orig: map<string, JsonFile>,
                                done: set<string>, mc: string, major: int)
  {
    files.Keys == orig.Keys &&
    forall n :: n in orig ==>
      files[n] == if n in done && ForgeDirFor(n, mc) then FixedFile(orig[n], mc, major) else orig[n]
  }

  /** One more directory fixed by `FixOne` keeps `RepairedAmong`, also when
      that directory was visited before. */
  lemma RepairedAmongStep(files: map<string, JsonFile>, orig: map<string, JsonFile>, done: set<string>,
                          name: string, mc: string, major: int, out: map<string, JsonFile>)
    requires RepairedAmong(files, orig, done, mc, major)
    requires out == if ForgeDirFor(name, mc) && name in files then files[name := FixedFile(files[name], mc, major)] else files
    ensures RepairedAmong(out, orig, done + {name}, mc, major)
  {
    if ForgeDirFor(name, mc) && name in files {
      FixedFileRepairs(orig[name], mc, major);
    }
  }

  /** A pass over exactly the directories of `dir` gives `FixedFiles`. */
  lemma RepairedAmongAll(files: map<string, JsonFile>, dir: VersionsDir, done: set<string>, mc: string, major: int)
    requires RepairedAmong(files, dir.files, done, mc, major)
    requires forall n :: n in done <==> n in dir.dirs
    ensures files == FixedFiles(dir.dirs, dir.files, mc, major)
  {
  }

  /** The installer thread's state. */
  class ForgeInstaller {
    const mcVersion: string
    const major: int
    const minor: int
    var forgeVersion: string
    var format: ForgeFormat
    var versionName: string
    var isRunning: bool

    ghost predicate Valid()
      reads this
    {
      ParseMajorMinor(mcVersion) == Some((major, minor)) &&
      format == DetermineFormat(mcVersion, forgeVersion, major)
    }

    /** The constructor raises on a version whose second or third field is
        not a number; only the successful case is modelled. */
    constructor (mc: string, promos: Option<Promos>)
      requires ParseMajorMinor(mc).Some?
      ensures Valid()
      ensures mcVersion == mc && forgeVersion == ForgeVersionFor(mc, promos)
      ensures (major, minor) == ParseMajorMinor(mc).value
      ensures versionName == format.versionName && isRunning
    {
      var fv := GetForgeVersion(mc, promos);
      var parsed := ParseMajorMinor(mc).value;
      var f := DetermineFormat(mc, fv, parsed.0);
      mcVersion := mc;
      forgeVersion := fv;
      major := parsed.0;
      minor := parsed.1;
      format := f;
      versionName := f.versionName;
      isRunning := true;
    }

    method Stop()
      modifies this`isRunning
      ensures !isRunning
    {
      isRunning := false;
    }

    /** `determine_forge_format`, re-run after the Forge build changed. */
    method DetermineForgeFormat()
      requires ParseMajorMinor(mcVersion) == Some((major, minor))
      modifies this`format, this`versionName
      ensures Valid() && versionName == format.versionName
    {
      format := DetermineFormat(mcVersion, forgeVersion, major);
      versionName := format.versionName;
    }

    /** The test `check_existing_forge` applies to an exactly named candidate. */
    static method AcceptsExactly(files: map<string, JsonFile>, name: string, mc: string) returns (isForge: bool)
      ensures isForge == ExactAccepts(files, name, mc)
    {
      if !(name in files && files[name].Parsed?) {
        return false;
      }
      var data := files[name].profile;
      isForge := false;
      if data.libraries.Some? {
        var libs := data.libraries.value;
        var k := 0;
        while k < |libs|
          invariant 0 <= k <= |libs| && !isForge
          invariant forall j :: 0 <= j < k ==> !ContainsCI(LibName(libs[j]), "forge")
        {
          if ContainsCI(LibName(libs[k]), "forge") {
            isForge := true;
            break;
          }
          k := k + 1;
        }
      }
      if data.inheritsFrom == Some(mc) {
        isForge := true;
      }
    }

    /** The test `check_existing_forge` applies to a scanned directory. */
    static method AcceptsScanned(files: map<string, JsonFile>, name: string, mc: string) returns (found: bool)
      ensures found == ScanAccepts(files, name, mc)
    {
      if !(ForgeDirFor(name, mc) && name in files && files[name].Parsed?) {
        return false;
      }
      var data := files[name].profile;
      if data.inheritsFrom == Some(mc) {
        return true;
      }
      if data.libraries.Some? {
        var libs := data.libraries.value;
        var k := 0;
        while k < |libs|
          invariant 0 <= k <= |libs|
          invariant forall j :: 0 <= j < k ==> !(ContainsCI(LibName(libs[j]), "forge") && Contains(LibName(libs[j]), mc))
        {
          var libName := LibName(libs[k]);
          if ContainsCI(libName, "forge") && Contains(libName, mc) {
            return true;
          }
          k := k + 1;
        }
      }
      return false;
    }

    /** The first loop of `check_existing_forge`. */
    static method FindExact(files: map<string, JsonFile>, names: seq<string>, mc: string) returns (r: Option<string>)
      ensures r == ExactMatch(files, names, mc)
    {
      var i := 0;
      while i < |names|
        invariant 0 <= i <= |names|
        invariant forall j :: 0 <= j < i ==> !ExactAccepts(files, names[j], mc)
      {
        var accepted := AcceptsExactly(files, names[i], mc);
        if accepted {
          FirstIndexIs(names, (n: string) => ExactAccepts(files, n, mc), i);
          return Some(names[i]);
        }
        i := i + 1;
      }
      return None;
    }

    /** The second loop of `check_existing_forge`. */
    static method FindScanned(files: map<string, JsonFile>, dirs: seq<string>, mc: string) returns (r: Option<string>)
      ensures r == ScanMatch(files, dirs, mc)
    {
      var i := 0;
      while i < |dirs|
        invariant 0 <= i <= |dirs|
        invariant forall j :: 0 <= j < i ==> !ScanAccepts(files, dirs[j], mc)
      {
        var accepted := AcceptsScanned(files, dirs[i], mc);
        if accepted {
          FirstIndexIs(dirs, (n: string) => ScanAccepts(files, n, mc), i);
          return Some(dirs[i]);
        }
        i := i + 1;
      }
      return None;
    }

    /** `check_existing_forge`: the exactly named candidates first, then every
        directory of `versions`; `dir == None` when that directory is missing. */
    method CheckExistingForge(dir: Option<VersionsDir>) returns (found: bool)
      requires Valid()
      modifies this`versionName
      ensures Valid()
      ensures dir.None? ==> !found && versionName == old(versionName)
      ensures dir.Some? ==>
                var r := ExistingForge(dir.value, old(versionName), mcVersion, forgeVersion);
                found == r.Some? && versionName == (if r.Some? then r.value else old(versionName))
    {
      if dir.None? {
        return false;
      }
      var names := ExistingCandidates(versionName, mcVersion, forgeVersion);
      var r := FindExact(dir.value.files, names, mcVersion);
      if r.None? {
        r := FindScanned(dir.value.files, dir.value.dirs, mcVersion);
      }
      if r.Some? {
        versionName := r.value;
        return true;
      }
      return false;
    }

    /** `download_installer`. `served` is the set of URLs that answer 200
        with an installer larger than 100000 bytes; the result is the URL the
        installer came from. When every URL fails, the build offered by the
        promotions replaces the current one and the download starts over.
        Should that round fail as well, the source keeps retrying the same
        URLs with the same build until Python's recursion limit ends the
        retries with no installer. */
    method DownloadInstaller(promos: Option<Promos>, served: set<string>) returns (r: Option<string>)
      requires Valid()
      modifies this`forgeVersion, this`format, this`versionName
      ensures Valid()
      ensures !isRunning ==> r.None? && forgeVersion == old(forgeVersion) && versionName == old(versionName)
      ensures isRunning ==>
                var first := FirstServed(DownloadUrls(mcVersion, old(forgeVersion), major), served);
                var info := PromoInfo(mcVersion, promos);
                if first.Some? then r == first && forgeVersion == old(forgeVersion) && versionName == old(versionName)
                else if info.None? || info.value == "" then r.None? && forgeVersion == old(forgeVersion) && versionName == old(versionName)
                else forgeVersion == info.value && versionName == format.versionName &&
                     r == FirstServed(DownloadUrls(mcVersion, info.value, major), served)
    {
      if !isRunning {
        return None;
      }
      var mc, fv, m := mcVersion, forgeVersion, major;
      r := TryUrls(DownloadUrls(mc, fv, m), served);
      if r.Some? {
        return;
      }
      var info := GetForgeVersionInfo(mc, promos);
      if info.Some? && info.value != "" {
        r := TryUrls(DownloadUrls(mc, info.value, m), served);
        forgeVersion := info.value;
        DetermineForgeFormat();
      }
    }

    /** The search of `create_legacy_forge_profile` for a Forge library in
        the three search paths (`bases`, each `None` when the path does not
        exist). `jars` holds (path index, directory, jar name) for every jar
        present. Once a library is found, later search paths only look at
        their first matching directory, which may replace the find. */
    method FindForgeLibrary(bases: seq<Option<seq<string>>>, jars: set<(nat, string, string)>)
      returns (lib: Option<string>)
      ensures lib == SearchPaths(bases, jars, mcVersion, forgeVersion, 0, None)
      ensures lib.None? <==> forall b: nat, k: nat :: !JarWitness(bases, jars, mcVersion, forgeVersion, b, k)
      ensures lib.Some? ==> exists b: nat, k: nat :: JarWitness(bases, jars, mcVersion, forgeVersion, b, k) &&
                                                   lib.value == ForgeLibPrefix + bases[b].value[k]
    {
      lib := None;
      var b := 0;
      while b < |bases|
        invariant 0 <= b <= |bases|
        invariant SearchPaths(bases, jars, mcVersion, forgeVersion, b, lib) ==
                  SearchPaths(bases, jars, mcVersion, forgeVersion, 0, None)
      {
        if bases[b].Some? && |bases[b].value| > 0 {
          var versions := bases[b].value;
          ghost var before := lib;
          var i := 0;
          var stop := false;
          while i < |versions| && !stop
            invariant 0 <= i <= |versions|
            invariant stop ==> lib == SearchPath(bases, jars, mcVersion, forgeVersion, b, 0, before)
            invariant !stop ==> SearchPath(bases, jars, mcVersion, forgeVersion, b, i, lib) ==
                                SearchPath(bases, jars, mcVersion, forgeVersion, b, 0, before)
            decreases !stop, |versions| - i
          {
            var candidate := versions[i];
            if Contains(candidate, mcVersion) || Contains(candidate, forgeVersion) {
              var jarNames := JarNames(candidate, mcVersion, forgeVersion);
              var found := false;
              var t := 0;
              while t < |jarNames| && !found
                invariant 0 <= t <= |jarNames|
                invariant found <==> exists u :: 0 <= u < t && (b, candidate, jarNames[u]) in jars
              {
                if (b, candidate, jarNames[t]) in jars {
                  found := true;
                }
                t := t + 1;
              }
              if found {
                assert JarWitness(bases, jars, mcVersion, forgeVersion, b, i);
                lib := Some(ForgeLibPrefix + candidate);
                stop := true;
              } else {
                assert !JarWitness(bases, jars, mcVersion, forgeVersion, b, i);
                if lib.Some? {
                  stop := true;
                } else {
                  i := i + 1;
                }
              }
            } else {
              i := i + 1;
            }
          }
        }
        b := b + 1;
      }
      SearchPathsWitness(bases, jars, mcVersion, forgeVersion, 0, None);
    }

    method CreateLegacyForgeProfile(bases: seq<Option<seq<string>>>, jars: set<(nat, string, string)>)
      returns (p: Profile)
      ensures p == LegacyProfile(versionName, mcVersion, forgeVersion, format.mainClass, major,
                                 SearchPaths(bases, jars, mcVersion, forgeVersion, 0, None))
      ensures SearchPaths(bases, jars, mcVersion, forgeVersion, 0, None).None? <==>
              forall b: nat, k: nat :: !JarWitness(bases, jars, mcVersion, forgeVersion, b, k)
      ensures SearchPaths(bases, jars, mcVersion, forgeVersion, 0, None).Some? ==>
              exists b: nat, k: nat :: JarWitness(bases, jars, mcVersion, forgeVersion, b, k) &&
                                      SearchPaths(bases, jars, mcVersion, forgeVersion, 0, None).value ==
                                        ForgeLibPrefix + bases[b].value[k]
    {
      var lib := FindForgeLibrary(bases, jars);
      p := LegacyProfile(versionName, mcVersion, forgeVersion, format.mainClass, major, lib);
    }

    /** One directory of `fix_forge_profile` for a legacy install: a
        matching, readable profile is replaced by its repair when that
        differs from it. */
    static method FixOne(files: map<string, JsonFile>, name: string, mc: string, major: int)
      returns (out: map<string, JsonFile>)
      ensures out == if ForgeDirFor(name, mc) && name in files then files[name := FixedFile(files[name], mc, major)] else files
    {
      out := files;
      if ForgeDirFor(name, mc) && name in files && files[name].Parsed? {
        var fixed, modified := RepairProfile(files[name].profile, mc, major);
        if modified {
          out := files[name := Parsed(fixed)];
        }
      }
      assert ForgeDirFor(name, mc) && name in files ==> out == files[name := FixedFile(files[name], mc, major)];
    }

    /** `fix_forge_profile` over the whole `versions` directory: the new
        profile files. A modern install returns at the first matching profile
        without touching anything. */
    method FixForgeProfile(dir: VersionsDir) returns (files: map<string, JsonFile>)
      requires Valid()
      ensures files == if format.isModern then dir.files else FixedFiles(dir.dirs, dir.files, mcVersion, major)
    {
      files := dir.files;
      if format.isModern {
        // The source returns at the first Forge profile it reads, having
        // written nothing.
        return;
      }
      var mc, m := mcVersion, major;
      ghost var done: set<string> := {};
      var i := 0;
      while i < |dir.dirs|
        invariant 0 <= i <= |dir.dirs|
        invariant forall k :: 0 <= k < i ==> dir.dirs[k] in done
        invariant forall n :: n in done ==> n in dir.dirs
        invariant RepairedAmong(files, dir.files, done, mc, m)
      {
        var name := dir.dirs[i];
        var out := FixOne(files, name, mc, m);
        RepairedAmongStep(files, dir.files, done, name, mc, m, out);
        files, done := out, done + {name};
        i := i + 1;
      }
      forall n | n in dir.dirs
        ensures n in done
      {
        var k :| 0 <= k < |dir.dirs| && dir.dirs[k] == n;
      }
      RepairedAmongAll(files, dir, done, mc, m);
    }

    /** `create_missing_forge_profile(c)`: nothing for a modern install;
        otherwise the written profile, whose name becomes the version name. */
    method CreateMissingForgeProfile(c: string) returns (ok: bool, p: Option<Profile>)
      requires Valid()
      modifies this`versionName
      ensures Valid()
      ensures ok <==> !format.isModern
      ensures !ok ==> p.None? && versionName == old(versionName)
      ensures ok ==> p == Some(MissingProfile(mcVersion, c, format.mainClass, major)) &&
                     versionName == mcVersion + "-forge-" + c
    {
      if format.isModern {
        return false, None;
      }
      p := Some(MissingProfile(mcVersion, c, format.mainClass, major));
      versionName := mcVersion + "-forge-" + c;
      ok := true;
    }
  }
}
