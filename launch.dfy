/** The launch side of the main window: the loader a version name stands
    for, the version names the window expects the installers to produce, the
    search for an installed version, the game version read back out of a
    version name, the options handed to the command builder (main class, JVM
    and game arguments), and the reading of a crashed game's error output.
    Java's own version, the version directory and the profile files are
    parameters. */
module Launch {
  import opened Text
  import opened McVersion
  import opened Config
  import opened VersionJson
  import opened Forge
  import Fabric
  import opened GameVersion

  datatype Loader = ForgeLoader | FabricLoader | VanillaLoader

  /** The loader of a version name: Forge is tested first, both in any case. */
  function DetectLoader(name: string): (l: Loader)
    ensures l == ForgeLoader <==> ContainsCI(name, "forge")
    ensures l == FabricLoader <==> !ContainsCI(name, "forge") && ContainsCI(name, "fabric")
    ensures l == VanillaLoader <==> !ContainsCI(name, "forge") && !ContainsCI(name, "fabric")
  {
    if ContainsCI(name, "forge") then ForgeLoader
    else if ContainsCI(name, "fabric") then FabricLoader
    else VanillaLoader
  }

  function Label(l: Loader): string {
    match l
    case ForgeLoader => "Forge"
    case FabricLoader => "Fabric"
    case VanillaLoader => "Vanilla"
  }

  /** `get_version_type`, written separately in the source, names the same
      loader as the detection `run_game` does. */
  function VersionType(name: string): (t: string)
    ensures t == Label(DetectLoader(name))
  {
    if ContainsCI(name, "forge") then "Forge"
    else if ContainsCI(name, "fabric") then "Fabric"
    else "Vanilla"
  }

  /** Every name the Forge installer gives its version is launched as Forge. */
  lemma ForgeInstallIsDetected(mc: string, fv: string, major: int)
    ensures DetectLoader(DetermineFormat(mc, fv, major).versionName) == ForgeLoader
  {
    FormatNameIsScanned(mc, fv, major);
    ForgeSpellingRedundant(DetermineFormat(mc, fv, major).versionName);
  }

  /** A name the Fabric installer gives its version is never launched as
      vanilla (it is Forge only if the game version itself says "forge"). */
  lemma FabricInstallIsNotVanilla(mc: string)
    ensures DetectLoader(Fabric.VersionName(mc)) != VanillaLoader
  {
    var name := Fabric.VersionName(mc);
    assert name == "fabric-loader-" + Fabric.LoaderVersion(mc) + "-" + mc;
    assert name[..6] == "fabric";
    LowerFabric();
    ContainsCIAt(name, 0, "fabric", "fabric");
  }

  // ---------------------------------------------------------------------
  // The names the window expects

  /** The branches of `get_forge_version_name` for a given build and major. */
  function ForgeNameFor(mc: string, fv: string, major: int): (name: string)
    ensures mc + "-" <= name
  {
    if major >= 13 then mc + "-forge-" + fv
    else if mc == "1.7.10" then mc + "-Forge" + fv + "-" + mc
    else if '-' in fv then mc + "-Forge" + fv
    else mc + "-Forge" + fv + "-" + mc
  }

  /** `get_forge_version_name`; `None` where parsing the major number raises. */
  function ForgeVersionName(mc: string): (r: Option<string>)
    ensures r.Some? <==> ParseMajor(mc).Some?
    ensures r.Some? ==> r.value == ForgeNameFor(mc, RecommendedForge(mc), ParseMajor(mc).value)
  {
    match ParseMajor(mc)
    case None => None
    case Some(major) => Some(ForgeNameFor(mc, RecommendedForge(mc), major))
  }

  /** The window's Forge name is the installer's one, except before 1.8 for
      a build with a '-' (see `ForgeNamesDisagree`). */
  lemma ForgeNamesAgree(mc: string, fv: string, major: int)
    requires ParseMajor(mc) == Some(major)
    requires major >= 8 || mc == "1.7.10" || '-' !in fv
    ensures ForgeNameFor(mc, fv, major) == DetermineFormat(mc, fv, major).versionName
  {
    if mc == "1.7.10" {
      Parse1710();
    }
  }

  lemma ForgeNamesDisagree(mc: string, fv: string, major: int)
    requires major < 8 && mc != "1.7.10" && '-' in fv
    ensures ForgeNameFor(mc, fv, major) != DetermineFormat(mc, fv, major).versionName
  {
    assert |DetermineFormat(mc, fv, major).versionName| > |ForgeNameFor(mc, fv, major)|;
  }

  /** Only two builds in the Forge table contain a '-'. */
  lemma DashedTableBuilds(mc: string)
    requires mc in ForgeVersions && '-' in ForgeVersions[mc]
    ensures mc == "1.7.10" || mc == "1.8.9"
  {
    if mc in {"1.12.2", "1.13.2", "1.14.4", "1.15.2", "1.16.5", "1.17.1", "1.18.2"} {
      DashFreeOlderBuilds(mc);
    } else if mc in {"1.19.2", "1.19.4", "1.20.1", "1.20.4", "1.20.6", "1.21", "1.21.1", "1.21.4"} {
      DashFreeNewerBuilds(mc);
    }
  }

  lemma DashFreeOlderBuilds(mc: string)
    requires mc in {"1.12.2", "1.13.2", "1.14.4", "1.15.2", "1.16.5", "1.17.1", "1.18.2"}
    ensures mc in ForgeVersions && '-' !in ForgeVersions[mc]
  {
  }

  lemma DashFreeNewerBuilds(mc: string)
    requires mc in {"1.19.2", "1.19.4", "1.20.1", "1.20.4", "1.20.6", "1.21", "1.21.1", "1.21.4"}
    ensures mc in ForgeVersions && '-' !in ForgeVersions[mc]
  {
  }

  /** For every game version of the Forge table the window's name is the
      installer's name for the table build. */
  lemma TableForgeNamesAgree(mc: string)
    requires mc in ForgeVersions && ParseMajor(mc).Some?
    ensures ForgeVersionName(mc) == Some(DetermineFormat(mc, ForgeVersions[mc], ParseMajor(mc).value).versionName)
  {
    var fv := ForgeVersions[mc];
    var major := ParseMajor(mc).value;
    assert RecommendedForge(mc) == fv;
    if '-' in fv {
      DashedTableBuilds(mc);
      if mc == "1.8.9" {
        Parse189();
      }
    }
    ForgeNamesAgree(mc, fv, major);
  }

  lemma Parse189()
    ensures ParseMajor("1.8.9") == Some(8)
  {
    EightAndNine();
    assert "1.8.9" == "1." + "8" + "." + "9";
    ParseDotted("1.8.9", "8", "9");
  }

  lemma EightAndNine()
    ensures AllDigits("8") && |"8"| > 0 && DigitsValue("8") == 8
    ensures AllDigits("9") && |"9"| > 0 && DigitsValue("9") == 9
  {
    assert "8"[..0] == [] && "9"[..0] == [];
  }

  /** `get_fabric_version_name` */
  function FabricVersionName(mc: string): (name: string)
    ensures "fabric-loader-" <= name
    ensures |name| > |mc| && name[|name| - |mc| - 1..] == "-" + mc
  {
    var name := "fabric-loader-" + RecommendedFabric(mc) + "-" + mc;
    assert name == "fabric-loader-" + (RecommendedFabric(mc) + "-" + mc);
    assert name == ("fabric-loader-" + RecommendedFabric(mc)) + ("-" + mc);
    name
  }

  /** The window and the Fabric installer agree on the name of a version in
      the Fabric table ... */
  lemma FabricNamesAgreeOnTable(mc: string)
    requires mc in FabricVersions
    ensures FabricVersionName(mc) == Fabric.VersionName(mc)
  {
  }

  /** ... and disagree on every other version, because their fall-back
      loader builds differ. */
  lemma FabricNamesDisagreeOffTable(mc: string)
    requires mc !in FabricVersions
    ensures FabricVersionName(mc) != Fabric.VersionName(mc)
  {
    assert |FabricVersionName(mc)| != |Fabric.VersionName(mc)|;
  }

  // ---------------------------------------------------------------------
  // Finding an installed version

  /** The filter of `find_correct_version`: the name contains the base
      version, both lower-cased, and passes the loader's test. */
  function IsCandidate(name: string, base: string, loader: Loader): (ok: bool)
    ensures ok && loader != FabricLoader ==> DetectLoader(name) == loader
  {
    var lower := Lower(name);
    Contains(lower, Lower(base)) &&
    match loader
    case ForgeLoader => Contains(lower, "forge")
    case FabricLoader => Contains(lower, "fabric")
    case VanillaLoader => !Contains(lower, "forge") && !Contains(lower, "fabric")
  }

  /** The candidates in directory order. */
  function Candidates(dirs: seq<string>, base: string, loader: Loader): (c: seq<string>)
    ensures forall x :: x in c <==> x in dirs && IsCandidate(x, base, loader)
    ensures |c| <= |dirs|
  {
    Filter(dirs, name => IsCandidate(name, base, loader))
  }

  lemma CandidatesAppend(dirs: seq<string>, name: string, base: string, loader: Loader)
    ensures Candidates(dirs + [name], base, loader) ==
            Candidates(dirs, base, loader) + (if IsCandidate(name, base, loader) then [name] else [])
  {
    FilterAppend(dirs, name, n => IsCandidate(n, base, loader));
    assert (n => IsCandidate(n, base, loader)) == (name => IsCandidate(name, base, loader));
  }

  /** The index of `candidates[0]` after `sort(key=len, reverse=True)`:
      the sort is stable, so that is the first of the longest candidates. */
  function LongestIndex(c: seq<string>): (j: nat)
    requires c != []
    ensures j < |c|
    ensures forall k :: 0 <= k < |c| ==> |c[k]| <= |c[j]|
    ensures forall k :: 0 <= k < j ==> |c[k]| < |c[j]|
    decreases |c|
  {
    if |c| == 1 then 0
    else
      var j := LongestIndex(c[..|c| - 1]);
      if |c[|c| - 1]| > |c[j]| then |c| - 1 else j
  }

  /** `find_correct_version`; `dirs == None` when the versions directory
      does not exist. */
  function FindCorrect(dirs: Option<seq<string>>, base: string, loader: Loader): (r: Option<string>)
    ensures dirs.None? ==> r.None?
    ensures dirs.Some? ==> (r.None? <==> forall x :: x in dirs.value ==> !IsCandidate(x, base, loader))
    ensures r.Some? ==> r.value in dirs.value && IsCandidate(r.value, base, loader)
    ensures r.Some? ==> forall x :: x in dirs.value && IsCandidate(x, base, loader) ==> |x| <= |r.value|
  {
    if dirs.None? then None
    else
      var c := Candidates(dirs.value, base, loader);
      if c == [] then None
      else
        assert c[0] in c;
        Some(c[LongestIndex(c)])
  }

  /** The directory scan and the sort, done as in the source: the
      candidates are collected in directory order, then the first of the
      longest is taken. */
  method FindCorrectVersion(dirs: Option<seq<string>>, base: string, loader: Loader) returns (r: Option<string>)
    ensures r == FindCorrect(dirs, base, loader)
  {
    if dirs.None? {
      return None;
    }
    var candidates := CollectCandidates(dirs.value, base, loader);
    if candidates == [] {
      return None;
    }
    var best := PickLongest(candidates);
    return Some(candidates[best]);
  }

  /** The loop of `find_correct_version` over the version directories. */
  method CollectCandidates(ds: seq<string>, base: string, loader: Loader) returns (candidates: seq<string>)
    ensures candidates == Candidates(ds, base, loader)
  {
    candidates := [];
    var i := 0;
    while i < |ds|
      invariant 0 <= i <= |ds|
      invariant candidates == Candidates(ds[..i], base, loader)
    {
      CandidatesAppend(ds[..i], ds[i], base, loader);
      assert ds[..i + 1] == ds[..i] + [ds[i]];
      if IsCandidate(ds[i], base, loader) {
        candidates := candidates + [ds[i]];
      }
      i := i + 1;
    }
    assert ds[..i] == ds;
  }

  /** The stable sort by length, longest first, of which only the head is
      used: the index of the first of the longest candidates. */
  method PickLongest(candidates: seq<string>) returns (best: nat)
    requires candidates != []
    ensures best == LongestIndex(candidates)
  {
    best := 0;
    var k := 1;
    while k < |candidates|
      invariant 1 <= k <= |candidates|
      invariant best == LongestIndex(candidates[..k])
    {
      assert candidates[..k + 1][..k] == candidates[..k];
      if |candidates[k]| > |candidates[best]| {
        best := k;
      }
      k := k + 1;
    }
    assert candidates[..k] == candidates;
  }

  // ---------------------------------------------------------------------
  // The game version behind the launched name

  /** The corrected reading of a name gives back the game version of every
      Forge install name ... */
  lemma ForgeInstallVersionIsRead(mc: string, fv: string, major: int, original: Option<string>)
    requires '-' !in mc && LooksLikeGameVersion(mc)
    ensures BaseVersion(DetermineFormat(mc, fv, major).versionName, original) == mc
  {
    LeadingVersionIsRead(mc, ForgeNameRest(mc, fv, major), original);
  }

  /** What follows the game version and its dash in every Forge install name. */
  function ForgeNameRest(mc: string, fv: string, major: int): (rest: string)
    ensures DetermineFormat(mc, fv, major).versionName == mc + "-" + rest
  {
    if major >= 13 then "forge-" + fv
    else if 8 <= major && '-' in fv then "Forge" + fv
    else "Forge" + fv + "-" + mc
  }

  /** ... and of every Fabric install name. */
  lemma FabricInstallVersionIsRead(mc: string, original: Option<string>)
    requires '-' !in mc && LooksLikeGameVersion(mc)
    ensures BaseVersion(Fabric.VersionName(mc), original) == mc
  {
    LoaderBuildsStartWithZero(mc);
    FabricVersionIsRead(Fabric.LoaderVersion(mc), mc, original);
  }

  /** Every loader build the Fabric installer can choose is "0.<...>". */
  lemma LoaderBuildsStartWithZero(mc: string)
    ensures |Fabric.LoaderVersion(mc)| >= 2 && Fabric.LoaderVersion(mc)[0] == '0'
    ensures '-' !in Fabric.LoaderVersion(mc)
  {
    if mc in FabricVersions {
      assert FabricVersions[mc] in {"0.16.9", "0.15.11", "0.14.25"};
    }
  }

  // ---------------------------------------------------------------------
  // JVM arguments

  /** `max(512, memory_mb // 2)`; Python's floor division equals Dafny's
      for the positive divisor 2. */
  function InitialHeap(memory: int): int {
    if memory / 2 > 512 then memory / 2 else 512
  }

  /** `-Xmx{m}M`, `-Xms{max(512, m // 2)}M` */
  function HeapFlags(memory: int): seq<string> {
    ["-Xmx" + IntToString(memory) + "M", "-Xms" + IntToString(InitialHeap(memory)) + "M"]
  }

  /** The initial heap never exceeds the maximum for any memory of 512 MB
      or more, and over the settings slider's range (2048 to 16384 MB) it is
      exactly half of it. */
  lemma InitialHeapBounds(memory: int)
    requires memory >= 512
    ensures 512 <= InitialHeap(memory) <= memory
    ensures memory >= 1024 ==> InitialHeap(memory) == memory / 2 && 2 * InitialHeap(memory) <= memory < 2 * InitialHeap(memory) + 2
  {
  }

  /** The number written into each heap flag reads back as the intended
      amount. */
  lemma HeapFlagsRoundTrip(memory: int)
    ensures HeapFlags(memory)[0][4..|HeapFlags(memory)[0]| - 1] == IntToString(memory)
    ensures ParseInt(HeapFlags(memory)[1][4..|HeapFlags(memory)[1]| - 1]) == Some(InitialHeap(memory))
  {
    var a := IntToString(memory);
    var b := IntToString(InitialHeap(memory));
    assert ("-Xmx" + a + "M")[4..|a| + 4] == a;
    assert ("-Xms" + b + "M")[4..|b| + 4] == b;
  }

  const CommonFlags: seq<string> := [
    "-Djava.awt.headless=false",
    "-Dminecraft.launcher.brand=WONDERFULAND",
    "-Dminecraft.launcher.version=1.0"
  ]

  const Java9Opens: seq<string> := [
    "--add-opens=java.base/java.util.jar=ALL-UNNAMED",
    "--add-opens=java.base/java.lang=ALL-UNNAMED"
  ]

  const ModernOpens: seq<string> := [
    "--add-opens=java.base/java.security=ALL-UNNAMED",
    "--add-opens=java.base/java.io=ALL-UNNAMED",
    "--add-opens=java.base/jdk.internal.loader=ALL-UNNAMED",
    "--add-opens=java.base/java.net=ALL-UNNAMED",
    "--add-opens=java.base/java.nio=ALL-UNNAMED"
  ]

  const LegacyForgeFlags: seq<string> := [NoIndevFlag, IgnoreCertsFlag, IgnorePatchFlag]

  const VeryOldForgeFlags: seq<string> := LegacyForgeFlags + ["-Dfml.log.level=INFO"]

  /** The list every launch starts from. */
  function BaseJvm(memory: int, java: int): (r: seq<string>)
    ensures |r| == if java >= 9 then 7 else 5
    ensures r[..2] == HeapFlags(memory) && r[2..5] == CommonFlags
  {
    HeapFlags(memory) + CommonFlags + (if java >= 9 then Java9Opens else [])
  }

  /** The loop that adds the profile's `arguments.jvm` entries: strings not
      yet present are appended in order, rule objects are skipped. */
  function Merge(acc: seq<string>, extra: seq<Arg>): (r: seq<string>)
    ensures |acc| <= |r|
    decreases |extra|
  {
    if extra == [] then acc
    else
      var next := if extra[0].Str? && extra[0].s !in acc then acc + [extra[0].s] else acc;
      Merge(next, extra[1..])
  }

  predicate Distinct(s: seq<string>) {
    forall i, j :: 0 <= i < j < |s| ==> s[i] != s[j]
  }

  /** The merge only appends: the launcher's own flags keep their places. */
  lemma {:induction false} MergeKeepsPrefix(acc: seq<string>, extra: seq<Arg>)
    ensures |acc| <= |Merge(acc, extra)| <= |acc| + |extra|
    ensures Merge(acc, extra)[..|acc|] == acc
    decreases |extra|
  {
    if extra != [] {
      var next := if extra[0].Str? && extra[0].s !in acc then acc + [extra[0].s] else acc;
      MergeKeepsPrefix(next, extra[1..]);
      assert Merge(acc, extra)[..|next|][..|acc|] == next[..|acc|];
    }
  }

  /** An argument ends up in the list exactly when the launcher put it there
      or the profile lists it as a string. */
  lemma {:induction false} MergeMembers(acc: seq<string>, extra: seq<Arg>, x: string)
    ensures x in Merge(acc, extra) <==> x in acc || Str(x) in extra
    decreases |extra|
  {
    if extra != [] {
      var next := if extra[0].Str? && extra[0].s !in acc then acc + [extra[0].s] else acc;
      MergeMembers(next, extra[1..], x);
      assert x in next <==> x in acc || extra[0] == Str(x);
      assert Str(x) in extra <==> extra[0] == Str(x) || Str(x) in extra[1..];
    }
  }

  /** The merge adds no duplicate. */
  lemma {:induction false} MergeDistinct(acc: seq<string>, extra: seq<Arg>)
    requires Distinct(acc)
    ensures Distinct(Merge(acc, extra))
    decreases |extra|
  {
    if extra != [] {
      var next := if extra[0].Str? && extra[0].s !in acc then acc + [extra[0].s] else acc;
      assert Distinct(next);
      MergeDistinct(next, extra[1..]);
    }
  }

  /** A list that already holds every string of the profile is left alone. */
  lemma {:induction false} MergeSaturated(acc: seq<string>, extra: seq<Arg>)
    requires forall i :: 0 <= i < |extra| && extra[i].Str? ==> extra[i].s in acc
    ensures Merge(acc, extra) == acc
    decreases |extra|
  {
    if extra != [] {
      assert extra[0].Str? ==> extra[0].s in acc;
      MergeSaturated(acc, extra[1..]);
    }
  }

  /** Merging the same profile list twice is merging it once, so the
      skipped second merge of the modern Forge path loses nothing. */
  lemma MergeIdempotent(acc: seq<string>, extra: seq<Arg>)
    ensures Merge(Merge(acc, extra), extra) == Merge(acc, extra)
  {
    forall i | 0 <= i < |extra| && extra[i].Str?
      ensures extra[i].s in Merge(acc, extra)
    {
      assert extra[i] == Str(extra[i].s);
      MergeMembers(acc, extra, extra[i].s);
    }
    MergeSaturated(Merge(acc, extra), extra);
  }

  /** The `for arg in ...: if isinstance(arg, str) and arg not in jvm_args`
      loop. */
  method MergeJvm(jvm: seq<string>, extra: seq<Arg>) returns (r: seq<string>)
    ensures r == Merge(jvm, extra)
  {
    r := jvm;
    var i := 0;
    while i < |extra|
      invariant 0 <= i <= |extra|
      invariant Merge(r, extra[i..]) == Merge(jvm, extra)
    {
      assert extra[i..][1..] == extra[i + 1..];
      if extra[i].Str? && extra[i].s !in r {
        r := r + [extra[i].s];
      }
      i := i + 1;
    }
  }

  // ---------------------------------------------------------------------
  // The options handed to the command builder

  /** The options `run_game` fills in (the player's UUID, the token and the
      launcher's name and version are fixed strings or a hash and are not
      modelled). `None` is a key left out of the dictionary. */
  datatype LaunchOptions = LaunchOptions(
    username: string,
    mainClass: Option<string>,
    gameArguments: Option<seq<Arg>>,
    jvmArguments: seq<string>,
    executablePath: Option<string>)

  /** Modern Forge: the loader is Forge and the game is 1.13 or later. */
  predicate IsModernForge(loader: Loader, major: int) {
    loader == ForgeLoader && major >= 13
  }

  /** The flags each loader adds after the common ones, outside modern Forge. */
  function LoaderFlags(loader: Loader, major: int): (flags: seq<string>)
    ensures flags == [] <==> loader == VanillaLoader
    ensures loader == ForgeLoader ==> |flags| >= 3 && flags[..2] == [NoIndevFlag, IgnoreCertsFlag]
  {
    match loader
    case ForgeLoader => if major >= 8 then LegacyForgeFlags else VeryOldForgeFlags
    case FabricLoader => [Fabric.SkipMcProviderFlag]
    case VanillaLoader => []
  }

  /** The final `jvmArguments`: modern Forge merges the profile's list before
      its own flags, every other launch after them. */
  function JvmArguments(loader: Loader, major: int, memory: int, java: int, p: Profile): (r: seq<string>)
    ensures |r| >= |BaseJvm(memory, java)|
  {
    if IsModernForge(loader, major) then
      Merge(BaseJvm(memory, java), JvmOrEmpty(p)) + (if major >= 17 then ModernOpens else [])
    else
      Merge(BaseJvm(memory, java) + LoaderFlags(loader, major), JvmOrEmpty(p))
  }

  function MainClass(loader: Loader, major: int, p: Profile): (m: Option<string>)
    ensures m.None? <==> loader == VanillaLoader || (IsModernForge(loader, major) && p.mainClass.None?)
    ensures loader == ForgeLoader && major < 13 ==> m == Some(EraMainClass(major))
  {
    match loader
    case ForgeLoader =>
      if major >= 13 then p.mainClass
      else if major >= 8 then Some(LaunchWrapperMain)
      else Some(FmlTweakerMain)
    case FabricLoader => Some(Fabric.KnotClientMain)
    case VanillaLoader => None
  }

  /** The profile's `arguments.game`, when present, replaces what the
      loader's branch put there. */
  function GameArguments(loader: Loader, major: int, p: Profile): (g: Option<seq<Arg>>)
    ensures p.arguments.Some? && p.arguments.value.game.Some? ==> g == p.arguments.value.game
    ensures g.None? <==> (p.arguments.None? || p.arguments.value.game.None?) && !(loader == ForgeLoader && major < 13)
  {
    if p.arguments.Some? && p.arguments.value.game.Some? then p.arguments.value.game
    else if loader == ForgeLoader && major < 13 then
      if major >= 8 then Some([Str("--tweakclass"), Str(FmlTweakerMain)]) else Some([])
    else None
  }

  function OptionsFor(username: string, loader: Loader, major: int, memory: int, java: int, javaPath: string, p: Profile): (o: LaunchOptions)
    ensures o.username == username
    ensures o.executablePath == if javaPath != "" then Some(javaPath) else None
    ensures o.mainClass.None? <==> loader == VanillaLoader || (IsModernForge(loader, major) && p.mainClass.None?)
    ensures |o.jvmArguments| >= 2 && o.jvmArguments[..2] == HeapFlags(memory)
    ensures forall x :: Str(x) in JvmOrEmpty(p) ==> x in o.jvmArguments
  {
    JvmArgumentsSources(loader, major, memory, java, p);
    LaunchOptions(username, MainClass(loader, major, p), GameArguments(loader, major, p),
                  JvmArguments(loader, major, memory, java, p),
                  if javaPath != "" then Some(javaPath) else None)
  }

  /** The part of `run_game` that fills in the options. */
  method ConfigureLaunch(username: string, loader: Loader, major: int, memory: int, java: int,
                         javaPath: string, p: Profile) returns (o: LaunchOptions)
    ensures o == OptionsFor(username, loader, major, memory, java, javaPath, p)
  {
    var modern := loader == ForgeLoader && major >= 13;
    var mainClass: Option<string> := None;
    var gameArguments: Option<seq<Arg>> := None;
    var jvm := HeapFlags(memory) + CommonFlags;
    if java >= 9 {
      jvm := jvm + Java9Opens;
    }
    assert jvm == BaseJvm(memory, java);
    if loader == ForgeLoader {
      if modern {
        if p.mainClass.Some? {
          mainClass := p.mainClass;
        }
        if p.arguments.Some? && p.arguments.value.jvm.Some? {
          jvm := MergeJvm(jvm, p.arguments.value.jvm.value);
        }
        if major >= 17 {
          jvm := jvm + ModernOpens;
        }
      } else if major >= 8 {
        mainClass := Some(LaunchWrapperMain);
        gameArguments := Some([Str("--tweakclass"), Str(FmlTweakerMain)]);
        jvm := jvm + LegacyForgeFlags;
      } else {
        mainClass := Some(FmlTweakerMain);
        gameArguments := Some([]);
        jvm := jvm + VeryOldForgeFlags;
      }
    } else if loader == FabricLoader {
      mainClass := Some(Fabric.KnotClientMain);
      jvm := jvm + [Fabric.SkipMcProviderFlag];
    } else {
      assert jvm + LoaderFlags(loader, major) == jvm;
    }
    var executablePath := if javaPath != "" then Some(javaPath) else None;
    if p.arguments.Some? {
      if p.arguments.value.jvm.Some? && !modern {
        jvm := MergeJvm(jvm, p.arguments.value.jvm.value);
      }
      if p.arguments.value.game.Some? {
        gameArguments := p.arguments.value.game;
      }
    }
    o := LaunchOptions(username, mainClass, gameArguments, jvm, executablePath);
  }

  /** Every launch starts with the heap flags, passes every string of the
      profile's `arguments.jvm`, and passes nothing that is neither the
      launcher's own flag nor in the profile. */
  lemma JvmArgumentsSources(loader: Loader, major: int, memory: int, java: int, p: Profile)
    ensures JvmArguments(loader, major, memory, java, p)[..2] == HeapFlags(memory)
    ensures forall x :: Str(x) in JvmOrEmpty(p) ==> x in JvmArguments(loader, major, memory, java, p)
    ensures forall x :: x in JvmArguments(loader, major, memory, java, p) ==>
              x in BaseJvm(memory, java) || x in LoaderFlags(loader, major) || x in ModernOpens || Str(x) in JvmOrEmpty(p)
  {
    var base := BaseJvm(memory, java);
    var extra := JvmOrEmpty(p);
    var own := if IsModernForge(loader, major) then base else base + LoaderFlags(loader, major);
    var merged := Merge(own, extra);
    var tail := if IsModernForge(loader, major) && major >= 17 then ModernOpens else [];
    var r := JvmArguments(loader, major, memory, java, p);
    assert r == merged + tail;
    MergeKeepsPrefix(own, extra);
    assert r[..2] == merged[..|own|][..2] == own[..2] == base[..2];
    forall x | Str(x) in extra
      ensures x in r
    {
      MergeMembers(own, extra, x);
    }
    forall x | x in r
      ensures x in base || x in LoaderFlags(loader, major) || x in ModernOpens || Str(x) in extra
    {
      if x in merged {
        MergeMembers(own, extra, x);
      }
    }
  }

  /** The main class of a Forge launch before 1.13 is the one the installer
      chose for that era; from 1.13 on it is the one the profile names, and
      `fix_forge_profile` leaves a modern profile's main class alone. */
  lemma ForgeMainClassMatchesInstaller(mc: string, fv: string, major: int, p: Profile)
    ensures major < 13 ==> MainClass(ForgeLoader, major, p) == Some(DetermineFormat(mc, fv, major).mainClass)
    ensures major >= 13 ==> MainClass(ForgeLoader, major, p) == p.mainClass
  {
  }

  /** Launching the profile the Fabric installer writes: its main class is
      the launcher's, its skip flag is not passed twice, and its empty game
      list replaces nothing useful. */
  lemma FabricProfileLaunch(mc: string, name: string, loaderBuild: string, major: int, memory: int, java: int)
    ensures MainClass(FabricLoader, major, Fabric.FabricProfile(mc, name, loaderBuild)) ==
            Fabric.FabricProfile(mc, name, loaderBuild).mainClass
    ensures JvmArguments(FabricLoader, major, memory, java, Fabric.FabricProfile(mc, name, loaderBuild)) ==
            BaseJvm(memory, java) + [Fabric.SkipMcProviderFlag]
    ensures GameArguments(FabricLoader, major, Fabric.FabricProfile(mc, name, loaderBuild)) == Some([])
  {
    var own := BaseJvm(memory, java) + [Fabric.SkipMcProviderFlag];
    var extra := [Str(Fabric.SkipMcProviderFlag)];
    assert Fabric.SkipMcProviderFlag in own;
    assert Merge(own, extra) == Merge(own, extra[1..]);
  }

  /** With the name reading as written, a Forge 1.21 install is launched
      through FMLTweaker, the main class of the very old era, although the
      installer set it up for the modern launcher; the corrected reading
      launches it with the profile's main class. */
  lemma Forge121LaunchAsWritten(p: Profile)
    ensures DetermineFormat("1.21", "51.0.33", 21).mainClass == ModLauncherMain
    ensures ParseMajor(BaseVersionAsWritten("1.21-forge-51.0.33", Some("1.21"))) == Some(0)
    ensures MainClass(ForgeLoader, 0, p) == Some(FmlTweakerMain)
    ensures p.arguments.None? ==> GameArguments(ForgeLoader, 0, p) == Some([])
    ensures LoaderFlags(ForgeLoader, 0) == VeryOldForgeFlags
  {
    ForgeName121ReadsAsBuild();
  }

  /** The corrected reading of the same name gives 1.21, whose launch keeps
      the profile's main class. */
  lemma Forge121LaunchCorrected(p: Profile)
    ensures ParseMajor(BaseVersion("1.21-forge-51.0.33", Some("1.21"))) == Some(21)
    ensures MainClass(ForgeLoader, 21, p) == p.mainClass
  {
    ForgeName121ReadsLeading();
    Major121();
  }

  // ---------------------------------------------------------------------
  // From the chosen name to the options

  /** `versions/<name>/<name>.json` exists. */
  predicate JsonExists(versions: Option<VersionsDir>, name: string) {
    versions.Some? && name in versions.value.files
  }

  function Dirs(versions: Option<VersionsDir>): Option<seq<string>> {
    if versions.Some? then Some(versions.value.dirs) else None
  }

  /** The name actually launched: the chosen one when its profile exists,
      otherwise the installed version found for the picked game version,
      if any. */
  function Resolve(versions: Option<VersionsDir>, versionName: string, original: Option<string>): (actual: string)
    ensures JsonExists(versions, versionName) ==> actual == versionName
    ensures actual != versionName ==>
              original.Some? && versions.Some? && actual in versions.value.dirs &&
              IsCandidate(actual, original.value, DetectLoader(versionName))
  {
    if !JsonExists(versions, versionName) && original.Some? && original.value != "" then
      match FindCorrect(Dirs(versions), original.value, DetectLoader(versionName))
      case Some(found) => found
      case None => versionName
    else versionName
  }

  /** The profile read for the launch; one that does not parse is `{}`. */
  function ProfileOf(versions: Option<VersionsDir>, name: string): (p: Profile)
    requires JsonExists(versions, name)
    ensures versions.value.files[name].Parsed? ==> p == versions.value.files[name].profile
    ensures versions.value.files[name].Unreadable? ==> p == EmptyProfile
  {
    match versions.value.files[name]
    case Parsed(p) => p
    case Unreadable => EmptyProfile
  }

  /** The fall-back search of `run_game` for a name without a profile. */
  method ResolveVersion(versions: Option<VersionsDir>, versionName: string, original: Option<string>)
    returns (actual: string)
    ensures actual == Resolve(versions, versionName, original)
  {
    actual := versionName;
    if !JsonExists(versions, actual) && original.Some? && original.value != "" {
      var found := FindCorrectVersion(Dirs(versions), original.value, DetectLoader(versionName));
      if found.Some? {
        actual := found.value;
      }
    }
  }

  datatype LaunchPlan =
    | VersionNotFound(name: string)
    | BadVersion(mc: string)            // `int()` of the major field raises
    | Ready(actual: string, mc: string, major: int, loader: Loader,
            options: LaunchOptions, fetchLaunchWrapper: bool)

  /** The decisions of `run_game` once the launched name is resolved, its
      profile found and its game version `mc` read. */
  method PlanLaunch(versions: Option<VersionsDir>, username: string, memory: int, loader: Loader,
                    actual: string, mc: string, java: int, javaPath: string) returns (r: LaunchPlan)
    requires JsonExists(versions, actual)
    ensures !r.VersionNotFound?
    ensures r.BadVersion? <==> ParseMajor(mc).None?
    ensures r.BadVersion? ==> r.mc == mc
    ensures r.Ready? ==>
              r.actual == actual && r.loader == loader && r.mc == mc && ParseMajor(mc) == Some(r.major) &&
              r.options == OptionsFor(username, loader, r.major, memory, java, javaPath, ProfileOf(versions, actual)) &&
              r.fetchLaunchWrapper == (loader == ForgeLoader && r.major < 8 && mc == "1.7.10")
  {
    var major := ParseMajor(mc);
    if major.None? {
      return BadVersion(mc);
    }
    var profile := ProfileOf(versions, actual);
    var options := ConfigureLaunch(username, loader, major.value, memory, java, javaPath, profile);
    var fetch := loader == ForgeLoader && major.value < 8 && mc == "1.7.10";
    return Ready(actual, mc, major.value, loader, options, fetch);
  }

  /** The decisions of `run_game` up to the command builder, reading the game
      version from the name as the window does. `java` is what the Java probe
      reports for the configured path. */
  method PrepareLaunch(versions: Option<VersionsDir>, username: string, memory: int, versionName: string,
                       original: Option<string>, java: int, javaPath: string) returns (r: LaunchPlan)
    ensures var actual := Resolve(versions, versionName, original);
            (r.VersionNotFound? <==> !JsonExists(versions, actual)) &&
            (r.VersionNotFound? ==> r.name == actual) &&
            (r.BadVersion? <==> JsonExists(versions, actual) && ParseMajor(BaseVersionAsWritten(actual, original)).None?) &&
            (r.Ready? ==>
               r.actual == actual && r.loader == DetectLoader(versionName) &&
               r.mc == BaseVersionAsWritten(actual, original) && ParseMajor(r.mc) == Some(r.major) &&
               r.options == OptionsFor(username, r.loader, r.major, memory, java, javaPath, ProfileOf(versions, actual)) &&
               r.fetchLaunchWrapper == (r.loader == ForgeLoader && r.major < 8 && r.mc == "1.7.10"))
  {
    var loader := DetectLoader(versionName);
    var actual := ResolveVersion(versions, versionName, original);
    if !JsonExists(versions, actual) {
      return VersionNotFound(actual);
    }
    r := PlanLaunch(versions, username, memory, loader, actual, BaseVersionAsWritten(actual, original), java, javaPath);
  }

  /** The same decisions with the game version read as the leading version
      field of the name. */
  method PrepareLaunchCorrected(versions: Option<VersionsDir>, username: string, memory: int, versionName: string,
                                original: Option<string>, java: int, javaPath: string) returns (r: LaunchPlan)
    ensures var actual := Resolve(versions, versionName, original);
            (r.VersionNotFound? <==> !JsonExists(versions, actual)) &&
            (r.VersionNotFound? ==> r.name == actual) &&
            (r.BadVersion? <==> JsonExists(versions, actual) && ParseMajor(BaseVersion(actual, original)).None?) &&
            (r.Ready? ==>
               r.actual == actual && r.loader == DetectLoader(versionName) &&
               r.mc == BaseVersion(actual, original) && ParseMajor(r.mc) == Some(r.major) &&
               r.options == OptionsFor(username, r.loader, r.major, memory, java, javaPath, ProfileOf(versions, actual)) &&
               r.fetchLaunchWrapper == (r.loader == ForgeLoader && r.major < 8 && r.mc == "1.7.10"))
  {
    var loader := DetectLoader(versionName);
    var actual := ResolveVersion(versions, versionName, original);
    if !JsonExists(versions, actual) {
      return VersionNotFound(actual);
    }
    r := PlanLaunch(versions, username, memory, loader, actual, BaseVersion(actual, original), java, javaPath);
  }

  /** With the corrected reading, an installed Forge version is launched
      under its own name, read back as its game version, as Forge, and before
      1.13 with the main class its installer chose. */
  lemma ForgeInstallLaunches(versions: Option<VersionsDir>, mc: string, fv: string, major: int, p: Profile)
    requires '-' !in mc && LooksLikeGameVersion(mc) && ParseMajor(mc) == Some(major)
    requires JsonExists(versions, DetermineFormat(mc, fv, major).versionName)
    ensures var name := DetermineFormat(mc, fv, major).versionName;
            Resolve(versions, name, Some(mc)) == name &&
            BaseVersion(name, Some(mc)) == mc &&
            DetectLoader(name) == ForgeLoader &&
            (major < 13 ==> MainClass(DetectLoader(name), major, p) == Some(DetermineFormat(mc, fv, major).mainClass))
  {
    ForgeInstallVersionIsRead(mc, fv, major, Some(mc));
    ForgeInstallIsDetected(mc, fv, major);
  }

  /** As written, the same holds for game versions with three numbers, such
      as "1.7.10" and "1.20.1", whose leading field passes the window's test. */
  lemma ForgeInstallLaunchesAsWritten(versions: Option<VersionsDir>, mc: string, fv: string, major: int, p: Profile)
    requires '-' !in mc && LooksLikeGameVersion(mc) && CountChar(mc, '.') >= 2 && ParseMajor(mc) == Some(major)
    requires JsonExists(versions, DetermineFormat(mc, fv, major).versionName)
    ensures var name := DetermineFormat(mc, fv, major).versionName;
            Resolve(versions, name, Some(mc)) == name &&
            BaseVersionAsWritten(name, Some(mc)) == mc &&
            DetectLoader(name) == ForgeLoader &&
            (major < 13 ==> MainClass(DetectLoader(name), major, p) == Some(DetermineFormat(mc, fv, major).mainClass))
  {
    AgreesOnThreePartVersions(mc, ForgeNameRest(mc, fv, major), Some(mc));
    ForgeInstallIsDetected(mc, fv, major);
  }

  // ---------------------------------------------------------------------
  // A game that exits at once

  const ClassNotFound: string := "ClassNotFoundException"
  const NoClassDef: string := "java.lang.NoClassDefFoundError"
  const UnsupportedClass: string := "UnsupportedClassVersionError"
  const Inaccessible: string := "java.lang.reflect.InaccessibleObjectException"
  const NoMainClass: string := "Could not find or load main class"

  /** The diagnoses `run_game` gives from the game's error output. */
  datatype Crash =
    | WrongMainClass(modernHint: bool)   // the hint names the 1.13+ main class
    | BrokenInstall
    | MissingLibraries
    | WrongJava(recommended: nat)
    | ModuleAccess
    | MainClassMissing
    | Unknown(excerpt: string)

  /** The checks are made in this order, so an earlier marker in the list
      wins over a later one whatever their positions in the output. */
  function Classify(stderr: string, mc: string, major: int): (c: Crash)
    ensures c.WrongMainClass? <==> Contains(stderr, ClassNotFound) && Contains(stderr, LaunchWrapperMain)
    ensures c.WrongMainClass? ==> c.modernHint == (major >= 13)
    ensures c.BrokenInstall? <==> Contains(stderr, ClassNotFound) && !Contains(stderr, LaunchWrapperMain)
    ensures c.MissingLibraries? <==> !Contains(stderr, ClassNotFound) && Contains(stderr, NoClassDef)
    ensures c.WrongJava? <==>
              !Contains(stderr, ClassNotFound) && !Contains(stderr, NoClassDef) && Contains(stderr, UnsupportedClass)
    ensures c.WrongJava? ==> c.recommended == RecommendedJava(mc)
    ensures c.ModuleAccess? <==>
              !Contains(stderr, ClassNotFound) && !Contains(stderr, NoClassDef) &&
              !Contains(stderr, UnsupportedClass) && Contains(stderr, Inaccessible)
    ensures c.MainClassMissing? <==>
              !Contains(stderr, ClassNotFound) && !Contains(stderr, NoClassDef) &&
              !Contains(stderr, UnsupportedClass) && !Contains(stderr, Inaccessible) && Contains(stderr, NoMainClass)
    ensures c.Unknown? ==> |c.excerpt| <= 500 && StartsWith(stderr, c.excerpt)
    ensures c.Unknown? && |stderr| <= 500 ==> c.excerpt == stderr
    ensures c.Unknown? && |stderr| > 500 ==> |c.excerpt| == 500
  {
    if Contains(stderr, ClassNotFound) then
      if Contains(stderr, LaunchWrapperMain) then WrongMainClass(major >= 13) else BrokenInstall
    else if Contains(stderr, NoClassDef) then MissingLibraries
    else if Contains(stderr, UnsupportedClass) then WrongJava(RecommendedJava(mc))
    else if Contains(stderr, Inaccessible) then ModuleAccess
    else if Contains(stderr, NoMainClass) then MainClassMissing
    else Unknown(stderr[..if |stderr| < 500 then |stderr| else 500])
  }

  /** The Java release the diagnosis recommends follows the launcher's step
      function for every game version in the table. */
  lemma WrongJavaFollowsTable(stderr: string, mc: string, major: int)
    requires Classify(stderr, mc, major).WrongJava? && mc in JavaVersionRequirements
    ensures Classify(stderr, mc, major).recommended in {8, 11, 17, 21}
    ensures ParseMajorMinor(mc).Some? &&
            Classify(stderr, mc, major).recommended == JavaStep(ParseMajorMinor(mc).value.0, ParseMajorMinor(mc).value.1)
  {
    JavaTableFollowsStep(mc);
  }
}
