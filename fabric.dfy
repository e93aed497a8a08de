/** The Fabric installer thread: the loader build for a game version, the
    version name, the libraries it fetches and where they go, the profile it
    writes, and the test for a Fabric install that already exists. The
    network and the file system are parameters: the set of library paths
    already present and the iteration at which the thread was stopped. */
module Fabric {
  import opened Text
  import opened McVersion
  import opened Config
  import opened VersionJson

  /** The loader build the installer falls back to for a game version that
      is not in the Fabric table. */
  const UnknownLoaderVersion: string := "0.14.25"
  const KnotClientMain: string := "net.fabricmc.loader.impl.launch.knot.KnotClient"
  const SkipMcProviderFlag: string := "-Dfabric.skipMcProvider=true"
  const FabricMaven: string := "https://maven.fabricmc.net/"
  const CentralMaven: string := "https://repo.maven.apache.org/maven2/"
  const LoaderPrefix: string := "net.fabricmc:fabric-loader:"
  const IntermediaryPrefix: string := "net.fabricmc:intermediary:"

  /** The ASM artifacts added for games before 1.16. */
  const AsmLibraries: seq<string> := [
    "org.ow2.asm:asm:9.2",
    "org.ow2.asm:asm-analysis:9.2",
    "org.ow2.asm:asm-commons:9.2",
    "org.ow2.asm:asm-tree:9.2",
    "org.ow2.asm:asm-util:9.2"
  ]

  /** `get_fabric_loader_version` */
  function LoaderVersion(mc: string): (v: string)
    ensures mc in FabricVersions ==> v == FabricVersions[mc]
    ensures mc !in FabricVersions ==> v == UnknownLoaderVersion
  {
    if mc in FabricVersions then FabricVersions[mc] else UnknownLoaderVersion
  }

  function VersionName(mc: string): (name: string)
    ensures "fabric-loader-" <= name
    ensures |name| > |mc| && name[|name| - |mc| - 1..] == "-" + mc
  {
    var name := "fabric-loader-" + LoaderVersion(mc) + "-" + mc;
    assert name == "fabric-loader-" + (LoaderVersion(mc) + "-" + mc);
    assert name == ("fabric-loader-" + LoaderVersion(mc)) + ("-" + mc);
    name
  }

  // ---------------------------------------------------------------------
  // Maven coordinates

  /** The first three fields of a "group:artifact:version" coordinate. */
  datatype Coordinate = Coordinate(group: string, artifact: string, version: string)

  /** The coordinate of a library name; `None` when it has fewer than three
      ':'-separated fields, in which case the library is skipped. */
  function ParseCoordinate(name: string): (c: Option<Coordinate>)
    ensures c.Some? <==> |Split(name, ':')| >= 3
    ensures c.Some? ==> c.value == Coordinate(Split(name, ':')[0], Split(name, ':')[1], Split(name, ':')[2])
  {
    var parts := Split(name, ':');
    if |parts| >= 3 then Some(Coordinate(parts[0], parts[1], parts[2])) else None
  }

  /** Parsing a coordinate written from three or more ':'-free fields gives
      the first three back; any further fields are ignored. */
  lemma ParseCoordinateOf(fields: seq<string>)
    requires |fields| >= 3
    requires forall k :: 0 <= k < |fields| ==> ':' !in fields[k]
    ensures ParseCoordinate(Join(fields, ':')) == Some(Coordinate(fields[0], fields[1], fields[2]))
  {
    JoinSplit(fields, ':');
  }

  /** The repository-relative path of the jar of a coordinate. */
  function LibraryPath(c: Coordinate): (path: string)
    ensures EndsWith(path, ".jar")
    ensures StartsWith(path, ReplaceChar(c.group, '.', '/'))
    ensures '.' !in path[..|c.group|]
  {
    var g := ReplaceChar(c.group, '.', '/');
    var path := g + "/" + c.artifact + "/" + c.version + "/" + c.artifact + "-" + c.version + ".jar";
    assert path[|path| - 4..] == ".jar";
    assert path[..|g|] == g;
    path
  }

  /** The path read back: its '/'-fields are the dotted fields of the
      group, then the artifact, the version and the jar name
      `<artifact>-<version>.jar`. */
  lemma LibraryPathFields(c: Coordinate)
    requires '/' !in c.group && '/' !in c.artifact && '/' !in c.version
    ensures Split(LibraryPath(c), '/') ==
            Split(c.group, '.') + [c.artifact, c.version, c.artifact + "-" + c.version + ".jar"]
  {
    var g := ReplaceChar(c.group, '.', '/');
    var jar := c.artifact + "-" + c.version + ".jar";
    assert '/' !in jar;
    assert LibraryPath(c) == g + ['/'] + (c.artifact + ['/'] + c.version + ['/'] + jar);
    SplitConcat(g, c.artifact + ['/'] + c.version + ['/'] + jar, '/');
    SplitOfThree(c.artifact, c.version, jar, '/');
    SplitReplaced(c.group, '.', '/');
  }

  /** The repository URL with a trailing '/'. */
  function WithSlash(url: string): (r: string)
    ensures EndsWith(r, "/") && StartsWith(r, url)
    ensures |r| <= |url| + 1
    ensures EndsWith(url, "/") ==> r == url
  {
    if EndsWith(url, "/") then url
    else
      var r := url + "/";
      assert r[..|url|] == url;
      r
  }

  /** Adding the trailing '/' twice is the same as adding it once. */
  lemma WithSlashIdempotent(url: string)
    ensures WithSlash(WithSlash(url)) == WithSlash(url)
  {
  }

  /** The download URL of a coordinate; both download paths of the installer
      (`download_fabric_libraries` and `download_specific_library`) use it. */
  function LibraryUrl(repo: string, c: Coordinate): (url: string)
    ensures StartsWith(url, repo) && EndsWith(url, ".jar")
    ensures url == WithSlash(repo) + LibraryPath(c)
  {
    var base := WithSlash(repo);
    var path := LibraryPath(c);
    var url := base + path;
    assert url[..|repo|] == base[..|repo|];
    assert url[|url| - 4..] == path[|path| - 4..];
    url
  }

  // ---------------------------------------------------------------------
  // Libraries and profile

  datatype FabricLib = FabricLib(name: string, url: string)

  /** The libraries `download_fabric_libraries` fetches, in order. The game
      version is parsed first; a non-numeric field ends the download with
      failure, here `None`. */
  function Libraries(mc: string, loader: string): (libs: Option<seq<FabricLib>>)
    ensures libs.Some? <==> ParseMajor(mc).Some?
    ensures libs.Some? ==>
              |libs.value| == (if ParseMajor(mc).value < 16 then 7 else 2) &&
              libs.value[0] == FabricLib(LoaderPrefix + loader, FabricMaven) &&
              libs.value[1] == FabricLib(IntermediaryPrefix + mc, FabricMaven) &&
              forall k :: 2 <= k < |libs.value| ==> libs.value[k] == FabricLib(AsmLibraries[k - 2], CentralMaven)
  {
    match ParseMajor(mc)
    case None => None
    case Some(major) =>
      var fabric := [FabricLib(LoaderPrefix + loader, FabricMaven), FabricLib(IntermediaryPrefix + mc, FabricMaven)];
      if major < 16 then
        Some(fabric + seq(5, k requires 0 <= k < 5 => FabricLib(AsmLibraries[k], CentralMaven)))
      else Some(fabric)
  }

  /** The profile `create_fabric_profile` writes. */
  function FabricProfile(mc: string, versionName: string, loader: string): (p: Profile)
    ensures p.id == Some(versionName) && p.inheritsFrom == Some(mc) && p.mainClass == Some(KnotClientMain)
    ensures p.releaseTime == Some(FixedTimestamp) && p.time == Some(FixedTimestamp)
    ensures p.versionType == Some("release") && p.minecraftArguments.None?
    ensures p.arguments == Some(Arguments(Some([Str(SkipMcProviderFlag)]), Some([])))
    ensures p.libraries == Some([Library(Some(LoaderPrefix + loader), Some(FabricMaven))])
  {
    Profile(Some(versionName), Some(mc), Some(FixedTimestamp), Some(FixedTimestamp), Some("release"),
            Some(KnotClientMain), None, Some(Arguments(Some([Str(SkipMcProviderFlag)]), Some([]))),
            Some([Library(Some(LoaderPrefix + loader), Some(FabricMaven))]))
  }

  /** The test of `check_existing_fabric`: the profile file exists, parses,
      and lists a library whose name mentions Fabric in any case. */
  predicate FabricInstalled(files: map<string, JsonFile>, versionName: string) {
    versionName in files && files[versionName].Parsed? &&
    var p := files[versionName].profile;
    p.libraries.Some? && SomeLibNameHas(p.libraries.value, "fabric")
  }

  /** The loader coordinate mentions Fabric. */
  lemma LoaderNameMentionsFabric(loader: string)
    ensures ContainsCI(LoaderPrefix + loader, "fabric")
  {
    LoaderPrefixShape();
    Regroup4("net.", "fabric", "mc:fabric-loader:", loader);
    LowerFabric();
    ContainsCIConcat("net.", "fabric", "mc:fabric-loader:" + loader, "fabric");
  }

  lemma LoaderPrefixShape()
    ensures LoaderPrefix == "net." + "fabric" + "mc:fabric-loader:"
  {
  }

  lemma Regroup4(a: string, b: string, c: string, d: string)
    ensures a + b + c + d == a + b + (c + d)
  {
  }

  /** A profile written by `create_fabric_profile` is recognised by
      `check_existing_fabric`. */
  lemma CreatedProfileIsRecognised(files: map<string, JsonFile>, mc: string, versionName: string, loader: string)
    ensures FabricInstalled(files[versionName := Parsed(FabricProfile(mc, versionName, loader))], versionName)
  {
    LoaderNameMentionsFabric(loader);
    var libs := [Library(Some(LoaderPrefix + loader), Some(FabricMaven))];
    assert LibName(libs[0]) == LoaderPrefix + loader;
  }

  /** The URL the download loop requests for one library: none when the
      coordinate is invalid or the jar is already in `present`. */
  function RequestOf(lib: FabricLib, present: set<string>): (urls: seq<string>)
    ensures |urls| <= 1
    ensures forall k :: 0 <= k < |urls| ==> EndsWith(urls[k], ".jar")
    ensures urls == [] <==> ParseCoordinate(lib.name).None? || LibraryPath(ParseCoordinate(lib.name).value) in present
  {
    var c := ParseCoordinate(lib.name);
    if c.Some? && LibraryPath(c.value) !in present then [LibraryUrl(lib.url, c.value)] else []
  }

  /** The URLs the download loop requests for `libs`, in order: those of
      every library but the last, then the last one's. */
  function Requests(libs: seq<FabricLib>, present: set<string>): (urls: seq<string>)
    ensures |urls| <= |libs|
    ensures forall k :: 0 <= k < |urls| ==> EndsWith(urls[k], ".jar")
    decreases |libs|
  {
    if libs == [] then []
    else Requests(libs[..|libs| - 1], present) + RequestOf(libs[|libs| - 1], present)
  }

  /** One more library adds exactly its own request at the end. */
  lemma NextRequests(libs: seq<FabricLib>, i: nat, present: set<string>)
    requires i < |libs|
    ensures Requests(libs[..i + 1], present) == Requests(libs[..i], present) + RequestOf(libs[i], present)
  {
    assert libs[..i + 1][..i] == libs[..i];
  }

  /** When every jar is already present nothing is requested. */
  lemma {:induction false} NothingRequestedWhenPresent(libs: seq<FabricLib>, present: set<string>)
    requires forall k :: 0 <= k < |libs| && ParseCoordinate(libs[k].name).Some? ==>
               LibraryPath(ParseCoordinate(libs[k].name).value) in present
    ensures Requests(libs, present) == []
    decreases |libs|
  {
    if libs != [] {
      NothingRequestedWhenPresent(libs[..|libs| - 1], present);
    }
  }

  /** The installer thread's state. */
  class FabricInstaller {
    const mcVersion: string
    const loaderVersion: string
    const versionName: string
    var isRunning: bool

    constructor (mc: string)
      ensures mcVersion == mc && loaderVersion == LoaderVersion(mc)
      ensures versionName == VersionName(mc) && isRunning
    {
      mcVersion := mc;
      loaderVersion := LoaderVersion(mc);
      versionName := VersionName(mc);
      isRunning := true;
    }

    method Stop()
      modifies this`isRunning
      ensures !isRunning
    {
      isRunning := false;
    }

    /** `check_existing_fabric` */
    method CheckExistingFabric(files: map<string, JsonFile>) returns (found: bool)
      ensures found == FabricInstalled(files, versionName)
    {
      if !(versionName in files && files[versionName].Parsed?) {
        return false;
      }
      var data := files[versionName].profile;
      if data.libraries.None? {
        return false;
      }
      var libs := data.libraries.value;
      var i := 0;
      while i < |libs|
        invariant 0 <= i <= |libs|
        invariant forall j :: 0 <= j < i ==> !ContainsCI(LibName(libs[j]), "fabric")
      {
        if libs[i].name.Some? && ContainsCI(libs[i].name.value, "fabric") {
          return true;
        }
        i := i + 1;
      }
      return false;
    }

    /** `create_fabric_profile`: the new profile files. */
    method CreateFabricProfile(files: map<string, JsonFile>) returns (out: map<string, JsonFile>)
      ensures out == files[versionName := Parsed(FabricProfile(mcVersion, versionName, loaderVersion))]
      ensures FabricInstalled(out, versionName)
    {
      out := files[versionName := Parsed(FabricProfile(mcVersion, versionName, loaderVersion))];
      CreatedProfileIsRecognised(files, mcVersion, versionName, loaderVersion);
    }

    /** The loop of `download_fabric_libraries` over `libs`. */
    static method FetchLibraries(libs: seq<FabricLib>, present: set<string>, stopAt: nat)
      returns (ok: bool, requested: seq<string>)
      ensures ok <==> stopAt >= |libs|
      ensures requested == Requests(libs[..if stopAt < |libs| then stopAt else |libs|], present)
    {
      requested := [];
      var i := 0;
      while i < |libs|
        invariant 0 <= i <= |libs| && i <= stopAt
        invariant requested == Requests(libs[..i], present)
      {
        if i == stopAt {
          return false, requested;
        }
        var here := RequestLibrary(libs[i], present);
        NextRequests(libs, i, present);
        requested := requested + here;
        i := i + 1;
      }
      assert libs[..i] == libs;
      return true, requested;
    }

    /** One iteration of the download loop: the URL requested for `lib`. */
    static method RequestLibrary(lib: FabricLib, present: set<string>) returns (here: seq<string>)
      ensures here == RequestOf(lib, present)
    {
      here := [];
      var c := ParseCoordinate(lib.name);
      if c.Some? {
        var path := LibraryPath(c.value);
        if path !in present {
          here := [LibraryUrl(lib.url, c.value)];
        }
      }
    }

    /** `download_fabric_libraries`. `present` holds the library paths
        already on disk; the thread is found stopped at the start of
        iteration `stopAt` (never, when `stopAt` is past the end). The result
        says whether the loop ran to the end, and lists the URLs requested. */
    method DownloadFabricLibraries(present: set<string>, stopAt: nat) returns (ok: bool, requested: seq<string>)
      ensures Libraries(mcVersion, loaderVersion).None? ==> !ok && requested == []
      ensures Libraries(mcVersion, loaderVersion).Some? ==>
                var libs := Libraries(mcVersion, loaderVersion).value;
                (ok <==> stopAt >= |libs|) &&
                requested == Requests(libs[..if stopAt < |libs| then stopAt else |libs|], present)
    {
      var found := Libraries(mcVersion, loaderVersion);
      if found.None? {
        return false, [];
      }
      ok, requested := FetchLibraries(found.value, present, stopAt);
    }
  }
}
