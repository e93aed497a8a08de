/** The Java download dialog: which Mojang runtime it installs for the Java
    release a game version needs, where it then looks for the `java`
    executable, and the flag that keeps a second download from starting.
    The runtime installer, the file system and the Java probe are inputs:
    `present` is the set of files that exist, `probe` what running a
    candidate with `-version` reports (`None` when it hangs). Paths are
    sequences of components. */
module JavaDialog {
  import opened Text
  import Config
  import JavaUtils

  type Path = seq<string>

  const Alpha: string := "java-runtime-alpha"
  const Beta: string := "java-runtime-beta"
  const Delta: string := "java-runtime-delta"
  const Gamma: string := "java-runtime-gamma"

  /** The runtime component for a Java release; both the download and the
      search after it use this one mapping. */
  function RuntimeName(java: int): (r: string)
    ensures java == 8 <==> r == Alpha
    ensures java == 11 <==> r == Beta
    ensures java == 17 <==> r == Delta
    ensures java !in {8, 11, 17} <==> r == Gamma
  {
    if java == 8 then Alpha
    else if java == 11 then Beta
    else if java == 17 then Delta
    else Gamma
  }

  /** Every game version gets the runtime of its Java release, and a game
      version missing from the table gets Java 21 and so the gamma runtime. */
  lemma RuntimeForGameVersion(mc: string)
    ensures Config.RecommendedJava(mc) == 21 <==> RuntimeName(Config.RecommendedJava(mc)) == Gamma
    ensures mc !in Config.JavaVersionRequirements ==> RuntimeName(Config.RecommendedJava(mc)) == Gamma
  {
  }

  /** The releases the launcher can recommend each get their own runtime. */
  lemma RuntimeNamesDiffer(a: int, b: int)
    requires a in {8, 11, 17, 21} && b in {8, 11, 17, 21} && a != b
    ensures RuntimeName(a) != RuntimeName(b)
  {
  }

  /** The five places a runtime's `java` may be, in the order they are
      tried, under `<minecraft dir>/runtime/<runtime name>`. */
  function CandidatePaths(minecraftDir: Path, java: int): (r: seq<Path>)
    ensures |r| == 5
    ensures forall i :: 0 <= i < 5 ==> |r[i]| > |minecraftDir| + 2
    ensures forall i :: 0 <= i < 5 ==> r[i][..|minecraftDir| + 2] == minecraftDir + ["runtime", RuntimeName(java)]
    ensures forall i, j :: 0 <= i < j < 5 ==> r[i] != r[j]
  {
    var base := minecraftDir + ["runtime", RuntimeName(java)];
    var r := [
      base + ["bin", "java.exe"],
      base + ["bin", "java"],
      base + ["jre", "bin", "java.exe"],
      base + ["jre", "bin", "java"],
      base + ["contents", "home", "bin", "java"]
    ];
    assert forall i :: 0 <= i < 5 ==> r[i][..|base|] == base;
    assert forall i, j :: 0 <= i < j < 5 ==> r[i][|base|..] != r[j][|base|..];
    r
  }

  /** What `check_java_version(path, required)` answers for one path. */
  function CheckPath(path: Path, present: set<Path>, probe: Path -> Option<nat>, required: int): (r: JavaUtils.JavaCheck)
    ensures r == JavaUtils.NotFound <==> path !in present
    ensures r == JavaUtils.ProbeHung <==> path in present && probe(path).None?
    ensures JavaUtils.Passes(r) <==> path in present && probe(path).Some? && probe(path).value != 0 && probe(path).value >= required
  {
    var reading := probe(path);
    JavaUtils.CheckJava(path in present, reading.None?, if reading.Some? then reading.value else 0, required)
  }

  /** A file that exists and that the probe reads as a new enough Java. */
  function Usable(path: Path, present: set<Path>, probe: Path -> Option<nat>, required: int): (ok: bool)
    ensures ok <==> path in present && probe(path).Some? && probe(path).value != 0 && probe(path).value >= required
  {
    path in present && JavaUtils.Passes(CheckPath(path, present, probe, required))
  }

  /** The first path of `paths` that is usable. */
  function FirstUsable(paths: seq<Path>, present: set<Path>, probe: Path -> Option<nat>, required: int): (r: Option<Path>)
    ensures r.None? <==> forall p :: p in paths ==> !Usable(p, present, probe, required)
    ensures r.Some? ==> r.value in paths && Usable(r.value, present, probe, required)
  {
    if paths == [] then None
    else if Usable(paths[0], present, probe, required) then Some(paths[0])
    else FirstUsable(paths[1..], present, probe, required)
  }

  /** A usable path is passed over only for one that comes before it. */
  lemma {:induction false} FirstUsableIsFirst(paths: seq<Path>, present: set<Path>, probe: Path -> Option<nat>, required: int, k: nat)
    requires k < |paths| && Usable(paths[k], present, probe, required)
    requires forall i :: 0 <= i < k ==> !Usable(paths[i], present, probe, required)
    ensures FirstUsable(paths, present, probe, required) == Some(paths[k])
    decreases k
  {
    if k > 0 {
      FirstUsableIsFirst(paths[1..], present, probe, required, k - 1);
    }
  }

  /** `find_installed_java`: the candidates, tried in order. */
  method FindInstalledJava(minecraftDir: Path, java: int, present: set<Path>, probe: Path -> Option<nat>)
    returns (found: Option<Path>)
    ensures found == FirstUsable(CandidatePaths(minecraftDir, java), present, probe, java)
  {
    var paths := CandidatePaths(minecraftDir, java);
    var i := 0;
    while i < |paths|
      invariant 0 <= i <= |paths|
      invariant FirstUsable(paths, present, probe, java) == FirstUsable(paths[i..], present, probe, java)
    {
      assert paths[i..][1..] == paths[i + 1..];
      var path := paths[i];
      if path in present {
        if JavaUtils.Passes(CheckPath(path, present, probe, java)) {
          return Some(path);
        }
      }
      i := i + 1;
    }
    return None;
  }

  /** A file the deep search looks at: one named `java` or `java.exe`, in
      any letter case. */
  predicate NamedJava(path: Path) {
    |path| > 0 && Lower(path[|path| - 1]) in ["java.exe", "java"]
  }

  /** The first usable path of two lists one after the other. */
  lemma {:induction false} FirstUsableAppend(a: seq<Path>, b: seq<Path>, present: set<Path>,
                                             probe: Path -> Option<nat>, required: int)
    ensures FirstUsable(a + b, present, probe, required) ==
            if FirstUsable(a, present, probe, required).Some? then FirstUsable(a, present, probe, required)
            else FirstUsable(b, present, probe, required)
    decreases |a|
  {
    if a == [] {
      assert a + b == b;
    } else {
      assert (a + b)[0] == a[0];
      assert (a + b)[1..] == a[1..] + b;
      FirstUsableAppend(a[1..], b, present, probe, required);
    }
  }

  /** The first usable path among the kept ones is the first usable kept
      path in the order of the whole list. */
  lemma {:induction false} FirstUsableKeptIsFirst(walked: seq<Path>, keep: Path -> bool, present: set<Path>,
                                                  probe: Path -> Option<nat>, required: int)
    ensures FirstUsable(Filter(walked, keep), present, probe, required).Some? ==>
            exists k :: 0 <= k < |walked| && walked[k] == FirstUsable(Filter(walked, keep), present, probe, required).value &&
                        forall j :: 0 <= j < k && keep(walked[j]) ==> !Usable(walked[j], present, probe, required)
    decreases |walked|
  {
    if walked != [] {
      var init, last := walked[..|walked| - 1], walked[|walked| - 1];
      assert walked == init + [last];
      FilterAppend(init, last, keep);
      var tail := if keep(last) then [last] else [];
      FirstUsableAppend(Filter(init, keep), tail, present, probe, required);
      var r := FirstUsable(Filter(walked, keep), present, probe, required);
      if FirstUsable(Filter(init, keep), present, probe, required).Some? {
        FirstUsableKeptIsFirst(init, keep, present, probe, required);
        var k :| 0 <= k < |init| && init[k] == r.value &&
                 forall j :: 0 <= j < k && keep(init[j]) ==> !Usable(init[j], present, probe, required);
        assert walked[k] == r.value;
        assert forall j :: 0 <= j < k ==> walked[j] == init[j];
      } else if r.Some? {
        forall j | 0 <= j < |init| && keep(walked[j])
          ensures !Usable(walked[j], present, probe, required)
        {
          assert walked[j] == init[j] && init[j] in init;
          assert walked[j] in Filter(init, keep);
        }
        assert walked[|init|] == r.value;
      }
    }
  }

  /** `find_java_deep`: the files of the runtime folder in walk order; a
      missing folder gives nothing. */
  function FindJavaDeep(runtimeExists: bool, walked: seq<Path>, present: set<Path>, probe: Path -> Option<nat>, required: int): (r: Option<Path>)
    ensures r.Some? ==> runtimeExists && r.value in walked && NamedJava(r.value) && Usable(r.value, present, probe, required)
    ensures runtimeExists && r.None? ==> forall p :: p in walked && NamedJava(p) ==> !Usable(p, present, probe, required)
    ensures r.Some? ==> exists k :: 0 <= k < |walked| && walked[k] == r.value &&
                                    forall j :: 0 <= j < k && NamedJava(walked[j]) ==> !Usable(walked[j], present, probe, required)
  {
    if !runtimeExists then None
    else
      var keep := (p: Path) => NamedJava(p);
      FirstUsableKeptIsFirst(walked, keep, present, probe, required);
      FirstUsable(Filter(walked, keep), present, probe, required)
  }

  /** How the download thread ends. */
  datatype Outcome = Installed(path: Path) | InstallError(message: string) | NotFoundAfterInstall

  /** `download_java` after the installer has run (or raised `error`):
      the candidates first, then the deep search. */
  function DownloadOutcome(error: Option<string>, minecraftDir: Path, java: int, present: set<Path>,
                           probe: Path -> Option<nat>, runtimeExists: bool, walked: seq<Path>): (r: Outcome)
    ensures error.Some? ==> r == InstallError(error.value)
    ensures error.None? ==> !r.InstallError?
    ensures error.None? && FirstUsable(CandidatePaths(minecraftDir, java), present, probe, java).Some? ==>
              r == Installed(FirstUsable(CandidatePaths(minecraftDir, java), present, probe, java).value)
    ensures error.None? && FirstUsable(CandidatePaths(minecraftDir, java), present, probe, java).None? &&
            FindJavaDeep(runtimeExists, walked, present, probe, java).Some? ==>
              r == Installed(FindJavaDeep(runtimeExists, walked, present, probe, java).value)
    ensures r.Installed? ==> Usable(r.path, present, probe, java)
    ensures r.Installed? && r.path !in CandidatePaths(minecraftDir, java) ==>
      FirstUsable(CandidatePaths(minecraftDir, java), present, probe, java).None?
    ensures r == NotFoundAfterInstall <==>
      error.None? && FirstUsable(CandidatePaths(minecraftDir, java), present, probe, java).None? &&
      FindJavaDeep(runtimeExists, walked, present, probe, java).None?
  {
    if error.Some? then InstallError(error.value)
    else match FirstUsable(CandidatePaths(minecraftDir, java), present, probe, java)
      case Some(p) => Installed(p)
      case None =>
        match FindJavaDeep(runtimeExists, walked, present, probe, java)
        case Some(p) => Installed(p)
        case None => NotFoundAfterInstall
  }

  /** A path the download reports is new enough for the game version the
      dialog was opened for. */
  lemma InstalledJavaSuitsGame(error: Option<string>, minecraftDir: Path, mc: string, present: set<Path>,
                               probe: Path -> Option<nat>, runtimeExists: bool, walked: seq<Path>)
    requires DownloadOutcome(error, minecraftDir, Config.RecommendedJava(mc), present, probe, runtimeExists, walked).Installed?
    ensures var p := DownloadOutcome(error, minecraftDir, Config.RecommendedJava(mc), present, probe, runtimeExists, walked).path;
      p in present && probe(p).Some? && probe(p).value >= Config.RecommendedJava(mc)
  {
  }

  /** The game version the dialog is for: the one it is given unless that
      is missing or empty, then the main window's. */
  function DialogVersion(given: Option<string>, current: string): (r: string)
    ensures given.Some? && given.value != "" ==> r == given.value
    ensures given.None? || given.value == "" ==> r == current
  {
    if given.Some? && given.value != "" then given.value else current
  }

  datatype DialogResult = Open | Accepted | Rejected

  class JavaDownloadDialog {
    const mcVersion: string
    const recommended: nat
    var isDownloading: bool
    var downloadEnabled: bool
    var manualEnabled: bool
    var javaPath: Option<Path>
    var result: DialogResult

    /** The buttons are enabled exactly when no download is running. */
    ghost predicate Valid()
      reads this
    {
      downloadEnabled == !isDownloading && manualEnabled == !isDownloading &&
      recommended == Config.RecommendedJava(mcVersion)
    }

    constructor(given: Option<string>, current: string)
      ensures Valid()
      ensures mcVersion == DialogVersion(given, current)
      ensures recommended == Config.RecommendedJava(mcVersion)
      ensures !isDownloading && javaPath.None? && result == Open
    {
      mcVersion := DialogVersion(given, current);
      recommended := Config.RecommendedJava(DialogVersion(given, current));
      isDownloading := false;
      downloadEnabled := true;
      manualEnabled := true;
      javaPath := None;
      result := Open;
    }

    /** `start_download`: nothing while a download runs; otherwise the
        download starts and the buttons are disabled. */
    method StartDownload() returns (started: bool)
      requires Valid()
      modifies this
      ensures Valid()
      ensures started <==> !old(isDownloading)
      ensures isDownloading
      ensures javaPath == old(javaPath) && result == old(result)
    {
      if isDownloading {
        return false;
      }
      isDownloading := true;
      downloadEnabled := false;
      manualEnabled := false;
      return true;
    }

    /** `on_download_error`: the download is over and the buttons are back. */
    method OnDownloadError()
      requires Valid()
      modifies this
      ensures Valid()
      ensures !isDownloading && downloadEnabled && manualEnabled
      ensures javaPath == old(javaPath) && result == old(result)
    {
      downloadEnabled := true;
      manualEnabled := true;
      isDownloading := false;
    }

    /** `on_download_success`: the path is handed to the main window and the
        dialog is accepted. */
    method OnDownloadSuccess(path: Path)
      requires Valid()
      modifies this
      ensures Valid()
      ensures javaPath == Some(path) && result == Accepted
      ensures isDownloading == old(isDownloading)
    {
      javaPath := Some(path);
      result := Accepted;
    }

    /** `reject`: while a download runs the dialog closes only when the
        user confirms. */
    method Reject(confirmed: bool)
      requires Valid()
      modifies this
      ensures Valid()
      ensures result == (if !isDownloading || confirmed then Rejected else old(result))
      ensures isDownloading == old(isDownloading) && javaPath == old(javaPath)
    {
      if isDownloading && !confirmed {
        return;
      }
      result := Rejected;
    }

    /** The thread's outcome, delivered through the two signals. */
    method Finish(outcome: Outcome)
      requires Valid()
      modifies this
      ensures Valid()
      ensures outcome.Installed? ==> javaPath == Some(outcome.path) && result == Accepted
      ensures !outcome.Installed? ==> !isDownloading && javaPath == old(javaPath) && result == old(result)
    {
      if outcome.Installed? {
        OnDownloadSuccess(outcome.path);
      } else {
        OnDownloadError();
      }
    }
  }

  /** Starting twice starts one download. A lemma cannot read the dialog's
      fields, so this property of the object's state is stated as a method
      whose body is the two calls. */
  method StartTwice(d: JavaDownloadDialog) returns (first: bool, second: bool)
    requires d.Valid() && !d.isDownloading
    modifies d
    ensures first && !second && d.isDownloading
  {
    first := d.StartDownload();
    second := d.StartDownload();
  }
}
