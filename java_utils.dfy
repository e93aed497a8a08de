/** The Java helpers: reading the major version out of the text that
    `java -version` prints, deciding whether a Java installation suits a
    game version, and writing the defaults of `launcher_profiles.json`.
    The probe itself (a subprocess with a ten-second timeout) is not
    modelled: its stderr and stdout are inputs. */
module JavaUtils {
  import opened Text

  // ---------------------------------------------------------------------
  // Reading the major version
  // ---------------------------------------------------------------------

  /** The text that is parsed: stderr when it is non-empty, else stdout. */
  function ProbeText(stderr: string, stdout: string): (r: string)
    ensures stderr != [] ==> r == stderr
    ensures stderr == [] ==> r == stdout
  {
    if stderr != [] then stderr else stdout
  }

  /** The shortcut taken before any pattern is tried: Java 8 announces
      itself as `version "1.8…` or as `1.8.0…`. */
  function SaysJava8(output: string): (java8: bool)
    ensures java8 ==> Contains(output, "1.8")
  {
    Java8MarksHold18();
    ContainsPart(output, "version \"", "1.8", "");
    ContainsPart(output, "", "1.8", ".0");
    Contains(output, "version \"1.8") || Contains(output, "1.8.0")
  }

  lemma Java8MarksHold18()
    ensures "version \"1.8" == "version \"" + "1.8" + ""
    ensures "1.8.0" == "" + "1.8" + ".0"
  {
  }

  /** A text that contains `a + t + c` contains `t`. */
  lemma ContainsPart(s: string, a: string, t: string, c: string)
    ensures Contains(s, a + t + c) ==> Contains(s, t)
  {
    if Contains(s, a + t + c) {
      ContainsHasWindow(s, a + t + c);
      var i: nat :| OccursAt(s, a + t + c, i);
      NestedWindow(s, i, a, t, c);
      ContainsWindow(s, i + |a|, t);
    }
  }

  /** The four patterns, in the order they appear in the source list:
      `version "(\d+)`, `openjdk version "(\d+)`, `(\d+)\.\d+\.\d+`
      and `java version "1\.(\d+)`. */
  datatype Pattern = VersionQuote | OpenJdkQuote | Dotted | JavaVersionOne

  const SourceOrder: seq<Pattern> := [VersionQuote, OpenJdkQuote, Dotted, JavaVersionOne]

  /** The literal text in front of the captured digits, lower-cased
      (the patterns are searched case-insensitively). */
  function Lead(p: Pattern): (r: string)
    requires p != Dotted
  {
    match p
    case VersionQuote => "version \""
    case OpenJdkQuote => "openjdk version \""
    case JavaVersionOne => "java version \"1."
  }

  /** The end of the run of digits that starts at `i`: `\d+` is greedy. */
  function RunEnd(s: string, i: nat): (e: nat)
    requires i <= |s|
    ensures i <= e <= |s|
    ensures forall k :: i <= k < e ==> IsDigit(s[k])
    ensures e == |s| || !IsDigit(s[e])
    decreases |s| - i
  {
    if i < |s| && IsDigit(s[i]) then RunEnd(s, i + 1) else i
  }

  /** The value of the digit run that starts at `i`, when there is one. */
  function DigitsAt(s: string, i: nat): (r: Option<nat>)
    requires i <= |s|
    ensures r.Some? <==> i < |s| && IsDigit(s[i])
  {
    if i < |s| && IsDigit(s[i]) then Some(DigitsValue(s[i..RunEnd(s, i)])) else None
  }

  /** Whether pattern `p` matches `s` starting exactly at `i`, and if so the
      value of its group.  For `(\d+)\.\d+\.\d+` a match at the start of a
      digit run must have the whole run as its first group, because a
      shorter group would need a `.` where there is a digit. */
  function MatchAt(p: Pattern, s: string, i: nat): (r: Option<nat>)
    requires i <= |s|
    ensures r.Some? && p != Dotted ==> OccursAt(s, Lead(p), i) && i + |Lead(p)| < |s| && IsDigit(s[i + |Lead(p)|])
    ensures r.Some? && p == Dotted ==> i < |s| && IsDigit(s[i]) && r == DigitsAt(s, i)
  {
    if p == Dotted then
      if i < |s| && IsDigit(s[i]) then
        var e := RunEnd(s, i);
        if e + 1 < |s| && s[e] == '.' && IsDigit(s[e + 1]) then
          var e2 := RunEnd(s, e + 1);
          if e2 + 1 < |s| && s[e2] == '.' && IsDigit(s[e2 + 1]) then DigitsAt(s, i) else None
        else None
      else None
    else if OccursAt(s, Lead(p), i) then DigitsAt(s, i + |Lead(p)|)
    else None
  }

  /** `re.search`: the match that starts leftmost, from `i` on. */
  function SearchFrom(p: Pattern, s: string, i: nat): (r: Option<nat>)
    requires i <= |s|
    decreases |s| - i
  {
    if MatchAt(p, s, i).Some? then MatchAt(p, s, i)
    else if i == |s| then None
    else SearchFrom(p, s, i + 1)
  }

  function Search(p: Pattern, output: string): Option<nat> {
    SearchFrom(p, Lower(output), 0)
  }

  /** A search from the start fails iff no position matches. */
  lemma SearchNone(p: Pattern, s: string)
    ensures SearchFrom(p, s, 0).None? <==> forall k: nat :: k <= |s| ==> MatchAt(p, s, k).None?
  {
    if SearchFrom(p, s, 0).Some? {
      var k := SearchHasMatch(p, s, 0);
    } else {
      forall k: nat | k <= |s|
        ensures MatchAt(p, s, k).None?
      {
        if MatchAt(p, s, k).Some? {
          SearchFindsAny(p, s, 0, k);
        }
      }
    }
  }

  /** Every search finds a match that exists somewhere after its start. */
  lemma {:induction false} SearchFindsAny(p: Pattern, s: string, i: nat, k: nat)
    requires i <= k <= |s| && MatchAt(p, s, k).Some?
    ensures SearchFrom(p, s, i).Some?
    decreases k - i
  {
    if i < k && MatchAt(p, s, i).None? {
      SearchFindsAny(p, s, i + 1, k);
    }
  }

  /** The first pattern of the list that matches decides; none gives 0. */
  function FirstMatch(patterns: seq<Pattern>, output: string): (r: nat)
    ensures patterns == [] ==> r == 0
    ensures (forall k :: 0 <= k < |patterns| ==> Search(patterns[k], output).None?) ==> r == 0
  {
    if patterns == [] then 0
    else match Search(patterns[0], output)
      case Some(v) => v
      case None => FirstMatch(patterns[1..], output)
  }

  lemma FirstMatchHead(patterns: seq<Pattern>, output: string)
    requires patterns != [] && Search(patterns[0], output).Some?
    ensures FirstMatch(patterns, output) == Search(patterns[0], output).value
  {
  }

  /** The pattern at index `k`, the first that matches, gives the result. */
  lemma FirstMatchAt(patterns: seq<Pattern>, output: string, k: nat)
    requires k < |patterns| && Search(patterns[k], output).Some?
    requires forall p :: p in patterns[..k] ==> Search(p, output).None?
    ensures FirstMatch(patterns, output) == Search(patterns[k], output).value
  {
    var front, back := patterns[..k], patterns[k..];
    assert patterns == front + back;
    assert back[0] == patterns[k];
    FirstMatchHead(back, output);
    SkipUnmatched(front, back, output);
  }

  /** `get_java_major_version` returns the number of the first pattern
      of the list that matches. */
  lemma FirstMatchIsFirst(patterns: seq<Pattern>, output: string)
    ensures forall k :: (0 <= k < |patterns| && Search(patterns[k], output).Some? &&
                         (forall j :: 0 <= j < k ==> Search(patterns[j], output).None?)) ==>
                        FirstMatch(patterns, output) == Search(patterns[k], output).value
  {
    forall k | 0 <= k < |patterns| && Search(patterns[k], output).Some? &&
               (forall j :: 0 <= j < k ==> Search(patterns[j], output).None?)
      ensures FirstMatch(patterns, output) == Search(patterns[k], output).value
    {
      var front := patterns[..k];
      forall p | p in front
        ensures Search(p, output).None?
      {
        var j :| 0 <= j < k && front[j] == p;
      }
      FirstMatchAt(patterns, output, k);
    }
  }

  /** The major version read from a probe, for a given order of patterns. */
  function JavaMajor(stderr: string, stdout: string, patterns: seq<Pattern>): (v: nat)
    ensures SaysJava8(ProbeText(stderr, stdout)) ==> v == 8
    ensures (!SaysJava8(ProbeText(stderr, stdout)) &&
             forall k :: 0 <= k < |patterns| ==> Search(patterns[k], ProbeText(stderr, stdout)).None?) ==> v == 0
    ensures !SaysJava8(ProbeText(stderr, stdout)) ==>
              forall k :: (0 <= k < |patterns| && Search(patterns[k], ProbeText(stderr, stdout)).Some? &&
                           (forall j :: 0 <= j < k ==> Search(patterns[j], ProbeText(stderr, stdout)).None?)) ==>
                          v == Search(patterns[k], ProbeText(stderr, stdout)).value
  {
    var output := ProbeText(stderr, stdout);
    FirstMatchIsFirst(patterns, output);
    if SaysJava8(output) then 8 else FirstMatch(patterns, output)
  }

  /** The pattern loop with its early return. */
  method ReadJavaMajor(stderr: string, stdout: string, patterns: seq<Pattern>) returns (v: nat)
    ensures v == JavaMajor(stderr, stdout, patterns)
    ensures SaysJava8(ProbeText(stderr, stdout)) ==> v == 8
    ensures !SaysJava8(ProbeText(stderr, stdout)) ==>
              forall k :: (0 <= k < |patterns| && Search(patterns[k], ProbeText(stderr, stdout)).Some? &&
                           (forall j :: 0 <= j < k ==> Search(patterns[j], ProbeText(stderr, stdout)).None?)) ==>
                          v == Search(patterns[k], ProbeText(stderr, stdout)).value
  {
    var output := ProbeText(stderr, stdout);
    if SaysJava8(output) {
      return 8;
    }
    var k := 0;
    while k < |patterns|
      invariant 0 <= k <= |patterns|
      invariant FirstMatch(patterns, output) == FirstMatch(patterns[k..], output)
    {
      assert patterns[k..][1..] == patterns[k + 1..];
      var m := Search(patterns[k], output);
      if m.Some? {
        return m.value;
      }
      k := k + 1;
    }
    return 0;
  }

  /** The launcher's own reading of a probe. */
  function JavaMajorAsWritten(stderr: string, stdout: string): (v: nat)
    ensures v == JavaMajor(stderr, stdout, [VersionQuote, Dotted])
  {
    SourceOrderIsTwoPatterns(ProbeText(stderr, stdout));
    JavaMajor(stderr, stdout, SourceOrder)
  }

  /** A match of `pattern` somewhere in the text is found. */
  lemma {:induction false} SearchFindsEarliest(p: Pattern, s: string, i: nat, k: nat)
    requires i <= k <= |s| && MatchAt(p, s, k).Some?
    requires forall j :: i <= j < k ==> MatchAt(p, s, j).None?
    ensures SearchFrom(p, s, i) == MatchAt(p, s, k)
    decreases k - i
  {
    if i < k {
      SearchFindsEarliest(p, s, i + 1, k);
    }
  }

  /** A search that succeeds has a match at some position. */
  lemma {:induction false} SearchHasMatch(p: Pattern, s: string, i: nat) returns (k: nat)
    requires i <= |s| && SearchFrom(p, s, i).Some?
    ensures i <= k <= |s| && MatchAt(p, s, k) == SearchFrom(p, s, i)
    decreases |s| - i
  {
    if MatchAt(p, s, i).Some? {
      k := i;
    } else {
      k := SearchHasMatch(p, s, i + 1);
    }
  }

  lemma LeadsNest()
    ensures Lead(OpenJdkQuote) == "openjdk " + Lead(VersionQuote) + ""
    ensures Lead(JavaVersionOne) == "java " + Lead(VersionQuote) + "1."
    ensures |"openjdk "| == 8 && |"java "| == 5 && "1."[0] == '1'
  {
  }

  /** A window holding `a + v + c` holds `v` after `a`. */
  lemma NestedWindow(s: string, i: nat, a: string, v: string, c: string)
    requires OccursAt(s, a + v + c, i)
    ensures OccursAt(s, v, i + |a|)
    ensures forall j :: 0 <= j < |c| ==> s[i + |a| + |v| + j] == c[j]
  {
    var w := a + v + c;
    forall k | 0 <= k < |w|
      ensures s[i + k] == w[k]
    {
      assert s[i..i + |w|][k] == s[i + k];
    }
    forall k | 0 <= k < |v|
      ensures s[i + |a|..i + |a| + |v|][k] == v[k]
    {
      assert w[|a| + k] == v[k];
    }
    forall j | 0 <= j < |c|
      ensures s[i + |a| + |v| + j] == c[j]
    {
      assert w[|a| + |v| + j] == c[j];
    }
  }

  /** Wherever `openjdk version "<digits>` or `java version "1.<digits>`
      matches, `version "<digits>` matches a few characters further on. */
  lemma InnerMatch(p: Pattern, s: string, i: nat) returns (k: nat)
    requires p == OpenJdkQuote || p == JavaVersionOne
    requires i <= |s| && MatchAt(p, s, i).Some?
    ensures k <= |s| && MatchAt(VersionQuote, s, k).Some?
  {
    LeadsNest();
    var v := Lead(VersionQuote);
    if p == OpenJdkQuote {
      NestedWindow(s, i, "openjdk ", v, "");
      k := i + 8;
    } else {
      NestedWindow(s, i, "java ", v, "1.");
      k := i + 5;
      assert s[k + |v| + 0] == '1';
    }
  }

  /** The second and the fourth pattern can never decide: whenever either of
      them matches, the first one matches too, and it is tried first. */
  lemma FirstPatternShadows(p: Pattern, output: string)
    requires p == OpenJdkQuote || p == JavaVersionOne
    requires Search(p, output).Some?
    ensures Search(VersionQuote, output).Some?
  {
    var s := Lower(output);
    var i := SearchHasMatch(p, s, 0);
    var k := InnerMatch(p, s, i);
    SearchFindsAny(VersionQuote, s, 0, k);
  }

  /** So the source's list decides exactly as the first and third pattern
      alone do. */
  lemma SourceOrderIsTwoPatterns(output: string)
    ensures FirstMatch(SourceOrder, output) == FirstMatch([VersionQuote, Dotted], output)
  {
    if Search(VersionQuote, output).None? {
      if Search(OpenJdkQuote, output).Some? {
        FirstPatternShadows(OpenJdkQuote, output);
      }
      if Search(JavaVersionOne, output).Some? {
        FirstPatternShadows(JavaVersionOne, output);
      }
      SkipUnmatched([VersionQuote, OpenJdkQuote], [Dotted, JavaVersionOne], output);
      SkipUnmatched([VersionQuote], [Dotted], output);
      assert [VersionQuote, OpenJdkQuote] + [Dotted, JavaVersionOne] == SourceOrder;
      DropUnmatchedLast([Dotted], JavaVersionOne, output);
      assert [Dotted] + [JavaVersionOne] == [Dotted, JavaVersionOne];
    }
  }

  /** Patterns that do not match can be skipped at the front of the list. */
  lemma {:induction false} SkipUnmatched(skipped: seq<Pattern>, rest: seq<Pattern>, output: string)
    requires forall p :: p in skipped ==> Search(p, output).None?
    ensures FirstMatch(skipped + rest, output) == FirstMatch(rest, output)
    decreases |skipped|
  {
    if skipped != [] {
      assert (skipped + rest)[0] == skipped[0] && skipped[0] in skipped;
      assert (skipped + rest)[1..] == skipped[1..] + rest;
      SkipUnmatched(skipped[1..], rest, output);
    } else {
      assert skipped + rest == rest;
    }
  }

  /** A pattern at the end of the list that does not match changes nothing. */
  lemma {:induction false} DropUnmatchedLast(ps: seq<Pattern>, last: Pattern, output: string)
    requires Search(last, output).None?
    ensures FirstMatch(ps + [last], output) == FirstMatch(ps, output)
    decreases |ps|
  {
    if ps == [] {
      assert [last][1..] == [];
    } else {
      assert (ps + [last])[1..] == ps[1..] + [last];
      DropUnmatchedLast(ps[1..], last, output);
    }
  }

  // ---------------------------------------------------------------------
  // An old-style probe
  // ---------------------------------------------------------------------

  /** What Java 7 prints first: `java version "1.7.0"`. */
  const JavaWord: string := "java "
  const Java7Tail: string := "1.7.0\""
  const Java7Banner: string := JavaWord + Lead(VersionQuote) + Java7Tail

  lemma JavaWordIsLower()
    ensures Lower(JavaWord) == JavaWord
  {
    LowerNoUpper(JavaWord);
  }

  lemma VersionLeadIsLower()
    ensures Lower(Lead(VersionQuote)) == Lead(VersionQuote)
  {
    LowerNoUpper(Lead(VersionQuote));
  }

  lemma TailIsLower()
    ensures Lower(Java7Tail) == Java7Tail
  {
    LowerNoUpper(Java7Tail);
  }

  lemma Java7BannerIsLower()
    ensures Lower(Java7Banner) == Java7Banner
  {
    JavaWordIsLower();
    VersionLeadIsLower();
    TailIsLower();
    LowerConcat(JavaWord + Lead(VersionQuote), Java7Tail);
    LowerConcat(JavaWord, Lead(VersionQuote));
  }

  lemma NoEightInPieces()
    ensures '8' !in JavaWord && '8' !in Lead(VersionQuote) && '8' !in Java7Tail
  {
  }

  lemma EightInJava8Marks()
    ensures "version \"1.8"[11] == '8' && "1.8.0"[2] == '8'
  {
  }

  /** Every character of a window is a character of the text. */
  lemma WindowChars(s: string, t: string, i: nat)
    ensures OccursAt(s, t, i) ==> forall j :: 0 <= j < |t| ==> s[i + j] == t[j]
  {
    if OccursAt(s, t, i) {
      forall j | 0 <= j < |t|
        ensures s[i + j] == t[j]
      {
        assert s[i + j] == s[i..i + |t|][j];
      }
    }
  }

  /** A text that contains `t` has every character of `t`. */
  lemma ContainedCharsAppear(s: string, t: string)
    ensures Contains(s, t) ==> forall c :: c in t ==> c in s
  {
    if Contains(s, t) {
      ContainsHasWindow(s, t);
      var i: nat :| OccursAt(s, t, i);
      WindowChars(s, t, i);
      forall c | c in t
        ensures c in s
      {
        var j :| 0 <= j < |t| && t[j] == c;
        assert s[i + j] == c;
      }
    }
  }

  lemma Java7BannerNotJava8()
    ensures !SaysJava8(Java7Banner)
  {
    NoEightInPieces();
    EightInJava8Marks();
    assert '8' !in Java7Banner;
    ContainedCharsAppear(Java7Banner, "version \"1.8");
    ContainedCharsAppear(Java7Banner, "1.8.0");
  }

  lemma JavaWordShape()
    ensures |JavaWord| == 5 && |Lead(VersionQuote)| == 9
    ensures JavaWord[0] != 'v' && JavaWord[1] != 'v' && JavaWord[3] != 'v' && JavaWord[4] != 'v'
    ensures JavaWord[3] != Lead(VersionQuote)[1]
    ensures Lead(VersionQuote)[0] == 'v'
  {
  }

  lemma TailShape()
    ensures |Java7Tail| == 6 && Java7Tail[0] == '1' && Java7Tail[1] == '.'
    ensures Java7Tail[2] == '7' && Java7Tail[3] == '.'
    ensures Java7Tail[..2] == "1."
  {
  }

  /** In the banner, `version "` first occurs after `java `. */
  lemma BannerHead(i: nat)
    requires i < 5
    ensures MatchAt(VersionQuote, Java7Banner, i).None?
  {
    JavaWordShape();
    var s := Java7Banner;
    var v := Lead(VersionQuote);
    WindowChars(s, v, i);
    assert s[i] == JavaWord[i];
    assert i < 4 ==> s[i + 1] == JavaWord[i + 1];
  }

  lemma BannerVersionAt5()
    ensures MatchAt(VersionQuote, Java7Banner, 5) == Some(1)
  {
    JavaWordShape();
    TailShape();
    var s := Java7Banner;
    assert s[5..14] == Lead(VersionQuote);
    assert s[14] == Java7Tail[0] && s[15] == Java7Tail[1];
    OneDigit(s, 14);
  }

  lemma BannerJavaAt0()
    ensures MatchAt(JavaVersionOne, Java7Banner, 0) == Some(7)
  {
    JavaWordShape();
    TailShape();
    LeadsNest();
    var s := Java7Banner;
    assert s[0..16] == JavaWord + Lead(VersionQuote) + Java7Tail[..2];
    assert s[16] == Java7Tail[2] && s[17] == Java7Tail[3];
    OneDigit(s, 16);
  }

  /** The value of a single digit. */
  lemma OneDigit(s: string, i: nat)
    requires i + 1 < |s| && IsDigit(s[i]) && !IsDigit(s[i + 1])
    ensures DigitsAt(s, i) == Some(s[i] as int - '0' as int)
  {
    assert RunEnd(s, i + 1) == i + 1;
    assert RunEnd(s, i) == i + 1;
    var d := s[i..i + 1];
    assert d == [s[i]] && d[..0] == [];
    assert DigitsValue(d) == DigitsValue(d[..0]) * 10 + (s[i] as int - '0' as int);
  }

  /** The first pattern reads `java version "1.7.0"` as Java 1. */
  lemma Java7ReadsAsOne()
    ensures JavaMajorAsWritten(Java7Banner, "") == 1
  {
    Java7BannerIsLower();
    Java7BannerNotJava8();
    forall i | 0 <= i < 5
      ensures MatchAt(VersionQuote, Java7Banner, i).None?
    {
      BannerHead(i);
    }
    BannerVersionAt5();
    SearchFindsEarliest(VersionQuote, Java7Banner, 0, 5);
  }

  /** The order that lets the old-style pattern speak: it is tried first. */
  const FixedOrder: seq<Pattern> := [JavaVersionOne, VersionQuote, OpenJdkQuote, Dotted]

  function CorrectedJavaMajor(stderr: string, stdout: string): (v: nat)
    ensures SaysJava8(ProbeText(stderr, stdout)) ==> v == 8
    ensures !SaysJava8(ProbeText(stderr, stdout)) && Search(JavaVersionOne, ProbeText(stderr, stdout)).Some? ==>
              v == Search(JavaVersionOne, ProbeText(stderr, stdout)).value
  {
    JavaMajor(stderr, stdout, FixedOrder)
  }

  /** With the old-style pattern first, Java 7 is read as 7. */
  lemma Java7ReadsAsSeven()
    ensures CorrectedJavaMajor(Java7Banner, "") == 7
  {
    Java7BannerIsLower();
    Java7BannerNotJava8();
    BannerJavaAt0();
  }

  /** Both orders read every text the same way unless it holds an
      old-style `java version "1.<digits>` banner. */
  lemma OrdersAgreeOnModernText(stderr: string, stdout: string)
    requires Search(JavaVersionOne, ProbeText(stderr, stdout)).None?
    ensures CorrectedJavaMajor(stderr, stdout) == JavaMajorAsWritten(stderr, stdout)
  {
    var output := ProbeText(stderr, stdout);
    var middle := [VersionQuote, OpenJdkQuote, Dotted];
    SkipUnmatched([JavaVersionOne], middle, output);
    DropUnmatchedLast(middle, JavaVersionOne, output);
    assert [JavaVersionOne] + middle == FixedOrder;
    assert middle + [JavaVersionOne] == SourceOrder;
  }

  // ---------------------------------------------------------------------
  // Compatibility check
  // ---------------------------------------------------------------------

  /** The outcomes of `check_java_version`, one per message it returns. */
  datatype JavaCheck =
    | NotFound
    | ProbeHung
    | Undetermined
    | TooOld(found: nat, required: int)
    | Suits(found: nat)

  predicate Passes(c: JavaCheck) { c.Suits? }

  /** The decision chain: a missing path, then a probe that times out, then
      a version that could not be read (0), then one below what is
      required. `major` is what the version reader returned. */
  function CheckJava(exists_: bool, timedOut: bool, major: nat, required: int): (r: JavaCheck)
    ensures Passes(r) <==> exists_ && !timedOut && major != 0 && major >= required
    ensures !exists_ ==> r == NotFound
    ensures exists_ && !timedOut && major == 0 ==> r == Undetermined
    ensures r.TooOld? ==> r.found == major && major < required
    ensures r.Suits? ==> r.found == major
  {
    if !exists_ then NotFound
    else if timedOut then ProbeHung
    else if major == 0 then Undetermined
    else if major < required then TooOld(major, required)
    else Suits(major)
  }

  // ---------------------------------------------------------------------
  // launcher_profiles.json
  // ---------------------------------------------------------------------

  /** The JSON values the file holds. */
  datatype Json =
    | JBool(b: bool)
    | JInt(i: int)
    | JStr(s: string)
    | JObject(fields: map<string, Json>)
    | JOther

  const DefaultSettings: map<string, Json> := map[
    "crashAssistance" := JBool(true),
    "enableAdvanced" := JBool(false),
    "enableAnalytics" := JBool(true),
    "enableHistorical" := JBool(false),
    "enableReleases" := JBool(true),
    "enableSnapshots" := JBool(false),
    "keepLauncherOpen" := JBool(false),
    "profileSorting" := JStr("ByLastPlayed"),
    "showGameLog" := JBool(false),
    "showMenu" := JBool(true),
    "soundOn" := JBool(false)
  ]

  /** The file written when there is none; `token` stands for the fresh
      random client token. */
  function FreshProfiles(token: string): (r: map<string, Json>)
    ensures r.Keys == {"profiles", "settings", "version", "selectedProfile", "clientToken", "authenticationDatabase"}
    ensures r["version"] == JInt(3) && r["profiles"] == JObject(map[])
    ensures r["selectedProfile"] == JStr("") && r["authenticationDatabase"] == JObject(map[])
    ensures r["clientToken"] == JStr(token)
  {
    map[
      "profiles" := JObject(map[]),
      "settings" := JObject(DefaultSettings),
      "version" := JInt(3),
      "selectedProfile" := JStr(""),
      "clientToken" := JStr(token),
      "authenticationDatabase" := JObject(map[])
    ]
  }

  /** A file that holds the three keys the launcher needs. */
  predicate Complete(data: map<string, Json>) {
    "version" in data && "profiles" in data && "clientToken" in data
  }

  /** The defaults filled into an existing file. */
  function Patched(data: map<string, Json>, token: string): (r: map<string, Json>)
    ensures Complete(r)
    ensures forall k :: k in data ==> k in r && r[k] == data[k]
    ensures r.Keys == data.Keys + {"version", "profiles", "clientToken"}
    ensures "version" !in data ==> r["version"] == JInt(3)
    ensures "profiles" !in data ==> r["profiles"] == JObject(map[])
    ensures "clientToken" !in data ==> r["clientToken"] == JStr(token)
  {
    var d1 := if "version" in data then data else data["version" := JInt(3)];
    var d2 := if "profiles" in d1 then d1 else d1["profiles" := JObject(map[])];
    if "clientToken" in d2 then d2 else d2["clientToken" := JStr(token)]
  }

  /** A complete file is left as it is, so patching twice changes nothing
      the first patch did not. */
  lemma PatchIdempotent(data: map<string, Json>, t1: string, t2: string)
    ensures Patched(Patched(data, t1), t2) == Patched(data, t1)
  {
    var p := Patched(data, t1);
    assert Patched(p, t2) == p;
  }

  /** A freshly written file needs no patching. */
  lemma FreshIsComplete(t1: string, t2: string)
    ensures Patched(FreshProfiles(t1), t2) == FreshProfiles(t1)
  {
  }

  /** What is found on disk: no file, a JSON object, or something that
      cannot be read or patched (bad JSON, or JSON that is not an object,
      which makes the key assignment raise). */
  datatype ProfilesFile = Missing | Existing(data: map<string, Json>) | Broken

  /** `create_launcher_profiles`: the file it leaves behind. A broken file is
      removed and written afresh. */
  method CreateLauncherProfiles(file: ProfilesFile, token: string) returns (written: map<string, Json>)
    ensures file.Existing? ==> written == Patched(file.data, token)
    ensures !file.Existing? ==> written == FreshProfiles(token)
    ensures Complete(written)
  {
    match file {
      case Existing(data) =>
        var d := data;
        if "version" !in d {
          d := d["version" := JInt(3)];
        }
        if "profiles" !in d {
          d := d["profiles" := JObject(map[])];
        }
        if "clientToken" !in d {
          d := d["clientToken" := JStr(token)];
        }
        written := d;
      case _ =>
        written := FreshProfiles(token);
    }
  }
}
