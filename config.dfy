/** The launcher's constant tables: the default game version, the default
    Forge and Fabric loader versions, the Java release each game version
    needs, and the three lookups with their fall-back values. */
module Config {
  import opened Text
  import opened McVersion

  const DefaultMcVersion: string := "1.21.4"
  const ForgeVersion: string := "54.1.13"
  const FabricLoaderVersion: string := "0.18.4"
  const FabricInstallerVersion: string := "1.0.1"
  const RequiredJavaVersion: nat := 21

  /** The type filters offered by the version selector. */
  const VersionTypes: seq<string> := ["release", "snapshot", "old_beta", "old_alpha"]

  const JavaVersionRequirements: map<string, nat> := map[
    "1.21.4" := 21,
    "1.21" := 21,
    "1.20.6" := 21,
    "1.20.4" := 21,
    "1.20.1" := 21,
    "1.19.4" := 21,
    "1.19.2" := 17,
    "1.18.2" := 17,
    "1.17.1" := 17,
    "1.16.5" := 11,
    "1.15.2" := 11,
    "1.14.4" := 11,
    "1.13.2" := 11,
    "1.12.2" := 8,
    "1.11.2" := 8,
    "1.10.2" := 8,
    "1.9.4" := 8,
    "1.8.9" := 8,
    "1.7.10" := 8
  ]

  const ForgeVersions: map<string, string> := map[
    "1.7.10" := "10.13.4.1614-1.7.10",
    "1.8.9" := "11.15.1.2318-1.8.9",
    "1.12.2" := "14.23.5.2860",
    "1.13.2" := "25.0.219",
    "1.14.4" := "28.2.26",
    "1.15.2" := "31.2.57",
    "1.16.5" := "36.2.39",
    "1.17.1" := "37.1.1",
    "1.18.2" := "40.2.14",
    "1.19.2" := "43.2.21",
    "1.19.4" := "45.1.0",
    "1.20.1" := "47.1.3",
    "1.20.4" := "49.0.14",
    "1.20.6" := "50.1.0",
    "1.21" := "51.0.33",
    "1.21.1" := "52.0.16",
    "1.21.4" := "54.1.13"
  ]

  const FabricVersions: map<string, string> := map[
    "1.21.4" := "0.16.9",
    "1.21" := "0.16.9",
    "1.20.6" := "0.16.9",
    "1.20.4" := "0.15.11",
    "1.20.1" := "0.14.25",
    "1.19.4" := "0.14.25",
    "1.19.2" := "0.14.25",
    "1.18.2" := "0.14.25",
    "1.17.1" := "0.14.25",
    "1.16.5" := "0.14.25",
    "1.15.2" := "0.14.25",
    "1.14.4" := "0.14.25"
  ]

  /** `JAVA_VERSION_REQUIREMENTS.get(mc, 21)` */
  function RecommendedJava(mc: string): (r: nat)
    ensures mc in JavaVersionRequirements ==> r == JavaVersionRequirements[mc]
    ensures mc !in JavaVersionRequirements ==> r == 21
    ensures r in {8, 11, 17, 21}
  {
    if mc in JavaVersionRequirements then JavaVersionRequirements[mc] else 21
  }

  /** `FORGE_VERSIONS.get(mc, FORGE_VERSION)` */
  function RecommendedForge(mc: string): (r: string)
    ensures mc in ForgeVersions ==> r == ForgeVersions[mc]
    ensures mc !in ForgeVersions ==> r == ForgeVersion
    ensures r in ForgeVersions.Values
  {
    if mc in ForgeVersions then ForgeVersions[mc]
    else assert ForgeVersions[DefaultMcVersion] == ForgeVersion; ForgeVersion
  }

  /** `FABRIC_VERSIONS.get(mc, FABRIC_LOADER_VERSION)` */
  function RecommendedFabric(mc: string): (r: string)
    ensures mc in FabricVersions ==> r == FabricVersions[mc]
    ensures mc !in FabricVersions ==> r == FabricLoaderVersion
  {
    if mc in FabricVersions then FabricVersions[mc] else FabricLoaderVersion
  }

  /** The default game version is a key of all three tables, the Forge
      table maps it to the default Forge version, and it needs the Java
      release the launcher requires. */
  lemma DefaultsAgree()
    ensures DefaultMcVersion in JavaVersionRequirements
    ensures DefaultMcVersion in ForgeVersions && DefaultMcVersion in FabricVersions
    ensures RecommendedForge(DefaultMcVersion) == ForgeVersion
    ensures RecommendedJava(DefaultMcVersion) == RequiredJavaVersion
  {
  }

  /** The step function the Java table follows: Java 8 up to 1.12, Java 11
      for 1.13 to 1.16, Java 17 from 1.17 up to (not including) 1.19.4, and
      Java 21 from 1.19.4 on. */
  function JavaStep(major: int, minor: int): (r: nat)
    ensures r in {8, 11, 17, 21}
  {
    if major <= 12 then 8
    else if major <= 16 then 11
    else if major < 19 || (major == 19 && minor < 4) then 17
    else 21
  }

  /** Lexicographic order on (major, minor). */
  predicate VersionLe(a: (int, int), b: (int, int)) {
    a.0 < b.0 || (a.0 == b.0 && a.1 <= b.1)
  }

  lemma JavaStepMonotone(a: (int, int), b: (int, int))
    requires VersionLe(a, b)
    ensures JavaStep(a.0, a.1) <= JavaStep(b.0, b.1)
  {
  }

  /** A key of the Java table parses, and its value is the step function
      of its (major, minor) pair. */
  predicate FollowsStep(mc: string)
    requires mc in JavaVersionRequirements
  {
    ParseMajorMinor(mc).Some? &&
    JavaVersionRequirements[mc] == JavaStep(ParseMajorMinor(mc).value.0, ParseMajorMinor(mc).value.1)
  }

  lemma KeyFollowsStep(mc: string, a: string, b: string)
    requires mc in JavaVersionRequirements
    requires |a| > 0 && |b| > 0 && AllDigits(a) && AllDigits(b)
    requires mc == "1." + a + "." + b
    requires JavaVersionRequirements[mc] == JavaStep(DigitsValue(a), DigitsValue(b))
    ensures FollowsStep(mc)
  {
    ParseDotted(mc, a, b);
  }

  lemma MajorKeyFollowsStep(mc: string, a: string)
    requires mc in JavaVersionRequirements
    requires |a| > 0 && AllDigits(a)
    requires mc == "1." + a
    requires JavaVersionRequirements[mc] == JavaStep(DigitsValue(a), 0)
    ensures FollowsStep(mc)
  {
    ParseDottedMajor(mc, a);
  }

  /** Every key of the Java table follows the step function. */
  lemma JavaTableFollowsStep(mc: string)
    requires mc in JavaVersionRequirements
    ensures FollowsStep(mc)
  {
    var java := JavaVersionRequirements[mc];
    if java == 21 {
      Java21KeysFollowStep(mc);
    } else if java == 17 {
      Java17KeysFollowStep(mc);
    } else if java == 11 {
      Java11KeysFollowStep(mc);
    } else {
      Java8KeysFollowStep(mc);
    }
  }

  lemma Java21KeysFollowStep(mc: string)
    requires mc in JavaVersionRequirements && JavaVersionRequirements[mc] == 21
    ensures FollowsStep(mc)
  {
    if mc in {"1.21.4", "1.21", "1.20.6"} {
      KeysFollowStep121(mc);
    } else {
      KeysFollowStep120(mc);
    }
  }

  lemma KeysFollowStep121(mc: string)
    requires mc in {"1.21.4", "1.21", "1.20.6"}
    ensures mc in JavaVersionRequirements && FollowsStep(mc)
  {
    if mc == "1.21.4" {
      KeyFollowsStep(mc, "21", "4");
    } else if mc == "1.21" {
      MajorKeyFollowsStep(mc, "21");
    } else {
      KeyFollowsStep(mc, "20", "6");
    }
  }

  lemma KeysFollowStep120(mc: string)
    requires mc in {"1.20.4", "1.20.1", "1.19.4"}
    ensures mc in JavaVersionRequirements && FollowsStep(mc)
  {
    if mc == "1.20.4" {
      KeyFollowsStep(mc, "20", "4");
    } else if mc == "1.20.1" {
      KeyFollowsStep(mc, "20", "1");
    } else {
      KeyFollowsStep(mc, "19", "4");
    }
  }

  lemma Java17KeysFollowStep(mc: string)
    requires mc in JavaVersionRequirements && JavaVersionRequirements[mc] == 17
    ensures FollowsStep(mc)
  {
    if mc == "1.19.2" {
      KeyFollowsStep(mc, "19", "2");
    } else if mc == "1.18.2" {
      KeyFollowsStep(mc, "18", "2");
    } else {
      KeyFollowsStep(mc, "17", "1");
    }
  }

  lemma Java11KeysFollowStep(mc: string)
    requires mc in JavaVersionRequirements && JavaVersionRequirements[mc] == 11
    ensures FollowsStep(mc)
  {
    if mc in {"1.16.5", "1.15.2"} {
      KeysFollowStep116(mc);
    } else {
      KeysFollowStep114(mc);
    }
  }

  lemma KeysFollowStep116(mc: string)
    requires mc in {"1.16.5", "1.15.2"}
    ensures mc in JavaVersionRequirements && FollowsStep(mc)
  {
    if mc == "1.16.5" {
      KeyFollowsStep(mc, "16", "5");
    } else {
      KeyFollowsStep(mc, "15", "2");
    }
  }

  lemma KeysFollowStep114(mc: string)
    requires mc in {"1.14.4", "1.13.2"}
    ensures mc in JavaVersionRequirements && FollowsStep(mc)
  {
    if mc == "1.14.4" {
      KeyFollowsStep(mc, "14", "4");
    } else {
      KeyFollowsStep(mc, "13", "2");
    }
  }

  lemma Java8KeysFollowStep(mc: string)
    requires mc in JavaVersionRequirements && JavaVersionRequirements[mc] !in {11, 17, 21}
    ensures FollowsStep(mc)
  {
    if mc in {"1.12.2", "1.11.2", "1.10.2"} {
      KeysFollowStep112(mc);
    } else {
      KeysFollowStep19(mc);
    }
  }

  lemma KeysFollowStep112(mc: string)
    requires mc in {"1.12.2", "1.11.2", "1.10.2"}
    ensures mc in JavaVersionRequirements && FollowsStep(mc)
  {
    if mc == "1.12.2" {
      KeyFollowsStep(mc, "12", "2");
    } else if mc == "1.11.2" {
      KeyFollowsStep(mc, "11", "2");
    } else {
      KeyFollowsStep(mc, "10", "2");
    }
  }

  lemma KeysFollowStep19(mc: string)
    requires mc in {"1.9.4", "1.8.9", "1.7.10"}
    ensures mc in JavaVersionRequirements && FollowsStep(mc)
  {
    if mc == "1.9.4" {
      KeyFollowsStep(mc, "9", "4");
    } else if mc == "1.8.9" {
      KeyFollowsStep(mc, "8", "9");
    } else {
      KeyFollowsStep(mc, "7", "10");
    }
  }

  /** The Java table is non-decreasing in the (major, minor) order of its keys. */
  lemma JavaTableMonotone(a: string, b: string)
    requires a in JavaVersionRequirements && b in JavaVersionRequirements
    requires ParseMajorMinor(a).Some? && ParseMajorMinor(b).Some?
    requires VersionLe(ParseMajorMinor(a).value, ParseMajorMinor(b).value)
    ensures JavaVersionRequirements[a] <= JavaVersionRequirements[b]
  {
    JavaTableFollowsStep(a);
    JavaTableFollowsStep(b);
    JavaStepMonotone(ParseMajorMinor(a).value, ParseMajorMinor(b).value);
  }
}
