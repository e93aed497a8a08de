/** How `run_game` reads the game version back out of the name of the
    version it launches ("1.20.1-forge-47.3.0" gives "1.20.1"), both as the
    source does it and corrected. The result decides the major number and so
    the Forge era the launch is configured for. */
module GameVersion {
  import opened Text
  import opened McVersion

  /** The fall-back of `run_game`: the version the user picked when there
      is one (an empty string counts as none), else the launched name. */
  function Fallback(actual: string, original: Option<string>): (r: string)
    ensures original.Some? && original.value != "" ==> r == original.value
    ensures original.None? || original.value == "" ==> r == actual
  {
    if original.Some? && original.value != "" then original.value else actual
  }

  // ---------------------------------------------------------------------
  // As written

  /** The test the source applies to each '-'-field: two dots or more and a
      leading digit. */
  function LooksLikeVersionAsWritten(part: string): (ok: bool)
    ensures LooksLikeGameVersion(part) && CountChar(part, '.') >= 2 ==> ok
  {
    CountChar(part, '.') >= 2 && |part| > 0 && IsDigit(part[0])
  }

  /** The extraction as written: the first '-'-field passing the test, else
      the fall-back. */
  function BaseVersionAsWritten(actual: string, original: Option<string>): (mc: string)
    ensures '-' !in actual ==> mc == Fallback(actual, original)
    ensures '-' in actual && FirstIndex(Split(actual, '-'), LooksLikeVersionAsWritten).Some? ==>
              mc == Split(actual, '-')[FirstIndex(Split(actual, '-'), LooksLikeVersionAsWritten).value] &&
              LooksLikeVersionAsWritten(mc)
    ensures '-' in actual && FirstIndex(Split(actual, '-'), LooksLikeVersionAsWritten).None? ==>
              mc == Fallback(actual, original)
  {
    if '-' in actual then
      var parts := Split(actual, '-');
      match FirstIndex(parts, LooksLikeVersionAsWritten)
      case Some(i) => parts[i]
      case None => Fallback(actual, original)
    else Fallback(actual, original)
  }

  /** The Forge name of game version 1.21 (its table build is 51.0.33)
      yields the Forge build instead, and the major number read from that is
      0: `run_game` then configures a modern Forge as a very old one. */
  lemma ForgeName121ReadsAsBuild()
    ensures BaseVersionAsWritten("1.21-forge-51.0.33", Some("1.21")) == "51.0.33"
    ensures ParseMajor("51.0.33") == Some(0)
  {
    Base121AsWritten();
    Build51Split();
  }

  lemma Base121AsWritten()
    ensures BaseVersionAsWritten("1.21-forge-51.0.33", Some("1.21")) == "51.0.33"
  {
    Name121Fields();
    Name121Tests();
    ThirdFieldAsWritten("1.21", "forge", "51.0.33", Some("1.21"));
  }

  /** Of three fields, the source's test picks the third when only it passes. */
  lemma ThirdFieldAsWritten(a: string, b: string, c: string, original: Option<string>)
    requires '-' !in a && '-' !in b && '-' !in c
    requires !LooksLikeVersionAsWritten(a) && !LooksLikeVersionAsWritten(b) && LooksLikeVersionAsWritten(c)
    ensures BaseVersionAsWritten(a + ['-'] + b + ['-'] + c, original) == c
  {
    SplitOfThree(a, b, c, '-');
    assert (a + ['-'] + b + ['-'] + c)[|a|] == '-';
    FirstIndexIs([a, b, c], LooksLikeVersionAsWritten, 2);
  }

  lemma Build51Split()
    ensures ParseMajor("51.0.33") == Some(0)
  {
    Build51Fields();
    SplitOfThree("51", "0", "33", '.');
  }

  lemma Name121Fields()
    ensures '-' !in "1.21" && '-' !in "forge" && '-' !in "51.0.33"
    ensures "1.21" + ['-'] + "forge" + ['-'] + "51.0.33" == "1.21-forge-51.0.33"
  {
  }

  lemma Name121Tests()
    ensures !LooksLikeVersionAsWritten("1.21") && !LooksLikeVersionAsWritten("forge")
    ensures LooksLikeVersionAsWritten("51.0.33")
  {
    assert CountChar("1.21", '.') == 1;
    assert CountChar("51.0.33", '.') == 2;
  }

  lemma Build51Fields()
    ensures '.' !in "51" && '.' !in "0" && '.' !in "33"
    ensures "51" + ['.'] + "0" + ['.'] + "33" == "51.0.33"
    ensures ParseInt("0") == Some(0)
  {
    assert "0"[..0] == [];
  }

  /** Every Fabric name whose loader build has two dots yields the loader
      build rather than the game version. */
  lemma FabricNameReadsAsLoader(loader: string, mc: string, original: Option<string>)
    requires '-' !in loader && '-' !in mc && LooksLikeVersionAsWritten(loader)
    ensures BaseVersionAsWritten("fabric-loader-" + loader + "-" + mc, original) == loader
  {
    FabricNameFields(loader, mc);
    FabricWordsTests();
    FabricNameHasDash(loader, mc);
    ThirdOfFourAsWritten("fabric-loader-" + loader + "-" + mc, "fabric", "loader", loader, mc, original);
  }

  lemma ThirdOfFourAsWritten(name: string, a: string, b: string, c: string, d: string, original: Option<string>)
    requires '-' in name && Split(name, '-') == [a, b, c, d]
    requires !LooksLikeVersionAsWritten(a) && !LooksLikeVersionAsWritten(b) && LooksLikeVersionAsWritten(c)
    ensures BaseVersionAsWritten(name, original) == c
  {
    FirstIndexIs([a, b, c, d], LooksLikeVersionAsWritten, 2);
  }

  lemma FabricWordsTests()
    ensures !LooksLikeVersionAsWritten("fabric") && !LooksLikeVersionAsWritten("loader")
    ensures !LooksLikeGameVersion("fabric") && !LooksLikeGameVersion("loader")
  {
    assert CountChar("fabric", '.') == 0 && CountChar("loader", '.') == 0;
  }

  lemma FabricNameFields(loader: string, mc: string)
    requires '-' !in loader && '-' !in mc
    ensures Split("fabric-loader-" + loader + "-" + mc, '-') == ["fabric", "loader", loader, mc]
  {
    FabricWordsNoDash();
    SplitOfFour("fabric", "loader", loader, mc, '-');
    FabricNameShape(loader, mc);
  }

  lemma FabricWordsNoDash()
    ensures '-' !in "fabric" && '-' !in "loader"
  {
  }

  lemma FabricNameShape(loader: string, mc: string)
    ensures "fabric-loader-" + loader + "-" + mc == "fabric" + ['-'] + "loader" + ['-'] + loader + ['-'] + mc
  {
  }

  // ---------------------------------------------------------------------
  // Corrected

  /** A game version: "1." followed by a digit. Forge builds ("47.3.0",
      "10.13.4.1614") and Fabric loader builds ("0.16.9") never start so. */
  function LooksLikeGameVersion(part: string): (ok: bool)
    ensures ok ==> |part| > 0 && IsDigit(part[0]) && '.' in part
  {
    |part| >= 3 && part[0] == '1' && part[1] == '.' && IsDigit(part[2])
  }

  /** The extraction with the evidently intended test: the first '-'-field
      that is a game version, else the fall-back. */
  function BaseVersion(actual: string, original: Option<string>): (mc: string)
    ensures '-' !in actual ==> mc == Fallback(actual, original)
    ensures '-' in actual && FirstIndex(Split(actual, '-'), LooksLikeGameVersion).Some? ==>
              mc == Split(actual, '-')[FirstIndex(Split(actual, '-'), LooksLikeGameVersion).value] &&
              LooksLikeGameVersion(mc)
    ensures '-' in actual && FirstIndex(Split(actual, '-'), LooksLikeGameVersion).None? ==>
              mc == Fallback(actual, original)
  {
    if '-' in actual then
      var parts := Split(actual, '-');
      match FirstIndex(parts, LooksLikeGameVersion)
      case Some(i) => parts[i]
      case None => Fallback(actual, original)
    else Fallback(actual, original)
  }

  /** A name that starts with the game version, as every Forge install name
      does, gives that version back. */
  lemma LeadingVersionIsRead(mc: string, rest: string, original: Option<string>)
    requires '-' !in mc && LooksLikeGameVersion(mc)
    ensures BaseVersion(mc + "-" + rest, original) == mc
  {
    SplitFirst(mc, rest, '-');
    assert mc + "-" + rest == mc + ['-'] + rest;
    FirstIndexIs(Split(mc + "-" + rest, '-'), LooksLikeGameVersion, 0);
  }

  /** The corrected reading of the same name is the game version. */
  lemma ForgeName121ReadsLeading()
    ensures BaseVersion("1.21-forge-51.0.33", Some("1.21")) == "1.21"
  {
    Name121Leading();
    LeadingVersionIsRead("1.21", "forge-51.0.33", Some("1.21"));
  }

  lemma Major121()
    ensures ParseMajor("1.21") == Some(21)
  {
    ParseDottedMajor("1.21", "21");
    assert DigitsValue("21") == 21;
  }

  lemma Name121Leading()
    ensures '-' !in "1.21" && LooksLikeGameVersion("1.21")
    ensures "1.21" + "-" + "forge-51.0.33" == "1.21-forge-51.0.33"
  {
  }

  /** A Fabric install name gives the game version back, whatever the
      loader build, as long as that build is not itself "1.<digit>...". */
  lemma FabricVersionIsRead(loader: string, mc: string, original: Option<string>)
    requires '-' !in loader && '-' !in mc && !LooksLikeGameVersion(loader) && LooksLikeGameVersion(mc)
    ensures BaseVersion("fabric-loader-" + loader + "-" + mc, original) == mc
  {
    FabricNameFields(loader, mc);
    FabricWordsTests();
    FabricNameHasDash(loader, mc);
    FourthFieldIsRead("fabric-loader-" + loader + "-" + mc, "fabric", "loader", loader, mc, original);
  }

  lemma FourthFieldIsRead(name: string, a: string, b: string, c: string, d: string, original: Option<string>)
    requires '-' in name && Split(name, '-') == [a, b, c, d]
    requires !LooksLikeGameVersion(a) && !LooksLikeGameVersion(b) && !LooksLikeGameVersion(c) && LooksLikeGameVersion(d)
    ensures BaseVersion(name, original) == d
  {
    FirstIndexIs([a, b, c, d], LooksLikeGameVersion, 3);
  }

  lemma FabricNameHasDash(loader: string, mc: string)
    ensures '-' in "fabric-loader-" + loader + "-" + mc
  {
    FabricNameShape(loader, mc);
    assert ("fabric" + ['-'] + "loader" + ['-'] + loader + ['-'] + mc)[6] == '-';
  }

  /** Where the source's test does pick the leading game version (one with
      two dots), the correction changes nothing. */
  lemma AgreesOnThreePartVersions(mc: string, rest: string, original: Option<string>)
    requires '-' !in mc && LooksLikeGameVersion(mc) && CountChar(mc, '.') >= 2
    ensures BaseVersionAsWritten(mc + "-" + rest, original) == BaseVersion(mc + "-" + rest, original) == mc
  {
    LeadingVersionIsRead(mc, rest, original);
    SplitFirst(mc, rest, '-');
    assert mc + "-" + rest == mc + ['-'] + rest;
    FirstIndexIs(Split(mc + "-" + rest, '-'), LooksLikeVersionAsWritten, 0);
  }
}
