/** The way the launcher reads the numbers out of a game version string such
    as "1.7.10": split on '.', the second field is the major number and the
    third the minor one, each 0 when the field is absent. Python's `int()`
    raises on a field that is not a number; here that is `None`. */
module McVersion {
  import opened Text

  /** `int(parts[1]) if len(parts) > 1 else 0` */
  function ParseMajor(mc: string): (r: Option<int>)
    ensures |Split(mc, '.')| <= 1 ==> r == Some(0)
    ensures |Split(mc, '.')| > 1 ==> r == ParseInt(Split(mc, '.')[1])
    ensures '.' !in mc ==> r == Some(0)
  {
    var parts := Split(mc, '.');
    if |parts| > 1 then ParseInt(parts[1]) else Some(0)
  }

  /** `int(parts[2]) if len(parts) > 2 else 0` */
  function ParseMinor(mc: string): (r: Option<int>)
    ensures |Split(mc, '.')| <= 2 ==> r == Some(0)
    ensures |Split(mc, '.')| > 2 ==> r == ParseInt(Split(mc, '.')[2])
  {
    var parts := Split(mc, '.');
    if |parts| > 2 then ParseInt(parts[2]) else Some(0)
  }

  /** The pair the Forge installer computes in its constructor: the major
      number is parsed first, so a bad major field raises before the minor
      field is looked at; either way the whole parse fails. */
  function ParseMajorMinor(mc: string): (r: Option<(int, int)>)
    ensures r.Some? <==> ParseMajor(mc).Some? && ParseMinor(mc).Some?
    ensures r.Some? ==> r.value == (ParseMajor(mc).value, ParseMinor(mc).value)
  {
    match ParseMajor(mc)
    case None => None
    case Some(major) =>
      match ParseMinor(mc)
      case None => None
      case Some(minor) => Some((major, minor))
  }

  /** Parsing a version written as "1.<major>.<minor>", with both numbers
      written in decimal digits, gives those numbers back. */
  lemma ParseDotted(mc: string, a: string, b: string)
    requires |a| > 0 && |b| > 0 && AllDigits(a) && AllDigits(b)
    requires mc == "1." + a + "." + b
    ensures ParseMajorMinor(mc) == Some((DigitsValue(a), DigitsValue(b)))
  {
    DigitsHaveNoDot(a);
    DigitsHaveNoDot(b);
    OneNoDot();
    DottedShape(a, b);
    SplitOfThree("1", a, b, '.');
    FieldsParse(mc, "1", a, b);
  }

  /** Parsing a version written as "1.<major>" gives that number and minor 0. */
  lemma ParseDottedMajor(mc: string, a: string)
    requires |a| > 0 && AllDigits(a)
    requires mc == "1." + a
    ensures ParseMajorMinor(mc) == Some((DigitsValue(a), 0))
  {
    DigitsHaveNoDot(a);
    OneNoDot();
    assert "1." + a == "1" + ['.'] + a;
    SplitFirst("1", a, '.');
    assert Split(a, '.') == [a];
    TwoFieldsParse(mc, "1", a);
  }

  lemma DigitsHaveNoDot(a: string)
    requires AllDigits(a)
    ensures '.' !in a
  {
    assert forall i :: 0 <= i < |a| ==> IsDigit(a[i]);
  }

  lemma OneNoDot()
    ensures '.' !in "1"
  {
  }

  lemma DottedShape(a: string, b: string)
    ensures "1." + a + "." + b == "1" + ['.'] + a + ['.'] + b
  {
  }

  /** The numbers of a version whose fields are known. */
  lemma FieldsParse(mc: string, x: string, a: string, b: string)
    requires Split(mc, '.') == [x, a, b]
    requires |a| > 0 && |b| > 0 && AllDigits(a) && AllDigits(b)
    ensures ParseMajorMinor(mc) == Some((DigitsValue(a), DigitsValue(b)))
  {
  }

  lemma TwoFieldsParse(mc: string, x: string, a: string)
    requires Split(mc, '.') == [x, a]
    requires |a| > 0 && AllDigits(a)
    ensures ParseMajorMinor(mc) == Some((DigitsValue(a), 0))
  {
  }

  /** "1.7.10", the version several code paths single out, parses to (7, 10). */
  lemma Parse1710()
    ensures ParseMajorMinor("1.7.10") == Some((7, 10))
    ensures ParseMajor("1.7.10") == Some(7)
  {
    SevenAndTen();
    Shape1710();
    ParseDotted("1.7.10", "7", "10");
  }

  lemma SevenAndTen()
    ensures AllDigits("7") && |"7"| > 0 && DigitsValue("7") == 7
    ensures AllDigits("10") && |"10"| > 0 && DigitsValue("10") == 10
  {
    assert "7"[..0] == [] && "10"[..1] == "1" && "1"[..0] == [];
  }

  lemma Shape1710()
    ensures "1.7.10" == "1." + "7" + "." + "10"
  {
  }
}
