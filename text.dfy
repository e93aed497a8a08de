/** String helpers that stand for the Python string operations the launcher
    uses: `in` on strings, `str.lower`, `str.split`, `str.replace`,
    `str.startswith`, `str.endswith`, `int()` and f-string rendering of ints. */
module Text {

  datatype Option<+T> = None | Some(value: T)

  /** `s.startswith(p)` */
  predicate StartsWith(s: string, p: string) {
    |p| <= |s| && s[..|p|] == p
  }

  /** `s.endswith(p)` */
  predicate EndsWith(s: string, p: string) {
    |p| <= |s| && s[|s| - |p|..] == p
  }

  /** `t in s` for strings: some window of `s` equals `t`. */
  predicate Contains(s: string, t: string)
    decreases |s|
  {
    StartsWith(s, t) || (|s| > 0 && Contains(s[1..], t))
  }

  /** `t` occurs in `s` starting at index `i`. */
  predicate OccursAt(s: string, t: string, i: nat) {
    i + |t| <= |s| && s[i..i + |t|] == t
  }

  /** A string contains every one of its windows. */
  lemma {:induction false} ContainsWindow(s: string, i: nat, t: string)
    requires OccursAt(s, t, i)
    ensures Contains(s, t)
    decreases i
  {
    if i > 0 {
      assert s[1..][i - 1..i - 1 + |t|] == s[i..i + |t|];
      ContainsWindow(s[1..], i - 1, t);
    }
  }

  /** A string that contains `t` has a window equal to `t`. */
  lemma {:induction false} ContainsHasWindow(s: string, t: string)
    requires Contains(s, t)
    ensures exists i: nat :: OccursAt(s, t, i)
    decreases |s|
  {
    if StartsWith(s, t) {
      assert OccursAt(s, t, 0);
    } else {
      ContainsHasWindow(s[1..], t);
      var i: nat :| OccursAt(s[1..], t, i);
      assert s[i + 1..i + 1 + |t|] == s[1..][i..i + |t|];
      assert OccursAt(s, t, i + 1);
    }
  }

  /** A string contains whatever a window of it contains. */
  lemma ContainsInWindow(s: string, i: nat, j: nat, t: string)
    requires i <= j <= |s| && Contains(s[i..j], t)
    ensures Contains(s, t)
  {
    ContainsHasWindow(s[i..j], t);
    var k: nat :| OccursAt(s[i..j], t, k);
    assert k + |t| <= j - i && s[i..j][k..k + |t|] == t;
    SliceOfSlice(s, i, j, k, k + |t|);
    ContainsWindow(s, i + k, t);
  }

  lemma SliceOfSlice(s: string, i: nat, j: nat, k: nat, n: nat)
    requires i <= j <= |s| && k <= n <= j - i
    ensures s[i..j][k..n] == s[i + k..i + n]
  {
    var a := s[i..j][k..n];
    var b := s[i + k..i + n];
    forall m | 0 <= m < |a|
      ensures a[m] == b[m]
    {
      assert a[m] == s[i..j][k + m];
    }
  }

  /** Every string contains itself, and so does anything it is a part of. */
  lemma ContainsConcat(a: string, t: string, b: string)
    ensures Contains(a + t + b, t)
  {
    assert (a + t + b)[|a|..|a| + |t|] == t;
    ContainsWindow(a + t + b, |a|, t);
  }

  /** The ASCII part of `str.lower`. */
  function LowerChar(c: char): char {
    if 'A' <= c <= 'Z' then (c as int + 32) as char else c
  }

  function Lower(s: string): (r: string)
    ensures |r| == |s|
    ensures forall i :: 0 <= i < |s| ==> r[i] == LowerChar(s[i])
  {
    if s == [] then [] else [LowerChar(s[0])] + Lower(s[1..])
  }

  /** `in` after lower-casing the haystack, with a needle already in lower case. */
  predicate ContainsCI(s: string, t: string) {
    Contains(Lower(s), t)
  }

  lemma LowerConcat(a: string, b: string)
    ensures Lower(a + b) == Lower(a) + Lower(b)
  {
    assert forall i :: 0 <= i < |a + b| ==> Lower(a + b)[i] == (Lower(a) + Lower(b))[i];
  }

  lemma LowerSlice(s: string, i: nat, j: nat)
    requires i <= j <= |s|
    ensures Lower(s)[i..j] == Lower(s[i..j])
  {
    var a, b, c := s[..i], s[i..j], s[j..];
    ThreeParts(s, i, j);
    LowerConcat(a + b, c);
    LowerConcat(a, b);
    MiddleSlice(Lower(a), Lower(b), Lower(c));
  }

  lemma ThreeParts(s: string, i: nat, j: nat)
    requires i <= j <= |s|
    ensures s == s[..i] + s[i..j] + s[j..]
  {
  }

  lemma MiddleSlice(a: string, b: string, c: string)
    ensures (a + b + c)[|a|..|a| + |b|] == b
  {
  }

  /** A string without upper-case ASCII letters is its own lower case. */
  lemma LowerNoUpper(s: string)
    requires forall i :: 0 <= i < |s| ==> !('A' <= s[i] <= 'Z')
    ensures Lower(s) == s
  {
  }

  /** The lower-case forms of the words the launcher looks for in names. */
  lemma LowerForge()
    ensures Lower("forge") == "forge" && Lower("Forge") == "forge"
  {
    LowerNoUpper("forge");
    assert "Forge" == "F" + "orge";
    LowerConcat("F", "orge");
    LowerNoUpper("orge");
  }

  lemma LowerFabric()
    ensures Lower("fabric") == "fabric"
  {
    LowerNoUpper("fabric");
  }

  lemma LowerLaunchWrapper()
    ensures Lower("launchwrapper") == "launchwrapper"
  {
    LowerNoUpper("launchwrapper");
  }

  /** A string that contains `t` contains it case-insensitively too. */
  lemma ContainsLower(s: string, t: string)
    requires Contains(s, t)
    ensures Contains(Lower(s), Lower(t))
  {
    ContainsHasWindow(s, t);
    var i: nat :| OccursAt(s, t, i);
    ContainsCIAt(s, i, t, Lower(t));
  }

  /** A window `m` of `s` that lower-cases to `t` makes `s` contain `t`
      case-insensitively. */
  lemma ContainsCIAt(s: string, i: nat, m: string, t: string)
    requires OccursAt(s, m, i) && Lower(m) == t
    ensures ContainsCI(s, t)
  {
    LowerSlice(s, i, i + |m|);
    ContainsWindow(Lower(s), i, t);
  }

  /** A part `m` that lower-cases to `t` makes the whole string contain `t`
      case-insensitively. */
  lemma ContainsCIConcat(a: string, m: string, b: string, t: string)
    requires Lower(m) == t
    ensures ContainsCI(a + m + b, t)
  {
    LowerConcat(a + m, b);
    LowerConcat(a, m);
    ContainsConcat(Lower(a), t, Lower(b));
  }

  /** Python's `<=` on strings: code point by code point, a proper prefix
      first. */
  predicate StrLe(a: string, b: string) {
    a == [] || (b != [] && (a[0] < b[0] || (a[0] == b[0] && StrLe(a[1..], b[1..]))))
  }

  lemma {:induction false} StrLeTotal(a: string, b: string)
    ensures StrLe(a, b) || StrLe(b, a)
    decreases |a|
  {
    if a != [] && b != [] && a[0] == b[0] {
      StrLeTotal(a[1..], b[1..]);
    }
  }

  lemma {:induction false} StrLeTrans(a: string, b: string, c: string)
    requires StrLe(a, b) && StrLe(b, c)
    ensures StrLe(a, c)
    decreases |a|
  {
    if a != [] && a[0] == b[0] && b[0] == c[0] {
      StrLeTrans(a[1..], b[1..], c[1..]);
    }
  }

  /** The first index of `s` whose element satisfies `p`: the value of
      Python's `for x in s: if p(x): return ...` loops. */
  function FirstIndex<T>(s: seq<T>, p: T -> bool): (r: Option<nat>)
    ensures r.Some? ==> r.value < |s| && p(s[r.value]) && forall j :: 0 <= j < r.value ==> !p(s[j])
    ensures r.None? ==> forall j :: 0 <= j < |s| ==> !p(s[j])
  {
    if s == [] then None
    else if p(s[0]) then Some(0)
    else
      match FirstIndex(s[1..], p)
      case None => None
      case Some(k) => Some(k + 1)
  }

  /** An index whose element is the first to satisfy `p` is what
      `FirstIndex` finds. */
  lemma FirstIndexIs<T>(s: seq<T>, p: T -> bool, i: nat)
    requires i < |s| && p(s[i]) && forall j :: 0 <= j < i ==> !p(s[j])
    ensures FirstIndex(s, p) == Some(i)
  {
  }

  /** The elements of `s` that satisfy `p`, in order: the list a Python
      loop builds with `if p(x): out.append(x)`. */
  function Filter<T(!new)>(s: seq<T>, p: T -> bool): (r: seq<T>)
    ensures forall x :: x in r <==> x in s && p(x)
    ensures |r| <= |s|
    decreases |s|
  {
    if s == [] then []
    else
      var init, last := s[..|s| - 1], s[|s| - 1];
      assert s == init + [last];
      Filter(init, p) + (if p(last) then [last] else [])
  }

  /** Filtering a list grown by one element grows the result by that
      element exactly when it passes. */
  lemma FilterAppend<T(!new)>(s: seq<T>, x: T, p: T -> bool)
    ensures Filter(s + [x], p) == Filter(s, p) + (if p(x) then [x] else [])
  {
    assert (s + [x])[..|s|] == s;
  }

  function IndexOfChar(s: string, c: char): (r: Option<nat>)
    ensures r.Some? ==> r.value < |s| && s[r.value] == c && c !in s[..r.value]
    ensures r.None? ==> c !in s
  {
    if s == [] then None
    else if s[0] == c then Some(0)
    else
      match IndexOfChar(s[1..], c)
      case None => None
      case Some(k) => Some(k + 1)
  }

  /** `s.split(sep)` with a one-character separator. */
  function Split(s: string, sep: char): (r: seq<string>)
    ensures |r| >= 1
    ensures forall k :: 0 <= k < |r| ==> sep !in r[k]
    ensures sep !in s <==> r == [s]
    decreases |s|
  {
    match IndexOfChar(s, sep)
    case None => [s]
    case Some(k) => [s[..k]] + Split(s[k + 1..], sep)
  }

  /** Joining the fields of a split with the separator gives the string back. */
  function Join(fields: seq<string>, sep: char): string
    requires |fields| >= 1
  {
    if |fields| == 1 then fields[0] else fields[0] + [sep] + Join(fields[1..], sep)
  }

  lemma {:induction false} SplitJoin(s: string, sep: char)
    ensures Join(Split(s, sep), sep) == s
    decreases |s|
  {
    var idx := IndexOfChar(s, sep);
    if idx.Some? {
      var k := idx.value;
      var head, tail := s[..k], s[k + 1..];
      assert Split(s, sep) == [head] + Split(tail, sep);
      SplitJoin(tail, sep);
      JoinCons(head, Split(tail, sep), sep);
      Reassemble(s, k);
    }
  }

  /** Joining a field in front of others puts one separator between. */
  lemma JoinCons(head: string, rest: seq<string>, sep: char)
    requires |rest| >= 1
    ensures Join([head] + rest, sep) == head + [sep] + Join(rest, sep)
  {
    assert ([head] + rest)[1..] == rest;
  }

  lemma Reassemble(s: string, k: nat)
    requires k < |s|
    ensures s == s[..k] + [s[k]] + s[k + 1..]
  {
  }

  /** Splitting a join of separator-free fields gives the fields back. */
  lemma {:induction false} JoinSplit(fields: seq<string>, sep: char)
    requires |fields| >= 1
    requires forall k :: 0 <= k < |fields| ==> sep !in fields[k]
    ensures Split(Join(fields, sep), sep) == fields
    decreases |fields|
  {
    if |fields| > 1 {
      var s := Join(fields, sep);
      var rest := Join(fields[1..], sep);
      assert s == fields[0] + [sep] + rest;
      assert s[..|fields[0]|] == fields[0];
      IndexOfCharAt(s, sep, |fields[0]|);
      assert s[|fields[0]| + 1..] == rest;
      JoinSplit(fields[1..], sep);
    } else {
      assert IndexOfChar(fields[0], sep).None?;
    }
  }

  /** A separator-free first field comes off a split whole. */
  lemma SplitFirst(a: string, b: string, sep: char)
    requires sep !in a
    ensures Split(a + [sep] + b, sep) == [a] + Split(b, sep)
  {
    var s := a + [sep] + b;
    assert s[..|a|] == a;
    IndexOfCharAt(s, sep, |a|);
    assert s[|a| + 1..] == b;
  }

  /** Three separator-free fields joined by the separator split back. */
  lemma SplitOfThree(a: string, b: string, c: string, sep: char)
    requires sep !in a && sep !in b && sep !in c
    ensures Split(a + [sep] + b + [sep] + c, sep) == [a, b, c]
  {
    var bc := b + [sep] + c;
    SplitLast(b, c, sep);
    SplitFirst(a, bc, sep);
    Regroup(a, b, c, sep);
  }

  /** Four separator-free fields joined by the separator split back. */
  lemma SplitOfFour(a: string, b: string, c: string, d: string, sep: char)
    requires sep !in a && sep !in b && sep !in c && sep !in d
    ensures Split(a + [sep] + b + [sep] + c + [sep] + d, sep) == [a, b, c, d]
  {
    var fields := [a, b, c, d];
    assert forall k :: 0 <= k < |fields| ==> sep !in fields[k];
    JoinSplit(fields, sep);
    JoinFour(a, b, c, d, sep);
  }

  lemma JoinFour(a: string, b: string, c: string, d: string, sep: char)
    ensures Join([a, b, c, d], sep) == a + [sep] + b + [sep] + c + [sep] + d
  {
    assert [a, b, c, d][1..] == [b, c, d];
    assert [b, c, d][1..] == [c, d];
    assert [c, d][1..] == [d];
    assert Join([c, d], sep) == c + [sep] + d;
    assert Join([b, c, d], sep) == b + [sep] + (c + [sep] + d);
    assert Join([a, b, c, d], sep) == a + [sep] + (b + [sep] + (c + [sep] + d));
  }

  /** Two separator-free fields joined by the separator split back. */
  lemma SplitLast(b: string, c: string, sep: char)
    requires sep !in b && sep !in c
    ensures Split(b + [sep] + c, sep) == [b, c]
  {
    SplitFirst(b, c, sep);
    assert Split(c, sep) == [c];
  }

  /** Splitting at a separator placed between two strings splits each of
      them on its own. */
  lemma {:induction false} SplitConcat(a: string, b: string, sep: char)
    ensures Split(a + [sep] + b, sep) == Split(a, sep) + Split(b, sep)
    decreases |a|
  {
    match IndexOfChar(a, sep)
    case None =>
      SplitFirst(a, b, sep);
    case Some(k) =>
      var s := a + [sep] + b;
      assert s[..k] == a[..k];
      IndexOfCharAt(s, sep, k);
      assert s[k + 1..] == a[k + 1..] + [sep] + b;
      SplitConcat(a[k + 1..], b, sep);
  }

  /** Replacing one separator by another splits the same way, as long as
      the new separator did not already occur. */
  lemma {:induction false} SplitReplaced(s: string, a: char, b: char)
    requires a != b && b !in s
    ensures Split(ReplaceChar(s, a, b), b) == Split(s, a)
    decreases |s|
  {
    var r := ReplaceChar(s, a, b);
    match IndexOfChar(s, a)
    case None =>
      assert r == s;
    case Some(k) =>
      assert r[..k] == s[..k];
      IndexOfCharAt(r, b, k);
      assert r[k + 1..] == ReplaceChar(s[k + 1..], a, b);
      SplitReplaced(s[k + 1..], a, b);
  }

  lemma Regroup(a: string, b: string, c: string, sep: char)
    ensures a + [sep] + b + [sep] + c == a + [sep] + (b + [sep] + c)
  {
  }

  lemma {:induction false} IndexOfCharAt(s: string, c: char, k: nat)
    requires k < |s| && s[k] == c && c !in s[..k]
    ensures IndexOfChar(s, c) == Some(k)
    decreases k
  {
    if k > 0 {
      assert s[0] == s[..k][0];
      assert s[1..][..k - 1] == s[..k][1..];
      IndexOfCharAt(s[1..], c, k - 1);
    }
  }

  /** `s.replace(a, b)` for one-character `a` and `b`. */
  function ReplaceChar(s: string, a: char, b: char): (r: string)
    ensures |r| == |s|
    ensures forall i :: 0 <= i < |s| ==> r[i] == (if s[i] == a then b else s[i])
  {
    if s == [] then [] else [if s[0] == a then b else s[0]] + ReplaceChar(s[1..], a, b)
  }

  /** Number of occurrences of `c` in `s`, as `s.count(c)`. */
  function CountChar(s: string, c: char): (r: nat)
    ensures r <= |s|
    ensures r == 0 <==> c !in s
  {
    if s == [] then 0 else (if s[0] == c then 1 else 0) + CountChar(s[1..], c)
  }

  predicate IsDigit(c: char) {
    '0' <= c <= '9'
  }

  predicate AllDigits(s: string) {
    forall i :: 0 <= i < |s| ==> IsDigit(s[i])
  }

  /** The value of a run of decimal digits (leading zeros allowed). */
  function DigitsValue(s: string): (r: nat)
    requires AllDigits(s)
    decreases |s|
  {
    if s == [] then 0 else DigitsValue(s[..|s| - 1]) * 10 + (s[|s| - 1] as int - '0' as int)
  }

  /** Python's `int(s)`: an optional sign and at least one decimal digit.
      `None` stands for the `ValueError` Python raises. */
  function ParseInt(s: string): (r: Option<int>)
    ensures r.Some? <==> (AllDigits(s) && |s| > 0) ||
                         (|s| > 1 && (s[0] == '-' || s[0] == '+') && AllDigits(s[1..]))
  {
    if |s| > 0 && AllDigits(s) then Some(DigitsValue(s))
    else if |s| > 1 && s[0] == '-' && AllDigits(s[1..]) then Some(0 - DigitsValue(s[1..]))
    else if |s| > 1 && s[0] == '+' && AllDigits(s[1..]) then Some(DigitsValue(s[1..]))
    else None
  }

  function DigitChar(d: nat): (c: char)
    requires d < 10
    ensures IsDigit(c)
  {
    ('0' as int + d) as char
  }

  /** Decimal rendering of a natural number, as `str(n)`. */
  function NatToString(n: nat): (r: string)
    ensures |r| > 0 && AllDigits(r)
    ensures DigitsValue(r) == n
    decreases n
  {
    if n < 10 then [DigitChar(n)]
    else
      var prefix := NatToString(n / 10);
      var r := prefix + [DigitChar(n % 10)];
      assert r[..|r| - 1] == prefix;
      r
  }

  /** Decimal rendering of an integer, as `str(i)` or an f-string. */
  function IntToString(i: int): (r: string)
    ensures |r| > 0
    ensures ParseInt(r) == Some(i)
  {
    if i >= 0 then NatToString(i)
    else
      var r := "-" + NatToString(-i);
      assert r[1..] == NatToString(-i);
      r
  }
}
