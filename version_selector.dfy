/** The version picker dialog: the versions the launcher library lists are
    marked installed or not, filtered by the "installed only" box, the type
    box and the search text, ordered newest-release-last ... reversed, and
    shown; the version the caller passed in is preselected, and the dialog
    only closes on a selected version. Fetching the list and the installed
    ids is done by the launcher library and is a parameter here. */
module VersionSelector {
  import opened Text

  /** A `releaseTime` value as read from the library's list: a string, a
      JSON `null`, or some other object together with what `str()` makes of
      it. */
  datatype Stamp = TimeString(s: string) | TimeNull | TimeOther(rendered: string)

  /** A version dictionary; `installed` is `False` until the list is marked. */
  datatype Version = Version(id: string, vtype: Option<string>, releaseTime: Option<Stamp>, installed: bool)

  /** A row of the list widget; placeholder rows carry no version. */
  datatype Item = Item(text: string, data: Option<Version>)

  const LoadingText: string := "Загрузка списка версий..."
  const NoMatchText: string := "Нет версий, соответствующих фильтрам"

  // ---------------------------------------------------------------------
  // Marking the fetched list

  /** What the loading thread does to one version: `installed` is whether
      its id is an installed id, and a `releaseTime` that is not a string
      is replaced by its `str()` (a `null` becomes "None"). */
  function Mark(v: Version, installedIds: seq<string>): (r: Version)
    ensures r.id == v.id && r.vtype == v.vtype
    ensures r.installed <==> v.id in installedIds
    ensures IsMarked(r)
    ensures v.releaseTime.None? <==> r.releaseTime.None?
    ensures v.releaseTime.Some? && v.releaseTime.value.TimeString? ==> r.releaseTime == v.releaseTime
  {
    var time :=
      match v.releaseTime
      case None => None
      case Some(TimeString(s)) => Some(TimeString(s))
      case Some(TimeNull) => Some(TimeString("None"))
      case Some(TimeOther(rendered)) => Some(TimeString(rendered));
    v.(installed := v.id in installedIds, releaseTime := time)
  }

  /** Every `releaseTime` left is a string. */
  predicate IsMarked(v: Version) {
    v.releaseTime.None? || v.releaseTime.value.TimeString?
  }

  /** Loading the list again with the same installed ids changes nothing. */
  lemma MarkIdempotent(v: Version, installedIds: seq<string>)
    ensures Mark(Mark(v, installedIds), installedIds) == Mark(v, installedIds)
  {
  }

  /** The loop of `_load_versions_thread` over the fetched list. */
  method MarkInstalled(vs: seq<Version>, installedIds: seq<string>) returns (r: seq<Version>)
    ensures |r| == |vs|
    ensures forall i :: 0 <= i < |vs| ==> r[i] == Mark(vs[i], installedIds)
  {
    r := [];
    var i := 0;
    while i < |vs|
      invariant 0 <= i <= |vs| && |r| == i
      invariant forall k :: 0 <= k < i ==> r[k] == Mark(vs[k], installedIds)
    {
      r := r + [Mark(vs[i], installedIds)];
      i := i + 1;
    }
  }

  // ---------------------------------------------------------------------
  // Filtering

  /** `version.get("type", "unknown")` */
  function TypeOf(v: Version): string {
    if v.vtype.Some? then v.vtype.value else "unknown"
  }

  /** The three tests of `filter_versions`; `search` is the box's text. */
  function Keep(v: Version, search: string, filterType: string, onlyInstalled: bool): (ok: bool)
    ensures search == "" && filterType == "all" && !onlyInstalled ==> ok
    ensures ok && onlyInstalled ==> v.installed
    ensures ok && filterType != "all" ==> TypeOf(v) == filterType
  {
    (!onlyInstalled || v.installed) &&
    (filterType == "all" || TypeOf(v) == filterType) &&
    (Lower(search) == "" || Contains(Lower(v.id), Lower(search)))
  }

  /** The versions kept, in list order. */
  function Kept(vs: seq<Version>, search: string, filterType: string, onlyInstalled: bool): (r: seq<Version>)
    ensures forall v :: v in r <==> v in vs && Keep(v, search, filterType, onlyInstalled)
  {
    Filter(vs, v => Keep(v, search, filterType, onlyInstalled))
  }

  lemma KeptAppend(vs: seq<Version>, v: Version, search: string, filterType: string, onlyInstalled: bool)
    ensures Kept(vs + [v], search, filterType, onlyInstalled) ==
            Kept(vs, search, filterType, onlyInstalled) + (if Keep(v, search, filterType, onlyInstalled) then [v] else [])
  {
    FilterAppend(vs, v, w => Keep(w, search, filterType, onlyInstalled));
    assert (w => Keep(w, search, filterType, onlyInstalled)) == (v => Keep(v, search, filterType, onlyInstalled));
  }

  /** With every box at its neutral value nothing is filtered out. */
  lemma NeutralFilterKeepsAll(vs: seq<Version>)
    ensures Kept(vs, "", "all", false) == vs
  {
    KeepsEverything(vs);
  }

  lemma {:induction false} KeepsEverything(vs: seq<Version>)
    ensures Filter(vs, v => Keep(v, "", "all", false)) == vs
  {
    if vs != [] {
      var init := vs[..|vs| - 1];
      assert Lower("") == "";
      assert Keep(vs[|vs| - 1], "", "all", false);
      KeepsEverything(init);
      assert init + [vs[|vs| - 1]] == vs;
    }
  }

  // ---------------------------------------------------------------------
  // Ordering

  /** The first half of `sort_key`. */
  function Priority(v: Version): (p: nat)
    ensures p <= 4
    ensures p == 0 <==> TypeOf(v) == "release"
    ensures p == 4 <==> TypeOf(v) !in {"release", "snapshot", "old_beta", "old_alpha"}
  {
    match TypeOf(v)
    case "release" => 0
    case "snapshot" => 1
    case "old_beta" => 2
    case "old_alpha" => 3
    case _ => 4
  }

  /** The second half: the release time, `""` when absent or `None`. A
      `TimeOther` never reaches the sort, because every list is marked
      first; its rendering stands in for it. */
  function TimeKey(v: Version): (key: string)
    ensures v.releaseTime.Some? && v.releaseTime.value.TimeString? ==> key == v.releaseTime.value.s
    ensures v.releaseTime.None? || v.releaseTime == Some(TimeNull) ==> key == ""
  {
    match v.releaseTime
    case None => ""
    case Some(TimeString(s)) => s
    case Some(TimeNull) => ""
    case Some(TimeOther(rendered)) => rendered
  }

  /** Python's ordering of the `(priority, releaseTime)` tuples. */
  predicate KeyLe(a: Version, b: Version) {
    Priority(a) < Priority(b) || (Priority(a) == Priority(b) && StrLe(TimeKey(a), TimeKey(b)))
  }

  lemma KeyLeTotal(a: Version, b: Version)
    ensures KeyLe(a, b) || KeyLe(b, a)
  {
    StrLeTotal(TimeKey(a), TimeKey(b));
  }

  lemma KeyLeTrans(a: Version, b: Version, c: Version)
    requires KeyLe(a, b) && KeyLe(b, c)
    ensures KeyLe(a, c)
  {
    if Priority(a) == Priority(b) == Priority(c) {
      StrLeTrans(TimeKey(a), TimeKey(b), TimeKey(c));
    }
  }

  predicate Sorted(s: seq<Version>) {
    forall i, j :: 0 <= i < j < |s| ==> KeyLe(s[i], s[j])
  }

  /** Inserting one more element into a sorted list after every element
      whose key is not greater, which keeps equal keys in arrival order. */
  function Insert(t: seq<Version>, x: Version): (r: seq<Version>)
    ensures multiset(r) == multiset(t) + multiset{x}
    ensures Sorted(t) ==> Sorted(r)
    decreases |t|
  {
    if t == [] then [x]
    else if KeyLe(t[|t| - 1], x) then
      InsertAtEnd(t, x);
      t + [x]
    else
      var front := t[..|t| - 1];
      var last := t[|t| - 1];
      assert t == front + [last];
      var r := Insert(front, x) + [last];
      InsertBeforeLast(front, last, x, Insert(front, x));
      r
  }

  lemma InsertAtEnd(t: seq<Version>, x: Version)
    requires t != [] && KeyLe(t[|t| - 1], x)
    ensures Sorted(t) ==> Sorted(t + [x])
  {
    if Sorted(t) {
      forall i | 0 <= i < |t| ensures KeyLe(t[i], x) {
        if i < |t| - 1 {
          KeyLeTrans(t[i], t[|t| - 1], x);
        }
      }
    }
  }

  lemma InsertBeforeLast(front: seq<Version>, last: Version, x: Version, inserted: seq<Version>)
    requires !KeyLe(last, x)
    requires multiset(inserted) == multiset(front) + multiset{x}
    requires Sorted(front + [last]) ==> Sorted(inserted)
    ensures Sorted(front + [last]) ==> Sorted(inserted + [last])
  {
    if Sorted(front + [last]) {
      KeyLeTotal(last, x);
      assert KeyLe(x, last);
      forall i | 0 <= i < |inserted| ensures KeyLe(inserted[i], last) {
        assert inserted[i] in multiset(inserted);
        if inserted[i] != x {
          assert inserted[i] in multiset(front);
          var k :| 0 <= k < |front| && front[k] == inserted[i];
          assert (front + [last])[k] == front[k] && (front + [last])[|front|] == last;
        }
      }
      forall i, j | 0 <= i < j < |inserted| + 1 ensures KeyLe((inserted + [last])[i], (inserted + [last])[j]) {
        if j < |inserted| {
          assert (inserted + [last])[i] == inserted[i] && (inserted + [last])[j] == inserted[j];
        }
      }
    }
  }

  /** `list.sort(key=sort_key)`: a stable sort. */
  function SortByKey(s: seq<Version>): (r: seq<Version>)
    ensures multiset(r) == multiset(s)
    ensures Sorted(r)
    decreases |s|
  {
    if s == [] then []
    else
      assert s == s[..|s| - 1] + [s[|s| - 1]];
      Insert(SortByKey(s[..|s| - 1]), s[|s| - 1])
  }

  /** `list.reverse()` */
  function Reverse(s: seq<Version>): (r: seq<Version>)
    ensures |r| == |s|
    ensures forall i :: 0 <= i < |s| ==> r[i] == s[|s| - 1 - i]
  {
    if s == [] then [] else Reverse(s[1..]) + [s[0]]
  }

  lemma {:induction false} ReversePermutes(s: seq<Version>)
    ensures multiset(Reverse(s)) == multiset(s)
    decreases |s|
  {
    if s != [] {
      ReversePermutes(s[1..]);
      assert s == [s[0]] + s[1..];
    }
  }

  /** The list `filter_versions` shows. */
  function Ordered(kept: seq<Version>): (shown: seq<Version>)
    ensures |shown| == |kept|
  {
    ReversePermutes(SortByKey(kept));
    assert |multiset(Reverse(SortByKey(kept)))| == |multiset(kept)|;
    Reverse(SortByKey(kept))
  }

  /** The shown list is a permutation of the kept versions ... */
  lemma OrderedPermutes(kept: seq<Version>)
    ensures multiset(Ordered(kept)) == multiset(kept)
    ensures forall v :: v in Ordered(kept) <==> v in kept
  {
    ReversePermutes(SortByKey(kept));
    forall v ensures v in Ordered(kept) <==> v in kept {
      assert v in Ordered(kept) <==> v in multiset(Ordered(kept));
      assert v in kept <==> v in multiset(kept);
    }
  }

  /** ... ordered by non-increasing type priority (so releases come last),
      and within one priority by non-increasing release time. */
  lemma OrderedDescending(kept: seq<Version>, i: nat, j: nat)
    requires i < j < |Ordered(kept)|
    ensures Priority(Ordered(kept)[i]) >= Priority(Ordered(kept)[j])
    ensures Priority(Ordered(kept)[i]) == Priority(Ordered(kept)[j]) ==>
              StrLe(TimeKey(Ordered(kept)[j]), TimeKey(Ordered(kept)[i]))
  {
    var s := SortByKey(kept);
    ReverseDescends(s, i, j);
    KeyLeParts(Reverse(s)[j], Reverse(s)[i]);
  }

  /** Reversing a sorted list makes every later element's key at most an
      earlier one's. */
  lemma ReverseDescends(s: seq<Version>, i: nat, j: nat)
    requires Sorted(s) && i < j < |s|
    ensures KeyLe(Reverse(s)[j], Reverse(s)[i])
  {
    assert Reverse(s)[j] == s[|s| - 1 - j];
  }

  lemma KeyLeParts(a: Version, b: Version)
    requires KeyLe(a, b)
    ensures Priority(a) <= Priority(b)
    ensures Priority(a) == Priority(b) ==> StrLe(TimeKey(a), TimeKey(b))
  {
  }

  /** The rows shown for a list: one per version, or the placeholder. */
  function ItemsFor(shown: seq<Version>): (r: seq<Item>)
    ensures shown == [] ==> r == [Item(NoMatchText, None)]
    ensures shown != [] ==> |r| == |shown| && forall i :: 0 <= i < |shown| ==> r[i] == Item(shown[i].id, Some(shown[i]))
  {
    if shown == [] then [Item(NoMatchText, None)]
    else seq(|shown|, i requires 0 <= i < |shown| => Item(shown[i].id, Some(shown[i])))
  }

  /** The row to preselect: the first whose text starts with the version
      the dialog was opened with. */
  function Preselect(items: seq<Item>, current: string): Option<nat> {
    FirstIndex(items, (it: Item) => StartsWith(it.text, current))
  }

  /** Preselection matches by prefix, so a game version also selects a
      longer version it is a prefix of. */
  lemma PrefixSelects(shown: seq<Version>, current: string, i: nat)
    requires i < |shown| && StartsWith(shown[i].id, current)
    requires forall k :: 0 <= k < i ==> !StartsWith(shown[k].id, current)
    ensures Preselect(ItemsFor(shown), current) == Some(i)
  {
    var items := ItemsFor(shown);
    FirstIndexIs(items, (it: Item) => StartsWith(it.text, current), i);
  }

  class VersionSelectorDialog {
    const currentVersion: Option<string>
    var versions: seq<Version>
    var filtered: seq<Version>
    var items: seq<Item>
    var current: Option<nat>
    var selectEnabled: bool
    var selected: Option<Version>
    var accepted: bool

    predicate Valid()
      reads this
    {
      (current.Some? ==> current.value < |items|) &&
      (forall i :: 0 <= i < |versions| ==> IsMarked(versions[i]))
    }

    /** The dialog as `__init__` and `load_versions` leave it while the list
        is being fetched. */
    constructor (currentVersion: Option<string>)
      ensures Valid()
      ensures this.currentVersion == currentVersion
      ensures versions == [] && filtered == [] && selected.None? && !accepted
      ensures items == [Item(LoadingText, None)] && current.None? && !selectEnabled
    {
      this.currentVersion := currentVersion;
      versions := [];
      filtered := [];
      items := [Item(LoadingText, None)];
      current := None;
      selectEnabled := false;
      selected := None;
      accepted := false;
    }

    /** `filter_versions` with the boxes' current values. */
    method FilterVersions(search: string, filterType: string, onlyInstalled: bool)
      requires Valid()
      modifies this
      ensures Valid()
      ensures versions == old(versions) && selected == old(selected) && accepted == old(accepted)
      ensures filtered == Ordered(Kept(versions, search, filterType, onlyInstalled))
      ensures items == ItemsFor(filtered)
      ensures selectEnabled <==> filtered != []
      ensures current.None?
    {
      var kept := KeepVersions(versions, search, filterType, onlyInstalled);
      var shown := Ordered(kept);
      filtered, items, current, selectEnabled := shown, ItemsFor(shown), None, shown != [];
    }

    /** `_update_versions_list`: store the marked list, filter it, and
        preselect the first row matching the version the dialog was opened
        with. */
    method UpdateVersionsList(vs: seq<Version>, search: string, filterType: string, onlyInstalled: bool)
      requires Valid()
      requires forall i :: 0 <= i < |vs| ==> IsMarked(vs[i])
      modifies this
      ensures Valid()
      ensures versions == vs && selected == old(selected) && accepted == old(accepted)
      ensures filtered == Ordered(Kept(vs, search, filterType, onlyInstalled))
      ensures items == ItemsFor(filtered)
      ensures currentVersion.Some? && currentVersion.value != "" ==>
                current == Preselect(items, currentVersion.value)
      ensures currentVersion.None? || currentVersion.value == "" ==> current.None?
      ensures selectEnabled <==> filtered != [] || current.Some?
    {
      versions := vs;
      FilterVersions(search, filterType, onlyInstalled);
      if currentVersion.Some? && currentVersion.value != "" {
        var row := FindPreselection(items, currentVersion.value);
        if row.Some? {
          current := row;
          selectEnabled := true;
        }
      }
    }

    /** The loop of `filter_versions` that collects the versions passing
        the three tests, in list order. */
    static method KeepVersions(vs: seq<Version>, search: string, filterType: string, onlyInstalled: bool)
      returns (kept: seq<Version>)
      ensures kept == Kept(vs, search, filterType, onlyInstalled)
    {
      var searchText := Lower(search);
      kept := [];
      var i := 0;
      while i < |vs|
        invariant 0 <= i <= |vs|
        invariant kept == Kept(vs[..i], search, filterType, onlyInstalled)
      {
        var v := vs[i];
        KeptAppend(vs[..i], v, search, filterType, onlyInstalled);
        assert vs[..i + 1] == vs[..i] + [v];
        var keep := true;
        if onlyInstalled && !v.installed {
          keep := false;
        } else if filterType != "all" && TypeOf(v) != filterType {
          keep := false;
        } else if searchText != "" && !Contains(Lower(v.id), searchText) {
          keep := false;
        }
        if keep {
          kept := kept + [v];
        }
        i := i + 1;
      }
      assert vs[..i] == vs;
    }

    /** The loop over the rows that stops at the first match. */
    static method FindPreselection(items: seq<Item>, prefix: string) returns (r: Option<nat>)
      ensures r == Preselect(items, prefix)
    {
      var i := 0;
      while i < |items|
        invariant 0 <= i <= |items|
        invariant forall k :: 0 <= k < i ==> !StartsWith(items[k].text, prefix)
      {
        if StartsWith(items[i].text, prefix) {
          FirstIndexIs(items, (it: Item) => StartsWith(it.text, prefix), i);
          return Some(i);
        }
        i := i + 1;
      }
      return None;
    }

    /** `accept`: the dialog closes only with a version selected. */
    method Accept()
      requires Valid()
      modifies this
      ensures Valid()
      ensures selected == (if current.Some? then items[current.value].data else None)
      ensures accepted <==> selected.Some?
      ensures versions == old(versions) && filtered == old(filtered) && items == old(items) && current == old(current)
    {
      selected := if current.Some? then items[current.value].data else None;
      accepted := selected.Some?;
    }
  }
}
