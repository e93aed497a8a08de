/** The plugin registry: which plugins are loaded, which modules back them,
    and the list of plugin names saved as enabled. Importing a plugin file
    and running its hooks is foreign code here; an oracle `load` says, for
    each name, what importing `<name>.py` yields and which hooks raise. */
module Plugins {
  import opened Text

  /** A plugin's metadata, as its instance reports it. */
  datatype Plugin = Plugin(name: string, version: string, author: string, description: string)

  /** The module object a plugin was loaded from, named by its file. */
  datatype Module = Module(file: string)

  /** What importing `<name>.py` and instantiating its plugin class yields. */
  datatype LoadOutcome =
    | NotLoadable   // the import raises, no plugin class is found, or its constructor raises
    | Loads(plugin: Plugin, onLoadRaises: bool, createTabRaises: bool)

  /** The file name a plugin lives in. */
  function FileOf(name: string): (f: string)
    ensures EndsWith(f, ".py") && f[..|f| - 3] == name
  {
    name + ".py"
  }

  /** The saved list of enabled plugins, as found on disk. */
  datatype SavedList = NoFile | Unreadable | Saved(names: seq<string>)

  /** `load_enabled_plugins`: a missing or unreadable file gives `[]`. */
  function LoadEnabled(f: SavedList): (r: seq<string>)
    ensures f.Saved? ==> r == f.names
    ensures !f.Saved? ==> r == []
  {
    if f.Saved? then f.names else []
  }

  // ---------------------------------------------------------------------
  // The registry as a value
  // ---------------------------------------------------------------------

  datatype Registry = Registry(plugins: map<string, Plugin>, modules: map<string, Module>, enabled: seq<string>)

  /** Every loaded plugin has its module, and no module is left behind. */
  predicate Consistent(r: Registry) {
    r.plugins.Keys == r.modules.Keys
  }

  predicate Distinct(s: seq<string>) {
    forall i, j :: 0 <= i < j < |s| ==> s[i] != s[j]
  }

  /** `list.remove(x)` guarded by `x in list`: drops the first occurrence. */
  function RemoveFirst(s: seq<string>, x: string): (r: seq<string>)
    ensures x !in s ==> r == s
    ensures x in s ==> |r| == |s| - 1 && multiset(r) == multiset(s) - multiset{x}
  {
    if s == [] then []
    else if s[0] == x then
      assert s == [s[0]] + s[1..];
      s[1..]
    else
      var rest := RemoveFirst(s[1..], x);
      assert s == [s[0]] + s[1..];
      [s[0]] + rest
  }

  /** It is the first occurrence that goes. */
  lemma {:induction false} RemoveFirstAt(s: seq<string>, x: string, i: nat)
    requires i < |s| && s[i] == x && x !in s[..i]
    ensures RemoveFirst(s, x) == s[..i] + s[i + 1..]
    decreases i
  {
    if i > 0 {
      assert s[0] == s[..i][0];
      assert s[1..][..i - 1] == s[..i][1..];
      RemoveFirstAt(s[1..], x, i - 1);
      assert s[..i] == [s[0]] + s[1..][..i - 1];
      assert s[1..][i - 1 + 1..] == s[i + 1..];
    }
  }

  /** A list without repeats loses its only `x` and keeps no copy of it. */
  lemma {:induction false} RemoveFirstDistinct(s: seq<string>, x: string)
    requires Distinct(s)
    ensures Distinct(RemoveFirst(s, x)) && x !in RemoveFirst(s, x)
    decreases |s|
  {
    if s != [] {
      assert Distinct(s[1..]);
      RemoveFirstDistinct(s[1..], x);
      if s[0] == x {
        assert x !in s[1..];
      } else {
        var rest := RemoveFirst(s[1..], x);
        forall y | y in rest ensures y in s[1..] {
          assert multiset(rest)[y] > 0;
        }
        assert s[0] !in s[1..];
      }
    }
  }

  /** `enable_plugin`: the new registry and the result it returns. */
  function Enable(r: Registry, name: string, dir: seq<string>, load: string -> LoadOutcome): (res: (Registry, bool))
    ensures name in r.plugins ==> res == (r, true)
    ensures name !in r.plugins && (FileOf(name) !in dir || load(name).NotLoadable?) ==> res == (r, false)
    ensures res.1 <==> name in r.plugins ||
                       (FileOf(name) in dir && load(name).Loads? &&
                        !load(name).onLoadRaises && !load(name).createTabRaises)
    ensures name !in r.plugins && Loadable(name, dir, load) ==>
              res.0.plugins == r.plugins[name := load(name).plugin] &&
              res.0.modules == r.modules[name := Module(FileOf(name))]
    ensures name !in r.plugins && Loadable(name, dir, load) ==>
              res.0.enabled == if load(name).onLoadRaises || name in r.enabled then r.enabled else r.enabled + [name]
  {
    if name in r.plugins then (r, true)
    else if FileOf(name) !in dir then (r, false)
    else match load(name)
      case NotLoadable => (r, false)
      case Loads(p, onLoadRaises, createTabRaises) =>
        var added := r.(plugins := r.plugins[name := p], modules := r.modules[name := Module(FileOf(name))]);
        if onLoadRaises then (added, false)
        else
          var listed := if name in r.enabled then added else added.(enabled := r.enabled + [name]);
          (listed, !createTabRaises)
  }

  /** `disable_plugin`; `unloadRaises` says whether the plugin's `on_unload`
      hook raises, in which case nothing is removed. */
  function Disable(r: Registry, name: string, unloadRaises: bool): (r': Registry)
    ensures name !in r.plugins || unloadRaises ==> r' == r
    ensures name in r.plugins && !unloadRaises ==>
      name !in r'.plugins && name !in r'.modules &&
      r'.enabled == RemoveFirst(r.enabled, name)
    ensures name in r.plugins && !unloadRaises ==>
      r'.plugins.Keys == r.plugins.Keys - {name} && r'.modules.Keys == r.modules.Keys - {name} &&
      (forall n :: n in r'.plugins ==> r'.plugins[n] == r.plugins[n]) &&
      (forall n :: n in r'.modules ==> r'.modules[n] == r.modules[n])
  {
    if name in r.plugins && !unloadRaises then
      Registry(r.plugins - {name}, r.modules - {name}, RemoveFirst(r.enabled, name))
    else r
  }

  /** `load_all_plugins`: enable each name in turn. */
  function LoadAll(r: Registry, names: seq<string>, dir: seq<string>, load: string -> LoadOutcome): (loaded: Registry)
    ensures r.plugins.Keys <= loaded.plugins.Keys
    ensures Consistent(r) ==> Consistent(loaded)
    ensures forall n :: n in loaded.plugins && n !in r.plugins ==> n in names && Loadable(n, dir, load)
    decreases |names|
  {
    if names == [] then r
    else LoadAll(Enable(r, names[0], dir, load).0, names[1..], dir, load)
  }

  /** Whether a plugin file can be brought up by `enable_plugin` at all. */
  predicate Loadable(name: string, dir: seq<string>, load: string -> LoadOutcome) {
    FileOf(name) in dir && load(name).Loads?
  }

  // ---------------------------------------------------------------------
  // What enabling and disabling keep and undo
  // ---------------------------------------------------------------------

  /** Enabling and disabling keep plugins and modules in step. */
  lemma ConsistencyKept(r: Registry, name: string, dir: seq<string>, load: string -> LoadOutcome, unloadRaises: bool)
    requires Consistent(r)
    ensures Consistent(Enable(r, name, dir, load).0)
    ensures Consistent(Disable(r, name, unloadRaises))
  {
  }

  /** Enabling never lists a name twice, and disabling a listed name leaves
      no copy of it, so a list without repeats stays without repeats. */
  lemma DistinctKept(r: Registry, name: string, dir: seq<string>, load: string -> LoadOutcome, unloadRaises: bool)
    requires Distinct(r.enabled)
    ensures Distinct(Enable(r, name, dir, load).0.enabled)
    ensures Distinct(Disable(r, name, unloadRaises).enabled)
  {
    var e := Enable(r, name, dir, load).0.enabled;
    if e != r.enabled {
      assert e == r.enabled + [name] && name !in r.enabled;
    }
    RemoveFirstDistinct(r.enabled, name);
  }

  /** A plugin whose `on_load` raises stays loaded but is not listed. */
  lemma OnLoadFailureLeavesLoadedUnlisted(r: Registry, name: string, dir: seq<string>, load: string -> LoadOutcome)
    requires name !in r.plugins && name !in r.enabled
    requires Loadable(name, dir, load) && load(name).onLoadRaises
    ensures var (r', ok) := Enable(r, name, dir, load);
      !ok && name in r'.plugins && name in r'.modules && name !in r'.enabled
  {
  }

  /** Disabling a plugin just enabled from nothing puts everything back. */
  lemma EnableThenDisable(r: Registry, name: string, dir: seq<string>, load: string -> LoadOutcome)
    requires Consistent(r) && name !in r.plugins && name !in r.enabled
    requires Loadable(name, dir, load) && !load(name).onLoadRaises
    ensures Disable(Enable(r, name, dir, load).0, name, false) == r
  {
    var p := load(name).plugin;
    var r1 := Enable(r, name, dir, load).0;
    assert r1 == Registry(r.plugins[name := p], r.modules[name := Module(FileOf(name))], r.enabled + [name]);
    RemoveAppended(r.enabled, name);
    AddThenRemove(r.plugins, name, p);
    AddThenRemove(r.modules, name, Module(FileOf(name)));
  }

  /** Removing the first `x` from a list that only gained `x` at its end
      gives the list back. */
  lemma RemoveAppended(s: seq<string>, x: string)
    requires x !in s
    ensures RemoveFirst(s + [x], x) == s
  {
    RemoveFirstAt(s + [x], x, |s|);
    assert (s + [x])[..|s|] == s;
    assert (s + [x])[|s| + 1..] == [];
  }

  lemma AddThenRemove<V>(m: map<string, V>, k: string, v: V)
    requires k !in m
    ensures m[k := v] - {k} == m
  {
  }

  /** Enabling the same name twice is enabling it once. */
  lemma EnableIdempotent(r: Registry, name: string, dir: seq<string>, load: string -> LoadOutcome)
    ensures var r1 := Enable(r, name, dir, load).0;
      Enable(r1, name, dir, load).0 == r1
  {
  }

  /** A name `enable_plugin` would not change anything for. */
  predicate Settled(r: Registry, name: string, dir: seq<string>, load: string -> LoadOutcome) {
    name in r.plugins || !Loadable(name, dir, load)
  }

  lemma SettledMeansNoChange(r: Registry, name: string, dir: seq<string>, load: string -> LoadOutcome)
    requires Settled(r, name, dir, load)
    ensures Enable(r, name, dir, load).0 == r
  {
  }

  /** Enabling any name leaves every settled name settled. */
  lemma EnableSettles(r: Registry, m: string, n: string, dir: seq<string>, load: string -> LoadOutcome)
    requires Settled(r, n, dir, load)
    ensures Settled(Enable(r, m, dir, load).0, n, dir, load)
  {
  }

  /** Enabling a name settles it. */
  lemma EnableSettlesName(r: Registry, m: string, dir: seq<string>, load: string -> LoadOutcome)
    ensures Settled(Enable(r, m, dir, load).0, m, dir, load)
  {
  }

  /** Enabling a name that is already listed leaves the list as it is. */
  lemma EnableListedKeepsList(r: Registry, name: string, dir: seq<string>, load: string -> LoadOutcome)
    requires name in r.enabled
    ensures Enable(r, name, dir, load).0.enabled == r.enabled
  {
  }

  /** After `load_all_plugins` every name it went through is settled: loaded,
      or not loadable at all. */
  lemma {:induction false} LoadAllSettles(r: Registry, names: seq<string>, dir: seq<string>, load: string -> LoadOutcome)
    ensures forall n :: n in names ==> Settled(LoadAll(r, names, dir, load), n, dir, load)
    ensures forall n :: Settled(r, n, dir, load) ==> Settled(LoadAll(r, names, dir, load), n, dir, load)
    decreases |names|
  {
    if names != [] {
      var r1 := Enable(r, names[0], dir, load).0;
      forall n | Settled(r, n, dir, load)
        ensures Settled(r1, n, dir, load)
      {
        EnableSettles(r, names[0], n, dir, load);
      }
      EnableSettlesName(r, names[0], dir, load);
      LoadAllSettles(r1, names[1..], dir, load);
      forall n | n in names
        ensures Settled(LoadAll(r, names, dir, load), n, dir, load)
      {
        if n != names[0] {
          assert n in names[1..];
        }
      }
    }
  }

  /** Going through names that are all settled changes nothing. */
  lemma {:induction false} LoadAllSettledIsNoOp(r: Registry, names: seq<string>, dir: seq<string>, load: string -> LoadOutcome)
    requires forall n :: n in names ==> Settled(r, n, dir, load)
    ensures LoadAll(r, names, dir, load) == r
    decreases |names|
  {
    if names != [] {
      SettledMeansNoChange(r, names[0], dir, load);
      LoadAllSettledIsNoOp(r, names[1..], dir, load);
    }
  }

  /** Running `load_all_plugins` a second time changes nothing. */
  lemma LoadAllIdempotent(r: Registry, names: seq<string>, dir: seq<string>, load: string -> LoadOutcome)
    ensures var r1 := LoadAll(r, names, dir, load);
      LoadAll(r1, names, dir, load) == r1
  {
    LoadAllSettles(r, names, dir, load);
    LoadAllSettledIsNoOp(LoadAll(r, names, dir, load), names, dir, load);
  }

  /** Going through listed names never changes the list. */
  lemma {:induction false} LoadAllKeepsList(r: Registry, names: seq<string>, dir: seq<string>, load: string -> LoadOutcome)
    requires forall n :: n in names ==> n in r.enabled
    ensures LoadAll(r, names, dir, load).enabled == r.enabled
    decreases |names|
  {
    if names != [] {
      EnableListedKeepsList(r, names[0], dir, load);
      LoadAllKeepsList(Enable(r, names[0], dir, load).0, names[1..], dir, load);
    }
  }

  // ---------------------------------------------------------------------
  // Scanning the plugins folder
  // ---------------------------------------------------------------------

  /** A file `scan_plugins` looks at: a `.py` file whose name does not start
      with `_`. */
  predicate Scanned(file: string) {
    EndsWith(file, ".py") && !StartsWith(file, "_")
  }

  function Stem(file: string): string
    requires EndsWith(file, ".py")
  {
    file[..|file| - 3]
  }

  /** `scan_plugins`: the metadata of every plugin whose file is scanned and
      whose import yields a plugin class. `dir` lists the folder. */
  method ScanPlugins(dir: seq<string>, load: string -> LoadOutcome) returns (found: map<string, Plugin>)
    ensures forall n :: n in found <==> Scanned(FileOf(n)) && FileOf(n) in dir && load(n).Loads?
    ensures forall n :: n in found ==> found[n] == load(n).plugin
    ensures forall n :: n in found ==> !StartsWith(n, "_")
  {
    found := map[];
    var i := 0;
    while i < |dir|
      invariant 0 <= i <= |dir|
      invariant forall n :: n in found <==> Scanned(FileOf(n)) && FileOf(n) in dir[..i] && load(n).Loads?
      invariant forall n :: n in found ==> found[n] == load(n).plugin
    {
      var file := dir[i];
      assert dir[..i + 1] == dir[..i] + [file];
      if Scanned(file) {
        var name := Stem(file);
        assert FileOf(name) == file;
        match load(name) {
          case Loads(p, _, _) =>
            found := found[name := p];
          case NotLoadable =>
        }
      }
      i := i + 1;
    }
    assert dir[..i] == dir;
  }

  // ---------------------------------------------------------------------
  // The manager object
  // ---------------------------------------------------------------------

  class PluginManager {
    var plugins: map<string, Plugin>
    var modules: map<string, Module>
    var enabled: seq<string>

    function State(): Registry
      reads this
    {
      Registry(plugins, modules, enabled)
    }

    ghost predicate Valid()
      reads this
    {
      Consistent(State())
    }

    /** Starts with nothing loaded and the saved list of enabled names. */
    constructor(saved: SavedList)
      ensures Valid()
      ensures plugins == map[] && modules == map[] && enabled == LoadEnabled(saved)
    {
      plugins := map[];
      modules := map[];
      enabled := LoadEnabled(saved);
    }

    method EnablePlugin(name: string, dir: seq<string>, load: string -> LoadOutcome) returns (ok: bool)
      requires Valid()
      modifies this
      ensures Valid()
      ensures (State(), ok) == Enable(old(State()), name, dir, load)
    {
      if name in plugins {
        return true;
      }
      if FileOf(name) !in dir {
        return false;
      }
      match load(name) {
        case NotLoadable =>
          return false;
        case Loads(p, onLoadRaises, createTabRaises) =>
          plugins := plugins[name := p];
          modules := modules[name := Module(FileOf(name))];
          if onLoadRaises {
            return false;
          }
          if name !in enabled {
            enabled := enabled + [name];
          }
          return !createTabRaises;
      }
    }

    method DisablePlugin(name: string, unloadRaises: bool)
      requires Valid()
      modifies this
      ensures Valid()
      ensures State() == Disable(old(State()), name, unloadRaises)
    {
      if name in plugins {
        if !unloadRaises {
          plugins := plugins - {name};
          if name in modules {
            modules := modules - {name};
          }
          if name in enabled {
            enabled := RemoveFirst(enabled, name);
          }
        }
      }
    }

    /** `toggle_plugin`; returns the list it saves afterwards. */
    method TogglePlugin(name: string, on: bool, dir: seq<string>, load: string -> LoadOutcome, unloadRaises: bool)
      returns (saved: seq<string>)
      requires Valid()
      modifies this
      ensures Valid()
      ensures on ==> State() == Enable(old(State()), name, dir, load).0
      ensures !on ==> State() == Disable(old(State()), name, unloadRaises)
      ensures saved == enabled
    {
      if on {
        var _ := EnablePlugin(name, dir, load);
      } else {
        DisablePlugin(name, unloadRaises);
      }
      saved := enabled;
    }

    /** `load_all_plugins`, iterating over the live list: enabling a listed
        name never appends to it, so the list stays the same throughout. */
    method LoadAllPlugins(dir: seq<string>, load: string -> LoadOutcome)
      requires Valid()
      modifies this
      ensures Valid()
      ensures State() == LoadAll(old(State()), old(enabled), dir, load)
      ensures enabled == old(enabled)
      ensures forall n :: n in enabled ==> n in plugins || !Loadable(n, dir, load)
    {
      var i := 0;
      while i < |enabled|
        invariant Valid()
        invariant 0 <= i <= |enabled| && enabled == old(enabled)
        invariant LoadAll(old(State()), old(enabled), dir, load) == LoadAll(State(), enabled[i..], dir, load)
      {
        var name := enabled[i];
        EnableListedKeepsList(State(), name, dir, load);
        assert enabled[i..][1..] == enabled[i + 1..];
        var _ := EnablePlugin(name, dir, load);
        i := i + 1;
      }
      LoadAllSettles(old(State()), old(enabled), dir, load);
    }
  }
}
