/** The parts of a version profile (`versions/<name>/<name>.json`) that the
    launcher reads or writes, and the `versions` directory seen as a list of
    sub-directories plus the profile file found in each. A key that is absent
    from the JSON object is `None`. */
module VersionJson {
  import opened Text

  /** An entry of `arguments.jvm` or `arguments.game`: a plain string, or a
      rule object that the launcher passes along without looking inside. */
  datatype Arg = Str(s: string) | Rule(raw: string)

  datatype Arguments = Arguments(jvm: Option<seq<Arg>>, game: Option<seq<Arg>>)

  /** A library entry; `url` is only written by the Fabric installer. */
  datatype Library = Library(name: Option<string>, url: Option<string>)

  datatype Profile = Profile(
    id: Option<string>,
    inheritsFrom: Option<string>,
    releaseTime: Option<string>,
    time: Option<string>,
    versionType: Option<string>,
    mainClass: Option<string>,
    minecraftArguments: Option<string>,
    arguments: Option<Arguments>,
    libraries: Option<seq<Library>>)

  /** The `{}` the launcher falls back to when a profile cannot be read. */
  const EmptyProfile: Profile := Profile(None, None, None, None, None, None, None, None, None)

  /** The timestamp written into every profile the launcher creates itself. */
  const FixedTimestamp: string := "2024-01-01T00:00:00+00:00"

  /** A profile file: parsed, or present but not valid JSON. */
  datatype JsonFile = Parsed(profile: Profile) | Unreadable

  /** The `versions` directory: its sub-directories in iteration order, and
      for each name that has one, the file `versions/<name>/<name>.json`. */
  datatype VersionsDir = VersionsDir(dirs: seq<string>, files: map<string, JsonFile>)

  /** `lib.get("name", "")` */
  function LibName(lib: Library): (r: string)
    ensures lib.name.Some? ==> r == lib.name.value
    ensures lib.name.None? ==> r == ""
  {
    match lib.name
    case Some(n) => n
    case None => ""
  }

  /** Some library name contains `needle` once lower-cased. */
  predicate SomeLibNameHas(libs: seq<Library>, needle: string) {
    exists i :: 0 <= i < |libs| && ContainsCI(LibName(libs[i]), needle)
  }

  /** The `arguments.jvm` list, or `[]` when either level is missing
      (`data["arguments"].get("jvm", [])`). */
  function JvmOrEmpty(p: Profile): (r: seq<Arg>)
    ensures p.arguments.Some? && p.arguments.value.jvm.Some? ==> r == p.arguments.value.jvm.value
    ensures p.arguments.None? || p.arguments.value.jvm.None? ==> r == []
  {
    if p.arguments.Some? && p.arguments.value.jvm.Some? then p.arguments.value.jvm.value else []
  }
}
