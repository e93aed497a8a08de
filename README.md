# WONDERFULAND launcher core, modelled in Dafny

This project models the decision logic of the WONDERFULAND Minecraft launcher and proves properties about it.
It covers:

- how the Forge and Fabric installer threads name, locate, download and write version profiles;
- how `run_game` turns a version name into a loader, a base game version, a JVM argument list and a main class, and classifies a crash;
- how the version selector marks, filters and orders the version list;
- the version tables of `core/config.py`;
- the Java helpers in `core/utils.py`: reading a `java -version` banner, the compatibility decision and the `launcher_profiles.json` defaults;
- the plugin manager's registry of loaded and enabled plugins;
- the Java download dialog;
- the background widget.

The network, subprocesses, the filesystem and Qt become parameters, as follows.

- **Network.** A set of URLs that answer. The parsed promotions file is an optional list of key/value pairs.
- **Filesystem.**
  - A version directory is a map from names to parsed profiles, or to unreadable files, together with the list of its sub-directories.
  - The installed library paths are a set.
  - A Java binary's probe is a function from a path to an optional major version.
- **Plugin import.** A function that says whether a file loads as a plugin, and whether its `on_load` or `create_tab` raise.
- **Client token.** A token string, not a fresh UUID.

Python `int()` is modelled as an optional sign followed by ASCII digits. `str.lower()` is modelled as ASCII lower-casing.

Modules: one per source file (`Forge`, `Fabric`, `Launch`, `GameVersion`, `VersionSelector`, `Config`, `JavaUtils`, `Plugins`, `JavaDialog`, `Widgets`), plus `Text`, `McVersion` and `VersionJson`.

- `Text` holds the string helpers.
- `McVersion` holds the `"1.X.Y"` parse shared by several files.
- `VersionJson` holds the typed view of a version profile.

Code that updates an object in place is a class with `modifies` clauses. These are:

- `Forge.ForgeInstaller`
- `Fabric.FabricInstaller`
- `VersionSelector.VersionSelectorDialog`
- `Plugins.PluginManager`
- `JavaDialog.JavaDownloadDialog`
- `Widgets.BackgroundWidget`

Each of their methods states its result or its new state in terms of a value-level function of its inputs and old state: the loops and updates are proved to compute that function, and the properties the source promises are proved as lemmas about the function. `JavaDialog.StartTwice` and `Widgets.BackgroundWidget.ReapplyOpacity` are methods only because a lemma cannot read an object's fields; each states a property of two (or one) calls on the object.

## Model

| member | source | states |
|---|---|---|
| McVersion.ParseMajor | threads/forge_thread.py:27-28 | major is `int` of the second `.`-field, 0 when there is none; `None` when that field is not a number |
| McVersion.ParseMinor | threads/forge_thread.py:29 | minor is `int` of the third `.`-field, 0 when there is none |
| McVersion.ParseMajorMinor | threads/forge_thread.py:27-29 | both parse exactly when each field does, and the pair is (major, minor) |
| McVersion.ParseDotted | threads/forge_thread.py:27-29 | `"1.a.b"` with digit strings a, b parses to their values |
| McVersion.ParseDottedMajor | threads/forge_thread.py:27-29 | `"1.a"` parses to (a, 0) |
| McVersion.Parse1710 | threads/forge_thread.py:27-29 | "1.7.10" parses to (7, 10) |
| Config.RecommendedJava | core/config.py:116-118 | the Java table value, 21 on a miss; always one of 8, 11, 17, 21 |
| Config.RecommendedForge | core/config.py:120-122 | the Forge table value, `FORGE_VERSION` on a miss; always a table value |
| Config.RecommendedFabric | core/config.py:124-125 | the Fabric table value, "0.18.4" on a miss |
| Config.DefaultsAgree | core/config.py:6-10 | the default game version is a key of all three tables and its Forge and Java entries are the default build and Java |
| Config.JavaStepMonotone | core/config.py:16-36 | the Java step function (8 to 1.12, 11 to 1.16, 17 before 1.19.4, 21 after) is monotone |
| Config.JavaTableFollowsStep | core/config.py:16-36 | every Java table key parses and its value is the step function of its (major, minor) |
| Config.JavaTableMonotone | core/config.py:16-36 | the Java table is non-decreasing in (major, minor) order |
| Forge.DetermineFormat | threads/forge_thread.py:64-105 | modern iff major >= 13, legacy iff 8 <= major < 13, very_old below; main class by era; version name and id per branch; installer URL always built from the id |
| Forge.VeryOld1710LikeOthers | threads/forge_thread.py:95-101 | the 1.7.10 branch yields the same name and id as the general very_old branch |
| Forge.FormatNameIsScanned | threads/forge_thread.py:247-249 | every installer version name starts with the game version and passes the directory scan filter |
| Forge.ForgeSpellingRedundant | threads/forge_thread.py:249 | the scan's `'Forge' in name` test is implied by its case-insensitive one |
| Forge.ForgeDirFor | threads/forge_thread.py:731 | true iff the name contains the game version and, case-insensitively, "forge" |
| Forge.ForgeVersionFor | threads/forge_thread.py:37-62 | table hit returned unchanged; else the value of the first promo key `<mc>-recommended` or `<mc>-latest` in order; else "latest" |
| Forge.GetForgeVersion | threads/forge_thread.py:37-62 | the loop returns `ForgeVersionFor` |
| Forge.LatestListedFirstWins | threads/forge_thread.py:52-57 | no preference for recommended: a `-latest` key listed first wins |
| Forge.PromoInfo | threads/forge_thread.py:352-366 | the value of the first promo key starting with `<mc>-`, none without promotions |
| Forge.GetForgeVersionInfo | threads/forge_thread.py:352-366 | the loop returns `PromoInfo` |
| Forge.PromoKeyHasPrefix | threads/forge_thread.py:52-57 | every key `get_forge_version` accepts is one `get_forge_version_info` accepts |
| Forge.DownloadUrls | threads/forge_thread.py:283-294 | 5 URLs iff major <= 8, else 4; the first two equal the installer URL; all are installer jars |
| Forge.FirstServed | threads/forge_thread.py:296-334 | the first URL that answers, none iff no URL answers |
| Forge.TryUrls | threads/forge_thread.py:296-334 | the loop returns `FirstServed` |
| Forge.ForgeInstaller.DownloadInstaller | threads/forge_thread.py:275-350 | stopped: nothing; first round succeeds: its URL; else a retry round with the promo build, which also renames the version; no build: nothing |
| Forge.ExistingCandidates | threads/forge_thread.py:205-212 | six names, the current version name first, the others mentioning the game version |
| Forge.ExactMatch | threads/forge_thread.py:215-240 | the first candidate whose profile has a forge library or inherits from the game version; none iff none does |
| Forge.ScanMatch | threads/forge_thread.py:243-271 | the first scanned directory with a Forge-looking name whose profile inherits from the game version or lists its Forge library |
| Forge.ExistingForge | threads/forge_thread.py:198-273 | exact candidates first, then the scan; none iff neither accepts anything |
| Forge.ExactAccepts | threads/forge_thread.py:219-233 | accepts only a parsed profile; accepts every parsed profile inheriting from the game version |
| Forge.ScanAccepts | threads/forge_thread.py:257-269 | whatever the scan accepts the exact check accepts too |
| Forge.WrittenProfileIsFound | threads/forge_thread.py:215-240 | a profile written under the current name that inherits from the game version is found under that name |
| Forge.ForgeInstaller.AcceptsExactly | threads/forge_thread.py:224-233 | the library loop decides `ExactAccepts` |
| Forge.ForgeInstaller.AcceptsScanned | threads/forge_thread.py:257-269 | the library loop decides `ScanAccepts` |
| Forge.ForgeInstaller.FindExact | threads/forge_thread.py:215-240 | the candidate loop returns `ExactMatch` |
| Forge.ForgeInstaller.FindScanned | threads/forge_thread.py:243-271 | the directory loop returns `ScanMatch` |
| Forge.ForgeInstaller.CheckExistingForge | threads/forge_thread.py:198-273 | found iff `ExistingForge` finds a name, which then overwrites the version name |
| Forge.SearchPathWitness | threads/forge_thread.py:519-551 | one path gives nothing iff nothing was found before and no directory from here holds a jar; otherwise the earlier find or a directory holding a jar |
| Forge.SearchPathsWitness | threads/forge_thread.py:515-551 | the search finds nothing iff no directory of any path holds a jar; a find names a directory that holds a jar |
| Forge.ForgeInstaller.FindForgeLibrary | threads/forge_thread.py:515-551 | the loops give exactly `SearchPaths`: a later path's first matching directory replaces an earlier find when it holds a jar; a library is named iff some search path, matching directory and jar name exist, and it names such a directory |
| Forge.JarNames | threads/forge_thread.py:534-540 | the five jar names tried in each directory |
| Forge.LegacyProfile | threads/forge_thread.py:554-603 | id, inheritsFrom and mainClass; the tweak class before 1.13; libraries in order forge, launchwrapper and asm-all, fml for 1.7.10; exactly four `-D` flags |
| Forge.ForgeInstaller.CreateLegacyForgeProfile | threads/forge_thread.py:508-603 | the written record is `LegacyProfile` of the library `SearchPaths` selects; there is none iff no directory holds a jar, and one found names a directory that holds a jar |
| Forge.MainClassStepRepairs | threads/forge_thread.py:746-755 | before 1.13 an existing mainClass ends as FMLTweaker for 1.7.10 and launchwrapper otherwise; the step is the identity iff it already was; no other field changes and an absent mainClass stays absent |
| Forge.RepairMainClass | threads/forge_thread.py:746-755 | the profile is exactly `MainClassStep` of the input; modified iff it changed |
| Forge.WithFlagAdds | threads/forge_thread.py:763-768 | the flag is present afterwards; the old list is a prefix; nothing else is added; the list is unchanged iff the flag was there |
| Forge.ArgumentsStepRepairs | threads/forge_thread.py:758-768 | before 1.13 the jvm list holds both flags and keeps the old list as a prefix; a missing arguments record becomes empty jvm and game lists; the identity iff already repaired; no other field changes |
| Forge.RepairArguments | threads/forge_thread.py:758-768 | the profile is exactly `ArgumentsStep` of the input; modified iff it changed |
| Forge.HasLaunchWrapper | threads/forge_thread.py:772-776 | true iff some library name contains "launchwrapper" |
| Forge.LibrariesStepRepairs | threads/forge_thread.py:771-782 | a present 1.7.10 library list contains launchwrapper afterwards, keeps the old list as a prefix; an absent list stays absent; the identity iff already repaired; no other field changes |
| Forge.RepairLibraries | threads/forge_thread.py:771-782 | the profile is exactly `LibrariesStep` of the input; modified iff it changed |
| Forge.RepairedIsRepaired | threads/forge_thread.py:746-790 | `Repaired` (the three steps, then inheritsFrom set to the game version) is repaired; id, times, type and legacy arguments are kept; old library and jvm lists are prefixes |
| Forge.RepairedFixedPoints | threads/forge_thread.py:746-792 | the repair leaves a profile unchanged iff it is already repaired |
| Forge.RepairIdempotent | threads/forge_thread.py:746-792 | repairing twice is repairing once |
| Forge.RepairProfile | threads/forge_thread.py:746-792 | the profile is exactly `Repaired` of the input; modified iff it changed, iff the input was not repaired |
| Forge.FixedFileRepairs | threads/forge_thread.py:733-797 | a parsed file gets the repaired profile, an unreadable one is left alone; fixing twice is fixing once |
| Forge.FixedFilesRepair | threads/forge_thread.py:725-797 | same keys; a file outside the Forge directories of the game version, or unreadable, is unchanged; a parsed Forge one is repaired; idempotent |
| Forge.ForgeInstaller.FixOne | threads/forge_thread.py:729-797 | the map with exactly the file of a Forge directory of the game version replaced by `FixedFile` of it; any other name leaves the map unchanged |
| Forge.ForgeInstaller.FixForgeProfile | threads/forge_thread.py:719-801 | modern: the files are unchanged; otherwise they are exactly `FixedFiles` of the directory |
| Forge.LegacyProfileIsRepaired | threads/forge_thread.py:554-603 | a written legacy or 1.7.10 profile needs no repair, so the repair leaves it unchanged |
| Forge.VeryOldLegacyProfileIsRewritten | threads/forge_thread.py:746-755 | a very_old non-1.7.10 profile is written with FMLTweaker and then rewritten to launchwrapper |
| Forge.MissingProfile | threads/forge_thread.py:874-939 | id `<mc>-forge-<c>`; main class per 1.7.10; forge library, plus launchwrapper for 1.7.10; three `-D` flags |
| Forge.ForgeInstaller.CreateMissingForgeProfile | threads/forge_thread.py:874-939 | written iff not modern; the record is `MissingProfile` and the version name becomes `<mc>-forge-<c>` |
| Forge.MissingProfileIsRepaired | threads/forge_thread.py:874-939 | a created missing profile needs no repair |
| Forge.ForgeInstaller.constructor | threads/forge_thread.py:16-35 | build, major and minor as parsed and looked up; the name comes from the format |
| Forge.ForgeInstaller.DetermineForgeFormat | threads/forge_thread.py:64-105 | fields follow `DetermineFormat` |
| Forge.ForgeInstaller.Stop | threads/forge_thread.py:949-950 | the thread stops running |
| Fabric.LoaderVersion | threads/fabric_thread.py:25-32 | the table value, "0.14.25" on a miss |
| Fabric.VersionName | threads/fabric_thread.py:23 | starts with `fabric-loader-` and ends with `-` and the game version |
| Fabric.ParseCoordinate | threads/fabric_thread.py:216-218 | a name with at least three `:`-fields gives its first three; fewer gives nothing |
| Fabric.ParseCoordinateOf | threads/fabric_thread.py:216-218 | joining colon-free fields and parsing gives back the first three |
| Fabric.LibraryPath | threads/fabric_thread.py:224 | the group with dots made slashes, then `/a/v/a-v.jar` |
| Fabric.LibraryPathFields | threads/fabric_thread.py:224 | read back on `/`, the path is the group's dotted fields, then the artifact, the version and `<artifact>-<version>.jar` |
| Fabric.WithSlash | threads/fabric_thread.py:220-221 | the base URL ending in exactly one added `/` at most |
| Fabric.WithSlashIdempotent | threads/fabric_thread.py:220-221 | adding the slash twice is adding it once |
| Fabric.LibraryUrl | threads/fabric_thread.py:219-225 | the slashed base URL followed by the library path, shared with `download_specific_library` (296-305) |
| Fabric.Libraries | threads/fabric_thread.py:172-209 | loader and intermediary first; the five asm 9.2 artefacts iff major < 16; length 7 or 2 |
| Fabric.FabricProfile | threads/fabric_thread.py:134-153 | id, inheritsFrom, KnotClient main class, one jvm flag, empty game list, exactly the loader library |
| Fabric.CreatedProfileIsRecognised | threads/fabric_thread.py:110-113 | a created profile passes `check_existing_fabric` |
| Fabric.RequestOf | threads/fabric_thread.py:212-240 | a library is requested iff it parses and its jar is absent |
| Fabric.Requests | threads/fabric_thread.py:212-240 | at most one request per library, each a jar |
| Fabric.NextRequests | threads/fabric_thread.py:212-240 | one more library adds exactly its own request at the end |
| Fabric.NothingRequestedWhenPresent | threads/fabric_thread.py:228-240 | when every jar is present nothing is downloaded |
| Fabric.FabricInstaller.constructor | threads/fabric_thread.py:14-23 | loader build and version name as looked up |
| Fabric.FabricInstaller.Stop | threads/fabric_thread.py:321-322 | the thread stops running |
| Fabric.FabricInstaller.CheckExistingFabric | threads/fabric_thread.py:101-116 | found iff the profile lists a library whose name mentions fabric |
| Fabric.FabricInstaller.CreateFabricProfile | threads/fabric_thread.py:118-166 | the directory gains `FabricProfile`, which is then recognised |
| Fabric.FabricInstaller.RequestLibrary | threads/fabric_thread.py:216-240 | one iteration requests the jar URL of the library iff its name parses and the jar is absent |
| Fabric.FabricInstaller.FetchLibraries | threads/fabric_thread.py:212-253 | succeeds iff not stopped before the end; requests exactly those of the libraries reached |
| Fabric.FabricInstaller.DownloadFabricLibraries | threads/fabric_thread.py:168-253 | the same over the library list, failing when the game version does not parse |
| GameVersion.Fallback | gui/main_window_game.py:336 | the original version when given and non-empty, else the actual name |
| GameVersion.BaseVersionAsWritten | gui/main_window_game.py:336-343 | with a `-`, the field at the first index whose field has two dots and a leading digit (as the source tests it); the fall-back when there is no `-` or no such field |
| GameVersion.LooksLikeVersionAsWritten | gui/main_window_game.py:341 | every field with two dots that starts like a game version passes the source's test |
| GameVersion.ForgeName121ReadsAsBuild | gui/main_window_game.py:336-346 | "1.21-forge-51.0.33" is read as "51.0.33", whose major is 0 |
| GameVersion.FabricNameReadsAsLoader | gui/main_window_game.py:336-343 | a Fabric name is read as its loader build |
| GameVersion.BaseVersion | gui/main_window_game.py:336-343 | the corrected test: with a `-`, the field at the first index whose field looks like `1.<digit>…`; the fall-back when there is no `-` or no such field |
| GameVersion.LooksLikeGameVersion | gui/main_window_game.py:341 | a passing field is non-empty, starts with a digit and has a dot, as the source's test also asks |
| GameVersion.LeadingVersionIsRead | gui/main_window_game.py:336-343 | a name starting with a game version reads as that version |
| GameVersion.FabricVersionIsRead | gui/main_window_game.py:336-343 | a Fabric name reads as its game version |
| GameVersion.AgreesOnThreePartVersions | gui/main_window_game.py:336-343 | source and corrected test agree on names that start with a three-part game version |
| GameVersion.ForgeName121ReadsLeading | gui/main_window_game.py:336-343 | with the corrected test "1.21-forge-51.0.33" reads as "1.21" |
| GameVersion.Major121 | gui/main_window_game.py:345-346 | the major of "1.21" is 21 |
| Launch.DetectLoader | gui/main_window_game.py:316-319 | Forge iff "forge" occurs case-insensitively; Fabric iff "fabric" and not "forge"; else Vanilla |
| Launch.VersionType | gui/main_window_game.py:731-738 | the label of the loader `run_game` detects |
| Launch.ForgeInstallIsDetected | gui/main_window_game.py:316-317 | every Forge installer name is detected as Forge |
| Launch.FabricInstallIsNotVanilla | gui/main_window_game.py:316-319 | a Fabric installer name is never Vanilla |
| Launch.ForgeVersionName | gui/main_window_game.py:245-261 | name by major, 1.7.10 and a `-` in the build; none when the major does not parse |
| Launch.ForgeNameFor | gui/main_window_game.py:245-261 | every branch starts with the game version and `-` |
| Launch.ForgeNamesAgree | gui/main_window_game.py:245-261 | agrees with `determine_forge_format` except before 1.8 for a build with `-` |
| Launch.ForgeNamesDisagree | gui/main_window_game.py:255-258 | it disagrees exactly there |
| Launch.TableForgeNamesAgree | gui/main_window_game.py:245-261 | for every Forge table version the two names agree |
| Launch.FabricNamesAgreeOnTable | gui/main_window_game.py:263-266 | the window's Fabric name equals the installer's for table versions |
| Launch.FabricNamesDisagreeOffTable | gui/main_window_game.py:263-266 | and differs for every other version (0.18.4 against 0.14.25) |
| Launch.FabricVersionName | gui/main_window_game.py:263-266 | starts with `fabric-loader-` and ends with `-` and the game version |
| Launch.IsCandidate | gui/main_window_game.py:284-298 | a Forge or Vanilla candidate is detected as that loader by `run_game`'s own test |
| Launch.Candidates | gui/main_window_game.py:277-296 | exactly the directories containing the base version and passing the loader filter, in order |
| Launch.CandidatesAppend | gui/main_window_game.py:277-296 | the filter is applied one directory at a time |
| Launch.LongestIndex | gui/main_window_game.py:298-305 | the first of the longest candidates |
| Launch.FindCorrect | gui/main_window_game.py:268-307 | none iff no candidate; else a candidate at least as long as every other |
| Launch.FindCorrectVersion | gui/main_window_game.py:268-307 | the loop and sort return `FindCorrect` |
| Launch.CollectCandidates | gui/main_window_game.py:277-296 | the loop keeps exactly `Candidates`, in directory order |
| Launch.PickLongest | gui/main_window_game.py:298-305 | the head of the stable longest-first sort is the first longest candidate |
| Launch.ForgeInstallVersionIsRead | gui/main_window_game.py:336-343 | with the corrected test a Forge installer name reads as its game version |
| Launch.FabricInstallVersionIsRead | gui/main_window_game.py:336-343 | so does a Fabric one |
| Launch.LoaderBuildsStartWithZero | threads/fabric_thread.py:25-32 | every loader build starts with "0" and has no `-`, so it is never taken for a game version |
| Launch.InitialHeapBounds | gui/main_window_game.py:375-377 | `-Xms` is max(512, m div 2), at most m for m >= 512 |
| Launch.HeapFlagsRoundTrip | gui/main_window_game.py:375-377 | the numbers written in the two heap flags read back as m and the initial heap |
| Launch.BaseJvm | gui/main_window_game.py:375-390 | heap flags, the common flags, and the two `--add-opens` flags iff Java >= 9 |
| Launch.Merge | gui/main_window_game.py:403-406 | the merge never shrinks the list |
| Launch.MergeKeepsPrefix | gui/main_window_game.py:403-406 | only appends, at most one entry per JSON argument |
| Launch.MergeMembers | gui/main_window_game.py:403-406 | an argument is present iff it was already or the JSON lists it as a string |
| Launch.MergeDistinct | gui/main_window_game.py:403-406 | the merge adds no duplicates |
| Launch.MergeSaturated | gui/main_window_game.py:403-406 | nothing is added when every string is present |
| Launch.MergeIdempotent | gui/main_window_game.py:403-406 | merging twice is merging once |
| Launch.MergeJvm | gui/main_window_game.py:403-406 | the loop computes `Merge` |
| Launch.JvmArguments | gui/main_window_game.py:375-464 | the final list is at least the base list |
| Launch.JvmArgumentsSources | gui/main_window_game.py:375-464 | starts with the heap flags; contains every JSON string; holds nothing else than base, loader, opens and JSON flags |
| Launch.LoaderFlags | gui/main_window_game.py:409-447 | empty iff Vanilla; Forge flags start with no-indev and certificate flags |
| Launch.MainClass | gui/main_window_game.py:393-447 | absent iff Vanilla, or modern Forge without a JSON mainClass; pre-1.13 Forge gets its era main class |
| Launch.GameArguments | gui/main_window_game.py:418-464 | the JSON game list wins when present; absent iff there is none and the version is not pre-1.13 Forge |
| Launch.ProfileOf | gui/main_window_game.py:350-356 | the parsed profile, or an empty one when the JSON does not read |
| Launch.OptionsFor | gui/main_window_game.py:364-464 | the username; the Java path iff non-empty; main class absent exactly as `MainClass`; the heap flags first; every JSON jvm string present |
| Launch.ConfigureLaunch | gui/main_window_game.py:364-464 | the options built are `OptionsFor` |
| Launch.ForgeMainClassMatchesInstaller | gui/main_window_game.py:393-447 | pre-1.13 Forge gets the installer's era main class; modern Forge the JSON one |
| Launch.FabricProfileLaunch | gui/main_window_game.py:393-464 | a Fabric profile launches KnotClient with the base list plus the skip flag and no game arguments |
| Launch.Forge121LaunchAsWritten | gui/main_window_game.py:336-447 | as written, a 1.21 Forge install is launched with FMLTweaker, empty game arguments and the very old flags, though its installer chose modlauncher |
| Launch.Forge121LaunchCorrected | gui/main_window_game.py:336-447 | with the corrected reading the 1.21 install reads major 21 and keeps its JSON main class |
| Launch.Resolve | gui/main_window_game.py:321-333 | the name itself when its JSON exists; otherwise only a found candidate |
| Launch.ResolveVersion | gui/main_window_game.py:321-333 | the method returns `Resolve` |
| Launch.PlanLaunch | gui/main_window_game.py:345-464 | given a game version: bad version iff its major does not parse; else the loader, major, `OptionsFor` the read profile and the launchwrapper fetch for 1.7.10 |
| Launch.PrepareLaunch | gui/main_window_game.py:309-464 | as written: not found iff the resolved JSON is missing; bad version iff the major of `BaseVersionAsWritten` does not parse; else the detected loader, that base version and `OptionsFor` |
| Launch.PrepareLaunchCorrected | gui/main_window_game.py:309-464 | the same with the corrected `BaseVersion` |
| Launch.ForgeNameRest | threads/forge_thread.py:64-105 | every installer version name is the game version, `-`, and a rest |
| Launch.ForgeInstallLaunches | gui/main_window_game.py:309-447 | with the corrected reading an installed Forge version resolves to itself, reads its game version, is Forge, and gets the installer's main class |
| Launch.ForgeInstallLaunchesAsWritten | gui/main_window_game.py:309-447 | as written the same holds for three-part game versions |
| Launch.Classify | gui/main_window_game.py:564-593 | six causes tested in source order, each iff its text appears and no earlier one does; else a prefix of the output, all of it up to 500 characters and exactly 500 beyond |
| Launch.WrongJavaFollowsTable | gui/main_window_game.py:579-583 | the recommended Java follows the step function for table versions |
| VersionSelector.Mark | dialogs/version_selector.py:311-314 | installed iff the id is installed; id and type kept |
| VersionSelector.MarkIdempotent | dialogs/version_selector.py:311-314 | marking twice is marking once |
| VersionSelector.MarkInstalled | dialogs/version_selector.py:304-325 | every version is marked, in place and order |
| VersionSelector.Keep | dialogs/version_selector.py:369-378 | neutral filters keep everything; installed-only keeps only installed; a type filter keeps only that type |
| VersionSelector.Kept | dialogs/version_selector.py:364-380 | kept iff installed-only passes, the type filter passes and the lower-cased search occurs in the id |
| VersionSelector.NeutralFilterKeepsAll | dialogs/version_selector.py:364-380 | no search, "all" and not installed-only keeps every version in order |
| VersionSelector.Priority | dialogs/version_selector.py:382-389 | release 0, snapshot 1, old_beta 2, old_alpha 3, other 4 |
| VersionSelector.TimeKey | dialogs/version_selector.py:385-387 | the release time string, "" when missing or null |
| VersionSelector.KeyLeTotal | dialogs/version_selector.py:382-391 | the sort key order is total |
| VersionSelector.KeyLeTrans | dialogs/version_selector.py:382-391 | and transitive |
| VersionSelector.Insert | dialogs/version_selector.py:390 | one step of the sort: adds the version once and keeps a sorted list sorted |
| VersionSelector.SortByKey | dialogs/version_selector.py:390 | a sorted permutation |
| VersionSelector.Reverse | dialogs/version_selector.py:391 | the list backwards |
| VersionSelector.ReversePermutes | dialogs/version_selector.py:391 | reversing permutes |
| VersionSelector.Ordered | dialogs/version_selector.py:390-391 | as many versions are shown as are kept |
| VersionSelector.OrderedPermutes | dialogs/version_selector.py:380-391 | the shown list is a permutation of the kept versions |
| VersionSelector.OrderedDescending | dialogs/version_selector.py:380-391 | priority is non-increasing, and within a priority release time is non-increasing |
| VersionSelector.ItemsFor | dialogs/version_selector.py:393-425 | one item per shown version, or the single no-match item |
| VersionSelector.PrefixSelects | dialogs/version_selector.py:335-341 | preselection picks the first id that has the current version as a prefix |
| VersionSelector.VersionSelectorDialog.constructor | dialogs/version_selector.py:11-23 | empty lists, no selection, a loading item |
| VersionSelector.VersionSelectorDialog.FilterVersions | dialogs/version_selector.py:354-425 | filtered is the ordered kept list; the button is enabled iff it is non-empty |
| VersionSelector.VersionSelectorDialog.KeepVersions | dialogs/version_selector.py:364-380 | the loop collects exactly `Kept`, in list order |
| VersionSelector.VersionSelectorDialog.UpdateVersionsList | dialogs/version_selector.py:326-343 | stores the versions, filters them, preselects by prefix |
| VersionSelector.VersionSelectorDialog.FindPreselection | dialogs/version_selector.py:335-341 | the loop returns `Preselect` |
| VersionSelector.VersionSelectorDialog.Accept | dialogs/version_selector.py:433-437 | closes iff a version is selected; the list is unchanged |
| JavaUtils.ProbeText | core/utils.py:21 | stderr when non-empty, else stdout |
| JavaUtils.SaysJava8 | core/utils.py:24 | a banner taken as Java 8 mentions "1.8" |
| JavaUtils.RunEnd | core/utils.py:27-42 | the end of the digit run starting at a position |
| JavaUtils.MatchAt | core/utils.py:27-35 | a match of a quoted pattern sits after its lead text and starts a digit; a dotted match starts a digit run |
| JavaUtils.SearchNone | core/utils.py:35 | a search finds nothing iff no position matches |
| JavaUtils.ReadJavaMajor | core/utils.py:9-47 | the pattern loop returns `JavaMajor`: 8 for any text naming 1.8, otherwise the number found by the first pattern that matches |
| JavaUtils.SearchFindsAny | core/utils.py:27-42 | a search finds a match when there is one |
| JavaUtils.SearchFindsEarliest | core/utils.py:27-42 | the search returns the earliest match |
| JavaUtils.FirstPatternShadows | core/utils.py:27-42 | wherever the OpenJDK or `java version "1.` pattern matches, the first pattern matches too |
| JavaUtils.SourceOrderIsTwoPatterns | core/utils.py:27-42 | as ordered in the source, only the first and third patterns can decide |
| JavaUtils.FirstMatch | core/utils.py:34-42 | 0 when no pattern matches (the first matching pattern deciding is `FirstMatchIsFirst`) |
| JavaUtils.FirstMatchAt | core/utils.py:34-42 | when the pattern at index `k` matches and none of those before it in the list does, its number is the result |
| JavaUtils.FirstMatchIsFirst | core/utils.py:34-42 | for every index: the first pattern of the list that matches gives the result, as the loop's early return does |
| JavaUtils.JavaMajor | core/utils.py:21-42 | 8 for a banner naming 1.8; otherwise the number found by the first pattern that matches, and 0 when nothing matches |
| JavaUtils.JavaMajorAsWritten | core/utils.py:21-42 | the source's four patterns decide as its first and third alone |
| JavaUtils.Java7ReadsAsOne | core/utils.py:27-42 | `java version "1.7.0"` is read as Java 1 |
| JavaUtils.Java7ReadsAsSeven | core/utils.py:27-42 | with the old-style pattern tried first it is read as 7 |
| JavaUtils.OrdersAgreeOnModernText | core/utils.py:27-42 | both orders agree on every banner that is not old-style |
| JavaUtils.CorrectedJavaMajor | core/utils.py:24-42 | 8 for a banner naming 1.8; otherwise an old-style banner is read by its minor number |
| JavaUtils.CheckJava | core/utils.py:50-83 | passes iff the binary exists, answers, has a known major and is new enough; missing is reported first |
| JavaUtils.FreshProfiles | core/utils.py:98-117 | version 3, empty profiles, empty selected profile and authentication database, the token |
| JavaUtils.Patched | core/utils.py:130-137 | complete; present keys kept; the keys are the old ones plus the three; missing version, profiles and token filled with 3, {} and the token |
| JavaUtils.PatchIdempotent | core/utils.py:130-137 | patching twice is patching once |
| JavaUtils.FreshIsComplete | core/utils.py:98-137 | a fresh file needs no patch |
| JavaUtils.CreateLauncherProfiles | core/utils.py:90-147 | an existing file is patched, a missing or broken one replaced; the result is complete |
| Plugins.FileOf | core/plugin_manager.py:359 | the plugin's file is its name with `.py` |
| Plugins.LoadEnabled | core/plugin_manager.py:425-434 | the saved list, or [] when missing or unreadable |
| Plugins.RemoveFirst | core/plugin_manager.py:418-419 | removes one occurrence when present, else nothing |
| Plugins.RemoveFirstAt | core/plugin_manager.py:418-419 | it is the first occurrence that goes |
| Plugins.RemoveFirstDistinct | core/plugin_manager.py:418-419 | on a duplicate-free list the name is gone |
| Plugins.Enable | core/plugin_manager.py:354-403 | loaded: true, unchanged; no file or not loadable: false, unchanged; true iff loaded or loading and hooks succeed; a new loadable plugin is added to the plugins and modules maps, and to the end of the enabled list unless it was listed or `on_load` raised |
| Plugins.Disable | core/plugin_manager.py:405-423 | unloaded or `on_unload` raising: unchanged; else removed from both maps and the first list entry, every other plugin and module kept as it was |
| Plugins.ConsistencyKept | core/plugin_manager.py:380-416 | the plugin and module maps keep the same keys |
| Plugins.DistinctKept | core/plugin_manager.py:387-419 | the enabled list stays duplicate-free |
| Plugins.OnLoadFailureLeavesLoadedUnlisted | core/plugin_manager.py:379-403 | when `on_load` raises the plugin stays loaded but unlisted and the result is false |
| Plugins.EnableThenDisable | core/plugin_manager.py:354-423 | enabling a new plugin and then disabling it restores the registry |
| Plugins.EnableIdempotent | core/plugin_manager.py:356-357 | a second enable changes nothing |
| Plugins.EnableListedKeepsList | core/plugin_manager.py:387-388 | enabling a listed name leaves the list unchanged |
| Plugins.LoadAll | core/plugin_manager.py:445-448 | loaded plugins stay loaded; consistency is kept; a newly loaded one is listed and loadable |
| Plugins.LoadAllSettles | core/plugin_manager.py:445-448 | afterwards every listed name is loaded or not loadable |
| Plugins.LoadAllSettledIsNoOp | core/plugin_manager.py:445-448 | with all names settled nothing changes |
| Plugins.LoadAllIdempotent | core/plugin_manager.py:445-448 | a second load changes nothing |
| Plugins.LoadAllKeepsList | core/plugin_manager.py:445-448 | loading listed names leaves the list unchanged |
| Plugins.ScanPlugins | core/plugin_manager.py:304-342 | a name is found iff its `.py` file, not starting with `_`, loads |
| Plugins.PluginManager.constructor | core/plugin_manager.py:55-63 | empty maps and the saved enabled list |
| Plugins.PluginManager.EnablePlugin | core/plugin_manager.py:354-403 | the registry and result follow `Enable` |
| Plugins.PluginManager.DisablePlugin | core/plugin_manager.py:405-423 | the registry follows `Disable` |
| Plugins.PluginManager.TogglePlugin | core/plugin_manager.py:344-352 | enables or disables, then saves the list |
| Plugins.PluginManager.LoadAllPlugins | core/plugin_manager.py:445-448 | the registry follows `LoadAll`; the list is unchanged and settled |
| JavaDialog.RuntimeName | dialogs/java_dialog.py:222-229 | 8 alpha, 11 beta, 17 delta, anything else gamma, each both ways |
| JavaDialog.RuntimeForGameVersion | dialogs/java_dialog.py:22-23 | versions off the Java table get gamma |
| JavaDialog.RuntimeNamesDiffer | dialogs/java_dialog.py:283-290 | the four Java releases map to four runtimes |
| JavaDialog.CandidatePaths | dialogs/java_dialog.py:293-299 | five distinct paths, all under `runtime/<name>` |
| JavaDialog.CheckPath | core/utils.py:50-83 | not found iff the path is absent; hung iff it is present and does not answer; passes iff present, answering a known major at least the required one |
| JavaDialog.Usable | dialogs/java_dialog.py:301-307 | accepted iff the binary exists and answers a known major at least the required Java |
| JavaDialog.FirstUsable | dialogs/java_dialog.py:301-307 | the first usable path, none iff none is |
| JavaDialog.FirstUsableIsFirst | dialogs/java_dialog.py:301-307 | it is the earliest usable one |
| JavaDialog.FindInstalledJava | dialogs/java_dialog.py:278-307 | the loop returns `FirstUsable` of the candidate paths |
| JavaDialog.FirstUsableAppend | dialogs/java_dialog.py:301-307 | on two lists in a row, the first usable path of the first list, else that of the second |
| JavaDialog.FirstUsableKeptIsFirst | dialogs/java_dialog.py:316-324 | the first usable path among the kept ones sits at an index of the whole list before which no kept path is usable |
| JavaDialog.FindJavaDeep | dialogs/java_dialog.py:309-326 | a path found is walked, named java, and usable, and no java walked before it is usable (the first in walk order); none found in an existing runtime means no walked java is usable |
| JavaDialog.DownloadOutcome | dialogs/java_dialog.py:218-276 | an install error is reported iff one was raised; otherwise the first usable candidate, else the deep search's find; an installed path is usable; not found iff both searches fail |
| JavaDialog.InstalledJavaSuitsGame | dialogs/java_dialog.py:218-307 | a Java the dialog returns is at least the game's recommended Java |
| JavaDialog.DialogVersion | dialogs/java_dialog.py:22 | the given version, else the window's current one |
| JavaDialog.JavaDownloadDialog.constructor | dialogs/java_dialog.py:19-27 | recommended is the table Java for the version; not downloading |
| JavaDialog.JavaDownloadDialog.StartDownload | dialogs/java_dialog.py:194-216 | starts iff not already downloading; buttons follow the flag |
| JavaDialog.JavaDownloadDialog.OnDownloadError | dialogs/java_dialog.py:361-378 | downloading false and both buttons enabled |
| JavaDialog.JavaDownloadDialog.OnDownloadSuccess | dialogs/java_dialog.py:344-359 | stores the path and accepts |
| JavaDialog.JavaDownloadDialog.Reject | dialogs/java_dialog.py:384-392 | closes unless downloading and not confirmed |
| JavaDialog.JavaDownloadDialog.Finish | dialogs/java_dialog.py:344-378 | success accepts with the path; failure resets the flag |
| JavaDialog.StartTwice | dialogs/java_dialog.py:196-199 | a second start while downloading is a no-op |
| Widgets.ClampOpacity | gui/widgets.py:54 | in [0,100]; in-range values kept, below 0 gives 0, above 100 gives 100 |
| Widgets.ClampIdempotent | gui/widgets.py:54 | clamping twice is clamping once |
| Widgets.ClampMonotone | gui/widgets.py:54 | clamping keeps order |
| Widgets.BackgroundFor | gui/widgets.py:25-41 | the custom image iff a non-empty existing path is set |
| Widgets.CentreOffset | gui/widgets.py:34-35 | the floor of half the spare width |
| Widgets.CentreOffsetShifts | gui/widgets.py:34-35 | equal sizes sit at 0; two pixels more moves one pixel |
| Widgets.BackgroundWidget.constructor | gui/widgets.py:8-12 | no custom background, opacity 50 |
| Widgets.BackgroundWidget.SetBackgroundImage | gui/widgets.py:47-50 | stores the path unchanged |
| Widgets.BackgroundWidget.SetOverlayOpacity | gui/widgets.py:52-55 | stores the clamped value, which stays in [0,100] |
| Widgets.BackgroundWidget.ReapplyOpacity | gui/widgets.py:52-55 | re-applying the stored value changes nothing |

## Left out

- HTTP downloads, the promotions API, subprocesses (the Forge installer, `java -version`, the game), zip extraction, copying and deleting. Their results are parameters.
- Qt widgets, menus, signals and slots, progress reporting and the QThread workers; painting beyond choosing and centring the image.
- Floating point: progress percentages and the overlay alpha `opacity*2.55`.
- `uuid3`/`uuid4`: the client token and offline UUID are inputs.
- `minecraft_launcher_lib` calls (install, command building, version lists): the version list and installed ids are inputs.
- Character handling is ASCII: `str.lower`, `str.isdigit` and Python `re`'s Unicode digits and case folding are not modelled.
- Python `int()` accepts surrounding whitespace and underscores; the model accepts only an optional sign and ASCII digits.
- `os.walk` order in `find_java_deep` is a parameter (the walked paths in order).
- `download_launchwrapper_if_needed`: only the decision to fetch it is modelled (`fetchLaunchWrapper`).
- `options["jvmArguments"]` aliasing `jvm_args`: modelled as the final list after all appends.
- Plugins: registration in `sys.modules`, the `plugin_loaded`/`plugin_error` signals, `create_tab` adding a widget, the game-start, game-stop and settings hooks, and save failures are not modelled. A saved file that is JSON but not a list of strings is not modelled.
- `check_java_compatibility`, `launch_game` and `launch_thread` orchestration, `verify_forge_installation`, `download_required_libraries`, `ensure_launchwrapper`, `download_forge_library`, `install_modern_forge`, `install_legacy_forge`, `cleanup_temp_files` and `check_vanilla_installation`: filesystem and network side effects with no decision beyond those modelled.
- Widgets.BackgroundFor: an image file that exists but does not decode (a null pixmap) draws nothing in the source; the model does not read image contents and chooses the custom image.
- JSON write errors; a releaseTime that is neither a string nor null is kept as an opaque rendered string.
- Forge.ForgeInstaller.constructor: requires the game version to parse; the source raises `ValueError` there and the thread is never created.
- Forge.ForgeInstaller.DownloadInstaller: the source recurses while a promotion build exists; every deeper round retries the same URLs, so the model stops after one retry round and returns nothing where the source ends in a caught `RecursionError`.
- JavaUtils.CheckJava: the catch-all `except Exception` outcome (core/utils.py:81-83) has no result of its own; an error in the probe shows up as `ProbeHung` or `Undetermined`, and the check fails either way.
- Fabric.FabricInstaller.FetchLibraries: a stop request arriving mid-list is the index `stopAt`, not a concurrent flag.

## Findings

| source | as written | input that shows it | evidently intended | confidence | as-written member | corrected member |
|---|---|---|---|---|---|---|
| gui/main_window_game.py:336-343 | the base version is the first `-`-field with two dots and a leading digit | "1.21-forge-51.0.33" reads as "51.0.33" (major 0, FMLTweaker main class); "fabric-loader-0.16.14-1.21.1" reads as "0.16.14" | the leading game version ("1.21", "1.21.1") | not executed | GameVersion.BaseVersionAsWritten, GameVersion.ForgeName121ReadsAsBuild, GameVersion.FabricNameReadsAsLoader, Launch.PrepareLaunch, Launch.Forge121LaunchAsWritten | GameVersion.BaseVersion, GameVersion.LeadingVersionIsRead, Launch.PrepareLaunchCorrected, Launch.ForgeInstallLaunches, Launch.Forge121LaunchCorrected, Launch.ForgeInstallVersionIsRead, Launch.FabricInstallVersionIsRead |
| core/utils.py:27-42 | the pattern `version "(\d+)` is tried before `java version "1\.(\d+)` and subsumes it | `java version "1.7.0"` reads as Java 1 | Java 7 | not executed | JavaUtils.JavaMajorAsWritten, JavaUtils.Java7ReadsAsOne, JavaUtils.SourceOrderIsTwoPatterns | JavaUtils.CorrectedJavaMajor, JavaUtils.Java7ReadsAsSeven, JavaUtils.OrdersAgreeOnModernText |
