# cric: a verified model of the profile store, the jlink command builder and the editors

cric is a desktop front end for `jlink`. A user keeps named profiles (tasks in
the newer application), each describing one runtime-image build:
- the `jlink` executable;
- the output directory;
- a launcher;
- five boolean switches;
- a compression level and an endianness;
- a list of module paths. Each is a directory plus the modules chosen from the `.jmod` files found there.

cric stores the profiles as JSON and edits them in dialogs. To run a profile
it turns it into a `jlink` command line and runs that as a process.

This Dafny project models the core of that program:

- **`ProfileModel`** (`profile.dfy`): the profile record and its getters, `getCommand`, and `isValid` with its message text.
  - `getCommand` is proved against a pure `CommandLine` function.
  - A parser proves that the command line's layout can be read back unambiguously.
- **`Items`** (`item_manager.dfy`): `ProfileManager` and `TaskManager`, which share the id-to-item map, the re-sorting listener, `getById`, `getByName` and `isValid`.
  - `TaskManager` alone adds `exists(Task)`, `exists(String)`, `getTasks`, `hasActiveTasks`, `log` and `save` (TaskManager.java:52-59, 85-100, 116-122). The model puts the two `exists` and `getTasks` on the same class. `hasActiveTasks` and `save`, which read no state, are module-level functions. `log` only prints to the console and is left out.
  - They are modelled as one class holding the id-to-item map and the item list.
  - The class invariant says the list is exactly the map's values, sorted case-insensitively by name.
  - Also covered: lookups by id and by name, the rename check `isValid`, and `getTasks`.
- **`Persistence`** (`storage.dfy`): both `StorageManager`s and their `Storage` envelope.
  - The file system is a map from path to contents, plus a set of paths whose writes fail.
  - The JSON library is an encoder/decoder pair.
  - The backup file (`tasks.bak`) takes one `stamp=json` line per save.
- **`Execution`** (`executor.dfy`): `ExecutorManager` (one executor per task id) and `Executor`.
  - The executor covers running, cancelling and clearing the target directory.
  - The worker classifies the outcome as done, failed or canceled.
- **`RunStates`** (`run_state.dfy`): `RunStateManager` with its derived running flag.
- **`ModuleLists`** (`module_lists.dfy`):
  - `ModulePathTab`: rescan, load, select, `getModulePath`, and the path listener.
  - `ModuleSelectionPanel`.
- **`TaskEditing`** (`task_editor.dfy`): `TaskEditor`.
  - `load` with its tab rebuilding, and `save`.
  - The "+" tab.
  - Dropping a JDK `release` file.
- **`ListEditing`** (`list_editors.dfy`): the list actions of `TaskListEditor` and `ProfileListEditor`.
  - remove all, remove, clone, start, and edit followed by lookup.
- **Support modules:**
  - `Strings` (`strings.dfy`): the parts of `String` and `StringUtils` the core uses.
  - `Collections` (`collections.dfy`): `TreeSet` building and list removal.
  - `Wrappers` (`wrappers.dfy`): `Option`.

Inputs from outside the program are parameters of the methods that use them:
- file tests and directory listings;
- the user's dialog answers;
- how the process ended;
- a fresh id and today's date.

Profiles are values: `Profile` is a datatype, which is also what Gson's copy gives for a clone.

## Model

| member | source | states |
|---|---|---|
| ProfileModel.Profile.CompareTo | src/main/java/se/trixon/cric/Profile.java:86-88 | the result is 0 exactly for equal names; negative or zero exactly when the name is lexicographically at most the other; `String.compareTo` order |
| ProfileModel.Profile.Description | src/main/java/se/trixon/cric/Profile.java:156-158 | the description, or "" when it is unset |
| ProfileModel.Profile.OutputAsString | src/main/java/se/trixon/cric/Profile.java:201-203 | the output path, or "" when it is unset |
| ProfileModel.Profile.JlinkString | src/main/java/se/trixon/cric/Profile.java:172-174 | the profile's jlink unless it is blank, otherwise the preference's jlink path |
| ProfileModel.Profile.WithModulePaths | src/main/java/se/trixon/cric/Profile.java:184-191 | the returned list is the one installed; an unset list becomes an empty one; a set list is returned unchanged |
| ProfileModel.NewProfile | src/main/java/se/trixon/cric/Profile.java:47-73 | a new profile carries the given id, an empty name, no module paths and no output |
| ProfileModel.EndianName | src/main/java/se/trixon/cric/Profile.java:124-126 | entry 1 of the endian table is "little" and entry 2 is "big" |
| ProfileModel.SwitchesOf | src/main/java/se/trixon/cric/Profile.java:94-120 | one switch state per flag, seven in all |
| ProfileModel.SwitchArgs | src/main/java/se/trixon/cric/Profile.java:94-120 | every emitted token is one of the switch tokens from position k on |
| ProfileModel.Directories | src/main/java/se/trixon/cric/Profile.java:128-133 | the i-th element is the i-th module path's directory |
| ProfileModel.Modules | src/main/java/se/trixon/cric/Profile.java:128-133 | a module is listed exactly when some module path selects it |
| ProfileModel.ModulesOfOne | src/main/java/se/trixon/cric/Profile.java:130-133 | one module path contributes its selection unchanged, in its order |
| ProfileModel.ModulesAppend | src/main/java/se/trixon/cric/Profile.java:130-133 | the module list is the selections concatenated in path order; repeats are kept |
| ProfileModel.CollectModulePaths | src/main/java/se/trixon/cric/Profile.java:128-133 | the loop collects `Directories` and `Modules` of the module paths |
| ProfileModel.AddIf | src/main/java/se/trixon/cric/Profile.java:94-96 | the token is appended exactly when its switch is on |
| ProfileModel.GetCommand | src/main/java/se/trixon/cric/Profile.java:90-150 | the command built step by step equals `CommandLine`: jlink, switches in code order, `--compress=N`, optional `--endian little/big`, `--module-path`, `--add-modules`, optional `--launcher`, `--output` |
| ProfileModel.CommandLine | src/main/java/se/trixon/cric/Profile.java:90-150 | the command has at least eight tokens; it starts with the jlink path and ends with `--output` and the output path |
| ProfileModel.AppendSwitches | src/main/java/se/trixon/cric/Profile.java:94-120 | the seven `if` blocks append exactly `SwitchArgs` of the switch states |
| ProfileModel.AppendEndian | src/main/java/se/trixon/cric/Profile.java:124-126 | the endian token is appended only for a positive index |
| ProfileModel.AppendModuleArgs | src/main/java/se/trixon/cric/Profile.java:128-139 | appends `--module-path`, the directories joined by the path separator, `--add-modules`, the modules joined by commas |
| ProfileModel.AppendLauncher | src/main/java/se/trixon/cric/Profile.java:141-144 | `--launcher` and its value are appended only when the launcher is not blank |
| ProfileModel.Summary | src/main/java/se/trixon/cric/Profile.java:90-150 | the settings a command carries: output, compression, launcher absent exactly when blank, endian absent exactly for index <= 0 |
| ProfileModel.TakeFlag | src/main/java/se/trixon/cric/Profile.java:94-120 | a flag is consumed only when it heads the list; otherwise the list is untouched |
| ProfileModel.ParseSwitches | src/main/java/se/trixon/cric/Profile.java:94-120 | reads back one switch state per remaining switch |
| ProfileModel.SwitchesAppended | src/main/java/se/trixon/cric/Profile.java:94-120 | appending the seven optional flags one at a time gives the same list as appending `SwitchArgs` |
| ProfileModel.TakeFlagOf | src/main/java/se/trixon/cric/Profile.java:94-120 | an optional flag is read back as on exactly when it was emitted |
| ProfileModel.ParseSwitchArgs | src/main/java/se/trixon/cric/Profile.java:94-120 | the switch block of a command reads back to the switch states, leaving the rest |
| ProfileModel.SwitchesDistinct | src/main/java/se/trixon/cric/Profile.java:94-122 | the switch tokens are distinct, and none looks like the compress token |
| ProfileModel.ParseEndianArgs | src/main/java/se/trixon/cric/Profile.java:124-126 | the endian part reads back to the endian name, or to none for index <= 0 |
| ProfileModel.ParseCommandLine | src/main/java/se/trixon/cric/Profile.java:90-150 | parsing `CommandLine(p, o)` gives back `Summary(p, o)`: the layout is unambiguous |
| ProfileModel.CommandLayout | src/main/java/se/trixon/cric/Profile.java:90-150 | the command starts with jlink; after it come the switches, then the rest |
| ProfileModel.ParseTailOf | src/main/java/se/trixon/cric/Profile.java:135-147 | the module, launcher and output part reads back to its values |
| ProfileModel.DemoCommand | src/main/java/se/trixon/cric/Profile.java:90-150 | for profile "demo" (strip-debug, compression 2, one module path /mods with two modules, output /tmp/img), the command is exactly: jlink, `--strip-debug`, `--compress=2`, `--module-path /mods`, `--add-modules java.base,java.logging`, `--output /tmp/img` |
| ProfileModel.OnlyStripDebug | src/main/java/se/trixon/cric/Profile.java:94-120 | with only strip-debug on, the switches contribute `--strip-debug` alone |
| ProfileModel.DemoModuleArgs | src/main/java/se/trixon/cric/Profile.java:128-139 | the module arguments of the demo profile |
| ProfileModel.DemoJoin | src/main/java/se/trixon/cric/Profile.java:139 | two modules joined with a comma |
| ProfileModel.DirectoryMessagesNameFailures | src/main/java/se/trixon/cric/Profile.java:240-244 | the module-directory messages name exactly the directories that fail the directory test |
| ProfileModel.LinesEmpty | src/main/java/se/trixon/cric/Profile.java:246 | the message text is empty exactly when there are no messages |
| ProfileModel.LinesSnoc | src/main/java/se/trixon/cric/Profile.java:314-316 | one more message adds that message and a newline to the text |
| ProfileModel.AddValidationError | src/main/java/se/trixon/cric/Profile.java:314-316 | appends the message and a newline |
| ProfileModel.AddDirectoryErrors | src/main/java/se/trixon/cric/Profile.java:240-244 | the loop appends one message per failing directory, in list order |
| ProfileModel.AddCheckErrors | src/main/java/se/trixon/cric/Profile.java:230-238 | from an empty text: the jlink message when jlink is not a file, then the output message when the output is unset or blank |
| ProfileModel.IsValid | src/main/java/se/trixon/cric/Profile.java:229-247 | the text holds every message in the order the checks run; the result is true exactly when there is none |
| ProfileModel.DirectoryMessagesEmpty | src/main/java/se/trixon/cric/Profile.java:240-244 | no directory message exactly when every module-path directory passes the test |
| ProfileModel.ValidIff | src/main/java/se/trixon/cric/Profile.java:229-247 | valid exactly when jlink is a file, the output is set and not blank, and every directory is a directory |
| Items.InsertAt | src/main/java/se/trixon/cric/ProfileManager.java:44-48 | inserting at k shifts the later elements by one and keeps the earlier ones |
| Items.InsertPos | src/main/java/se/trixon/cric/ProfileManager.java:44-48 | the insertion point sits between names that sort at or before and names that sort at or after, case-insensitively |
| Items.InsertKeepsSorted | src/main/java/se/trixon/cric/ProfileManager.java:44-48 | inserting at that point keeps the list sorted by `compareToIgnoreCase` |
| Items.InsertStep | src/main/java/se/trixon/cric/ProfileManager.java:44-48 | one insertion keeps the list equal to the values of the ids taken so far, still sorted |
| Items.FirstNamed | main/src/main/java/se/trixon/cric/core/TaskManager.java:65-75 | the first position whose name equals the given one ignoring case, or none when no name matches |
| Items.FirstNamedSameKey | main/src/main/java/se/trixon/cric/core/TaskManager.java:65-75 | names equal ignoring case find the same item |
| Items.SameNameAvailable | main/src/main/java/se/trixon/cric/core/TaskManager.java:102-110 | keeping an item's own name (up to case and surrounding space) is always allowed |
| Items.FreshNameAvailable | main/src/main/java/se/trixon/cric/core/TaskManager.java:102-110 | a non-blank name that no item has is allowed |
| Items.TakenNameRefused | main/src/main/java/se/trixon/cric/core/TaskManager.java:102-110 | a name another item has is refused for a new item |
| Items.TakenNameRefusedOnRename | src/main/java/se/trixon/cric/ProfileManager.java:112-120 | renaming an existing item to a name that another item holds first is refused |
| Items.KnownItemsAppend | main/src/main/java/se/trixon/cric/core/TaskManager.java:85-96 | looking up two lists of ids gives the two results in sequence |
| Items.KnownItemsAllKnown | main/src/main/java/se/trixon/cric/core/TaskManager.java:85-96 | when every id is known, the result has one item per id, in id order |
| Items.UnknownSkipped | main/src/main/java/se/trixon/cric/core/TaskManager.java:89-92 | an unknown id contributes nothing |
| Items.KnownItemsFromIds | main/src/main/java/se/trixon/cric/core/TaskManager.java:85-96 | every returned item is the map entry of some given id |
| Items.HasActiveTasks | main/src/main/java/se/trixon/cric/core/TaskManager.java:98-100 | always false |
| Items.SaveStub | main/src/main/java/se/trixon/cric/core/TaskManager.java:120-122 | always returns nothing |
| Items.ItemManager.constructor | main/src/main/java/se/trixon/cric/core/TaskManager.java:41-50 | empty map, empty list, invariant established |
| Items.ItemManager.Rebuild | main/src/main/java/se/trixon/cric/core/TaskManager.java:45-49 | the map change listener: afterwards the list is the map's values sorted by name ignoring case; the map is unchanged |
| Items.ItemManager.Put | main/src/main/java/se/trixon/cric/core/TaskManager.java:45-49 | the map gains the entry and the invariant holds again |
| Items.ItemManager.Remove | main/src/main/java/se/trixon/cric/core/TaskManager.java:45-49 | the entry is gone and the invariant holds again |
| Items.ItemManager.Clear | main/src/main/java/se/trixon/cric/core/TaskManager.java:45-49 | the map and the list are both empty |
| Items.ItemManager.PutAll | main/src/main/java/se/trixon/cric/core/TaskManager.java:45-49 | the map is merged with the given one and the invariant holds again |
| Items.ItemManager.GetById | main/src/main/java/se/trixon/cric/core/TaskManager.java:61-63 | the entry for the id, or nothing exactly when the id is absent |
| Items.ItemManager.ExistsItem | main/src/main/java/se/trixon/cric/core/TaskManager.java:52-54 | true exactly when some entry holds the item |
| Items.ItemManager.ExistsName | main/src/main/java/se/trixon/cric/core/TaskManager.java:56-59 | true exactly when some item has the name ignoring case |
| Items.ItemManager.FindByName | main/src/main/java/se/trixon/cric/core/TaskManager.java:65-75 | the loop finds the first matching position |
| Items.ItemManager.GetByName | src/main/java/se/trixon/cric/ProfileManager.java:55-65 | the first item whose name matches ignoring case; nothing exactly when none matches |
| Items.ItemManager.IsValid | src/main/java/se/trixon/cric/ProfileManager.java:112-120 | blank names are refused; otherwise the name is accepted exactly when nobody has the trimmed name, or its holder is the item found for the old name |
| Items.ItemManager.GetTasks | main/src/main/java/se/trixon/cric/core/TaskManager.java:85-96 | the items of the known ids, in id order, unknown ids skipped |
| Items.ItemsAreValues | main/src/main/java/se/trixon/cric/core/TaskManager.java:45-49 | an item is listed exactly when the map holds it |
| Items.ItemsCount | main/src/main/java/se/trixon/cric/core/TaskManager.java:45-49 | the list has one element per map entry |
| Items.DistinctCard | main/src/main/java/se/trixon/cric/core/TaskManager.java:45-49 | a repeat-free list of ids has as many elements as its set |
| Collections.SetInsert | legacy/src/main/java/se/trixon/cric/ui/ModulePathTab.java:69 | adding to a `TreeSet` keeps it strictly sorted, and adds just that element |
| Collections.TreeSetOf | legacy/src/main/java/se/trixon/cric/ui/ModulePathTab.java:69 | `new TreeSet(list)`: strictly sorted, same elements |
| Collections.RemoveFirst | legacy/src/main/java/se/trixon/cric/ui/ModulePathTab.java:77 | `List.remove(x)`: removes one occurrence of a present element, and changes nothing otherwise |
| Collections.RemoveFirstSplit | legacy/src/main/java/se/trixon/cric/ui/ModulePathTab.java:77 | for a list `a + [x] + b` with no `x` in `a`, `remove(x)` gives `a + b`: the first occurrence goes and everything else keeps its order |
| Collections.RemoveFirstNoDuplicates | legacy/src/main/java/se/trixon/cric/ui/ModulePathTab.java:77 | in a repeat-free list, removal drops the element entirely |
| Collections.ConsNoDuplicates | legacy/src/main/java/se/trixon/cric/ui/ModulePathTab.java:77 | prefixing a new element keeps a list repeat-free |
| Collections.RemoveAll | legacy/src/main/java/se/trixon/cric/ui/ModulePathTab.java:131 | `removeAll`: exactly the elements not in the collection remain; nothing is added; repeat-freedom is kept |
| Collections.RemoveAllAppend | legacy/src/main/java/se/trixon/cric/ui/ModulePathTab.java:131 | `removeAll` keeps list order: removing from a concatenation concatenates the two removals |
| Strings.LeadingTrimmed | main/src/main/java/se/trixon/cric/ui/TaskEditor.java:116 | the leading run of characters <= U+0020 |
| Strings.TrailingTrimmed | main/src/main/java/se/trixon/cric/ui/TaskEditor.java:116 | the trailing run of characters <= U+0020 |
| Strings.Trim | main/src/main/java/se/trixon/cric/ui/TaskEditor.java:116 | the result begins and ends with a character above U+0020, or is empty |
| Strings.TrimIsInfix | main/src/main/java/se/trixon/cric/ui/TaskEditor.java:116 | trimming removes only characters <= U+0020 at the two ends |
| Strings.TrimIdempotent | main/src/main/java/se/trixon/cric/ui/TaskEditor.java:116 | trimming twice is trimming once |
| Strings.LowerChar | main/src/main/java/se/trixon/cric/core/TaskManager.java:67 | lower-cases the ASCII capitals only |
| Strings.Lower | main/src/main/java/se/trixon/cric/core/TaskManager.java:67 | lower-cases character by character |
| Strings.LowerIdempotent | main/src/main/java/se/trixon/cric/core/TaskManager.java:67 | lower-casing twice is lower-casing once |
| Strings.LexLeqReflexive | src/main/java/se/trixon/cric/Profile.java:87 | the `compareTo` order is reflexive |
| Strings.LexLeqTotal | src/main/java/se/trixon/cric/Profile.java:87 | the order is total |
| Strings.LexLeqAntisymmetric | src/main/java/se/trixon/cric/Profile.java:87 | the order is antisymmetric |
| Strings.LexLeqTransitive | src/main/java/se/trixon/cric/Profile.java:87 | the order is transitive |
| Strings.CompareTo | src/main/java/se/trixon/cric/Profile.java:87 | 0 exactly for equal strings; the sign follows the lexicographic order |
| Strings.CompareToAntisymmetric | src/main/java/se/trixon/cric/Profile.java:87 | swapping the arguments flips the sign |
| Strings.RemoveStart | main/src/main/java/se/trixon/cric/ui/TaskEditor.java:253 | removes the prefix when it is there, and leaves the text alone otherwise |
| Strings.RemoveEnd | main/src/main/java/se/trixon/cric/ui/TaskEditor.java:254 | removes the suffix when it is there, and leaves the text alone otherwise |
| Strings.WordLength | legacy/src/main/java/se/trixon/cric/ui/ModulePathTab.java:75 | the length of the leading run of non-whitespace |
| Strings.SplitWhitespace | legacy/src/main/java/se/trixon/cric/ui/ModulePathTab.java:75 | `StringUtils.split`: non-empty words free of whitespace |
| Strings.SplitJoined | legacy/src/main/java/se/trixon/cric/ui/ModulePathTab.java:75 | splitting words joined by single spaces gives the words back |
| Strings.WordOfItself | legacy/src/main/java/se/trixon/cric/ui/ModulePathTab.java:75 | a single word splits to itself |
| Strings.IsWhitespace | src/main/java/se/trixon/cric/Profile.java:141 | `Character.isWhitespace`: no letter or digit is whitespace, the no-break spaces are not, and ASCII whitespace lies at or below U+0020 |
| Strings.IsBlank | src/main/java/se/trixon/cric/Profile.java:141 | `StringUtils.isBlank`: blank exactly when whitespace-splitting finds no word |
| Strings.Join | src/main/java/se/trixon/cric/Profile.java:136-139 | `String.join`: "" for no parts, the part itself for one part; for two or more parts it starts with the first part and the separator, and ends with the separator and the last part; `SplitJoined` is its inverse for words |
| Strings.JoinSnoc | src/main/java/se/trixon/cric/Profile.java:136-139 | one more part adds the separator and that part at the end, so with the one-part case every part appears in order, one separator between neighbours |
| Strings.IntToString | src/main/java/se/trixon/cric/Profile.java:122 | `%d`: a minus sign exactly for a negative number, digits otherwise; `ParseIntToString` reads it back |
| Strings.EqualsIgnoreCase | main/src/main/java/se/trixon/cric/core/TaskManager.java:56-59 | equal lengths and equal characters after folding each one; equal strings always match |
| Strings.Digit | src/main/java/se/trixon/cric/Profile.java:122 | a decimal digit character |
| Strings.NatToString | src/main/java/se/trixon/cric/Profile.java:122 | `%d` of a natural number: a non-empty string of digits |
| Strings.ParseNatToString | src/main/java/se/trixon/cric/Profile.java:122 | reading the digits back gives the number |
| Strings.ParseIntToString | src/main/java/se/trixon/cric/Profile.java:122 | `%d` of any integer can be read back |
| Persistence.SplitAtEquals | main/src/main/java/se/trixon/cric/core/StorageManager.java:120-121 | splits at the first `=`, into a part without `=` and the rest; none when there is no `=` |
| Persistence.BackupEntrySplits | main/src/main/java/se/trixon/cric/core/StorageManager.java:121 | a backup line splits back into its time stamp and its JSON text |
| Persistence.FileSystem.constructor | main/src/main/java/se/trixon/cric/core/StorageManager.java:176 | the given files and failing paths |
| Persistence.FileSystem.Write | main/src/main/java/se/trixon/cric/core/StorageManager.java:176 | replaces the file exactly when the path's writes do not fail |
| Persistence.FileSystem.Append | main/src/main/java/se/trixon/cric/core/StorageManager.java:121 | appends to the file, creating it empty first, exactly when the path's writes do not fail |
| Persistence.FileSystem.Contents | main/src/main/java/se/trixon/cric/core/StorageManager.java:150 | a missing file reads as empty |
| Persistence.Storage.constructor | main/src/main/java/se/trixon/cric/core/StorageManager.java:141-147 | version 0 and no items |
| Persistence.Storage.FromEnvelope | main/src/main/java/se/trixon/cric/core/StorageManager.java:149-159 | the decoded version and items |
| Persistence.Storage.AsEnvelope | main/src/main/java/se/trixon/cric/core/StorageManager.java:141-147 | the version and the items as one record |
| Persistence.Storage.SetItems | main/src/main/java/se/trixon/cric/core/StorageManager.java:181-184 | the items become the given map; the version is kept |
| Persistence.Storage.Save | main/src/main/java/se/trixon/cric/core/StorageManager.java:173-179 | stamps version 1, serialises, writes the file when the write succeeds, and returns the JSON |
| Persistence.Open | main/src/main/java/se/trixon/cric/core/StorageManager.java:149-159 | succeeds exactly when the file exists and decodes; any version is accepted |
| Persistence.StorageManager.ForTasks | main/src/main/java/se/trixon/cric/core/StorageManager.java:68-75 | `tasks.json` and `tasks.bak` in the user directory, which are different files |
| Persistence.StorageManager.ForProfiles | src/main/java/se/trixon/cric/StorageManager.java:61-70 | `.config/cric/profiles32.json` under the home directory, no backup |
| Persistence.StorageManager.FileFormatVersion | main/src/main/java/se/trixon/cric/core/StorageManager.java:77-79 | the version of the current envelope |
| Persistence.StorageManager.Load | main/src/main/java/se/trixon/cric/core/StorageManager.java:101-115 | if the file is missing, a fresh envelope and the map is left alone. If it decodes, the envelope and the map are replaced by what was read. If it fails to decode, nothing changes |
| Persistence.StorageManager.SaveToFile | main/src/main/java/se/trixon/cric/core/StorageManager.java:117-134 | writes the JSON of the map, then appends `stamp=json` to the backup, stopping at the first failing write. If the items file fails, no file changes. If the backup fails, only the items file changed. With a faithful codec, the reload leaves the map unchanged |
| Persistence.StorageManager.Save | main/src/main/java/se/trixon/cric/core/StorageManager.java:60-66 | the same, with the failure swallowed |
| Execution.ExitCode | main/src/main/java/se/trixon/cric/core/Executor.java:157-167 | the process's exit code, or -1 when the wait was interrupted or the execution failed |
| Execution.Classify | main/src/main/java/se/trixon/cric/core/Executor.java:91-95 | DONE exactly for exit code 0, FAILED for any other |
| Execution.MayProceed | main/src/main/java/se/trixon/cric/core/Executor.java:107-127 | go on exactly when the output is missing or the user agrees to clear it |
| Execution.RunOutcome | main/src/main/java/se/trixon/cric/core/Executor.java:89-98 | CANCELED exactly when clearing was refused; DONE exactly when the run went on and the process exited with 0 |
| Execution.InterruptedFails | main/src/main/java/se/trixon/cric/core/Executor.java:157-167 | an interrupted or failed wait is never DONE |
| Execution.InvocationOf | main/src/main/java/se/trixon/cric/core/Executor.java:135-140 | the executable followed by the arguments is the command |
| Execution.InvocationOfCommand | main/src/main/java/se/trixon/cric/core/Executor.java:90 | for a task's command, the executable is its jlink and there are at least seven arguments |
| Execution.Executor.constructor | main/src/main/java/se/trixon/cric/core/Executor.java:56-63 | not running, no outcome, nothing cleared or started |
| Execution.Executor.Run | main/src/main/java/se/trixon/cric/core/Executor.java:66-67 | raises the running flag |
| Execution.Executor.InitTargetDirectory | main/src/main/java/se/trixon/cric/core/Executor.java:107-127 | the answer is `MayProceed`; the output is cleared exactly when it exists and the user agrees |
| Execution.Executor.Work | main/src/main/java/se/trixon/cric/core/Executor.java:82-101 | if the task's command cannot be built, the thread dies at once: no outcome, nothing cleared or started, and the id stays registered. Otherwise it does what `RunBuilt` states |
| Execution.Executor.RunBuilt | main/src/main/java/se/trixon/cric/core/Executor.java:89-101 | the outcome is `RunOutcome`. The process is started, with the task's command, exactly when the run may proceed. The task leaves the registry |
| Execution.Executor.Cancel | main/src/main/java/se/trixon/cric/core/Executor.java:68-76 | not running, CANCELED, the task leaves the registry |
| Execution.ExecutorManager.constructor | main/src/main/java/se/trixon/cric/core/ExecutorManager.java:41-50 | an empty registry |
| Execution.ExecutorManager.Remove | main/src/main/java/se/trixon/cric/core/Executor.java:101 | the id leaves the registry |
| Execution.ExecutorManager.Start | main/src/main/java/se/trixon/cric/core/ExecutorManager.java:96-100 | a new running executor is filed under the task's id |
| Execution.ExecutorManager.RequestStart | main/src/main/java/se/trixon/cric/core/ExecutorManager.java:56-94 | a registered task is refused. Otherwise a new executor starts exactly when the run button is chosen. Other entries are kept |
| RunStates.IsRunningState | legacy/src/main/java/se/trixon/cric/RunStateManager.java:69-74 | running exactly for CANCELABLE |
| RunStates.RunStateManager.constructor | legacy/src/main/java/se/trixon/cric/RunStateManager.java:30-39 | no profile, no run state, not running |
| RunStates.RunStateManager.IsRunning | legacy/src/main/java/se/trixon/cric/RunStateManager.java:49-51 | true exactly when the state is CANCELABLE |
| RunStates.RunStateManager.SetProfile | legacy/src/main/java/se/trixon/cric/RunStateManager.java:65-67 | changes the profile only |
| RunStates.RunStateManager.SetRunState | legacy/src/main/java/se/trixon/cric/RunStateManager.java:69-74 | stores the state and derives the running flag from it |
| ModuleLists.JmodNames | legacy/src/main/java/se/trixon/cric/ui/ModulePathTab.java:139-141 | exactly the base names of the listed files ending in `.jmod` |
| ModuleLists.JmodNameOf | legacy/src/main/java/se/trixon/cric/ui/ModulePathTab.java:139-141 | `x.jmod` gives `x` |
| ModuleLists.SelectKeepsUnion | legacy/src/main/java/se/trixon/cric/ui/ModulePathTab.java:74-81 | selecting moves names between the lists and never loses or invents one |
| ModuleLists.SelectKeepsApart | legacy/src/main/java/se/trixon/cric/ui/ModulePathTab.java:74-81 | selecting keeps the available list repeat-free and apart from the selection |
| ModuleLists.UnavailableIgnored | legacy/src/main/java/se/trixon/cric/ui/ModulePathTab.java:76 | a name that is not available changes nothing |
| ModuleLists.ModulePathTab.constructor | legacy/src/main/java/se/trixon/cric/ui/ModulePathTab.java:45-64 | an empty tab; with a module path given, as `load` leaves it |
| ModuleLists.ModulePathTab.GetModulePath | legacy/src/main/java/se/trixon/cric/ui/ModulePathTab.java:66-72 | the directory and the selection as a sorted set with the same elements |
| ModuleLists.ModulePathTab.Available | legacy/src/main/java/se/trixon/cric/ui/ModulePathTab.java:135-145 | sorted and unique: the `.jmod` base names not selected, or nothing when the listing throws |
| ModuleLists.ModulePathTab.Select | legacy/src/main/java/se/trixon/cric/ui/ModulePathTab.java:74-81 | the loop does `SelectAll` over the whitespace-separated names |
| ModuleLists.ModulePathTab.Rescan | legacy/src/main/java/se/trixon/cric/ui/ModulePathTab.java:135-145 | the available list becomes `Available`; the selection is kept |
| ModuleLists.ModulePathTab.Load | legacy/src/main/java/se/trixon/cric/ui/ModulePathTab.java:126-133 | sets the directory, rescans, and removes the saved selection from the available list; the selection is the saved one |
| ModuleLists.ModulePathTab.OnPathTextChanged | legacy/src/main/java/se/trixon/cric/ui/ModulePathTab.java:84-91 | a directory is rescanned; anything else empties the available list only |
| ModuleLists.LoadedApart | legacy/src/main/java/se/trixon/cric/ui/ModulePathTab.java:126-133 | after `load` no selected name is also offered |
| ModuleLists.TitleInjective | legacy/src/main/java/se/trixon/cric/ui/ModulePathTab.java:57 | distinct tab counters give distinct titles |
| ModuleLists.ModulePathTab.Closable | legacy/src/main/java/se/trixon/cric/ui/ModulePathTab.java:55-57 | a closable tab is never titled `module-path #0`; among non-negative counters, the one tab that cannot be closed is `module-path #0` |
| ModuleLists.ModuleSelectionPanel.constructor | src/main/java/se/trixon/cric/ModuleSelectionPanel.java:43-56 | both lists empty |
| ModuleLists.ModuleSelectionPanel.Rescan | src/main/java/se/trixon/cric/ModuleSelectionPanel.java:103-113 | clears both lists, then offers every `.jmod` base name, sorted and unique |
| ModuleLists.ModuleSelectionPanel.OnPathTextChanged | src/main/java/se/trixon/cric/ModuleSelectionPanel.java:59-67 | a directory is rescanned; anything else empties both lists |
| TaskEditing.ComboSelect | main/src/main/java/se/trixon/cric/ui/TaskEditor.java:105-106 | -1 clears the choice; 0 to 2 are chosen; any other index keeps the previous choice |
| TaskEditing.FormOf | main/src/main/java/se/trixon/cric/ui/TaskEditor.java:95-106 | the form shows the task's name, its description (never null) and its launcher; the combos follow `ComboSelect` |
| TaskEditing.ApplyForm | main/src/main/java/se/trixon/cric/ui/TaskEditor.java:116-133 | the name is trimmed; the description and the launcher are not. The module paths come from the tabs. The id and last run are kept |
| TaskEditing.SaveUnedited | main/src/main/java/se/trixon/cric/ui/TaskEditor.java:95-135 | saving an unedited form gives the task back, with its description made explicit |
| TaskEditing.PathTabs | main/src/main/java/se/trixon/cric/ui/TaskEditor.java:126-128 | only module-path tabs, each one of them |
| TaskEditing.PathTabsSkipAdd | main/src/main/java/se/trixon/cric/ui/TaskEditor.java:126-128 | with the "+" tab first, the filter drops just that tab, keeping the order |
| TaskEditing.ModulePathsOf | main/src/main/java/se/trixon/cric/ui/TaskEditor.java:126-130 | `getModulePath` of each tab, in order |
| TaskEditing.ReleaseModules | main/src/main/java/se/trixon/cric/ui/TaskEditor.java:251-261 | none exactly when no line starts with `MODULES="` |
| TaskEditing.ReleaseModulesFirstLine | main/src/main/java/se/trixon/cric/ui/TaskEditor.java:251-259 | only the first `MODULES="` line counts, with its prefix and one closing quote removed |
| TaskEditing.ReleaseLineRoundTrip | main/src/main/java/se/trixon/cric/ui/TaskEditor.java:252-254 | the module list of a `MODULES="..."` line comes back as written |
| TaskEditing.DroppedModules | main/src/main/java/se/trixon/cric/ui/TaskEditor.java:245-250 | a module list comes only from a first file that is a readable regular file named `release` |
| TaskEditing.ParseRelease | main/src/main/java/se/trixon/cric/ui/TaskEditor.java:250-261 | the line loop with its `break` computes `ReleaseModules` |
| TaskEditing.TaskEditor.constructor | main/src/main/java/se/trixon/cric/ui/TaskEditor.java:201-203 | only the "+" tab, no task yet |
| TaskEditing.TaskEditor.AddPathTab | main/src/main/java/se/trixon/cric/ui/TaskEditor.java:278-281 | appends one new tab with the given counter. Without a module path the tab is empty. With one, it shows that directory, its selected modules as the target, and the directory's other modules as the available list |
| TaskEditing.TaskEditor.OnAddTabSelected | main/src/main/java/se/trixon/cric/ui/TaskEditor.java:227-235 | appends a tab numbered by the tab count, with no directory and empty lists |
| TaskEditing.TaskEditor.Load | main/src/main/java/se/trixon/cric/ui/TaskEditor.java:85-113 | a missing task becomes a new one and the form is filled from it. The tabs are rebuilt: one unclosable tab with no directory and empty lists when there are no module paths. Otherwise there is one tab per module path, with counters 1, 2, ..., that path's directory, its selected modules, and the directory's other modules as the available list |
| TaskEditing.TaskEditor.AppendPathTabs | main/src/main/java/se/trixon/cric/ui/TaskEditor.java:280-282 | one tab per module path, numbered by the tab count, each showing its directory, its selected modules and the directory's other modules as the available list |
| TaskEditing.TaskEditor.Save | main/src/main/java/se/trixon/cric/ui/TaskEditor.java:115-141 | the task becomes `ApplyForm` with one module path per tab in order. It is filed under its id and the store is persisted; with a faithful codec the map is the old one with that entry replaced |
| TaskEditing.TaskEditor.SelectInTabs | main/src/main/java/se/trixon/cric/ui/TaskEditor.java:256-258 | every module-path tab does `select`, in tab order; the directories are kept |
| TaskEditing.TaskEditor.OnDragDropped | main/src/main/java/se/trixon/cric/ui/TaskEditor.java:244-268 | every tab selects the dropped `release` file's modules; any other drop changes nothing |
| ListEditing.CloneOf | main/src/main/java/se/trixon/cric/ui/TaskListEditor.java:108-115 | the clone has the fresh id, last run 0 and the name followed by a space and the date; every other field is the original's |
| ListEditing.CloneIsNew | main/src/main/java/se/trixon/cric/ui/TaskListEditor.java:112-113 | with a fresh id, the clone is not the original |
| ListEditing.RemoveAllItems | main/src/main/java/se/trixon/cric/ui/TaskListEditor.java:100-103 | the file holds the JSON of an empty map; with a faithful codec the store is empty (`ProfileListEditor` lines 94-97 do the same) |
| ListEditing.RemoveItem | main/src/main/java/se/trixon/cric/ui/TaskListEditor.java:104-107 | the file and the store lack the item's id (`ProfileListEditor` lines 98-101 do the same) |
| ListEditing.Clone | main/src/main/java/se/trixon/cric/ui/TaskListEditor.java:108-121 | the clone is filed under the fresh id and persisted. The result is the store's entry for that id; with a faithful codec it is the clone and every other entry is kept (`ProfileListEditor` lines 102-115 do the same) |
| ListEditing.StartTask | main/src/main/java/se/trixon/cric/ui/TaskListEditor.java:122-124 | `requestStart` on the registry |
| ListEditing.EditTask | main/src/main/java/se/trixon/cric/ui/TaskListEditor.java:66-89 | load, then on OK: save, and hand on the store's entry for the saved id. With a faithful codec that is the saved task. Without OK nothing is stored |

## Left out

- Input and output are parameters, or are left out:
  - Files, directory listings, file tests and the JSON library are parameters.
  - Character sets and the `var/history` and log files are not used by the core.
  - `TaskManager.log` (TaskManager.java:116-118) only prints its message.
- The worker thread, the progress handle, the output window and the status bar are not modelled. `Work` is the worker's body, run to its end.
  - A cancel racing with the worker is not captured.
  - Neither is interrupting the thread.
- Deferred work is taken as done at once, in one step:
  - The reload after a save: `FxHelper.runLater` runs it later on the UI thread.
  - `setRunState`'s deferral.
  - `Execution.ExecutorManager.RequestStart`: the dialog and `start` run inside `SwingUtilities.invokeLater` (ExecutorManager.java:69-92).
    - So in the code two requests can both pass the `containsKey` check (line 57) before either `start` runs.
    - The model does not capture that.
  - `ListEditing.EditTask`: the dialog is deferred with `SwingUtilities.invokeLater`, and the save with `Platform.runLater` (TaskListEditor.java:81-88).
- Aliasing is not captured.
  - In the code, for an existing task the editor's task and the store's entry are one object from `load` on. The list editor passes its own entry (TaskListEditor.java:79), and the editor keeps it (TaskEditor.java:93).
  - So the setters of `save` (TaskEditor.java:116-127) change the stored entry in place, before the `put` at line 137.
  - That `put` stores the same object again. The observable map reports no change for an equal value, so the listener (TaskManager.java:45-49) does not re-sort the list. Only the reload after the write puts the list back in order, and when the write throws (StorageManager.java:119-121) no reload runs.
  - The model's `Items.ItemManager.Put` re-sorts at once, so after a rename the model's list is in order where the code's may not be.
  - Profiles here are values, so a later change to one is not seen through the other.
- The executor takes a copy of its task (`const task`).
- Case-insensitive comparison covers the ASCII letters only.
  - `equalsIgnoreCase` and `compareToIgnoreCase` also fold other scripts.
- `String.compareTo` order is modelled by Unicode code point, while Java compares UTF-16 code units. The two orders differ for characters outside the Basic Multilingual Plane. For example, Java puts U+10000 (the surrogate pair D800 DC00) before U+FFFF, and `Strings.LexLeq` puts it after. This affects `Strings.CompareTo`, `ProfileModel.Profile.CompareTo` and the sorted module lists.
- Among items whose names are equal ignoring case, the code keeps the hash map's iteration order.
  - `Items.ItemManager.Rebuild` inserts keys in an unspecified order.
  - So its contract only says the list is sorted and holds the map's values.
- Null names are not modelled. A name is a string, and a new profile's name is "".
  - A task cloned with no name would be named `null <date>` in the code.
- `ProfileModel.NewProfile`: an unset jlink or launcher is taken as "", where `new Profile()` leaves them null (Profile.java:52,56).
  - With a null jlink, `getJlinkString` throws (Profile.java:173).
  - So do `isValid` and `getCommand` on a fresh profile.
  - In the model `JlinkString` falls back to the preference path instead. That throw is not modelled.
- Gson's field-by-field copy of a clone is a value copy.
- JSON details are not modelled, such as field names and null handling. The codec is abstract.
- Where the code would throw, the model takes the throwing case as a precondition:
  - `ProfileModel.GetCommand` requires a set output, set module paths and an endian index of at most 2. Otherwise the code throws a `NullPointerException` or an index error.
  - `ProfileModel.IsValid` requires set module paths, because it reads the field directly.
  - `Execution.Executor.Work` requires that no process was started yet, since each executor runs once.
    - A task whose command cannot be built is not excluded.
    - `Work` models that throw: no outcome, nothing cleared or started, and the id stays registered.
- `Execution.Executor.Work`: the output directory is not re-checked after clearing.
- `ModuleLists.ModulePathTab.Title`: it has no contract of its own. It is the tab text `module-path #N`.
  - `ModuleLists.TitleInjective` and `ModuleLists.ModulePathTab.Closable` state what it guarantees.
- Closing a tab, tab selection and focus handling are not modelled. Which tabs may be closed is modelled.
- Among the file chooser's callbacks, only the text listener is modelled. The drop and OK callbacks rescan the given directory, and that is `Rescan`.
- `ProfileEditor` is not part of this model.
  - For the profile list, its edit action and the start listener it forwards to are left out.
  - `postInit`'s load with its exception swallowed is `Persistence.StorageManager.Load` with the `Unreadable` outcome.
- The option store, the main windows, the status panels and the summary views are outside the core.

## Notes on the code

- **Switch order.** `getCommand` adds `-J-Djlink.debug=true` before `--verbose`, and every boolean switch before `--compress=N` (Profile.java:94-122). `ProfileModel.DemoCommand` shows this order.
- **Endian token.** The endian option is one token, `--endian little` or `--endian big` (Profile.java:125).
- **No validation before a run.** The task application's `Executor` never calls `isValid` before running (Executor.java:82-101).
- **An unbuildable task stays registered.** The worker builds the command (Executor.java:87) before anything else.
  - For a task with no output, no module-path list or an endian index above 2, `getCommand` throws.
  - The thread then ends before the `remove` at Executor.java:101.
  - From then on `requestStart` refuses that task (ExecutorManager.java:57).
  - `Execution.Executor.Work` states this case.
- **No run state in the task executor.** That executor does not touch a run state and does not update `lastRun`.
- **Initial run state.** The run state starts unset (RunStateManager.java:31), with the running flag false (line 32).
- **No kill timeout.** Cancelling interrupts the worker and has no timeout-and-kill step (Executor.java:68-76).
