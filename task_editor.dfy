/**
 * The task editor: a form over one task and a row of tabs, the first of
 * which ("+") adds a module-path tab when chosen. Saving copies the form
 * into the task, collects the module paths of the tabs, files the task
 * under its id and persists the store. Dropping a `release` file of a JDK
 * selects the modules it lists in every tab.
 */
module TaskEditing {
  import opened Wrappers
  import opened Strings
  import opened Collections
  import opened ProfileModel
  import opened Items
  import opened Persistence
  import opened ModuleLists

  datatype Tab = AddTab | PathTab(tab: ModulePathTab)

  /** The values the form's controls hold. */
  datatype Form = Form(
    name: string,
    description: string,
    launcher: string,
    jlink: string,
    output: Option<string>,
    bindServices: bool,
    noHeaders: bool,
    noManPages: bool,
    ignoreSigning: bool,
    stripDebug: bool,
    compress: int,
    endian: int)

  /** The form as the editor first shows it: empty fields, nothing chosen. */
  const EMPTY_FORM := Form("", "", "", "", None, false, false, false, false, false, -1, -1)

  /** A three-entry combo box: `select(i)` clears the choice for -1,
      picks entries 0 to 2, and ignores any other index. */
  function ComboSelect(index: int, current: int): (selected: int)
    ensures 0 <= index < 3 || index == -1 ==> selected == index
    ensures !(0 <= index < 3 || index == -1) ==> selected == current
  {
    if index == -1 || 0 <= index < 3 then index else current
  }

  /** `load`: the form filled from the task. */
  function FormOf(t: Profile, current: Form): (f: Form)
    ensures f.name == t.name && f.description == t.Description() && f.launcher == t.launcher
    ensures f.compress == ComboSelect(t.compress, current.compress)
    ensures f.endian == ComboSelect(t.endian, current.endian)
  {
    Form(t.name, t.Description(), t.launcher, t.jlink, t.output,
         t.bindServices, t.noHeaders, t.noManPages, t.ignoreSigning, t.stripDebug,
         ComboSelect(t.compress, current.compress), ComboSelect(t.endian, current.endian))
  }

  /** `save`: the form copied into the task. Only the name is trimmed. */
  function ApplyForm(f: Form, t: Profile, modulePaths: seq<ModulePath>): (r: Profile)
    ensures r.name == Trim(f.name)
    ensures r.description == Some(f.description) && r.launcher == f.launcher
    ensures r.modulePaths == Some(modulePaths)
    ensures r.id == t.id && r.lastRun == t.lastRun
  {
    t.(name := Trim(f.name), description := Some(f.description), launcher := f.launcher,
       jlink := f.jlink, output := f.output,
       bindServices := f.bindServices, noHeaders := f.noHeaders, noManPages := f.noManPages,
       ignoreSigning := f.ignoreSigning, stripDebug := f.stripDebug,
       compress := f.compress, endian := f.endian, modulePaths := Some(modulePaths))
  }

  /** Saving a form that was loaded and not edited gives the task back,
      with its description made explicit and the module paths of the tabs. */
  lemma SaveUnedited(t: Profile, current: Form, modulePaths: seq<ModulePath>)
    requires Trim(t.name) == t.name
    requires 0 <= t.compress < 3 && 0 <= t.endian < 3
    ensures ApplyForm(FormOf(t, current), t, modulePaths)
            == t.(description := Some(t.Description()), modulePaths := Some(modulePaths))
  {
  }

  /** The module-path tabs among `tabs`, in order: the "+" tab is skipped. */
  function PathTabs(tabs: seq<Tab>): (r: seq<ModulePathTab>)
    ensures |r| <= |tabs|
    ensures forall i :: 0 <= i < |r| ==> PathTab(r[i]) in tabs
    ensures forall i :: 0 <= i < |tabs| && tabs[i].PathTab? ==> tabs[i].tab in r
    decreases |tabs|
  {
    if tabs == [] then []
    else
      var init := tabs[..|tabs| - 1];
      var last := tabs[|tabs| - 1];
      assert forall i :: 0 <= i < |init| ==> init[i] == tabs[i];
      PathTabs(init) + (if last.PathTab? then [last.tab] else [])
  }

  /** With the "+" tab in front of path tabs only, the filter drops just that tab. */
  lemma {:induction false} PathTabsSkipAdd(tabs: seq<Tab>)
    requires |tabs| >= 1 && tabs[0] == AddTab
    requires forall i :: 1 <= i < |tabs| ==> tabs[i].PathTab?
    ensures |PathTabs(tabs)| == |tabs| - 1
    ensures forall i :: 1 <= i < |tabs| ==> PathTabs(tabs)[i - 1] == tabs[i].tab
    decreases |tabs|
  {
    if |tabs| > 1 {
      var init := tabs[..|tabs| - 1];
      assert init[0] == AddTab && forall i :: 1 <= i < |init| ==> init[i] == tabs[i];
      PathTabsSkipAdd(init);
      assert PathTabs(tabs) == PathTabs(init) + [tabs[|tabs| - 1].tab];
    } else {
      assert tabs == [AddTab];
      assert tabs[..0] == [];
    }
  }

  /** `getModulePath` of each tab, in order. */
  function ModulePathsOf(tabs: seq<ModulePathTab>): (r: seq<ModulePath>)
    reads set i | 0 <= i < |tabs| :: tabs[i]
    ensures |r| == |tabs|
    ensures forall i :: 0 <= i < |tabs| ==> r[i] == tabs[i].GetModulePath()
    decreases |tabs|
  {
    if tabs == [] then []
    else [tabs[0].GetModulePath()] + ModulePathsOf(tabs[1..])
  }

  const RELEASE_FILE := "release"
  const MODULES_PREFIX := "MODULES=\""
  const QUOTE := "\""

  /** The module list of the first line that starts with `MODULES="`, with
      that prefix and one closing quote removed. */
  function ReleaseModules(lines: seq<string>): (r: Option<string>)
    ensures r.None? <==> forall i :: 0 <= i < |lines| ==> !StartsWith(lines[i], MODULES_PREFIX)
    decreases |lines|
  {
    if lines == [] then None
    else if StartsWith(lines[0], MODULES_PREFIX) then
      Some(RemoveEnd(RemoveStart(lines[0], MODULES_PREFIX), QUOTE))
    else
      var r := ReleaseModules(lines[1..]);
      assert forall i :: 1 <= i < |lines| ==> lines[i] == lines[1..][i - 1];
      r
  }

  /** Lines after the first `MODULES="` line are never read. */
  lemma {:induction false} ReleaseModulesFirstLine(before: seq<string>, line: string, after: seq<string>)
    requires forall i :: 0 <= i < |before| ==> !StartsWith(before[i], MODULES_PREFIX)
    requires StartsWith(line, MODULES_PREFIX)
    ensures ReleaseModules(before + [line] + after) == Some(RemoveEnd(RemoveStart(line, MODULES_PREFIX), QUOTE))
    decreases |before|
  {
    var lines := before + [line] + after;
    if before == [] {
      assert lines[0] == line;
    } else {
      assert lines[1..] == before[1..] + [line] + after;
      ReleaseModulesFirstLine(before[1..], line, after);
    }
  }

  /** A `release` file as written by the JDK: the quoted list comes back as it was. */
  lemma ReleaseLineRoundTrip(modules: string)
    ensures ReleaseModules([MODULES_PREFIX + modules + QUOTE]) == Some(modules)
  {
    var line := MODULES_PREFIX + modules + QUOTE;
    assert line[..|MODULES_PREFIX|] == MODULES_PREFIX;
    assert line[|MODULES_PREFIX|..] == modules + QUOTE;
    assert RemoveStart(line, MODULES_PREFIX) == modules + QUOTE;
    var s := modules + QUOTE;
    assert s[|s| - 1..] == QUOTE;
  }

  /** What a drop hands over: the file's name, whether it is a regular file,
      and its lines (nothing when reading throws). */
  datatype DroppedFile = DroppedFile(name: string, isFile: bool, lines: Option<seq<string>>)

  /** The module list a drop applies, if any: only a first dropped file that
      is a regular file named exactly `release` and can be read is parsed. */
  function DroppedModules(files: seq<DroppedFile>): (r: Option<string>)
    ensures r.Some? ==> files != [] && files[0].isFile && files[0].name == RELEASE_FILE && files[0].lines.Some?
  {
    if files != [] && files[0].isFile && files[0].name == RELEASE_FILE && files[0].lines.Some? then
      ReleaseModules(files[0].lines.value)
    else
      None
  }

  /** The line loop of the drop handler, which stops at the first match. */
  method ParseRelease(lines: seq<string>) returns (modules: Option<string>)
    ensures modules == ReleaseModules(lines)
  {
    var i := 0;
    while i < |lines|
      invariant 0 <= i <= |lines|
      invariant forall j :: 0 <= j < i ==> !StartsWith(lines[j], MODULES_PREFIX)
    {
      var line := lines[i];
      if StartsWith(line, MODULES_PREFIX) {
        line := RemoveStart(line, MODULES_PREFIX);
        line := RemoveEnd(line, QUOTE);
        ReleaseModulesFirstLine(lines[..i], lines[i], lines[i + 1..]);
        assert lines[..i] + [lines[i]] + lines[i + 1..] == lines;
        return Some(line);
      }
      i := i + 1;
    }
    return None;
  }

  class TaskEditor {
    /** `mTask`: unset until the first `load`. */
    var task: Option<Profile>
    var form: Form
    var tabs: seq<Tab>

    /** The "+" tab comes first, every other tab is a distinct module-path tab. */
    ghost predicate Valid()
      reads this
    {
      |tabs| >= 1 && tabs[0] == AddTab
      && (forall i :: 1 <= i < |tabs| ==> tabs[i].PathTab?)
      && (forall i, j :: 1 <= i < j < |tabs| ==> tabs[i].tab != tabs[j].tab)
    }

    ghost function TabObjects(): set<object>
      reads this
    {
      set i | 1 <= i < |tabs| && tabs[i].PathTab? :: tabs[i].tab
    }

    constructor ()
      ensures Valid() && task.None? && form == EMPTY_FORM && tabs == [AddTab]
    {
      task := None;
      form := EMPTY_FORM;
      tabs := [AddTab];
    }

    /** `tabs.add(new ModulePathTab(counter, modulePath))`. */
    method AddPathTab(counter: int, modulePath: Option<ModulePath>, listing: Option<seq<string>>)
      returns (added: ModulePathTab)
      requires Valid()
      modifies this
      ensures Valid() && fresh(added) && tabs == old(tabs) + [PathTab(added)]
      ensures added.counter == counter
      ensures modulePath.None? ==> added.directory == "" && added.source == [] && added.target == []
      ensures modulePath.Some? ==>
                added.directory == modulePath.value.directory && added.target == modulePath.value.selectedModules
                && added.source == RemoveAll(ModulePathTab.Available(listing, []), modulePath.value.selectedModules)
      ensures task == old(task) && form == old(form)
    {
      added := new ModulePathTab(counter, modulePath, listing);
      tabs := tabs + [PathTab(added)];
    }

    /** Choosing the "+" tab appends a new, empty module-path tab numbered by the tab count. */
    method OnAddTabSelected() returns (added: ModulePathTab)
      requires Valid()
      modifies this
      ensures Valid() && fresh(added) && tabs == old(tabs) + [PathTab(added)]
      ensures added.counter == |old(tabs)| && added.directory == "" && added.target == [] && added.source == []
      ensures task == old(task) && form == old(form)
    {
      added := AddPathTab(|tabs|, None, None);
    }

    /** `load(task)`: a missing task becomes a new one; the form is filled
        from it and the module-path tabs are rebuilt, one per module path,
        or a single empty first tab when there are none. Reading the module
        paths installs an empty list on a task that had none. */
    method Load(t: Option<Profile>, freshId: string, listDirectory: string -> Option<seq<string>>)
      requires Valid()
      modifies this
      ensures Valid()
      ensures var base := if t.Some? then t.value else NewProfile(freshId);
              task == Some(base.WithModulePaths().0) && form == FormOf(base, old(form))
      ensures var mps := task.value.modulePaths.value;
              (mps == [] ==>
                 |tabs| == 2 && tabs[1].tab.counter == 0
                 && tabs[1].tab.directory == "" && tabs[1].tab.target == [] && tabs[1].tab.source == [])
              && (mps != [] ==> |tabs| == |mps| + 1)
              && (mps != [] ==>
                    forall j :: 1 <= j < |tabs| ==>
                      tabs[j].tab.counter == j && tabs[j].tab.Shows(mps[j - 1], listDirectory(mps[j - 1].directory)))
    {
      var base := if t.Some? then t.value else NewProfile(freshId);
      form := FormOf(base, form);
      tabs := tabs[..1];
      var withPaths := base.WithModulePaths();
      task := Some(withPaths.0);
      var mps := withPaths.1;
      if mps == [] {
        var first := AddPathTab(0, None, None);
      } else {
        AppendPathTabs(mps, listDirectory);
        assert task.value.modulePaths.value == mps;
      }
    }

    /** The loop of `initTabs`: one tab per module path, numbered by the tab count. */
    method AppendPathTabs(mps: seq<ModulePath>, listDirectory: string -> Option<seq<string>>)
      requires Valid() && |tabs| == 1
      modifies this
      ensures Valid() && |tabs| == |mps| + 1 && task == old(task) && form == old(form)
      ensures forall j :: 1 <= j < |tabs| ==>
                tabs[j].tab.counter == j && tabs[j].tab.Shows(mps[j - 1], listDirectory(mps[j - 1].directory))
    {
      var i := 0;
      while i < |mps|
        invariant 0 <= i <= |mps|
        invariant |tabs| == i + 1 && Valid() && task == old(task) && form == old(form)
        invariant forall j :: 1 <= j < |tabs| ==>
                    tabs[j].tab.counter == j && tabs[j].tab.Shows(mps[j - 1], listDirectory(mps[j - 1].directory))
      {
        var tab := AddPathTab(|tabs|, Some(mps[i]), listDirectory(mps[i].directory));
        i := i + 1;
      }
    }

    /** `save`: copies the form and the tabs' module paths into the task,
        files it under its id (replacing any earlier entry) and persists. */
    method Save(sm: StorageManager, stamp: string) returns (saved: Profile)
      requires Valid() && task.Some? && sm.Valid()
      modifies this, sm, sm.storage, sm.fs, sm.manager
      ensures Valid() && sm.Valid() && tabs == old(tabs) && form == old(form)
      ensures saved == ApplyForm(old(form), old(task.value), old(ModulePathsOf(PathTabs(tabs))))
      ensures task == Some(saved)
      ensures |saved.modulePaths.value| == |tabs| - 1
      ensures forall i :: 1 <= i < |tabs| ==> saved.modulePaths.value[i - 1] == old(tabs[i].tab.GetModulePath())
      ensures sm.itemsFile !in old(sm.fs.locked) ==>
                sm.itemsFile in sm.fs.files
                && sm.fs.files[sm.itemsFile]
                   == sm.codec.encode(Envelope(FILE_FORMAT_VERSION, old(sm.manager.idToItem)[saved.id := saved]))
      ensures RoundTrips(sm.codec) ==> sm.manager.idToItem == old(sm.manager.idToItem)[saved.id := saved]
    {
      PathTabsSkipAdd(tabs);
      var modulePaths := ModulePathsOf(PathTabs(tabs));
      saved := ApplyForm(form, task.value, modulePaths);
      task := Some(saved);
      sm.manager.Put(saved.id, saved);
      sm.Save(stamp);
    }

    /** `select(modules)` on every module-path tab, in tab order. */
    method SelectInTabs(modules: string)
      requires Valid()
      modifies TabObjects()
      ensures forall i :: 1 <= i < |tabs| ==>
                (tabs[i].tab.source, tabs[i].tab.target)
                == SelectAll((old(tabs[i].tab.source), old(tabs[i].tab.target)), SplitWhitespace(modules))
      ensures forall i :: 1 <= i < |tabs| ==> tabs[i].tab.directory == old(tabs[i].tab.directory)
    {
      var i := 1;
      while i < |tabs|
        invariant 1 <= i <= |tabs|
        invariant forall j :: 1 <= j < i ==>
                    (tabs[j].tab.source, tabs[j].tab.target)
                    == SelectAll((old(tabs[j].tab.source), old(tabs[j].tab.target)), SplitWhitespace(modules))
        invariant forall j :: i <= j < |tabs| ==>
                    tabs[j].tab.source == old(tabs[j].tab.source) && tabs[j].tab.target == old(tabs[j].tab.target)
        invariant forall j :: 1 <= j < |tabs| ==> tabs[j].tab.directory == old(tabs[j].tab.directory)
      {
        tabs[i].tab.Select(modules);
        i := i + 1;
      }
    }

    /** The drop handler: a `release` file selects its listed modules in every tab. */
    method OnDragDropped(files: seq<DroppedFile>)
      requires Valid()
      modifies TabObjects()
      ensures forall i :: 1 <= i < |tabs| ==>
                (tabs[i].tab.source, tabs[i].tab.target)
                == match DroppedModules(files)
                   case Some(m) => SelectAll((old(tabs[i].tab.source), old(tabs[i].tab.target)), SplitWhitespace(m))
                   case None => (old(tabs[i].tab.source), old(tabs[i].tab.target))
    {
      if files != [] {
        var file := files[0];
        if file.isFile && file.name == RELEASE_FILE && file.lines.Some? {
          var modules := ParseRelease(file.lines.value);
          if modules.Some? {
            SelectInTabs(modules.value);
          }
        }
      }
    }
  }
}
