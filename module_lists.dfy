/**
 * The module pickers: a list of available module names (`source`) and a
 * list of selected ones (`target`). The available names are the base names
 * of the `.jmod` files of a directory, sorted and without repeats. Listing
 * a directory is a parameter: the file names found there, or nothing when
 * the listing throws.
 */
module ModuleLists {
  import opened Wrappers
  import opened Strings
  import opened Collections
  import opened ProfileModel

  const JMOD_SUFFIX := ".jmod"

  /** The base names of the `.jmod` files among `files`, in listing order. */
  function JmodNames(files: seq<string>): (r: seq<string>)
    ensures forall n :: n in r <==> exists i :: 0 <= i < |files| && EndsWith(files[i], JMOD_SUFFIX)
                                                 && n == RemoveEnd(files[i], JMOD_SUFFIX)
    decreases |files|
  {
    if files == [] then []
    else
      var init := files[..|files| - 1];
      var f := files[|files| - 1];
      assert forall i :: 0 <= i < |init| ==> init[i] == files[i];
      JmodNames(init) + (if EndsWith(f, JMOD_SUFFIX) then [RemoveEnd(f, JMOD_SUFFIX)] else [])
  }

  /** A `.jmod` file's base name is the file name without the suffix. */
  lemma JmodNameOf(base: string)
    ensures JmodNames([base + JMOD_SUFFIX]) == [base]
  {
    var f := base + JMOD_SUFFIX;
    assert f[|f| - |JMOD_SUFFIX|..] == JMOD_SUFFIX;
    var one: seq<string> := [f];
    assert one[..0] == [];
  }

  /** One step of `select`: a name that is available moves to the selection. */
  function SelectStep(lists: (seq<string>, seq<string>), name: string): (r: (seq<string>, seq<string>))
  {
    if name in lists.0 then (RemoveFirst(lists.0, name), lists.1 + [name]) else lists
  }

  /** `select` over a list of names, in order. */
  function SelectAll(lists: (seq<string>, seq<string>), names: seq<string>): (r: (seq<string>, seq<string>))
    decreases |names|
  {
    if names == [] then lists
    else SelectStep(SelectAll(lists, names[..|names| - 1]), names[|names| - 1])
  }

  /** Moving names never loses or invents one: the two lists together keep their contents. */
  lemma {:induction false} SelectKeepsUnion(lists: (seq<string>, seq<string>), names: seq<string>)
    ensures var r := SelectAll(lists, names);
            multiset(r.0) + multiset(r.1) == multiset(lists.0) + multiset(lists.1)
    decreases |names|
  {
    if names != [] {
      var before := SelectAll(lists, names[..|names| - 1]);
      SelectKeepsUnion(lists, names[..|names| - 1]);
      var name := names[|names| - 1];
      if name in before.0 {
        assert multiset(before.1 + [name]) == multiset(before.1) + multiset{name};
        assert name in multiset(before.0);
      }
    }
  }

  /** The lists are apart and the available list has no repeats. */
  predicate Apart(lists: (seq<string>, seq<string>)) {
    NoDuplicates(lists.0) && forall x :: x in lists.0 ==> x !in lists.1
  }

  /** Moving names keeps the lists apart. */
  lemma {:induction false} SelectKeepsApart(lists: (seq<string>, seq<string>), names: seq<string>)
    requires Apart(lists)
    ensures Apart(SelectAll(lists, names))
    decreases |names|
  {
    if names != [] {
      var before := SelectAll(lists, names[..|names| - 1]);
      SelectKeepsApart(lists, names[..|names| - 1]);
      var name := names[|names| - 1];
      if name in before.0 {
        var after := SelectStep(before, name);
        RemoveFirstNoDuplicates(before.0, name);
        forall x | x in after.0 ensures x !in after.1 {
          assert multiset(after.0) == multiset(before.0) - multiset{name};
          assert x in multiset(after.0);
          assert x in before.0;
        }
      }
    }
  }

  /** A name that is not available leaves both lists as they are. */
  lemma UnavailableIgnored(lists: (seq<string>, seq<string>), name: string)
    requires name !in lists.0
    ensures SelectAll(lists, [name]) == lists
  {
    var one: seq<string> := [name];
    assert one[..0] == [];
  }

  /** One tab of module-path choices in the task editor. */
  class ModulePathTab {
    /** The number the tab was created with. */
    const counter: int
    /** The directory in the chooser. */
    var directory: string
    var source: seq<string>
    var target: seq<string>

    /** `new ModulePathTab(counter, modulePath)`: an empty tab, then `load` when a module path is given. */
    constructor (counter: int, modulePath: Option<ModulePath>, listing: Option<seq<string>>)
      ensures this.counter == counter
      ensures modulePath.None? ==> directory == "" && source == [] && target == []
      ensures modulePath.Some? ==>
                directory == modulePath.value.directory && target == modulePath.value.selectedModules
                && source == RemoveAll(Available(listing, []), modulePath.value.selectedModules)
    {
      this.counter := counter;
      directory := "";
      source := [];
      target := [];
      new;
      if modulePath.Some? {
        Load(modulePath.value, listing);
      }
    }

    /** The tab shows `mp` as `load` leaves it when the directory lists as
        `listing`: its directory, its selected modules as the target, and
        the directory's other modules as the available list. */
    predicate Shows(mp: ModulePath, listing: Option<seq<string>>)
      reads this
    {
      directory == mp.directory && target == mp.selectedModules
      && source == RemoveAll(Available(listing, []), mp.selectedModules)
    }

    /** The tab title. */
    function Title(): string {
      "module-path #" + IntToString(counter)
    }

    /** `setClosable(tabCounter > 0)`. The code numbers tabs by the tab
        count, which is never negative; among those counters the one
        tab that cannot be closed is the one titled `module-path #0`. */
    predicate Closable()
      ensures Closable() ==> Title() != "module-path #0"
      ensures counter >= 0 && !Closable() ==> Title() == "module-path #0"
    {
      var p := "module-path #";
      assert Title()[|p|..] == IntToString(counter);
      assert ("module-path #0")[|p|..] == "0";
      ParseIntToString(counter);
      assert counter == 0 ==> IntToString(counter) == "0";
      counter > 0
    }

    /** `getModulePath`: the directory and the selected names as a sorted set. */
    function GetModulePath(): (mp: ModulePath)
      reads this
      ensures mp.directory == directory
      ensures StrictlySorted(mp.selectedModules)
      ensures forall m :: m in mp.selectedModules <==> m in target
    {
      ModulePath(directory, TreeSetOf(target))
    }

    /** The names `rescanModuleDirectory` offers: the `.jmod` base names not
        selected, sorted and unique; nothing when the listing fails. */
    static function Available(listing: Option<seq<string>>, selected: seq<string>): (r: seq<string>)
      ensures StrictlySorted(r)
      ensures forall n :: n in r <==> listing.Some? && n in JmodNames(listing.value) && n !in selected
    {
      if listing.Some? then TreeSetOf(RemoveAll(JmodNames(listing.value), selected)) else []
    }

    /** `select(modules)`: every whitespace-separated name that is available moves to the selection. */
    method Select(modules: string)
      modifies this
      ensures (source, target) == SelectAll((old(source), old(target)), SplitWhitespace(modules))
      ensures directory == old(directory)
    {
      var names := SplitWhitespace(modules);
      var i := 0;
      while i < |names|
        invariant 0 <= i <= |names|
        invariant (source, target) == SelectAll((old(source), old(target)), names[..i])
        invariant directory == old(directory)
      {
        var name := names[i];
        ghost var before := (source, target);
        assert names[..i + 1][..i] == names[..i] && names[..i + 1][i] == name;
        assert SelectAll((old(source), old(target)), names[..i + 1]) == SelectStep(before, name);
        if name in source {
          source := RemoveFirst(source, name);
          target := target + [name];
        }
        assert (source, target) == SelectStep(before, name);
        i := i + 1;
      }
      assert names[..|names|] == names;
    }

    /** `rescanModuleDirectory`: clears the available list, then fills it from the listing. */
    method Rescan(listing: Option<seq<string>>)
      modifies this
      ensures source == Available(listing, target)
      ensures target == old(target) && directory == old(directory)
    {
      source := [];
      if listing.Some? {
        source := TreeSetOf(RemoveAll(JmodNames(listing.value), target));
      }
    }

    /** `load(modulePath)`: set the directory, rescan, then take the saved selection. */
    method Load(mp: ModulePath, listing: Option<seq<string>>)
      modifies this
      ensures directory == mp.directory && target == mp.selectedModules
      ensures source == RemoveAll(Available(listing, old(target)), mp.selectedModules)
    {
      directory := mp.directory;
      Rescan(listing);
      source := RemoveAll(source, mp.selectedModules);
      target := mp.selectedModules;
    }

    /** The listener on the path text: a directory is rescanned, anything else empties the available list. */
    method OnPathTextChanged(text: string, isDirectory: bool, listing: Option<seq<string>>)
      modifies this
      ensures target == old(target) && directory == text
      ensures source == if isDirectory then Available(listing, target) else []
    {
      directory := text;
      if isDirectory {
        Rescan(listing);
      } else {
        source := [];
      }
    }
  }

  /** After `load`, no selected name is also offered as available. */
  lemma LoadedApart(listing: Option<seq<string>>, before: seq<string>, mp: ModulePath)
    ensures Apart((RemoveAll(ModulePathTab.Available(listing, before), mp.selectedModules), mp.selectedModules))
  {
  }

  /** Tab titles tell the tabs apart by their counters. */
  lemma TitleInjective(a: ModulePathTab, b: ModulePathTab)
    requires a.Title() == b.Title()
    ensures a.counter == b.counter
  {
    var p := "module-path #";
    assert IntToString(a.counter) == a.Title()[|p|..];
    assert IntToString(b.counter) == b.Title()[|p|..];
    ParseIntToString(a.counter);
    ParseIntToString(b.counter);
  }

  /** The single module picker of the profile editor. */
  class ModuleSelectionPanel {
    var source: seq<string>
    var target: seq<string>

    constructor ()
      ensures source == [] && target == []
    {
      source := [];
      target := [];
    }

    /** `rescanModuleDirectory`: clears both lists, then offers every `.jmod` base name, sorted and unique. */
    method Rescan(listing: Option<seq<string>>)
      modifies this
      ensures target == []
      ensures source == if listing.Some? then TreeSetOf(JmodNames(listing.value)) else []
    {
      source := [];
      target := [];
      if listing.Some? {
        source := TreeSetOf(JmodNames(listing.value));
      }
    }

    /** The listener on the path text: a directory is rescanned, anything else empties both lists. */
    method OnPathTextChanged(isDirectory: bool, listing: Option<seq<string>>)
      modifies this
      ensures target == []
      ensures source == if isDirectory && listing.Some? then TreeSetOf(JmodNames(listing.value)) else []
    {
      if isDirectory {
        Rescan(listing);
      } else {
        source := [];
        target := [];
      }
    }
  }
}
