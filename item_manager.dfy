/**
 * The keyed store shared by the profile list and the task list: a map from
 * id to item and, kept in step with it by a change listener, the list of the
 * map's values sorted case-insensitively by name. The profile store and the
 * task store are the same code; the task store adds the `exists` queries,
 * `getTasks`, `hasActiveTasks` and `save`.
 */
module Items {
  import opened Wrappers
  import opened Strings
  import opened Collections
  import opened ProfileModel

  /** What `compareToIgnoreCase` compares: the name with its letters folded. */
  function NameKey(p: Profile): string {
    Lower(p.name)
  }

  predicate SortedByName(s: seq<Profile>) {
    forall i, j :: 0 <= i < j < |s| ==> LexLeq(NameKey(s[i]), NameKey(s[j]))
  }

  /** `s` with `x` inserted before position `k`. */
  function InsertAt<T>(s: seq<T>, k: nat, x: T): (r: seq<T>)
    requires k <= |s|
    ensures |r| == |s| + 1 && r[k] == x
    ensures forall i :: 0 <= i < k ==> r[i] == s[i]
    ensures forall i :: k < i < |r| ==> r[i] == s[i - 1]
  {
    s[..k] + [x] + s[k..]
  }

  /** Where sorting puts `x` among the already sorted `s`: after every item
      whose key is not larger, before every item whose key is not smaller. */
  function InsertPos(x: Profile, s: seq<Profile>): (k: nat)
    requires SortedByName(s)
    ensures k <= |s|
    ensures forall i :: 0 <= i < k ==> LexLeq(NameKey(s[i]), NameKey(x))
    ensures forall i :: k <= i < |s| ==> LexLeq(NameKey(x), NameKey(s[i]))
    decreases |s|
  {
    if s == [] then 0
    else
      var last := s[|s| - 1];
      if LexLeq(NameKey(last), NameKey(x)) then
        assert forall i :: 0 <= i < |s| ==> LexLeq(NameKey(s[i]), NameKey(x)) by {
          forall i | 0 <= i < |s| - 1 ensures LexLeq(NameKey(s[i]), NameKey(x)) {
            LexLeqTransitive(NameKey(s[i]), NameKey(last), NameKey(x));
          }
        }
        |s|
      else
        LexLeqTotal(NameKey(x), NameKey(last));
        var init := s[..|s| - 1];
        assert forall i :: 0 <= i < |init| ==> init[i] == s[i];
        InsertPos(x, init)
  }

  /** Inserting at `InsertPos` keeps the list sorted. */
  lemma InsertKeepsSorted(x: Profile, s: seq<Profile>)
    requires SortedByName(s)
    ensures SortedByName(InsertAt(s, InsertPos(x, s), x))
  {
    var k := InsertPos(x, s);
    var r := InsertAt(s, k, x);
    forall i, j | 0 <= i < j < |r| ensures LexLeq(NameKey(r[i]), NameKey(r[j])) {
      if j == k {
      } else if i == k {
      } else if j < k {
      } else if i < k {
        assert r[j] == s[j - 1];
      } else {
        assert r[i] == s[i - 1] && r[j] == s[j - 1];
      }
    }
  }

  /** `ids` names, position by position, the map entries that make up `values`. */
  predicate Indexes(m: map<string, Profile>, ids: seq<string>, values: seq<Profile>) {
    |ids| == |values|
    && NoDuplicates(ids)
    && forall i :: 0 <= i < |ids| ==> ids[i] in m && m[ids[i]] == values[i]
  }

  /** One step of building the sorted value list: the entry `id` joins at its sorted place. */
  lemma InsertStep(m: map<string, Profile>, ids: seq<string>, values: seq<Profile>, id: string)
    requires Indexes(m, ids, values) && SortedByName(values)
    requires id in m && id !in ids
    ensures var k := InsertPos(m[id], values);
            Indexes(m, InsertAt(ids, k, id), InsertAt(values, k, m[id]))
            && SortedByName(InsertAt(values, k, m[id]))
            && forall x :: x in InsertAt(ids, k, id) <==> x in ids || x == id
  {
    var k := InsertPos(m[id], values);
    var d := InsertAt(ids, k, id);
    var v := InsertAt(values, k, m[id]);
    InsertKeepsSorted(m[id], values);
    forall i | 0 <= i < |d| ensures d[i] in m && m[d[i]] == v[i] {
      if i > k { assert d[i] == ids[i - 1] && v[i] == values[i - 1]; }
    }
    forall i, j | 0 <= i < j < |d| ensures d[i] != d[j] {
      if i == k {
        assert d[j] == ids[j - 1];
      } else if j == k {
      } else if i > k {
        assert d[i] == ids[i - 1] && d[j] == ids[j - 1];
      } else if j > k {
        assert d[j] == ids[j - 1];
      }
    }
    assert d == ids[..k] + [id] + ids[k..];
    assert ids == ids[..k] + ids[k..];
  }

  /** Position of the first item whose name equals `name` ignoring case,
      the way `getByName` scans the sorted list. */
  function FirstNamed(s: seq<Profile>, name: string): (r: Option<nat>)
    ensures r.Some? ==> r.value < |s| && EqualsIgnoreCase(s[r.value].name, name)
    ensures r.Some? ==> forall i :: 0 <= i < r.value ==> !EqualsIgnoreCase(s[i].name, name)
    ensures r.None? ==> forall i :: 0 <= i < |s| ==> !EqualsIgnoreCase(s[i].name, name)
    decreases |s|
  {
    if s == [] then None
    else if EqualsIgnoreCase(s[0].name, name) then Some(0)
    else
      match FirstNamed(s[1..], name)
      case None => None
      case Some(j) => Some(j + 1)
  }

  /** Names that fold to the same key find the same item. */
  lemma {:induction false} FirstNamedSameKey(s: seq<Profile>, a: string, b: string)
    requires EqualsIgnoreCase(a, b)
    ensures FirstNamed(s, a) == FirstNamed(s, b)
    decreases |s|
  {
    if s != [] {
      FirstNamedSameKey(s[1..], a, b);
    }
  }

  /** The name rule of the editors (`isValid(oldName, newName)`): a blank
      name is refused; otherwise the trimmed name must be free, or be taken
      by the very item that `getByName(oldName)` finds. Object identity of
      the two lookups is equality of their positions. */
  function NameAvailable(s: seq<Profile>, oldName: string, newName: string): bool {
    !IsBlank(newName)
    && (FirstNamed(s, Trim(newName)).None? || FirstNamed(s, Trim(newName)) == FirstNamed(s, oldName))
  }

  /** Keeping the name (up to case and surrounding blanks) is always allowed. */
  lemma SameNameAvailable(s: seq<Profile>, oldName: string, newName: string)
    requires !IsBlank(newName) && EqualsIgnoreCase(Trim(newName), oldName)
    ensures NameAvailable(s, oldName, newName)
  {
    FirstNamedSameKey(s, Trim(newName), oldName);
  }

  /** A name used by no item ignoring case, and not blank, is available whatever the old name. */
  lemma FreshNameAvailable(s: seq<Profile>, oldName: string, newName: string)
    requires !IsBlank(newName)
    requires forall i :: 0 <= i < |s| ==> !EqualsIgnoreCase(s[i].name, Trim(newName))
    ensures NameAvailable(s, oldName, newName)
  {
  }

  /** A name taken by an item that `oldName` does not find first is refused. */
  lemma TakenNameRefused(s: seq<Profile>, oldName: string, newName: string, k: nat)
    requires k < |s| && EqualsIgnoreCase(s[k].name, Trim(newName))
    requires FirstNamed(s, oldName).None?
    ensures !NameAvailable(s, oldName, newName)
  {
    assert FirstNamed(s, Trim(newName)).Some?;
  }

  /** Renaming an item to the name of another item, one that comes first
      for that name, is refused. */
  lemma TakenNameRefusedOnRename(s: seq<Profile>, oldName: string, newName: string, k: nat)
    requires FirstNamed(s, Trim(newName)) == Some(k)
    requires FirstNamed(s, oldName).Some? && FirstNamed(s, oldName) != Some(k)
    ensures !NameAvailable(s, oldName, newName)
  {
  }

  /** The tasks of the known ids, in the order of `ids`; unknown ids are skipped. */
  function KnownItems(m: map<string, Profile>, ids: seq<string>): seq<Profile>
    decreases |ids|
  {
    if ids == [] then []
    else
      var id := ids[|ids| - 1];
      KnownItems(m, ids[..|ids| - 1]) + (if id in m then [m[id]] else [])
  }

  /** `getTasks` distributes over concatenation of the id list. */
  lemma {:induction false} KnownItemsAppend(m: map<string, Profile>, a: seq<string>, b: seq<string>)
    ensures KnownItems(m, a + b) == KnownItems(m, a) + KnownItems(m, b)
    decreases |b|
  {
    if b == [] {
      assert a + b == a;
    } else {
      var init := b[..|b| - 1];
      var id := b[|b| - 1];
      assert (a + b)[..|a + b| - 1] == a + init;
      KnownItemsAppend(m, a, init);
      var tail := if id in m then [m[id]] else [];
      assert KnownItems(m, a + b) == KnownItems(m, a + init) + tail;
      assert KnownItems(m, b) == KnownItems(m, init) + tail;
      AppendAssoc(KnownItems(m, a), KnownItems(m, init), tail);
    }
  }

  /** When every id is known, `getTasks` returns exactly their tasks, position by position. */
  lemma {:induction false} KnownItemsAllKnown(m: map<string, Profile>, ids: seq<string>)
    requires forall i :: 0 <= i < |ids| ==> ids[i] in m
    ensures |KnownItems(m, ids)| == |ids|
    ensures forall i :: 0 <= i < |ids| ==> KnownItems(m, ids)[i] == m[ids[i]]
    decreases |ids|
  {
    if ids != [] {
      var init := ids[..|ids| - 1];
      KnownItemsAllKnown(m, init);
    }
  }

  /** An unknown id contributes nothing to `getTasks`. */
  lemma UnknownSkipped(m: map<string, Profile>, ids: seq<string>, id: string)
    requires id !in m
    ensures KnownItems(m, ids + [id]) == KnownItems(m, ids)
  {
    assert (ids + [id])[..|ids|] == ids;
  }

  /** Every task `getTasks` returns is the entry of one of the requested ids. */
  lemma {:induction false} KnownItemsFromIds(m: map<string, Profile>, ids: seq<string>)
    ensures forall t :: t in KnownItems(m, ids) ==> exists i :: 0 <= i < |ids| && ids[i] in m && m[ids[i]] == t
    decreases |ids|
  {
    if ids != [] {
      var init := ids[..|ids| - 1];
      KnownItemsFromIds(m, init);
      forall t | t in KnownItems(m, ids)
        ensures exists i :: 0 <= i < |ids| && ids[i] in m && m[ids[i]] == t
      {
        if t in KnownItems(m, init) {
          var i :| 0 <= i < |init| && init[i] in m && m[init[i]] == t;
          assert ids[i] == init[i];
        } else {
          assert ids[|ids| - 1] in m && m[ids[|ids| - 1]] == t;
        }
      }
    }
  }

  /** `hasActiveTasks`: the task store never reports an active task. */
  function HasActiveTasks(): (r: bool)
    ensures !r
  {
    false
  }

  /** `save` of the task store: a stub that hands back no task. */
  function SaveStub(): (r: Option<Profile>)
    ensures r.None?
  {
    None
  }

  class ItemManager {
    /** `getIdToItem()`. */
    var idToItem: map<string, Profile>
    /** `getItems()`: the map's values, sorted by `compareToIgnoreCase` of the names. */
    var items: seq<Profile>
    /** The ids of `items`, position by position: the witness that `items`
        holds every map entry exactly once. */
    ghost var order: seq<string>

    ghost predicate Valid()
      reads this
    {
      Indexes(idToItem, order, items)
      && (forall id :: id in idToItem <==> id in order)
      && SortedByName(items)
    }

    constructor ()
      ensures Valid() && idToItem == map[] && items == []
    {
      idToItem := map[];
      items := [];
      order := [];
    }

    /** The listener on the map: copy the values and sort them by name. */
    method Rebuild()
      modifies this
      ensures Valid() && idToItem == old(idToItem)
    {
      var keys := idToItem.Keys;
      var values: seq<Profile> := [];
      ghost var ids: seq<string> := [];
      while keys != {}
        invariant idToItem == old(idToItem)
        invariant keys <= idToItem.Keys
        invariant Indexes(idToItem, ids, values) && SortedByName(values)
        invariant forall id :: id in ids <==> id in idToItem && id !in keys
        decreases keys
      {
        var id :| id in keys;
        var x := idToItem[id];
        InsertStep(idToItem, ids, values, id);
        var k := InsertPos(x, values);
        values := InsertAt(values, k, x);
        ids := InsertAt(ids, k, id);
        keys := keys - {id};
      }
      items := values;
      order := ids;
    }

    /** `getIdToItem().put(id, item)`, followed by the listener. */
    method Put(id: string, item: Profile)
      modifies this
      ensures Valid() && idToItem == old(idToItem)[id := item]
    {
      idToItem := idToItem[id := item];
      Rebuild();
    }

    /** `getIdToItem().remove(id)`, followed by the listener. */
    method Remove(id: string)
      modifies this
      ensures Valid() && idToItem == old(idToItem) - {id}
    {
      idToItem := idToItem - {id};
      Rebuild();
    }

    /** `getIdToItem().clear()`, followed by the listener. */
    method Clear()
      modifies this
      ensures Valid() && idToItem == map[] && items == []
    {
      idToItem := map[];
      Rebuild();
      ItemsCount(this);
    }

    /** `getIdToItem().putAll(m)`, followed by the listener. */
    method PutAll(m: map<string, Profile>)
      modifies this
      ensures Valid() && idToItem == old(idToItem) + m
    {
      idToItem := idToItem + m;
      Rebuild();
    }

    /** `getById`: the map entry for `id`, or nothing. */
    function GetById(id: string): (r: Option<Profile>)
      reads this
      ensures r.Some? <==> id in idToItem
      ensures r.Some? ==> r.value == idToItem[id]
    {
      if id in idToItem then Some(idToItem[id]) else None
    }

    /** `exists(item)`: `containsValue` on the map. */
    function ExistsItem(item: Profile): (r: bool)
      reads this
      ensures r <==> exists id :: id in idToItem && idToItem[id] == item
    {
      item in idToItem.Values
    }

    /** `exists(name)`: some listed item has that name, ignoring case. */
    function ExistsName(name: string): (r: bool)
      reads this
      ensures r <==> FirstNamed(items, name).Some?
    {
      if exists i :: 0 <= i < |items| && EqualsIgnoreCase(name, items[i].name) then
        true
      else
        false
    }

    /** The loop of `getByName`: the position of the first match in the sorted list. */
    method FindByName(name: string) returns (index: Option<nat>)
      ensures index == FirstNamed(items, name)
    {
      var i := 0;
      while i < |items|
        invariant 0 <= i <= |items|
        invariant forall j :: 0 <= j < i ==> !EqualsIgnoreCase(items[j].name, name)
      {
        if EqualsIgnoreCase(items[i].name, name) {
          return Some(i);
        }
        i := i + 1;
      }
      return None;
    }

    /** `getByName`: the first item in sorted order whose name matches ignoring case. */
    method GetByName(name: string) returns (r: Option<Profile>)
      ensures r.Some? ==> exists i :: FirstNamed(items, name) == Some(i) && r.value == items[i]
      ensures r.None? <==> forall i :: 0 <= i < |items| ==> !EqualsIgnoreCase(items[i].name, name)
    {
      var index := FindByName(name);
      match index
      case None => r := None;
      case Some(i) => r := Some(items[i]);
    }

    /** `isValid(oldName, newName)`. */
    method IsValid(oldName: string, newName: string) returns (valid: bool)
      ensures valid == NameAvailable(items, oldName, newName)
      ensures IsBlank(newName) ==> !valid
    {
      if IsBlank(newName) {
        return false;
      }
      var byName := FindByName(Trim(newName));
      var byOldName := FindByName(oldName);
      valid := byName.None? || byName == byOldName;
    }

    /** `getTasks(ids)`: looks each id up and keeps the ones found. */
    method GetTasks(ids: seq<string>) returns (tasks: seq<Profile>)
      ensures tasks == KnownItems(idToItem, ids)
    {
      tasks := [];
      var i := 0;
      while i < |ids|
        invariant 0 <= i <= |ids|
        invariant tasks == KnownItems(idToItem, ids[..i])
      {
        assert ids[..i + 1][..i] == ids[..i];
        var task := GetById(ids[i]);
        if task.Some? {
          tasks := tasks + [task.value];
        }
        i := i + 1;
      }
      assert ids[..|ids|] == ids;
    }
  }

  /** In a consistent store the listed items are exactly the map's values. */
  lemma ItemsAreValues(m: ItemManager, item: Profile)
    requires m.Valid()
    ensures item in m.items <==> m.ExistsItem(item)
  {
    if item in m.items {
      var i :| 0 <= i < |m.items| && m.items[i] == item;
      assert m.idToItem[m.order[i]] == item;
    }
    if m.ExistsItem(item) {
      var id :| id in m.idToItem && m.idToItem[id] == item;
      assert id in m.order;
      var i :| 0 <= i < |m.order| && m.order[i] == id;
      assert m.items[i] == item;
    }
  }

  /** In a consistent store the list is as long as the map is large. */
  lemma ItemsCount(m: ItemManager)
    requires m.Valid()
    ensures |m.items| == |m.idToItem|
  {
    DistinctCard(m.order);
    assert m.idToItem.Keys == set x | x in m.order;
  }

  lemma {:induction false} DistinctCard(s: seq<string>)
    requires NoDuplicates(s)
    ensures |set x | x in s| == |s|
    decreases |s|
  {
    if s != [] {
      var init := s[..|s| - 1];
      DistinctCard(init);
      assert (set x | x in s) == (set x | x in init) + {s[|s| - 1]};
      assert s[|s| - 1] !in init by {
        forall i | 0 <= i < |init| ensures init[i] != s[|s| - 1] {
          assert init[i] == s[i];
        }
      }
    }
  }
}
