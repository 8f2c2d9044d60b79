/**
 * The actions of the task list and of the profile list: remove all, remove
 * one, clone, start, and edit. Each change goes to the store's map and is
 * then persisted. The fresh id, today's date and the dialog answers are
 * parameters.
 */
module ListEditing {
  import opened Wrappers
  import opened ProfileModel
  import opened Items
  import opened Persistence
  import opened Execution
  import opened TaskEditing

  /** The clone: the original's fields under a fresh id, never run, and
      named after the original with the date appended. */
  function CloneOf(original: Profile, freshId: string, today: string): (c: Profile)
    ensures c.id == freshId && c.lastRun == 0
    ensures c.name == original.name + " " + today
    ensures c.(id := original.id, lastRun := original.lastRun, name := original.name) == original
  {
    original.(id := freshId, lastRun := 0, name := original.name + " " + today)
  }

  /** With a fresh id the clone is a new entry, never the original itself. */
  lemma CloneIsNew(original: Profile, freshId: string, today: string)
    requires freshId != original.id
    ensures CloneOf(original, freshId, today) != original
  {
    assert CloneOf(original, freshId, today).id != original.id;
  }

  /** The remove-all action: empties the map, then persists it. */
  method RemoveAllItems(sm: StorageManager, stamp: string)
    requires sm.Valid()
    modifies sm, sm.storage, sm.fs, sm.manager
    ensures sm.Valid()
    ensures sm.itemsFile !in old(sm.fs.locked) ==>
              sm.itemsFile in sm.fs.files
              && sm.fs.files[sm.itemsFile] == sm.codec.encode(Envelope(FILE_FORMAT_VERSION, map[]))
    ensures RoundTrips(sm.codec) ==> sm.manager.idToItem == map[] && sm.manager.items == []
  {
    sm.manager.Clear();
    sm.Save(stamp);
    if RoundTrips(sm.codec) {
      ItemsCount(sm.manager);
    }
  }

  /** The remove action: drops the entry filed under the item's id, then persists. */
  method RemoveItem(sm: StorageManager, item: Profile, stamp: string)
    requires sm.Valid()
    modifies sm, sm.storage, sm.fs, sm.manager
    ensures sm.Valid()
    ensures sm.itemsFile !in old(sm.fs.locked) ==>
              sm.itemsFile in sm.fs.files
              && sm.fs.files[sm.itemsFile]
                 == sm.codec.encode(Envelope(FILE_FORMAT_VERSION, old(sm.manager.idToItem) - {item.id}))
    ensures RoundTrips(sm.codec) ==>
              sm.manager.idToItem == old(sm.manager.idToItem) - {item.id}
              && sm.manager.GetById(item.id).None?
  {
    sm.manager.Remove(item.id);
    sm.Save(stamp);
  }

  /** The clone action: files the clone under the fresh id, persists, and
      returns what the reloaded store holds under that id. */
  method Clone(sm: StorageManager, original: Profile, freshId: string, today: string, stamp: string)
    returns (clone: Option<Profile>)
    requires sm.Valid()
    modifies sm, sm.storage, sm.fs, sm.manager
    ensures sm.Valid()
    ensures clone == sm.manager.GetById(freshId)
    ensures sm.itemsFile !in old(sm.fs.locked) ==>
              sm.itemsFile in sm.fs.files
              && sm.fs.files[sm.itemsFile]
                 == sm.codec.encode(Envelope(FILE_FORMAT_VERSION,
                                             old(sm.manager.idToItem)[freshId := CloneOf(original, freshId, today)]))
    ensures RoundTrips(sm.codec) ==>
              clone == Some(CloneOf(original, freshId, today))
              && sm.manager.idToItem == old(sm.manager.idToItem)[freshId := CloneOf(original, freshId, today)]
    ensures RoundTrips(sm.codec) ==>
              forall id :: id in old(sm.manager.idToItem) && id != freshId ==>
                id in sm.manager.idToItem && sm.manager.idToItem[id] == old(sm.manager.idToItem)[id]
  {
    var c := CloneOf(original, freshId, today);
    sm.manager.Put(c.id, c);
    sm.Save(stamp);
    clone := sm.manager.GetById(freshId);
  }

  /** The start action of the task list: hands the task to the executor registry. */
  method StartTask(registry: ExecutorManager, task: Profile, runChosen: bool)
    returns (alreadyRunning: bool, started: Option<Executor>)
    requires registry.Valid()
    modifies registry
    ensures registry.Valid()
    ensures alreadyRunning <==> task.id in old(registry.executors)
    ensures started.Some? <==> !alreadyRunning && runChosen
    ensures started.None? ==> registry.executors == old(registry.executors)
    ensures started.Some? ==>
              fresh(started.value) && started.value.task == task && started.value.running
              && registry.executors == old(registry.executors)[task.id := started.value]
  {
    alreadyRunning, started := registry.RequestStart(task, runChosen);
  }

  /** `editTask`: loads the task into the editor; when the dialog is
      confirmed, saves it and hands on what the store holds under its id. */
  method EditTask(editor: TaskEditor, task: Option<Profile>, freshId: string,
                  listDirectory: string -> Option<seq<string>>,
                  sm: StorageManager, stamp: string, confirmed: bool)
    returns (posted: Option<Profile>)
    requires editor.Valid() && sm.Valid()
    modifies editor, sm, sm.storage, sm.fs, sm.manager
    ensures editor.Valid() && sm.Valid()
    ensures !confirmed ==> posted.None? && sm.manager.idToItem == old(sm.manager.idToItem)
    ensures confirmed ==> editor.task.Some? && posted == sm.manager.GetById(editor.task.value.id)
    ensures confirmed && RoundTrips(sm.codec) ==>
              posted == editor.task
              && sm.manager.idToItem == old(sm.manager.idToItem)[editor.task.value.id := editor.task.value]
    ensures confirmed ==>
              editor.task.value.id == (if task.Some? then task.value.id else freshId)
  {
    editor.Load(task, freshId, listDirectory);
    posted := None;
    if confirmed {
      var saved := editor.Save(sm, stamp);
      posted := sm.manager.GetById(saved.id);
    }
  }
}
