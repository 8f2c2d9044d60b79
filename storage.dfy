/**
 * Persistence of the store. Both storage managers keep an envelope holding
 * a format version and the id-to-item map, write it as JSON to one file,
 * and read it back on load; the task variant also appends every saved JSON
 * text, under a time stamp, to a backup file. The file system is a map from
 * path to contents (with a set of paths whose writes fail), and JSON is an
 * abstract encoder/decoder pair.
 */
module Persistence {
  import opened Wrappers
  import opened ProfileModel
  import opened Items

  const FILE_FORMAT_VERSION := 1

  /** The serialised form of a `Storage` object. */
  datatype Envelope = Envelope(fileFormatVersion: int, items: map<string, Profile>)

  /** The JSON library: `toJson`, and `fromJson` that fails on malformed text. */
  datatype Codec = Codec(encode: Envelope -> string, decode: string -> Option<Envelope>)

  /** Reading back what was written gives the same envelope. */
  ghost predicate RoundTrips(c: Codec) {
    forall e :: c.decode(c.encode(e)) == Some(e)
  }

  /** One line of the backup file: `<stamp>=<json>` and a line break. */
  function BackupEntry(stamp: string, json: string): string {
    stamp + "=" + json + "\n"
  }

  /** Everything before the first `=`, and everything after it. */
  function SplitAtEquals(line: string): (r: Option<(string, string)>)
    ensures r.Some? ==> line == r.value.0 + "=" + r.value.1 && '=' !in r.value.0
    ensures r.None? ==> '=' !in line
    decreases |line|
  {
    if line == [] then None
    else if line[0] == '=' then
      assert line == [] + "=" + line[1..];
      Some(([], line[1..]))
    else
      match SplitAtEquals(line[1..])
      case None => None
      case Some(parts) =>
        assert line == [line[0]] + line[1..];
        Some(([line[0]] + parts.0, parts.1))
  }

  /** A backup line splits back into its stamp and its JSON text, since a
      `yyyyMMdd_HHmmss` stamp holds no `=`. */
  lemma {:induction false} BackupEntrySplits(stamp: string, json: string)
    requires '=' !in stamp
    ensures SplitAtEquals(BackupEntry(stamp, json)) == Some((stamp, json + "\n"))
    decreases |stamp|
  {
    var line := BackupEntry(stamp, json);
    if stamp == [] {
      assert line == "=" + (json + "\n");
    } else {
      BackupEntrySplits(stamp[1..], json);
      assert line[1..] == BackupEntry(stamp[1..], json);
      assert [stamp[0]] + stamp[1..] == stamp;
    }
  }

  /** The file system as far as the stores see it. */
  class FileSystem {
    var files: map<string, string>
    /** Paths whose writes fail with an `IOException`. */
    var locked: set<string>

    constructor (files: map<string, string>, locked: set<string>)
      ensures this.files == files && this.locked == locked
    {
      this.files := files;
      this.locked := locked;
    }

    /** `FileUtils.writeStringToFile(file, content)`: replaces the file. */
    method Write(path: string, content: string) returns (ok: bool)
      modifies this
      ensures ok <==> path !in old(locked)
      ensures files == if ok then old(files)[path := content] else old(files)
      ensures locked == old(locked)
    {
      ok := path !in locked;
      if ok {
        files := files[path := content];
      }
    }

    /** `FileUtils.writeStringToFile(file, content, charset, true)`: appends, creating the file if needed. */
    method Append(path: string, content: string) returns (ok: bool)
      modifies this
      ensures ok <==> path !in old(locked)
      ensures files == if ok then old(files)[path := old(Contents(path)) + content] else old(files)
      ensures locked == old(locked)
    {
      ok := path !in locked;
      if ok {
        files := files[path := Contents(path) + content];
      }
    }

    /** The contents of `path`; a missing file reads as empty. */
    function Contents(path: string): (r: string)
      reads this
      ensures path in files ==> r == files[path]
      ensures path !in files ==> r == ""
    {
      if path in files then files[path] else ""
    }
  }

  /** The `Storage` envelope object. */
  class Storage {
    var fileFormatVersion: int
    var items: map<string, Profile>

    /** `new Storage()`: version 0, no items. */
    constructor ()
      ensures fileFormatVersion == 0 && items == map[]
    {
      fileFormatVersion := 0;
      items := map[];
    }

    /** The object `fromJson` builds from an envelope. */
    constructor FromEnvelope(e: Envelope)
      ensures fileFormatVersion == e.fileFormatVersion && items == e.items
    {
      fileFormatVersion := e.fileFormatVersion;
      items := e.items;
    }

    function AsEnvelope(): (e: Envelope)
      reads this
      ensures e.fileFormatVersion == fileFormatVersion && e.items == items
    {
      Envelope(fileFormatVersion, items)
    }

    /** `setTasks` / `setProfiles`: clear, then `putAll`. */
    method SetItems(m: map<string, Profile>)
      modifies this
      ensures items == m && fileFormatVersion == old(fileFormatVersion)
    {
      items := map[];
      items := items + m;
    }

    /** `save(file)`: stamps the current format version, serialises, writes,
        and returns the JSON text. The stamp stays when the write fails. */
    method Save(fs: FileSystem, path: string, codec: Codec) returns (json: string, ok: bool)
      modifies this, fs
      ensures fileFormatVersion == FILE_FORMAT_VERSION && items == old(items)
      ensures json == codec.encode(Envelope(FILE_FORMAT_VERSION, items))
      ensures ok <==> path !in old(fs.locked)
      ensures fs.files == if ok then old(fs.files)[path := json] else old(fs.files)
      ensures fs.locked == old(fs.locked)
    {
      fileFormatVersion := FILE_FORMAT_VERSION;
      json := codec.encode(AsEnvelope());
      ok := fs.Write(path, json);
    }
  }

  /** `Storage.open(file)`: reads and decodes the file. A missing file
      (`FileNotFoundException`) or malformed text (`JsonSyntaxException`)
      gives nothing; any format version is accepted. */
  method Open(fs: FileSystem, path: string, codec: Codec) returns (r: Option<Storage>)
    ensures r.Some? <==> path in fs.files && codec.decode(fs.files[path]).Some?
    ensures r.Some? ==> fresh(r.value) && r.value.AsEnvelope() == codec.decode(fs.files[path]).value
  {
    if path !in fs.files {
      return None;
    }
    var decoded := codec.decode(fs.files[path]);
    if decoded.None? {
      return None;
    }
    var storage := new Storage.FromEnvelope(decoded.value);
    return Some(storage);
  }

  /** How `load` ends: the file was read, it was missing, or reading it threw. */
  datatype LoadOutcome = Loaded | Missing | Unreadable

  class StorageManager {
    const manager: ItemManager
    const fs: FileSystem
    const codec: Codec
    /** `tasks.json` or `profiles32.json`. */
    const itemsFile: string
    /** `tasks.bak` for the tasks; the profile variant keeps no backup. */
    const backupFile: Option<string>
    /** `mStorage`. */
    var storage: Storage

    ghost predicate Valid()
      reads this, manager
    {
      manager.Valid() && (backupFile.Some? ==> backupFile.value != itemsFile)
    }

    /** The task variant: `tasks.json` and `tasks.bak` in the user directory. */
    constructor ForTasks(userDirectory: string, manager: ItemManager, fs: FileSystem, codec: Codec)
      requires manager.Valid()
      ensures Valid() && fresh(storage)
      ensures this.manager == manager && this.fs == fs && this.codec == codec
      ensures itemsFile == userDirectory + "/tasks.json" && backupFile == Some(userDirectory + "/tasks.bak")
      ensures storage.AsEnvelope() == Envelope(0, map[])
    {
      this.manager := manager;
      this.fs := fs;
      this.codec := codec;
      itemsFile := userDirectory + "/tasks.json";
      backupFile := Some(userDirectory + "/tasks.bak");
      storage := new Storage();
      new;
      assert itemsFile[|userDirectory| + 7] == 'j' && backupFile.value[|userDirectory| + 7] == 'b';
    }

    /** The profile variant: `.config/cric/profiles32.json` under the home directory, no backup. */
    constructor ForProfiles(home: string, manager: ItemManager, fs: FileSystem, codec: Codec)
      requires manager.Valid()
      ensures Valid() && fresh(storage)
      ensures this.manager == manager && this.fs == fs && this.codec == codec
      ensures itemsFile == home + "/.config/cric/profiles32.json" && backupFile.None?
      ensures storage.AsEnvelope() == Envelope(0, map[])
    {
      this.manager := manager;
      this.fs := fs;
      this.codec := codec;
      itemsFile := home + "/.config/cric/profiles32.json";
      backupFile := None;
      storage := new Storage();
    }

    /** `getFileFormatVersion`. */
    function FileFormatVersion(): (v: int)
      reads this, storage
      ensures v == storage.AsEnvelope().fileFormatVersion
    {
      storage.fileFormatVersion
    }

    /** `load`: with the file present, the envelope read from it replaces
        `mStorage` and the store's map (clear, then `putAll`); with the file
        missing, `mStorage` starts over and the map is left alone. */
    method Load() returns (outcome: LoadOutcome)
      requires Valid()
      modifies this, manager
      ensures Valid()
      ensures outcome == Missing <==> itemsFile !in fs.files
      ensures outcome == Loaded <==> itemsFile in fs.files && codec.decode(fs.files[itemsFile]).Some?
      ensures outcome == Loaded ==>
                var e := codec.decode(fs.files[itemsFile]).value;
                fresh(storage) && storage.AsEnvelope() == e && manager.idToItem == e.items
      ensures outcome == Missing ==>
                fresh(storage) && storage.AsEnvelope() == Envelope(0, map[]) && unchanged(manager)
      ensures outcome == Unreadable ==> storage == old(storage) && unchanged(manager)
    {
      if itemsFile in fs.files {
        var read := Open(fs, itemsFile, codec);
        if read.None? {
          return Unreadable;
        }
        storage := read.value;
        manager.Clear();
        manager.PutAll(storage.items);
        assert map[] + storage.items == storage.items;
        outcome := Loaded;
      } else {
        storage := new Storage();
        outcome := Missing;
      }
    }

    /** `saveToFile(stamp)`: copies the map into the envelope, writes it,
        appends `stamp=json` to the backup, then reloads. Stops at the first
        write that fails. */
    method SaveToFile(stamp: string) returns (ok: bool)
      requires Valid()
      modifies this, storage, fs, manager
      ensures Valid()
      ensures old(storage).AsEnvelope() == Envelope(FILE_FORMAT_VERSION, old(manager.idToItem))
      ensures ok <==> itemsFile !in old(fs.locked) && (backupFile.Some? ==> backupFile.value !in old(fs.locked))
      ensures var json := codec.encode(Envelope(FILE_FORMAT_VERSION, old(manager.idToItem)));
              itemsFile !in old(fs.locked) ==>
                itemsFile in fs.files && fs.files[itemsFile] == json
                && (backupFile.Some? && ok ==>
                      fs.files == old(fs.files)[itemsFile := json]
                                  [backupFile.value := old(fs.Contents(backupFile.value)) + BackupEntry(stamp, json)])
                && (backupFile.None? ==> fs.files == old(fs.files)[itemsFile := json])
                && (!ok ==> fs.files == old(fs.files)[itemsFile := json])
      ensures itemsFile in old(fs.locked) ==> fs.files == old(fs.files)
      ensures fs.locked == old(fs.locked)
      ensures !ok ==> manager.idToItem == old(manager.idToItem)
      ensures ok && RoundTrips(codec) ==>
                manager.idToItem == old(manager.idToItem)
                && fresh(storage) && storage.AsEnvelope() == Envelope(FILE_FORMAT_VERSION, old(manager.idToItem))
    {
      storage.SetItems(manager.idToItem);
      var json, written := storage.Save(fs, itemsFile, codec);
      if !written {
        return false;
      }
      if backupFile.Some? {
        var appended := fs.Append(backupFile.value, BackupEntry(stamp, json));
        if !appended {
          return false;
        }
      }
      ok := true;
      var outcome := Load();
    }

    /** The static `save()`: `saveToFile`, with its `IOException` swallowed. */
    method Save(stamp: string)
      requires Valid()
      modifies this, storage, fs, manager
      ensures Valid()
      ensures itemsFile !in old(fs.locked) ==>
                itemsFile in fs.files
                && fs.files[itemsFile] == codec.encode(Envelope(FILE_FORMAT_VERSION, old(manager.idToItem)))
      ensures itemsFile in old(fs.locked) ==> fs.files == old(fs.files)
      ensures RoundTrips(codec) ==> manager.idToItem == old(manager.idToItem)
    {
      var ok := SaveToFile(stamp);
    }
  }
}
