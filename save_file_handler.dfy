/** SaveFiles/SaveFileHandler.cs: one handler per save, holding the name of
    the save's executable, a watcher on its save directory and the callbacks
    to run when a .dat file there changes. */
module SaveFileHandlers {
  import opened Common
  import opened Platform
  import opened Dictionaries
  import opened DictionaryExtension
  import opened TouhouSaveFiles
  import NewGen = TouhouNewGenSaveFiles
  import OldGen = TouhouOldGenSaveFiles
  import FindTouhouSavePath

  /** A delegate registered as OnSaveFileChange; only its identity matters
      here, since what it does is the caller's code. */
  datatype Callback = Callback(id: nat)

  /** The FileSystemWatcher RegisterFileSystemWatcher sets up: the directory
      watched, the file filter, whether it reports last-write changes, and
      whether it raises events. */
  datatype Watcher = Watcher(path: Path, filter: string, notifyLastWrite: bool, enableRaisingEvents: bool)

  /** The watcher on a save directory: last-write changes of its .dat files,
      with events enabled. */
  function SaveWatcher(savePath: Path): Watcher
  {
    Watcher(savePath, "*.dat", true, true)
  }

  /** The executable table the constructor reads for a generation:
      TouhouToExeNameNewGen for New, TouhouToExeNameOldGen for Old. */
  function ExeTable(generation: TouhouGameGeneration, newGenTable: seq<(string, string)>,
                    oldGenTable: seq<(string, string)>): seq<(string, string)>
  {
    if generation == New then newGenTable else oldGenTable
  }

  /** ExecutableName: the indexer of the generation's table (which throws
      KeyNotFoundException for a missing title), split at '.', first part. */
  function ExecutableNameOf(saveFile: TouhouSaveFile, newGenTable: seq<(string, string)>,
                            oldGenTable: seq<(string, string)>): Result<string>
  {
    match GetValueOrDefault(ExeTable(saveFile.Generation, newGenTable, oldGenTable), saveFile.GameTitle)
    case None => Err(KeyNotFound)
    case Some(exe) => Ok(FirstSegment(exe, '.'))
  }

  /** The name is found exactly when the title is a key of the table of the
      save's generation, and it is then the table's executable name up to
      (not including) its first '.'. */
  lemma ExecutableNameSpec(saveFile: TouhouSaveFile, newGenTable: seq<(string, string)>, oldGenTable: seq<(string, string)>)
    ensures var table := ExeTable(saveFile.Generation, newGenTable, oldGenTable);
            && (ExecutableNameOf(saveFile, newGenTable, oldGenTable).Ok? <==> saveFile.GameTitle in Keys(table))
            && (DistinctKeys(table) ==>
                  forall k :: 0 <= k < |table| && table[k].0 == saveFile.GameTitle ==>
                    var name := ExecutableNameOf(saveFile, newGenTable, oldGenTable).value;
                    && '.' !in name
                    && StartsWith(table[k].1, name)
                    && (|name| < |table[k].1| ==> table[k].1[|name|] == '.'))
  {
    GetValueOrDefaultSpec(ExeTable(saveFile.Generation, newGenTable, oldGenTable), saveFile.GameTitle);
  }

  /** What constructing a handler for the save needs: the title in the
      table of its generation, and a save directory the watcher can watch. */
  predicate Buildable(saveFile: TouhouSaveFile, newGenTable: seq<(string, string)>,
                      oldGenTable: seq<(string, string)>, dirs: set<Path>)
  {
    && saveFile.GameTitle in Keys(ExeTable(saveFile.Generation, newGenTable, oldGenTable))
    && saveFile.GameSavePath in dirs
  }

  class SaveFileHandler {
    const SaveFile: TouhouSaveFile
    const ExecutableName: string
    var fileWatcher: Watcher
    /** The multicast OnSaveFileChangeCallback delegate, as its invocation
        list; empty for a null delegate. */
    var OnSaveFileChangeCallback: seq<Callback>

    /** The constructor once ExecutableName is known: stores the save file
        and the name, then registers the watcher. No callback is registered
        yet. */
    constructor(saveFile: TouhouSaveFile, executableName: string)
      ensures SaveFile == saveFile && ExecutableName == executableName
      ensures fileWatcher == SaveWatcher(saveFile.GameSavePath)
      ensures OnSaveFileChangeCallback == []
    {
      SaveFile := saveFile;
      ExecutableName := executableName;
      OnSaveFileChangeCallback := [];
      new;
      RegisterFileSystemWatcher();
    }

    /** RegisterFileSystemWatcher: watch the save directory for last-write
        changes of .dat files and raise events. */
    method RegisterFileSystemWatcher()
      modifies this
      ensures fileWatcher == SaveWatcher(SaveFile.GameSavePath)
      ensures OnSaveFileChangeCallback == old(OnSaveFileChangeCallback)
    {
      fileWatcher := Watcher(SaveFile.GameSavePath, "*.dat", true, true);
    }

    /** OnSaveFileChangeFromWatch: invokes the delegate with this handler,
        which calls every registered callback once, in registration order;
        with none registered, nothing is called. The calls are returned as
        (callback, argument) pairs. */
    method OnSaveFileChangeFromWatch() returns (calls: seq<(Callback, SaveFileHandler)>)
      ensures |calls| == |OnSaveFileChangeCallback|
      ensures forall k :: 0 <= k < |calls| ==> calls[k].0 == OnSaveFileChangeCallback[k] && calls[k].1 == this
      ensures OnSaveFileChangeCallback == [] ==> calls == []
    {
      var callbacks := OnSaveFileChangeCallback;
      calls := seq(|callbacks|, k requires 0 <= k < |callbacks| => (callbacks[k], this));
    }

    /** RegisterOnSaveFileChangeCallbackExternal: `+=` appends the callback to
        the invocation list and keeps the earlier ones; adding null changes
        nothing. */
    method RegisterOnSaveFileChangeCallbackExternal(callback: Option<Callback>)
      modifies this
      ensures OnSaveFileChangeCallback ==
                old(OnSaveFileChangeCallback) + (if callback.Some? then [callback.value] else [])
      ensures fileWatcher == old(fileWatcher)
    {
      if callback.Some? {
        OnSaveFileChangeCallback := OnSaveFileChangeCallback + [callback.value];
      }
    }
  }

  /** A handler built for a save: it holds the save and the executable
      name of the save's title. */
  predicate Handles(handler: SaveFileHandler?, saveFile: TouhouSaveFile?, newGenTable: seq<(string, string)>,
                    oldGenTable: seq<(string, string)>)
  {
    && handler != null
    && saveFile != null
    && handler.SaveFile == saveFile
    && ExecutableNameOf(saveFile, newGenTable, oldGenTable) == Ok(handler.ExecutableName)
  }

  /** new SaveFileHandler(saveFile): the executable name is looked up first
      (KeyNotFoundException), then the watcher is created, which throws
      ArgumentException when the save directory does not exist. */
  method NewSaveFileHandler(saveFile: TouhouSaveFile, newGenTable: seq<(string, string)>,
                            oldGenTable: seq<(string, string)>, fs: FileSystem)
    returns (r: Result<SaveFileHandler>)
    ensures r.Ok? <==> Buildable(saveFile, newGenTable, oldGenTable, fs.dirs)
    ensures saveFile.GameTitle !in Keys(ExeTable(saveFile.Generation, newGenTable, oldGenTable)) ==> r == Err(KeyNotFound)
    ensures saveFile.GameTitle in Keys(ExeTable(saveFile.Generation, newGenTable, oldGenTable)) && saveFile.GameSavePath !in fs.dirs ==>
              r == Err(InvalidDirectory(saveFile.GameSavePath))
    ensures r.Ok? ==> fresh(r.value) && Handles(r.value, saveFile, newGenTable, oldGenTable)
    ensures r.Ok? ==> r.value.fileWatcher == SaveWatcher(saveFile.GameSavePath) && r.value.OnSaveFileChangeCallback == []
  {
    var name := ExecutableNameOf(saveFile, newGenTable, oldGenTable);
    ExecutableNameSpec(saveFile, newGenTable, oldGenTable);
    if name.Err? {
      return Err(name.error);
    }
    if !fs.DirectoryExists(saveFile.GameSavePath) {
      return Err(InvalidDirectory(saveFile.GameSavePath));
    }
    var handler := new SaveFileHandler(saveFile, name.value);
    r := Ok(handler);
  }

  /** One of the two loops of ToTouhouSaveFilesHandlers: a handler for each
      save, written to consecutive slots from start. */
  method AddHandlers(handlers: array<SaveFileHandler?>, start: nat, saveFiles: array<TouhouSaveFile?>,
                     newGenTable: seq<(string, string)>, oldGenTable: seq<(string, string)>, fs: FileSystem)
    returns (r: Outcome)
    requires start + saveFiles.Length <= handlers.Length
    requires forall j :: 0 <= j < saveFiles.Length ==> saveFiles[j] != null
    modifies handlers
    ensures forall j :: 0 <= j < handlers.Length && !(start <= j < start + saveFiles.Length) ==>
              handlers[j] == old(handlers[j])
    ensures r.Pass? <==> forall j :: 0 <= j < saveFiles.Length ==> Buildable(saveFiles[j], newGenTable, oldGenTable, fs.dirs)
    ensures r.Pass? ==> forall j :: start <= j < start + saveFiles.Length ==>
                          Handles(handlers[j], saveFiles[j - start], newGenTable, oldGenTable) && fresh(handlers[j])
  {
    var i := 0;
    while i < saveFiles.Length
      invariant 0 <= i <= saveFiles.Length
      invariant forall j :: 0 <= j < handlers.Length && !(start <= j < start + i) ==> handlers[j] == old(handlers[j])
      invariant forall j :: 0 <= j < i ==> Buildable(saveFiles[j], newGenTable, oldGenTable, fs.dirs)
      invariant forall j :: start <= j < start + i ==> Handles(handlers[j], saveFiles[j - start], newGenTable, oldGenTable)
      invariant forall j :: start <= j < start + i ==> fresh(handlers[j])
    {
      var handler := NewSaveFileHandler(saveFiles[i], newGenTable, oldGenTable, fs);
      if handler.Err? {
        return Fail(handler.error);
      }
      handlers[start + i] := handler.value;
      i := i + 1;
    }
    r := Pass;
  }

  /** What the new-generation half of ToTouhouSaveFilesHandlers needs, with
      available temporary file names left: a name for every pair, and for
      every pair its title in the new table and its save directory present. */
  predicate NewGenHandlersBuildable(newGen: seq<(string, Path)>, newGenTable: seq<(string, string)>,
                                    dirs: set<Path>, available: int)
  {
    && |newGen| <= available
    && forall j :: 0 <= j < |newGen| ==> newGen[j].0 in Keys(newGenTable) && newGen[j].1 in dirs
  }

  /** What the old-generation half needs: a temporary file name for every
      pair, and for every pair its title in TouhouToExeName and in the old
      table, and the directory of its executable present. */
  predicate OldGenHandlersBuildable(oldGen: seq<(string, Path)>, oldGenTable: seq<(string, string)>,
                                    dirs: set<Path>, available: int)
  {
    && |oldGen| <= available
    && forall j :: 0 <= j < |oldGen| ==>
         && oldGen[j].0 in Keys(FindTouhouSavePath.TouhouToExeName)
         && oldGen[j].0 in Keys(oldGenTable)
         && ParentPath(oldGen[j].1) in dirs
  }

  /** What ToTouhouSaveFilesHandlers needs to succeed: the new-generation
      half, then the old-generation half with the temporary names the first
      half left. */
  predicate HandlersBuildable(newGen: seq<(string, Path)>, oldGen: seq<(string, Path)>,
                              newGenTable: seq<(string, string)>, oldGenTable: seq<(string, string)>,
                              dirs: set<Path>, tempNames: seq<Path>)
  {
    && NewGenHandlersBuildable(newGen, newGenTable, dirs, |tempNames|)
    && OldGenHandlersBuildable(oldGen, oldGenTable, dirs, |tempNames| - |newGen|)
  }

  /** The handler in a new-generation slot: for the pair's title and save
      directory. */
  predicate NewGenSlot(handler: SaveFileHandler?, entry: (string, Path))
  {
    && handler != null
    && handler.SaveFile.Generation == New
    && handler.SaveFile.GameTitle == entry.0
    && handler.SaveFile.GameSavePath == entry.1
  }

  /** The handler in an old-generation slot: for the pair's title, watching
      the directory of its executable. */
  predicate OldGenSlot(handler: SaveFileHandler?, entry: (string, Path))
  {
    && handler != null
    && handler.SaveFile.Generation == Old
    && handler.SaveFile.GameTitle == entry.0
    && handler.SaveFile.GameSavePath == ParentPath(entry.1)
  }

  /** The first loop of ToTouhouSaveFilesHandlers, with the saves it walks:
      the new-generation saves, then their handlers in slots 0 onwards. */
  method AddNewGenHandlers(handlers: array<SaveFileHandler?>, newGen: Dictionary<string, Path>,
                           newGenTable: seq<(string, string)>, oldGenTable: seq<(string, string)>,
                           fs: FileSystem, now: real)
    returns (r: Outcome)
    requires |newGen.entries| <= handlers.Length
    modifies fs, handlers
    ensures fs.dirs == old(fs.dirs)
    ensures r.Pass? <==> NewGenHandlersBuildable(newGen.entries, newGenTable, old(fs.dirs), |old(fs.tempNames)|)
    ensures r.Pass? ==> fs.tempNames == old(fs.tempNames)[|newGen.entries|..]
    ensures r.Pass? ==> fs.files == CreatedTempFiles(old(fs.files), old(fs.tempNames)[..|newGen.entries|], now)
    ensures r.Pass? ==> forall j :: 0 <= j < |newGen.entries| ==> NewGenSlot(handlers[j], newGen.entries[j])
  {
    var saveFiles := NewGen.ToTouhouSaveFiles(newGen, fs, now);
    if saveFiles.Err? {
      return Fail(saveFiles.error);
    }
    r := AddHandlers(handlers, 0, saveFiles.value, newGenTable, oldGenTable, fs);
    if r.Fail? {
      assert !NewGenHandlersBuildable(newGen.entries, newGenTable, old(fs.dirs), |old(fs.tempNames)|) by {
        var j :| 0 <= j < saveFiles.value.Length && !Buildable(saveFiles.value[j], newGenTable, oldGenTable, fs.dirs);
        assert NewGen.BuiltNew(saveFiles.value[j], newGen.entries[j], old(fs.tempNames)[j]);
      }
    }
  }

  /** The second loop of ToTouhouSaveFilesHandlers, with the saves it walks:
      the old-generation saves, then their handlers in the slots from start
      on; the slots before start are left alone. */
  method AddOldGenHandlers(handlers: array<SaveFileHandler?>, start: nat, oldGen: Dictionary<string, Path>,
                           newGenTable: seq<(string, string)>, oldGenTable: seq<(string, string)>,
                           fs: FileSystem, now: real)
    returns (r: Outcome)
    requires start + |oldGen.entries| <= handlers.Length
    modifies fs, handlers
    ensures fs.dirs == old(fs.dirs)
    ensures forall j :: 0 <= j < start ==> handlers[j] == old(handlers[j])
    ensures r.Pass? <==> OldGenHandlersBuildable(oldGen.entries, oldGenTable, old(fs.dirs), |old(fs.tempNames)|)
    ensures r.Pass? ==> fs.tempNames == old(fs.tempNames)[|oldGen.entries|..]
    ensures r.Pass? ==> fs.files == CreatedTempFiles(old(fs.files), old(fs.tempNames)[..|oldGen.entries|], now)
    ensures r.Pass? ==> forall j :: 0 <= j < |oldGen.entries| ==> OldGenSlot(handlers[start + j], oldGen.entries[j])
  {
    var saveFiles := OldGen.ToTouhouSaveFiles(oldGen, fs, now);
    if saveFiles.Err? {
      return Fail(saveFiles.error);
    }
    r := AddHandlers(handlers, start, saveFiles.value, newGenTable, oldGenTable, fs);
    if r.Fail? {
      assert !OldGenHandlersBuildable(oldGen.entries, oldGenTable, old(fs.dirs), |old(fs.tempNames)|) by {
        var j :| 0 <= j < saveFiles.value.Length && !Buildable(saveFiles.value[j], newGenTable, oldGenTable, fs.dirs);
        assert OldGen.BuiltFrom(saveFiles.value[j], oldGen.entries[j], old(fs.tempNames)[j]);
      }
    } else {
      forall j | 0 <= j < |oldGen.entries|
        ensures OldGenSlot(handlers[start + j], oldGen.entries[j])
      {
        assert Handles(handlers[start + j], saveFiles.value[j], newGenTable, oldGenTable);
        assert OldGen.BuiltFrom(saveFiles.value[j], oldGen.entries[j], old(fs.tempNames)[j]);
      }
    }
  }

  /** ToTouhouSaveFilesHandlers(newGen, oldGen): an array of
      newGen.Count + oldGen.Count handlers, the new-generation saves' first
      and then the old-generation saves', each in its dictionary's order,
      with every slot filled. */
  method ToTouhouSaveFilesHandlers(newGen: Dictionary<string, Path>, oldGen: Dictionary<string, Path>,
                                   newGenTable: seq<(string, string)>, oldGenTable: seq<(string, string)>,
                                   fs: FileSystem, now: real)
    returns (r: Result<array<SaveFileHandler?>>)
    modifies fs
    ensures fs.dirs == old(fs.dirs)
    ensures r.Ok? <==> HandlersBuildable(newGen.entries, oldGen.entries, newGenTable, oldGenTable, old(fs.dirs), old(fs.tempNames))
    ensures r.Ok? ==> && fresh(r.value)
                      && r.value.Length == |newGen.entries| + |oldGen.entries|
                      && fs.tempNames == old(fs.tempNames)[|newGen.entries| + |oldGen.entries|..]
                      && fs.files == CreatedTempFiles(old(fs.files), old(fs.tempNames)[..|newGen.entries| + |oldGen.entries|], now)
    ensures r.Ok? ==> forall j :: 0 <= j < |newGen.entries| ==> NewGenSlot(r.value[j], newGen.entries[j])
    ensures r.Ok? ==> forall j :: 0 <= j < |oldGen.entries| ==> OldGenSlot(r.value[|newGen.entries| + j], oldGen.entries[j])
  {
    var handlers := new SaveFileHandler?[|newGen.entries| + |oldGen.entries|];
    var added := AddNewGenHandlers(handlers, newGen, newGenTable, oldGenTable, fs, now);
    if added.Fail? {
      return Err(added.error);
    }
    added := AddOldGenHandlers(handlers, |newGen.entries|, oldGen, newGenTable, oldGenTable, fs, now);
    if added.Fail? {
      return Err(added.error);
    }
    CreatedTempFilesConcat(old(fs.files), old(fs.tempNames), |newGen.entries|, |oldGen.entries|, now);
    r := Ok(handlers);
  }
}
