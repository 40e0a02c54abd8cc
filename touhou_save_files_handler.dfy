/** SaveFiles/TouhouSaveFilesHandler.cs: an earlier handler that only holds
    its save, and the factory that builds one per discovered save. */
module TouhouSaveFilesHandlers {
  import opened Common
  import opened Platform
  import opened Dictionaries
  import opened TouhouSaveFiles
  import NewGen = TouhouNewGenSaveFiles
  import OldGen = TouhouOldGenSaveFiles
  import FindTouhouSavePath

  class TouhouSaveFilesHandler {
    const SaveFile: TouhouSaveFile

    /** The constructor stores the save unchanged. */
    constructor(saveFile: TouhouSaveFile)
      ensures SaveFile == saveFile
    {
      SaveFile := saveFile;
    }
  }

  /** The handler of a new-generation pair: its save is for the pair's title
      and save directory. */
  predicate HoldsNewGen(handler: TouhouSaveFilesHandler?, entry: (string, Path))
  {
    && handler != null
    && handler.SaveFile.Generation == New
    && handler.SaveFile.GameTitle == entry.0
    && handler.SaveFile.GameSavePath == entry.1
  }

  /** The handler of an old-generation pair: its save is for the pair's
      title, next to the pair's executable. */
  predicate HoldsOldGen(handler: TouhouSaveFilesHandler?, entry: (string, Path))
  {
    && handler != null
    && handler.SaveFile.Generation == Old
    && handler.SaveFile.GameTitle == entry.0
    && handler.SaveFile.GameSavePath == ParentPath(entry.1)
  }

  /** When the factory gets its saves: a temporary file name for every pair
      of both dictionaries, and every old-generation title in
      TouhouToExeName (the new-generation saves take their names first). */
  predicate FactoryBuildable(newGen: seq<(string, Path)>, oldGen: seq<(string, Path)>, tempNames: seq<Path>)
  {
    && |newGen| + |oldGen| <= |tempNames|
    && forall j :: 0 <= j < |oldGen| ==> oldGen[j].0 in Keys(FindTouhouSavePath.TouhouToExeName)
  }

  /** The body of the first loop: a handler for each new-generation save,
      in slots 0 onwards, the counter advanced each time. The slots after
      them are left alone. */
  method WriteNewGen(handlers: array<TouhouSaveFilesHandler?>, saveFiles: array<TouhouSaveFile?>,
                     ghost entries: seq<(string, Path)>, ghost zips: seq<Path>)
    requires saveFiles.Length == |entries| <= |zips| && saveFiles.Length <= handlers.Length
    requires forall j :: 0 <= j < saveFiles.Length ==> NewGen.BuiltNew(saveFiles[j], entries[j], zips[j])
    modifies handlers
    ensures forall j :: 0 <= j < saveFiles.Length ==> HoldsNewGen(handlers[j], entries[j])
    ensures forall j :: saveFiles.Length <= j < handlers.Length ==> handlers[j] == old(handlers[j])
  {
    var i := 0;
    while i < saveFiles.Length
      invariant 0 <= i <= saveFiles.Length
      invariant forall j :: 0 <= j < i ==> HoldsNewGen(handlers[j], entries[j])
      invariant forall j :: i <= j < handlers.Length ==> handlers[j] == old(handlers[j])
    {
      handlers[i] := new TouhouSaveFilesHandler(saveFiles[i]);
      i := i + 1;
    }
  }

  /** The first loop of the factory: the new-generation saves, then their
      handlers in slots 0 onwards. The slots after them are left alone. */
  method FillNewGen(handlers: array<TouhouSaveFilesHandler?>, newGen: Dictionary<string, Path>, fs: FileSystem, now: real)
    returns (r: Outcome)
    requires |newGen.entries| <= handlers.Length
    modifies fs, handlers
    ensures fs.dirs == old(fs.dirs)
    ensures r.Pass? <==> |newGen.entries| <= |old(fs.tempNames)|
    ensures r.Pass? ==> fs.tempNames == old(fs.tempNames)[|newGen.entries|..]
    ensures r.Pass? ==> fs.files == CreatedTempFiles(old(fs.files), old(fs.tempNames)[..|newGen.entries|], now)
    ensures r.Pass? ==> forall j :: 0 <= j < |newGen.entries| ==> HoldsNewGen(handlers[j], newGen.entries[j])
    ensures forall j :: |newGen.entries| <= j < handlers.Length ==> handlers[j] == old(handlers[j])
  {
    var saveFiles := NewGen.ToTouhouSaveFiles(newGen, fs, now);
    if saveFiles.Err? {
      return Fail(saveFiles.error);
    }
    WriteNewGen(handlers, saveFiles.value, newGen.entries, old(fs.tempNames));
    r := Pass;
  }

  /** The body of the second loop as written: the counter is never
      advanced, so each old-generation handler is written to slot i and
      replaces the one before; the slot holds the last one, and no other
      slot changes. */
  method WriteOldGenAsWritten(handlers: array<TouhouSaveFilesHandler?>, i: nat, saveFiles: array<TouhouSaveFile?>,
                              ghost entries: seq<(string, Path)>, ghost zips: seq<Path>)
    requires saveFiles.Length == |entries| <= |zips|
    requires saveFiles.Length > 0 ==> i < handlers.Length
    requires forall j :: 0 <= j < saveFiles.Length ==> OldGen.BuiltFrom(saveFiles[j], entries[j], zips[j])
    modifies handlers
    ensures saveFiles.Length > 0 ==> HoldsOldGen(handlers[i], entries[saveFiles.Length - 1])
    ensures forall j :: 0 <= j < handlers.Length && (j != i || saveFiles.Length == 0) ==> handlers[j] == old(handlers[j])
  {
    var k := 0;
    while k < saveFiles.Length
      invariant 0 <= k <= saveFiles.Length
      invariant k > 0 ==> HoldsOldGen(handlers[i], entries[k - 1])
      invariant forall j :: 0 <= j < handlers.Length && (j != i || k == 0) ==> handlers[j] == old(handlers[j])
    {
      handlers[i] := new TouhouSaveFilesHandler(saveFiles[k]);
      k := k + 1;
    }
  }

  /** The second loop as written: the old-generation saves, then all their
      handlers written to slot i. */
  method FillOldGenAsWritten(handlers: array<TouhouSaveFilesHandler?>, i: nat, oldGen: Dictionary<string, Path>,
                             fs: FileSystem, now: real)
    returns (r: Outcome)
    requires i + |oldGen.entries| <= handlers.Length
    modifies fs, handlers
    ensures fs.dirs == old(fs.dirs)
    ensures r.Pass? <==> && |oldGen.entries| <= |old(fs.tempNames)|
                         && forall j :: 0 <= j < |oldGen.entries| ==> oldGen.entries[j].0 in Keys(FindTouhouSavePath.TouhouToExeName)
    ensures r.Pass? ==> fs.tempNames == old(fs.tempNames)[|oldGen.entries|..]
    ensures r.Pass? ==> fs.files == CreatedTempFiles(old(fs.files), old(fs.tempNames)[..|oldGen.entries|], now)
    ensures r.Pass? && |oldGen.entries| > 0 ==> HoldsOldGen(handlers[i], oldGen.entries[|oldGen.entries| - 1])
    ensures forall j :: 0 <= j < handlers.Length && (j != i || |oldGen.entries| == 0 || r.Fail?) ==>
              handlers[j] == old(handlers[j])
  {
    var saveFiles := OldGen.ToTouhouSaveFiles(oldGen, fs, now);
    if saveFiles.Err? {
      return Fail(saveFiles.error);
    }
    WriteOldGenAsWritten(handlers, i, saveFiles.value, oldGen.entries, old(fs.tempNames));
    r := Pass;
  }

  /** ToTouhouSaveFilesHandlers as written: an array of newGen.Count +
      oldGen.Count slots whose first newGen.Count slots hold the
      new-generation handlers in order; every old-generation handler is
      written to slot newGen.Count, so that slot holds the last one and every
      later slot stays null. */
  method ToTouhouSaveFilesHandlersAsWritten(newGen: Dictionary<string, Path>, oldGen: Dictionary<string, Path>,
                                            fs: FileSystem, now: real)
    returns (r: Result<array<TouhouSaveFilesHandler?>>)
    modifies fs
    ensures fs.dirs == old(fs.dirs)
    ensures r.Ok? <==> FactoryBuildable(newGen.entries, oldGen.entries, old(fs.tempNames))
    ensures r.Ok? ==> && fs.tempNames == old(fs.tempNames)[|newGen.entries| + |oldGen.entries|..]
                      && fs.files == CreatedTempFiles(old(fs.files), old(fs.tempNames)[..|newGen.entries| + |oldGen.entries|], now)
    ensures r.Ok? ==> fresh(r.value) && r.value.Length == |newGen.entries| + |oldGen.entries|
    ensures r.Ok? ==> forall j :: 0 <= j < |newGen.entries| ==> HoldsNewGen(r.value[j], newGen.entries[j])
    ensures r.Ok? && |oldGen.entries| > 0 ==>
              HoldsOldGen(r.value[|newGen.entries|], oldGen.entries[|oldGen.entries| - 1])
    ensures r.Ok? ==> forall j :: |newGen.entries| < j < r.value.Length ==> r.value[j] == null
  {
    var handlers := new TouhouSaveFilesHandler?[|newGen.entries| + |oldGen.entries|](_ => null);
    var filled := FillNewGen(handlers, newGen, fs, now);
    if filled.Fail? {
      return Err(filled.error);
    }
    filled := FillOldGenAsWritten(handlers, |newGen.entries|, oldGen, fs, now);
    if filled.Fail? {
      return Err(filled.error);
    }
    CreatedTempFilesConcat(old(fs.files), old(fs.tempNames), |newGen.entries|, |oldGen.entries|, now);
    r := Ok(handlers);
  }

  /** The body of the second loop with the counter advanced, as the first
      loop does: the old-generation handlers in the slots from i on, in
      order. The slots before i are left alone. */
  method WriteOldGen(handlers: array<TouhouSaveFilesHandler?>, i: nat, saveFiles: array<TouhouSaveFile?>,
                     ghost entries: seq<(string, Path)>, ghost zips: seq<Path>)
    requires saveFiles.Length == |entries| <= |zips| && i + saveFiles.Length <= handlers.Length
    requires forall j :: 0 <= j < saveFiles.Length ==> OldGen.BuiltFrom(saveFiles[j], entries[j], zips[j])
    modifies handlers
    ensures forall j :: i <= j < i + saveFiles.Length ==> HoldsOldGen(handlers[j], entries[j - i])
    ensures forall j :: 0 <= j < i ==> handlers[j] == old(handlers[j])
  {
    var k := 0;
    while k < saveFiles.Length
      invariant 0 <= k <= saveFiles.Length
      invariant forall j :: i <= j < i + k ==> HoldsOldGen(handlers[j], entries[j - i])
      invariant forall j :: 0 <= j < i ==> handlers[j] == old(handlers[j])
    {
      handlers[i + k] := new TouhouSaveFilesHandler(saveFiles[k]);
      k := k + 1;
    }
  }

  /** The second loop with the counter advanced: the old-generation saves,
      then their handlers in the slots from i on. */
  method FillOldGen(handlers: array<TouhouSaveFilesHandler?>, i: nat, oldGen: Dictionary<string, Path>,
                    fs: FileSystem, now: real)
    returns (r: Outcome)
    requires i + |oldGen.entries| <= handlers.Length
    modifies fs, handlers
    ensures fs.dirs == old(fs.dirs)
    ensures r.Pass? <==> && |oldGen.entries| <= |old(fs.tempNames)|
                         && forall j :: 0 <= j < |oldGen.entries| ==> oldGen.entries[j].0 in Keys(FindTouhouSavePath.TouhouToExeName)
    ensures r.Pass? ==> fs.tempNames == old(fs.tempNames)[|oldGen.entries|..]
    ensures r.Pass? ==> fs.files == CreatedTempFiles(old(fs.files), old(fs.tempNames)[..|oldGen.entries|], now)
    ensures r.Pass? ==> forall j :: i <= j < i + |oldGen.entries| ==> HoldsOldGen(handlers[j], oldGen.entries[j - i])
    ensures forall j :: 0 <= j < i ==> handlers[j] == old(handlers[j])
  {
    var saveFiles := OldGen.ToTouhouSaveFiles(oldGen, fs, now);
    if saveFiles.Err? {
      return Fail(saveFiles.error);
    }
    WriteOldGen(handlers, i, saveFiles.value, oldGen.entries, old(fs.tempNames));
    r := Pass;
  }

  /** ToTouhouSaveFilesHandlers with the counter advanced in both loops:
      every slot holds a handler, the new-generation saves' first and the
      old-generation saves' after them, each in its dictionary's order. */
  method ToTouhouSaveFilesHandlers(newGen: Dictionary<string, Path>, oldGen: Dictionary<string, Path>,
                                   fs: FileSystem, now: real)
    returns (r: Result<array<TouhouSaveFilesHandler?>>)
    modifies fs
    ensures fs.dirs == old(fs.dirs)
    ensures r.Ok? <==> FactoryBuildable(newGen.entries, oldGen.entries, old(fs.tempNames))
    ensures r.Ok? ==> && fs.tempNames == old(fs.tempNames)[|newGen.entries| + |oldGen.entries|..]
                      && fs.files == CreatedTempFiles(old(fs.files), old(fs.tempNames)[..|newGen.entries| + |oldGen.entries|], now)
    ensures r.Ok? ==> fresh(r.value) && r.value.Length == |newGen.entries| + |oldGen.entries|
    ensures r.Ok? ==> forall j :: 0 <= j < |newGen.entries| ==> HoldsNewGen(r.value[j], newGen.entries[j])
    ensures r.Ok? ==> forall j :: |newGen.entries| <= j < r.value.Length ==>
                        HoldsOldGen(r.value[j], oldGen.entries[j - |newGen.entries|])
    ensures r.Ok? ==> forall j :: 0 <= j < r.value.Length ==> r.value[j] != null
  {
    var handlers := new TouhouSaveFilesHandler?[|newGen.entries| + |oldGen.entries|](_ => null);
    var filled := FillNewGen(handlers, newGen, fs, now);
    if filled.Fail? {
      return Err(filled.error);
    }
    filled := FillOldGen(handlers, |newGen.entries|, oldGen, fs, now);
    if filled.Fail? {
      return Err(filled.error);
    }
    CreatedTempFilesConcat(old(fs.files), old(fs.tempNames), |newGen.entries|, |oldGen.entries|, now);
    r := Ok(handlers);
  }
}
