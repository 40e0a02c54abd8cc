/** SaveFiles/TouhouLocalOldGenSaveFile.cs, newer revision: a local save of
    the games that keep their files beside the executable. It archives the
    same entries as the older revision and returns the save's metadata. */
module TouhouLocalOldGenSaveFiles {
  import opened Common
  import opened Platform
  import opened Dictionaries
  import opened DictionaryExtension
  import opened TouhouLocalSaveFiles
  import OldGen = TouhouOldGenSaveFiles

  /** new TouhouLocalOldGenSaveFile(gameTitle, zipSaveStoragePath,
      gameSavePath): the base constructor (which creates nothing for this
      generation), then the executable name read with the indexer of the
      old-generation title table, which throws KeyNotFoundException for a
      title the table lacks. */
  method NewTouhouLocalOldGenSaveFile(exeNames: seq<(string, string)>, gameTitle: string,
                                      zipSaveStoragePath: Path, gameSavePath: Path, fs: FileSystem)
    returns (r: Result<TouhouLocalSaveFile>)
    modifies fs
    ensures r.Err? <==> gameTitle !in Keys(exeNames)
    ensures r.Err? ==> r.error == KeyNotFound
    ensures r.Ok? ==> && fresh(r.value)
                      && BuiltOld(r.value, (gameTitle, gameSavePath), zipSaveStoragePath)
                      && GetValueOrDefault(exeNames, gameTitle) == Some(r.value.GameExeName)
    ensures fs.files == old(fs.files) && fs.dirs == old(fs.dirs)
    ensures fs.order == old(fs.order) && fs.tempNames == old(fs.tempNames)
  {
    var exe := GetValueOrDefault(exeNames, gameTitle);
    GetValueOrDefaultSpec(exeNames, gameTitle);
    if exe.None? {
      return Err(KeyNotFound);
    }
    var saveFile := new TouhouLocalSaveFile(gameTitle, zipSaveStoragePath, gameSavePath, Old, exe.value, fs);
    r := Ok(saveFile);
  }

  /** ZipSaveFile: writes the archive exactly as the older revision does
      (the same entries, read after the zip has been truncated), then
      gathers the metadata of the save in the order the source evaluates it.
      The save directory missing makes the score lookup throw. */
  method ZipSaveFile(saveFile: TouhouLocalSaveFile, fs: FileSystem, env: Foreign, now: real)
    returns (r: Result<SaveFileMetadata>)
    requires saveFile.Generation == Old
    modifies fs
    ensures fs.files == OldGen.ArchivedFiles(saveFile.ZipSaveStoragePath, saveFile.GameExeName, saveFile.GameSavePath,
                                             old(fs.files), old(fs.dirs), env, now)
    ensures fs.dirs == old(fs.dirs) && fs.tempNames == old(fs.tempNames)
    ensures r == saveFile.MetadataOf(fs, env)
    ensures r.Err? <==> saveFile.GameSavePath !in fs.dirs
    ensures fs.order == if saveFile.ZipSaveStoragePath in old(fs.order) then old(fs.order)
                        else old(fs.order) + [saveFile.ZipSaveStoragePath]
  {
    OldGen.WriteArchive(saveFile.ZipSaveStoragePath, saveFile.GameExeName, saveFile.GameSavePath, fs, env, now);
    r := saveFile.GatherMetadata(fs, env);
    MetadataSpec(saveFile, fs, env);
  }

  /** The old-generation save ToTouhouSaveFiles builds for one (title,
      path) pair of its data, zipped to zip: the path is used as the save
      directory as it is. */
  predicate BuiltOld(saveFile: TouhouLocalSaveFile?, entry: (string, Path), zip: Path)
  {
    && saveFile != null
    && saveFile.GameTitle == entry.0
    && saveFile.GameSavePath == entry.1
    && saveFile.ZipSaveStoragePath == zip
    && saveFile.Generation == Old
  }

  /** One iteration of ToTouhouSaveFiles: take a temporary file, then build
      the save of the pair. */
  method NewTempSaveFile(exeNames: seq<(string, string)>, entry: (string, Path), fs: FileSystem, now: real)
    returns (r: Result<TouhouLocalSaveFile>)
    modifies fs
    ensures r.Ok? <==> old(fs.tempNames) != [] && entry.0 in Keys(exeNames)
    ensures fs.dirs == old(fs.dirs)
    ensures old(fs.tempNames) == [] ==> fs.tempNames == [] && fs.files == old(fs.files)
    ensures old(fs.tempNames) != [] ==>
              && fs.tempNames == old(fs.tempNames)[1..]
              && fs.files == old(fs.files)[old(fs.tempNames)[0] := FileEntry([], now)]
    ensures r.Ok? ==> fresh(r.value) && BuiltOld(r.value, entry, old(fs.tempNames)[0])
  {
    var (gameTitle, gamePath) := entry;
    var temp := fs.GetTempFileName(now);
    if temp.Err? {
      return Err(temp.error);
    }
    r := NewTouhouLocalOldGenSaveFile(exeNames, gameTitle, temp.value, gamePath, fs);
  }

  /** ToTouhouSaveFiles(data): one old-generation save per (title, path) of
      data, in data's order, each zipping to a fresh temporary file. An
      exception (no temporary name left, or a title missing from the table)
      ends it. */
  method ToTouhouSaveFiles(exeNames: seq<(string, string)>, data: Dictionary<string, Path>, fs: FileSystem, now: real)
    returns (r: Result<array<TouhouLocalSaveFile?>>)
    modifies fs
    ensures r.Ok? <==> |data.entries| <= |old(fs.tempNames)|
                       && forall j :: 0 <= j < |data.entries| ==> data.entries[j].0 in Keys(exeNames)
    ensures fs.dirs == old(fs.dirs)
    ensures r.Ok? ==> && fresh(r.value)
                      && r.value.Length == |data.entries|
                      && fs.tempNames == old(fs.tempNames)[|data.entries|..]
                      && fs.files == CreatedTempFiles(old(fs.files), old(fs.tempNames)[..|data.entries|], now)
    ensures r.Ok? ==> forall j :: 0 <= j < r.value.Length ==>
                        BuiltOld(r.value[j], data.entries[j], old(fs.tempNames)[j]) && fresh(r.value[j])
  {
    var entries := data.entries;
    var saveFiles := new TouhouLocalSaveFile?[|entries|];
    var i := 0;
    while i < |entries|
      invariant 0 <= i <= |entries|
      invariant i <= |old(fs.tempNames)|
      invariant forall j :: 0 <= j < i ==> entries[j].0 in Keys(exeNames)
      invariant fs.dirs == old(fs.dirs)
      invariant fs.tempNames == old(fs.tempNames)[i..]
      invariant fs.files == CreatedTempFiles(old(fs.files), old(fs.tempNames)[..i], now)
      invariant forall j :: 0 <= j < i ==> BuiltOld(saveFiles[j], entries[j], old(fs.tempNames)[j]) && fresh(saveFiles[j])
    {
      if i < |old(fs.tempNames)| {
        CreatedTempFilesStep(old(fs.files), old(fs.tempNames), i, now);
      }
      var saveFile := NewTempSaveFile(exeNames, entries[i], fs, now);
      if saveFile.Err? {
        return Err(saveFile.error);
      }
      saveFiles[i] := saveFile.value;
      i := i + 1;
    }
    r := Ok(saveFiles);
  }
}
