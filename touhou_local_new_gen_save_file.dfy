/** SaveFiles/TouhouLocalNewGenSaveFile.cs, newer revision: a local save of
    the games that keep their files in a folder of their own. The whole
    folder is archived, and the save's metadata is returned. */
module TouhouLocalNewGenSaveFiles {
  import opened Common
  import opened Platform
  import opened Dictionaries
  import opened TouhouLocalSaveFiles

  /** new TouhouLocalNewGenSaveFile(gameTitle, zipSaveStoragePath,
      gameSavePath): the base constructor, which creates the guessed save
      directory. */
  method NewTouhouLocalNewGenSaveFile(gameTitle: string, zipSaveStoragePath: Path, gameSavePath: Path, fs: FileSystem)
    returns (r: TouhouLocalSaveFile)
    modifies fs
    ensures fresh(r)
    ensures BuiltNew(r, (gameTitle, gameSavePath), zipSaveStoragePath) && r.GameExeName == ""
    ensures fs.dirs == old(fs.dirs) + {gameSavePath}
    ensures fs.files == old(fs.files) && fs.order == old(fs.order) && fs.tempNames == old(fs.tempNames)
  {
    r := new TouhouLocalSaveFile(gameTitle, zipSaveStoragePath, gameSavePath, New, "", fs);
  }

  /** ZipSaveFile: deletes an old zip (ZipFile.CreateFromDirectory refuses
      to overwrite), archives the whole save directory into it and gathers
      the save's metadata. A missing save directory makes
      CreateFromDirectory throw after the old zip is gone; otherwise the
      metadata always succeeds. */
  method ZipSaveFile(saveFile: TouhouLocalSaveFile, fs: FileSystem, env: Foreign, now: real)
    returns (r: Result<SaveFileMetadata>)
    requires saveFile.Generation == New
    modifies fs
    ensures fs.files == DirectoryArchived(old(fs.files), old(fs.dirs), saveFile.GameSavePath, saveFile.ZipSaveStoragePath, env, now)
    ensures saveFile.GameSavePath !in old(fs.dirs) ==> r == Err(DirectoryNotFound(saveFile.GameSavePath))
    ensures saveFile.GameSavePath in old(fs.dirs) ==> r == saveFile.MetadataOf(fs, env) && r.Ok?
    ensures fs.dirs == old(fs.dirs) && fs.tempNames == old(fs.tempNames)
    ensures fs.order == if r.Ok? && saveFile.ZipSaveStoragePath !in old(fs.order) then old(fs.order) + [saveFile.ZipSaveStoragePath]
                        else old(fs.order)
  {
    var zip := saveFile.ZipSaveStoragePath;
    if fs.FileExists(zip) {
      fs.Delete(zip);
    }
    assert fs.files == old(fs.files) - {zip};
    var created := fs.CreateFromDirectory(saveFile.GameSavePath, zip, env, now);
    if created.Fail? {
      return Err(created.error);
    }
    r := saveFile.GatherMetadata(fs, env);
    MetadataSpec(saveFile, fs, env);
  }

  /** The new-generation save ToTouhouSaveFiles builds for one (title, save
      path) pair of its data, zipped to zip. */
  predicate BuiltNew(saveFile: TouhouLocalSaveFile?, entry: (string, Path), zip: Path)
  {
    && saveFile != null
    && saveFile.GameTitle == entry.0
    && saveFile.GameSavePath == entry.1
    && saveFile.ZipSaveStoragePath == zip
    && saveFile.Generation == New
  }

  /** The save directories of the first n pairs of data. */
  function SavePaths(entries: seq<(string, Path)>, n: nat): set<Path>
    requires n <= |entries|
  {
    set j | 0 <= j < n :: entries[j].1
  }

  /** One iteration of ToTouhouSaveFiles: take a temporary file, then build
      the save of the pair, creating its save directory. */
  method NewTempSaveFile(entry: (string, Path), fs: FileSystem, now: real) returns (r: Result<TouhouLocalSaveFile>)
    modifies fs
    ensures r.Ok? <==> old(fs.tempNames) != []
    ensures r.Err? ==> r.error == IOError && fs.tempNames == [] && fs.files == old(fs.files) && fs.dirs == old(fs.dirs)
    ensures r.Ok? ==>
              && fs.tempNames == old(fs.tempNames)[1..]
              && fs.files == old(fs.files)[old(fs.tempNames)[0] := FileEntry([], now)]
              && fs.dirs == old(fs.dirs) + {entry.1}
              && fresh(r.value) && BuiltNew(r.value, entry, old(fs.tempNames)[0])
  {
    var (gameTitle, savePath) := entry;
    var temp := fs.GetTempFileName(now);
    if temp.Err? {
      return Err(temp.error);
    }
    var saveFile := NewTouhouLocalNewGenSaveFile(gameTitle, temp.value, savePath, fs);
    r := Ok(saveFile);
  }

  /** ToTouhouSaveFiles(data): one new-generation save per (title, save
      path) of data, in data's order, each zipping to a fresh temporary file
      and each creating its save directory. Path.GetTempFileName throws when
      no name is left. */
  method ToTouhouSaveFiles(data: Dictionary<string, Path>, fs: FileSystem, now: real)
    returns (r: Result<array<TouhouLocalSaveFile?>>)
    modifies fs
    ensures r.Ok? <==> |data.entries| <= |old(fs.tempNames)|
    ensures r.Err? ==> && r.error == IOError && fs.tempNames == []
                       && fs.dirs == old(fs.dirs) + SavePaths(data.entries, |old(fs.tempNames)|)
    ensures r.Ok? ==> && fresh(r.value)
                      && r.value.Length == |data.entries|
                      && fs.dirs == old(fs.dirs) + SavePaths(data.entries, |data.entries|)
                      && fs.tempNames == old(fs.tempNames)[|data.entries|..]
                      && fs.files == CreatedTempFiles(old(fs.files), old(fs.tempNames)[..|data.entries|], now)
    ensures r.Ok? ==> forall j :: 0 <= j < r.value.Length ==>
                        BuiltNew(r.value[j], data.entries[j], old(fs.tempNames)[j]) && fresh(r.value[j])
  {
    var entries := data.entries;
    var saveFiles := new TouhouLocalSaveFile?[|entries|];
    var i := 0;
    while i < |entries|
      invariant 0 <= i <= |entries|
      invariant i <= |old(fs.tempNames)|
      invariant fs.dirs == old(fs.dirs) + SavePaths(entries, i)
      invariant fs.tempNames == old(fs.tempNames)[i..]
      invariant fs.files == CreatedTempFiles(old(fs.files), old(fs.tempNames)[..i], now)
      invariant forall j :: 0 <= j < i ==> BuiltNew(saveFiles[j], entries[j], old(fs.tempNames)[j]) && fresh(saveFiles[j])
    {
      if i < |old(fs.tempNames)| {
        CreatedTempFilesStep(old(fs.files), old(fs.tempNames), i, now);
      }
      assert SavePaths(entries, i + 1) == SavePaths(entries, i) + {entries[i].1};
      var saveFile := NewTempSaveFile(entries[i], fs, now);
      if saveFile.Err? {
        return Err(saveFile.error);
      }
      saveFiles[i] := saveFile.value;
      i := i + 1;
    }
    r := Ok(saveFiles);
  }
}
