/** SaveFiles/TouhouNewGenSaveFile.cs, older revision: a save of the games
    that keep their files in a folder of their own under the user's
    application data (TH13 onwards). The whole folder is archived. */
module TouhouNewGenSaveFiles {
  import opened Common
  import opened Platform
  import opened Dictionaries
  import opened TouhouSaveFiles

  /** new TouhouNewGenSaveFile(gameTitle, zipSaveStoragePath, gameSavePath):
      the base fields with Generation New; there is no executable name. */
  method NewTouhouNewGenSaveFile(gameTitle: string, zipSaveStoragePath: Path, gameSavePath: Path)
    returns (r: TouhouSaveFile)
    ensures fresh(r)
    ensures BuiltNew(r, (gameTitle, gameSavePath), zipSaveStoragePath) && r.GameExeName == ""
    ensures r.GoogleDriveFileId.None?
  {
    r := new TouhouSaveFile(gameTitle, zipSaveStoragePath, gameSavePath, New, "");
  }

  /** ZipSaveFile: deletes an old zip, then archives the whole save
      directory into it and returns the checksum of the new zip. When the
      save directory is missing, ZipFile.CreateFromDirectory throws after
      the old zip is already gone. */
  method ZipSaveFile(saveFile: TouhouSaveFile, fs: FileSystem, env: Foreign, now: real) returns (r: Result<string>)
    requires saveFile.Generation == New
    modifies fs
    ensures fs.files == DirectoryArchived(old(fs.files), old(fs.dirs), saveFile.GameSavePath, saveFile.ZipSaveStoragePath, env, now)
    ensures saveFile.GameSavePath !in old(fs.dirs) ==> r == Err(DirectoryNotFound(saveFile.GameSavePath))
    ensures saveFile.GameSavePath in old(fs.dirs) ==>
              && r.Ok? && r.value == LowerHex(env.md5(fs.files[saveFile.ZipSaveStoragePath].content)) && |r.value| == 32
    ensures fs.dirs == old(fs.dirs) && fs.tempNames == old(fs.tempNames)
  {
    var zip := saveFile.ZipSaveStoragePath;
    if fs.FileExists(zip) {
      fs.Delete(zip);
    }
    assert fs.files == old(fs.files) - {zip};
    var created := fs.CreateFromDirectory(saveFile.GameSavePath, zip, env, now);
    if created.Fail? {
      return Err(created.error);
    }
    r := Ok(saveFile.GenerateCheckSumForZipFile(fs, env));
  }

  /** LoadZippedSaveFile throws NotImplementedException. */
  function LoadZippedSaveFile(saveFile: TouhouSaveFile): (r: Result<string>)
    ensures r.Err? && r.error == NotImplemented
  {
    Err(NotImplemented)
  }

  /** The new-generation save ToTouhouSaveFiles builds for one (title,
      save path) pair of its data, zipped to zip. */
  predicate BuiltNew(saveFile: TouhouSaveFile?, entry: (string, Path), zip: Path)
  {
    && saveFile != null
    && saveFile.GameTitle == entry.0
    && saveFile.GameSavePath == entry.1
    && saveFile.ZipSaveStoragePath == zip
    && saveFile.Generation == New
  }

  /** ToTouhouSaveFiles(data): one new-generation save per (title, save
      path) of data, in data's order, each zipping to a fresh temporary file.
      Path.GetTempFileName throws when no name is left. */
  method ToTouhouSaveFiles(data: Dictionary<string, Path>, fs: FileSystem, now: real)
    returns (r: Result<array<TouhouSaveFile?>>)
    modifies fs
    ensures r.Ok? <==> |data.entries| <= |old(fs.tempNames)|
    ensures r.Err? ==> r.error == IOError && fs.tempNames == []
    ensures fs.dirs == old(fs.dirs)
    ensures r.Ok? ==> && fresh(r.value)
                      && r.value.Length == |data.entries|
                      && fs.tempNames == old(fs.tempNames)[|data.entries|..]
                      && fs.files == CreatedTempFiles(old(fs.files), old(fs.tempNames)[..|data.entries|], now)
    ensures r.Ok? ==> forall j :: 0 <= j < r.value.Length ==>
                        BuiltNew(r.value[j], data.entries[j], old(fs.tempNames)[j]) && fresh(r.value[j])
  {
    var entries := data.entries;
    var saveFiles := new TouhouSaveFile?[|entries|];
    var i := 0;
    while i < |entries|
      invariant 0 <= i <= |entries|
      invariant i <= |old(fs.tempNames)|
      invariant fs.dirs == old(fs.dirs)
      invariant fs.tempNames == old(fs.tempNames)[i..]
      invariant fs.files == CreatedTempFiles(old(fs.files), old(fs.tempNames)[..i], now)
      invariant forall j :: 0 <= j < i ==> BuiltNew(saveFiles[j], entries[j], old(fs.tempNames)[j]) && fresh(saveFiles[j])
    {
      var (gameTitle, savePath) := entries[i];
      var temp := fs.GetTempFileName(now);
      if temp.Err? {
        return Err(temp.error);
      }
      CreatedTempFilesStep(old(fs.files), old(fs.tempNames), i, now);
      saveFiles[i] := NewTouhouNewGenSaveFile(gameTitle, temp.value, savePath);
      i := i + 1;
    }
    r := Ok(saveFiles);
  }
}
