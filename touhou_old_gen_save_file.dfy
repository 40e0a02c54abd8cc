/** SaveFiles/TouhouOldGenSaveFile.cs, older revision: a save of the games
    that keep their files beside the executable (TH06 to TH12). */
module TouhouOldGenSaveFiles {
  import opened Common
  import opened Platform
  import opened Dictionaries
  import opened DictionaryExtension
  import opened FindTouhouSavePath
  import opened TouhouSaveFiles

  /** new TouhouOldGenSaveFile(gameTitle, zipSaveStoragePath, gameSavePath):
      the base fields with Generation Old, and the title's executable read
      with the TouhouToExeName indexer, which throws KeyNotFoundException
      for a title the table lacks. */
  method NewTouhouOldGenSaveFile(gameTitle: string, zipSaveStoragePath: Path, gameSavePath: Path)
    returns (r: Result<TouhouSaveFile>)
    ensures r.Err? <==> gameTitle !in Keys(TouhouToExeName)
    ensures r.Err? ==> r.error == KeyNotFound
    ensures r.Ok? ==> && fresh(r.value)
                      && r.value.GameTitle == gameTitle
                      && r.value.ZipSaveStoragePath == zipSaveStoragePath
                      && r.value.GameSavePath == gameSavePath
                      && r.value.Generation == Old
                      && GetValueOrDefault(TouhouToExeName, gameTitle) == Some(r.value.GameExeName)
                      && r.value.GoogleDriveFileId.None?
  {
    var exe := GetValueOrDefault(TouhouToExeName, gameTitle);
    GetValueOrDefaultSpec(TouhouToExeName, gameTitle);
    if exe.None? {
      return Err(KeyNotFound);
    }
    var saveFile := new TouhouSaveFile(gameTitle, zipSaveStoragePath, gameSavePath, Old, exe.value);
    r := Ok(saveFile);
  }

  /** The archive entries ZipSaveFile adds, in order: gameName.cfg when that
      file exists; then score.dat when it exists, else score<gameName>.dat
      when that exists; then the replay directory when it exists. The files
      are looked up in the save directory. */
  function ArchiveSources(gameName: string, savePath: Path, files: map<Path, FileEntry>, dirs: set<Path>): seq<ZipSource>
  {
    CfgSource(gameName, savePath, files) + ScoreSource(gameName, savePath, files) + ReplaySource(savePath, dirs)
  }

  function CfgSource(gameName: string, savePath: Path, files: map<Path, FileEntry>): seq<ZipSource>
  {
    var cfgFilePath := Combine(savePath, gameName + ".cfg");
    if cfgFilePath in files then [FromFile(cfgFilePath, gameName + ".cfg")] else []
  }

  function ScoreSource(gameName: string, savePath: Path, files: map<Path, FileEntry>): seq<ZipSource>
  {
    var scoreFilePath := Combine(savePath, "score.dat");
    var scoreFilePathType2 := Combine(savePath, "score" + gameName + ".dat");
    if scoreFilePath in files then [FromFile(scoreFilePath, "score.dat")]
    else if scoreFilePathType2 in files then [FromFile(scoreFilePathType2, "score" + gameName + ".dat")]
    else []
  }

  function ReplaySource(savePath: Path, dirs: set<Path>): seq<ZipSource>
  {
    var replayFolderPath := Combine(savePath, "replay");
    if replayFolderPath in dirs then [FromDirectory(replayFolderPath, "replay")] else []
  }

  /** Every archive entry is read from an existing file or directory stored
      at its own entry name under the save directory. */
  lemma ArchiveSourcesExist(gameName: string, savePath: Path, files: map<Path, FileEntry>, dirs: set<Path>)
    ensures var r := ArchiveSources(gameName, savePath, files, dirs);
            forall i :: 0 <= i < |r| ==>
              && r[i].sourcePath == Combine(savePath, r[i].entryName)
              && (r[i].FromFile? ==> r[i].sourcePath in files)
              && (r[i].FromDirectory? ==> r[i].sourcePath in dirs)
  {
    var c, s, p := CfgSource(gameName, savePath, files), ScoreSource(gameName, savePath, files), ReplaySource(savePath, dirs);
    var r := c + s + p;
    forall i | 0 <= i < |r|
      ensures r[i].sourcePath == Combine(savePath, r[i].entryName)
      ensures r[i].FromFile? ==> r[i].sourcePath in files
      ensures r[i].FromDirectory? ==> r[i].sourcePath in dirs
    {
      if i < |c| {
        assert r[i] == c[i];
      } else if i < |c| + |s| {
        assert r[i] == s[i - |c|];
      } else {
        assert r[i] == p[i - |c| - |s|];
      }
    }
  }

  /** No two archive entries share a name: the cfg entry ends in "g", the
      score entries in "t" and the replay entry in "y". */
  lemma ArchiveNamesDistinct(gameName: string, savePath: Path, files: map<Path, FileEntry>, dirs: set<Path>)
    ensures var r := ArchiveSources(gameName, savePath, files, dirs);
            forall i, j :: 0 <= i < j < |r| ==> !r[i].WholeDirectory? && !r[j].WholeDirectory? && r[i].entryName != r[j].entryName
  {
    var c, s, p := CfgSource(gameName, savePath, files), ScoreSource(gameName, savePath, files), ReplaySource(savePath, dirs);
    CfgEndsIn(gameName, savePath, files);
    ScoreEndsIn(gameName, savePath, files);
    ReplayEndsIn(savePath, dirs);
    DistinctEndings(c, s, p, 'g', 't', 'y');
  }

  /** The cfg entry's name ends in "g". */
  lemma CfgEndsIn(gameName: string, savePath: Path, files: map<Path, FileEntry>)
    ensures EndsIn(CfgSource(gameName, savePath, files), 'g')
  {
    var cfgName := gameName + ".cfg";
    assert cfgName[|cfgName| - 1] == 'g';
  }

  /** Both score entry names end in "t". */
  lemma ScoreEndsIn(gameName: string, savePath: Path, files: map<Path, FileEntry>)
    ensures EndsIn(ScoreSource(gameName, savePath, files), 't')
  {
    var scoreName2 := "score" + gameName + ".dat";
    assert scoreName2[|scoreName2| - 1] == 't';
    assert "score.dat"[8] == 't';
  }

  /** The replay entry's name ends in "y". */
  lemma ReplayEndsIn(savePath: Path, dirs: set<Path>)
    ensures EndsIn(ReplaySource(savePath, dirs), 'y')
  {
    assert "replay"[5] == 'y';
  }

  /** Concatenated parts of at most one entry each whose names end in three
      different characters have distinct names. */
  lemma DistinctEndings(c: seq<ZipSource>, s: seq<ZipSource>, p: seq<ZipSource>, x: char, y: char, z: char)
    requires |c| <= 1 && |s| <= 1 && |p| <= 1 && x != y && y != z && x != z
    requires EndsIn(c, x) && EndsIn(s, y) && EndsIn(p, z)
    ensures var r := c + s + p;
            forall i, j :: 0 <= i < j < |r| ==> !r[i].WholeDirectory? && !r[j].WholeDirectory? && r[i].entryName != r[j].entryName
  {
    var r := c + s + p;
    forall i, j | 0 <= i < j < |r| ensures !r[i].WholeDirectory? && !r[j].WholeDirectory? && r[i].entryName != r[j].entryName {
      if i < |c| {
        assert r[i] == c[i];
        if j < |c| + |s| { assert r[j] == s[j - |c|]; } else { assert r[j] == p[j - |c| - |s|]; }
      } else {
        assert r[i] == s[i - |c|] && r[j] == p[j - |c| - |s|];
      }
    }
  }

  /** Every entry name of zs is non-empty and ends in ch. */
  ghost predicate EndsIn(zs: seq<ZipSource>, ch: char)
  {
    forall k :: 0 <= k < |zs| ==> !zs[k].WholeDirectory? && zs[k].entryName != [] && zs[k].entryName[|zs[k].entryName| - 1] == ch
  }

  /** The cfg and replay entries are present exactly when their sources
      exist; score.dat is archived when it exists, score<gameName>.dat only
      when score.dat does not and it does, and never both. */
  lemma ArchiveEntrySelection(gameName: string, savePath: Path, files: map<Path, FileEntry>, dirs: set<Path>)
    requires gameName != ""
    ensures var r := ArchiveSources(gameName, savePath, files, dirs);
            var cfgFilePath, replayFolderPath := Combine(savePath, gameName + ".cfg"), Combine(savePath, "replay");
            var scoreFilePath, scoreFilePathType2 := Combine(savePath, "score.dat"), Combine(savePath, "score" + gameName + ".dat");
            && (FromFile(cfgFilePath, gameName + ".cfg") in r <==> cfgFilePath in files)
            && (FromDirectory(replayFolderPath, "replay") in r <==> replayFolderPath in dirs)
            && (FromFile(scoreFilePath, "score.dat") in r <==> scoreFilePath in files)
            && (FromFile(scoreFilePathType2, "score" + gameName + ".dat") in r
                <==> scoreFilePath !in files && scoreFilePathType2 in files)
  {
    var c, s, p := CfgSource(gameName, savePath, files), ScoreSource(gameName, savePath, files), ReplaySource(savePath, dirs);
    var cfgName, scoreName2 := gameName + ".cfg", "score" + gameName + ".dat";
    assert cfgName[|cfgName| - 1] == 'g';
    assert scoreName2[|scoreName2| - 1] == 't';
    assert "score.dat"[8] == 't';
    assert "replay"[5] == 'y';
    assert "score.dat" != scoreName2 by {
      assert |scoreName2| > |"score.dat"|;
    }
    assert forall x :: x in c + s + p <==> x in c || x in s || x in p;
  }

  /** The files after the archive of a save has been written: the zip
      first truncated (FileMode.Create), then holding the entries selected
      from that state. gameName is the executable name up to its first '.'. */
  function ArchivedFiles(zip: Path, gameExeName: string, savePath: Path, files: map<Path, FileEntry>,
                         dirs: set<Path>, env: Foreign, now: real): map<Path, FileEntry>
  {
    var truncated := files[zip := FileEntry([], now)];
    var sources := ArchiveSources(FirstSegment(gameExeName, '.'), savePath, truncated, dirs);
    files[zip := FileEntry(env.pack(sources, truncated), now)]
  }

  /** Writing the archive again at the same time changes nothing: the zip
      is truncated before any entry is read, so its earlier content is
      never archived. */
  lemma ArchivedFilesIdempotent(zip: Path, gameExeName: string, savePath: Path, files: map<Path, FileEntry>,
                                dirs: set<Path>, env: Foreign, now: real)
    ensures var once := ArchivedFiles(zip, gameExeName, savePath, files, dirs, env, now);
            ArchivedFiles(zip, gameExeName, savePath, once, dirs, env, now) == once
  {
    var once := ArchivedFiles(zip, gameExeName, savePath, files, dirs, env, now);
    assert once[zip := FileEntry([], now)] == files[zip := FileEntry([], now)];
  }

  /** The archive-writing statements of ZipSaveFile, which both revisions
      share: open the zip with FileMode.Create, add the selected entries,
      close the archive. */
  method WriteArchive(zip: Path, gameExeName: string, savePath: Path, fs: FileSystem, env: Foreign, now: real)
    modifies fs
    ensures fs.files == ArchivedFiles(zip, gameExeName, savePath, old(fs.files), old(fs.dirs), env, now)
    ensures fs.dirs == old(fs.dirs) && fs.tempNames == old(fs.tempNames)
    ensures zip in fs.files
    ensures fs.order == if zip in old(fs.order) then old(fs.order) else old(fs.order) + [zip]
  {
    fs.WriteFile(zip, [], now);
    var gameName := FirstSegment(gameExeName, '.');
    var sources := ArchiveSources(gameName, savePath, fs.files, fs.dirs);
    fs.WriteFile(zip, env.pack(sources, fs.files), now);
  }

  /** ZipSaveFile: writes the archive and returns the checksum of the file
      just written. */
  method ZipSaveFile(saveFile: TouhouSaveFile, fs: FileSystem, env: Foreign, now: real) returns (checksum: string)
    requires saveFile.Generation == Old
    modifies fs
    ensures fs.files == ArchivedFiles(saveFile.ZipSaveStoragePath, saveFile.GameExeName, saveFile.GameSavePath,
                                      old(fs.files), old(fs.dirs), env, now)
    ensures fs.dirs == old(fs.dirs) && fs.tempNames == old(fs.tempNames)
    ensures checksum == LowerHex(env.md5(fs.files[saveFile.ZipSaveStoragePath].content)) && |checksum| == 32
  {
    WriteArchive(saveFile.ZipSaveStoragePath, saveFile.GameExeName, saveFile.GameSavePath, fs, env, now);
    checksum := saveFile.GenerateCheckSumForZipFile(fs, env);
  }

  /** LoadZippedSaveFile throws NotImplementedException. */
  function LoadZippedSaveFile(saveFile: TouhouSaveFile): (r: Result<string>)
    ensures r.Err? && r.error == NotImplemented
  {
    Err(NotImplemented)
  }

  /** The old-generation save ToTouhouSaveFiles builds for one (title, exe
      path) pair of its data: saved next to the executable, zipped to zip. */
  predicate BuiltFrom(saveFile: TouhouSaveFile?, entry: (string, Path), zip: Path)
  {
    && saveFile != null
    && saveFile.GameTitle == entry.0
    && saveFile.GameSavePath == ParentPath(entry.1)
    && saveFile.ZipSaveStoragePath == zip
    && saveFile.Generation == Old
  }

  /** One iteration of ToTouhouSaveFiles: take a temporary file, then build
      the save of the pair, saving next to its executable. */
  method NewTempSaveFile(entry: (string, Path), fs: FileSystem, now: real) returns (r: Result<TouhouSaveFile>)
    modifies fs
    ensures r.Ok? <==> old(fs.tempNames) != [] && entry.0 in Keys(TouhouToExeName)
    ensures fs.dirs == old(fs.dirs)
    ensures old(fs.tempNames) == [] ==> fs.tempNames == [] && fs.files == old(fs.files)
    ensures old(fs.tempNames) != [] ==>
              && fs.tempNames == old(fs.tempNames)[1..]
              && fs.files == old(fs.files)[old(fs.tempNames)[0] := FileEntry([], now)]
    ensures r.Ok? ==> fresh(r.value) && BuiltFrom(r.value, entry, old(fs.tempNames)[0])
  {
    var (gameTitle, gamePath) := entry;
    var savePath := ParentPath(gamePath);
    var temp := fs.GetTempFileName(now);
    if temp.Err? {
      return Err(temp.error);
    }
    r := NewTouhouOldGenSaveFile(gameTitle, temp.value, savePath);
  }

  /** ToTouhouSaveFiles(data): one old-generation save per (title, exe path)
      of data, in data's order, saving into the directory of the executable
      and zipping to a fresh temporary file. The array is allocated with
      data.Count slots and filled in order; an exception (no temporary name
      left, or a title missing from TouhouToExeName) ends it. */
  method ToTouhouSaveFiles(data: Dictionary<string, Path>, fs: FileSystem, now: real)
    returns (r: Result<array<TouhouSaveFile?>>)
    modifies fs
    ensures r.Ok? <==> |data.entries| <= |old(fs.tempNames)|
                       && forall j :: 0 <= j < |data.entries| ==> data.entries[j].0 in Keys(TouhouToExeName)
    ensures fs.dirs == old(fs.dirs)
    ensures r.Ok? ==> && fresh(r.value)
                      && r.value.Length == |data.entries|
                      && fs.tempNames == old(fs.tempNames)[|data.entries|..]
                      && fs.files == CreatedTempFiles(old(fs.files), old(fs.tempNames)[..|data.entries|], now)
    ensures r.Ok? ==> forall j :: 0 <= j < r.value.Length ==>
                        && BuiltFrom(r.value[j], data.entries[j], old(fs.tempNames)[j])
                        && fresh(r.value[j])
  {
    var entries := data.entries;
    var saveFiles := new TouhouSaveFile?[|entries|];
    var i := 0;
    while i < |entries|
      invariant 0 <= i <= |entries|
      invariant i <= |old(fs.tempNames)|
      invariant forall j :: 0 <= j < i ==> entries[j].0 in Keys(TouhouToExeName)
      invariant fs.dirs == old(fs.dirs)
      invariant fs.tempNames == old(fs.tempNames)[i..]
      invariant fs.files == CreatedTempFiles(old(fs.files), old(fs.tempNames)[..i], now)
      invariant forall j :: 0 <= j < i ==> BuiltFrom(saveFiles[j], entries[j], old(fs.tempNames)[j]) && fresh(saveFiles[j])
    {
      if i < |old(fs.tempNames)| {
        CreatedTempFilesStep(old(fs.files), old(fs.tempNames), i, now);
      }
      var saveFile := NewTempSaveFile(entries[i], fs, now);
      if saveFile.Err? {
        return Err(saveFile.error);
      }
      saveFiles[i] := saveFile.value;
      i := i + 1;
    }
    r := Ok(saveFiles);
  }
}
