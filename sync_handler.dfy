/** SyncHandler.cs: the first synchronisation of every local save with its
    copy on Google Drive. For each save it decides whether to create the
    remote copy, push the local save, pull the remote one or do nothing, by
    comparing the time of the local score file with the time stored in the
    remote file's description. */
module SyncHandlers {
  import opened Common
  import opened Platform
  import opened GoogleDrive
  import opened TouhouSaveFiles
  import opened Dictionaries
  import NewGen = TouhouNewGenSaveFiles
  import OldGen = TouhouOldGenSaveFiles
  import FindTouhouSavePath

  datatype SyncAction = Pull | Push | Create | None

  /** Double.Parse (None when it throws) and Double.ToString, which the
      model takes as given. Doubles are modelled as reals. */
  datatype Doubles = Doubles(parse: string -> Option<real>, format: real -> string)

  /** Times at most this many seconds apart count as the same save. */
  const SyncThresholdTimeDifference: int := 60

  /** The name of the Drive folder that holds the saves. */
  const SaveFolderName: string := "TouhouSaveSync"

  function Abs(x: real): real
  {
    if x < 0.0 then -x else x
  }

  /** The end of DetermineSyncAction, once both times are known: nothing
      within the threshold (inclusive), otherwise push when the local save
      is the later one and pull when it is the earlier one. */
  function CompareTimes(saveModifyTime: real, remoteModifyTime: real): (r: SyncAction)
    ensures r == SyncAction.None <==> -60.0 <= saveModifyTime - remoteModifyTime <= 60.0
    ensures r == Push <==> saveModifyTime > remoteModifyTime + 60.0
    ensures r == Pull <==> saveModifyTime < remoteModifyTime - 60.0
    ensures r != Create
  {
    var timeDifference := saveModifyTime - remoteModifyTime;
    if Abs(timeDifference) <= SyncThresholdTimeDifference as real then SyncAction.None
    else if timeDifference > 0.0 then Push
    else Pull
  }

  /** The comparison is antisymmetric: swapping the two times turns a push
      into a pull and back, and keeps "nothing". */
  lemma CompareTimesSwapped(a: real, b: real)
    ensures CompareTimes(a, b) == Push <==> CompareTimes(b, a) == Pull
    ensures CompareTimes(a, b) == SyncAction.None <==> CompareTimes(b, a) == SyncAction.None
  {
  }

  /** DetermineSyncAction once the local score time is known: Create exactly
      when there is no remote file; Push when its description is null or is
      not a number; otherwise the comparison of the local time with the
      parsed one. */
  function Decide(remoteFile: Option<DriveFile>, saveModifyTime: real, doubles: Doubles): (r: SyncAction)
    ensures r == Create <==> remoteFile.None?
    ensures remoteFile.Some? && remoteFile.value.description.None? ==> r == Push
    ensures remoteFile.Some? && remoteFile.value.description.Some? && doubles.parse(remoteFile.value.description.value).None? ==>
              r == Push
    ensures remoteFile.Some? && remoteFile.value.description.Some? && doubles.parse(remoteFile.value.description.value).Some? ==>
              r == CompareTimes(saveModifyTime, doubles.parse(remoteFile.value.description.value).value)
  {
    match remoteFile
    case None => Create
    case Some(file) =>
      match file.description
      case None => Push
      case Some(description) =>
        match doubles.parse(description)
        case None => Push
        case Some(remoteModifyTime) => CompareTimes(saveModifyTime, remoteModifyTime)
  }

  /** A remote file whose description is the local time, written the way
      Create and Push write it, is in sync with the local save, provided
      the number reads back as written. */
  lemma StampedFileInSync(file: DriveFile, saveModifyTime: real, doubles: Doubles)
    requires file.description == Some(doubles.format(saveModifyTime))
    requires doubles.parse(doubles.format(saveModifyTime)) == Some(saveModifyTime)
    ensures Decide(Some(file), saveModifyTime, doubles) == SyncAction.None
  {
  }

  /** The test GetScoreDatModifyTime applies to each listed .dat path: as
      written, to the whole path (TouhouSaveFile.GetScoreDatModifyTime); as
      evidently intended, to its file name
      (TouhouSaveFile.GetScoreDatModifyTimeByName). */
  datatype ScoreTest = FullPathTest | FileNameTest

  /** GetScoreDatModifyTime as the sync reads it under either test: the
      last-write time of the first listed .dat file that passes, or -1. */
  function LocalScoreTime(test: ScoreTest, saveFile: TouhouSaveFile, fs: FileSystem, env: Foreign): real
    reads fs`files, fs`order
  {
    var listing := Listed(fs.order, fs.files, saveFile.GameSavePath, ".dat");
    TimeOrSentinel(fs, env, if test == FullPathTest then FirstWithPrefix(listing, "score")
                            else FirstNamedWithPrefix(listing, "score"))
  }

  /** What the full-path test does to the sync. Under any save directory
      whose path does not start with "score" (every absolute path), the
      local time is -1, so a file the sync stamped itself, by Create or
      Push, is described with -1 and decides None on every later run,
      whatever the score file's time has become: once a remote file
      exists, a changed save is never pushed. */
  lemma FullPathStampNeverPushed(saveFile: TouhouSaveFile, stamped: FileSystem, later: FileSystem, env: Foreign,
                                 doubles: Doubles, file: DriveFile)
    requires saveFile.GameSavePath != "" && !StartsWith(saveFile.GameSavePath, "score")
    requires file.description == Some(doubles.format(LocalScoreTime(FullPathTest, saveFile, stamped, env)))
    requires doubles.parse(doubles.format(-1.0)) == Some(-1.0)
    ensures LocalScoreTime(FullPathTest, saveFile, later, env) == -1.0
    ensures Decide(Some(file), LocalScoreTime(FullPathTest, saveFile, later, env), doubles) == SyncAction.None
  {
    var dir := saveFile.GameSavePath;
    FullPathTestMissesEveryFile(dir, Listed(stamped.order, stamped.files, dir, ".dat"));
    FullPathTestMissesEveryFile(dir, Listed(later.order, later.files, dir, ".dat"));
    StampedFileInSync(file, -1.0, doubles);
  }

  /** The files after the virtual ZipSaveFile of either generation. */
  function ZippedFiles(saveFile: TouhouSaveFile, files: map<Path, FileEntry>, dirs: set<Path>, env: Foreign, now: real)
    : map<Path, FileEntry>
  {
    if saveFile.Generation == Old then
      OldGen.ArchivedFiles(saveFile.ZipSaveStoragePath, saveFile.GameExeName, saveFile.GameSavePath, files, dirs, env, now)
    else
      DirectoryArchived(files, dirs, saveFile.GameSavePath, saveFile.ZipSaveStoragePath, env, now)
  }

  /** saveFile.ZipSaveFile(), dispatched on the generation; its checksum is
      not used here. Only the new generation can fail, when its save
      directory is missing. */
  method ZipSaveFile(saveFile: TouhouSaveFile, fs: FileSystem, env: Foreign, now: real) returns (r: Outcome)
    modifies fs
    ensures fs.files == ZippedFiles(saveFile, old(fs.files), old(fs.dirs), env, now)
    ensures fs.dirs == old(fs.dirs) && fs.tempNames == old(fs.tempNames)
    ensures r.Fail? <==> saveFile.Generation == New && saveFile.GameSavePath !in old(fs.dirs)
    ensures r.Fail? ==> r.error == DirectoryNotFound(saveFile.GameSavePath)
    ensures r.Pass? ==> saveFile.ZipSaveStoragePath in fs.files
  {
    if saveFile.Generation == Old {
      var checksum := OldGen.ZipSaveFile(saveFile, fs, env, now);
      r := Pass;
    } else {
      var checksum := NewGen.ZipSaveFile(saveFile, fs, env, now);
      r := if checksum.Ok? then Pass else Fail(checksum.error);
    }
  }

  /** The remote file with the save's id, if any, carries the save's
      remote name. */
  ghost predicate RemoteNamedAs(saveFile: TouhouSaveFile, files: seq<DriveFile>)
    reads saveFile
    requires saveFile.GoogleDriveFileId.Some?
  {
    var k := IndexOfId(files, saveFile.GoogleDriveFileId.value);
    k >= 0 ==> files[k].name == saveFile.GetRemoteFileName()
  }

  /** id is the id of the first file named name in folder, and there is one. */
  ghost predicate HoldsIdOf(id: Option<FileId>, files: seq<DriveFile>, name: string, folder: FolderRef)
  {
    var remote := FirstWithName(files, name, folder);
    remote.Some? && id == Some(remote.value.id)
  }

  /** The old-generation games GetTouhouOldGenPath finds under the walked
      directory: (title, executable path) pairs. */
  function OldGenFound(tree: FindTouhouSavePath.DirTree): seq<(string, Path)>
  {
    FindTouhouSavePath.TryAddAll([], FindTouhouSavePath.ExeHits(FindTouhouSavePath.ExeNameToTouhou, FindTouhouSavePath.Walk(tree)))
  }

  /** The new-generation saves GetTouhouNewGenPath finds: none without a
      ShanghaiAlice folder, else the scan of its sub-folders, which can
      throw. */
  function NewGenFound(shanghaiAlice: Option<FindTouhouSavePath.DirTree>): Result<seq<(string, Path)>>
  {
    if shanghaiAlice.None? then Ok([])
    else FindTouhouSavePath.NewGenScan([], FindTouhouSavePath.FolderPaths(shanghaiAlice.value.subdirs))
  }

  class SyncHandler {
    var NewGenSaveFiles: array<TouhouSaveFile?>
    var OldGenSaveFiles: array<TouhouSaveFile?>
    const m_googleDriveHandler: GoogleDriveHandler
    /** The id of the Drive folder of the saves; None until InitGoogleDrive. */
    var m_googleDriveSaveFolder: FolderRef
    /** The test saveFile.GetScoreDatModifyTime() applies: FullPathTest as
        TouhouSaveFile.cs is written, FileNameTest as it is evidently meant. */
    const ScoreLookup: ScoreTest

    /** The constructor's first statement: the Drive handler is stored and
        there are no saves yet. */
    constructor(googleDriveHandler: GoogleDriveHandler, scoreLookup: ScoreTest)
      ensures m_googleDriveHandler == googleDriveHandler && ScoreLookup == scoreLookup
      ensures NewGenSaveFiles.Length == 0 && OldGenSaveFiles.Length == 0
      ensures m_googleDriveSaveFolder.None?
    {
      m_googleDriveHandler := googleDriveHandler;
      ScoreLookup := scoreLookup;
      NewGenSaveFiles := new TouhouSaveFile?[0];
      OldGenSaveFiles := new TouhouSaveFile?[0];
      m_googleDriveSaveFolder := Option.None;
    }

    /** The temporary names suffice for every save, and every old-generation
        title has an executable name. */
    predicate SavesBuildable(newGen: seq<(string, Path)>, oldGen: seq<(string, Path)>, names: seq<Path>)
    {
      && |newGen| + |oldGen| <= |names|
      && forall j :: 0 <= j < |oldGen| ==> oldGen[j].0 in Keys(FindTouhouSavePath.TouhouToExeName)
    }

    /** The saves are those built from the found pairs, in order, taking the
        temporary names in turn: the new generation first. */
    ghost predicate SavesBuilt(newGen: seq<(string, Path)>, oldGen: seq<(string, Path)>, names: seq<Path>)
      reads this, NewGenSaveFiles, OldGenSaveFiles
      requires |newGen| + |oldGen| <= |names|
    {
      && NewGenSaveFiles.Length == |newGen| && OldGenSaveFiles.Length == |oldGen|
      && (forall j :: 0 <= j < |newGen| ==> NewGen.BuiltNew(NewGenSaveFiles[j], newGen[j], names[j]))
      && (forall j :: 0 <= j < |oldGen| ==> OldGen.BuiltFrom(OldGenSaveFiles[j], oldGen[j], names[|newGen| + j]))
    }

    /** The second half of InitSaveFiles: the saves of both generations
        from what the searches found. */
    method BuildSaveFiles(newGenSavesFound: Dictionary<string, Path>, oldGenGamesFound: Dictionary<string, Path>,
                          fs: FileSystem, now: real)
      returns (r: Outcome)
      modifies this, fs
      ensures m_googleDriveSaveFolder == old(m_googleDriveSaveFolder)
      ensures fs.dirs == old(fs.dirs)
      ensures r.Pass? <==> SavesBuildable(newGenSavesFound.entries, oldGenGamesFound.entries, old(fs.tempNames))
      ensures r.Pass? ==>
                && fresh(NewGenSaveFiles) && fresh(OldGenSaveFiles)
                && fs.tempNames == old(fs.tempNames)[|newGenSavesFound.entries| + |oldGenGamesFound.entries|..]
                && SavesBuilt(newGenSavesFound.entries, oldGenGamesFound.entries, old(fs.tempNames))
                && (forall j :: 0 <= j < NewGenSaveFiles.Length ==> fresh(NewGenSaveFiles[j]))
                && (forall j :: 0 <= j < OldGenSaveFiles.Length ==> fresh(OldGenSaveFiles[j]))
    {
      var newGen := NewGen.ToTouhouSaveFiles(newGenSavesFound, fs, now);
      if newGen.Err? {
        return Fail(newGen.error);
      }
      NewGenSaveFiles := newGen.value;
      ghost var names := fs.tempNames;
      var oldGen := OldGen.ToTouhouSaveFiles(oldGenGamesFound, fs, now);
      if oldGen.Err? {
        return Fail(oldGen.error);
      }
      assert forall j :: 0 <= j < oldGen.value.Length ==> names[j] == old(fs.tempNames)[newGen.value.Length + j];
      OldGenSaveFiles := oldGen.value;
      r := Pass;
    }

    /** InitSaveFiles: find the old-generation games under earlyDir (the
        EarlyTouhouGamesDirectory setting) and the new-generation saves under
        appData, then build the new-generation saves and the old-generation
        saves, each taking temporary zip names in turn. The first exception
        ends it. */
    method InitSaveFiles(earlyDir: Path, oldTree: Option<FindTouhouSavePath.DirTree>, appData: Path,
                         shanghaiAlice: Option<FindTouhouSavePath.DirTree>, fs: FileSystem, now: real)
      returns (r: Outcome)
      requires oldTree.Some? ==> oldTree.value.path == earlyDir
      requires shanghaiAlice.Some? ==> shanghaiAlice.value.path == Combine(appData, "ShanghaiAlice")
      modifies this, fs
      ensures m_googleDriveSaveFolder == old(m_googleDriveSaveFolder)
      ensures fs.dirs == old(fs.dirs)
      ensures oldTree.None? ==> r == Fail(DirectoryNotFound(earlyDir))
      ensures r.Pass? <==> && oldTree.Some? && NewGenFound(shanghaiAlice).Ok?
                           && SavesBuildable(NewGenFound(shanghaiAlice).value, OldGenFound(oldTree.value), old(fs.tempNames))
      ensures r.Pass? ==>
                && fresh(NewGenSaveFiles) && fresh(OldGenSaveFiles)
                && SavesBuilt(NewGenFound(shanghaiAlice).value, OldGenFound(oldTree.value), old(fs.tempNames))
                && (forall j :: 0 <= j < NewGenSaveFiles.Length ==> fresh(NewGenSaveFiles[j]))
                && (forall j :: 0 <= j < OldGenSaveFiles.Length ==> fresh(OldGenSaveFiles[j]))
    {
      var oldGenGamesFound := FindTouhouSavePath.GetTouhouOldGenPath(earlyDir, oldTree);
      if oldGenGamesFound.Err? {
        return Fail(oldGenGamesFound.error);
      }
      var newGenSavesFound := FindTouhouSavePath.GetTouhouNewGenPath(appData, shanghaiAlice);
      if newGenSavesFound.Err? {
        return Fail(newGenSavesFound.error);
      }
      r := BuildSaveFiles(newGenSavesFound.value, oldGenGamesFound.value, fs, now);
    }

    /** InitGoogleDrive: the saves' folder is the first Drive folder named
        TouhouSaveSync, created when there is none. */
    method InitGoogleDrive()
      requires m_googleDriveHandler.Valid()
      modifies this, m_googleDriveHandler
      ensures m_googleDriveHandler.Valid()
      ensures m_googleDriveHandler.files == old(m_googleDriveHandler.files)
      ensures NewGenSaveFiles == old(NewGenSaveFiles) && OldGenSaveFiles == old(OldGenSaveFiles)
      ensures m_googleDriveSaveFolder.Some?
      ensures (exists i :: 0 <= i < |old(m_googleDriveHandler.folders)| && old(m_googleDriveHandler.folders)[i].0 == SaveFolderName) ==>
                && m_googleDriveHandler.folders == old(m_googleDriveHandler.folders)
                && m_googleDriveHandler.nextId == old(m_googleDriveHandler.nextId)
                && exists k :: && 0 <= k < |m_googleDriveHandler.folders|
                               && m_googleDriveHandler.folders[k] == (SaveFolderName, m_googleDriveSaveFolder.value)
                               && forall j :: 0 <= j < k ==> m_googleDriveHandler.folders[j].0 != SaveFolderName
      ensures (forall i :: 0 <= i < |old(m_googleDriveHandler.folders)| ==> old(m_googleDriveHandler.folders)[i].0 != SaveFolderName) ==>
                && m_googleDriveSaveFolder == Some(old(m_googleDriveHandler.nextId))
                && m_googleDriveHandler.folders == old(m_googleDriveHandler.folders) + [(SaveFolderName, old(m_googleDriveHandler.nextId))]
                && m_googleDriveHandler.nextId == old(m_googleDriveHandler.nextId) + 1
    {
      var id := m_googleDriveHandler.GetFolderId(SaveFolderName);
      m_googleDriveSaveFolder := Some(id);
    }

    /** saveFile.GetScoreDatModifyTime(), with the test of ScoreLookup:
        DirectoryNotFoundException when the save directory is missing. */
    method ReadScoreDatModifyTime(saveFile: TouhouSaveFile, fs: FileSystem, env: Foreign) returns (r: Result<real>)
      ensures saveFile.GameSavePath !in fs.dirs ==> r == Err(DirectoryNotFound(saveFile.GameSavePath))
      ensures saveFile.GameSavePath in fs.dirs ==> r == Ok(LocalScoreTime(ScoreLookup, saveFile, fs, env))
    {
      if ScoreLookup == FullPathTest {
        r := saveFile.GetScoreDatModifyTime(fs, env);
      } else {
        r := saveFile.GetScoreDatModifyTimeByName(fs, env);
      }
    }

    /** DetermineSyncAction: Create when there is no remote file, without
        reading the local time; otherwise the local score time is read
        first (Directory.GetFiles throws when the save directory is
        missing), then the description is looked at. */
    method DetermineSyncAction(remoteFile: Option<DriveFile>, saveFile: TouhouSaveFile, fs: FileSystem, env: Foreign,
                               doubles: Doubles)
      returns (r: Result<SyncAction>)
      ensures remoteFile.None? ==> r == Ok(Create)
      ensures remoteFile.Some? && saveFile.GameSavePath !in fs.dirs ==> r == Err(DirectoryNotFound(saveFile.GameSavePath))
      ensures remoteFile.Some? && saveFile.GameSavePath in fs.dirs ==>
                r == Ok(Decide(remoteFile, LocalScoreTime(ScoreLookup, saveFile, fs, env), doubles)) && r.value != Create
    {
      if remoteFile.None? {
        return Ok(Create);
      }
      var saveModifyTime := ReadScoreDatModifyTime(saveFile, fs, env);
      if saveModifyTime.Err? {
        return Err(saveModifyTime.error);
      }
      r := Ok(Decide(remoteFile, saveModifyTime.value, doubles));
    }

    /** PushSaves: zip the save, then replace the remote file's content and
        set its description to the local score time. The remote id is
        null until a remote file was found or created, and Update fails
        without one. */
    method PushSaves(saveFile: TouhouSaveFile, fs: FileSystem, env: Foreign, doubles: Doubles, now: real) returns (r: Outcome)
      requires m_googleDriveHandler.Valid()
      modifies fs, m_googleDriveHandler
      ensures m_googleDriveHandler.Valid()
      ensures m_googleDriveHandler.folders == old(m_googleDriveHandler.folders)
      ensures m_googleDriveHandler.nextId == old(m_googleDriveHandler.nextId)
      ensures fs.files == ZippedFiles(saveFile, old(fs.files), old(fs.dirs), env, now)
      ensures fs.dirs == old(fs.dirs) && fs.tempNames == old(fs.tempNames)
      ensures r.Fail? <==> || saveFile.GameSavePath !in old(fs.dirs)
                           || saveFile.GoogleDriveFileId.None?
                           || old(m_googleDriveHandler.GetFile(saveFile.GoogleDriveFileId.value)).Err?
      ensures saveFile.GameSavePath !in old(fs.dirs) ==> r == Fail(DirectoryNotFound(saveFile.GameSavePath))
      ensures r.Fail? ==> m_googleDriveHandler.files == old(m_googleDriveHandler.files)
      ensures r.Pass? ==>
                var id := saveFile.GoogleDriveFileId.value;
                var k := IndexOfId(old(m_googleDriveHandler.files), id);
                m_googleDriveHandler.files ==
                  old(m_googleDriveHandler.files)[k := DriveFile(id, saveFile.GameTitle, old(m_googleDriveHandler.files)[k].parent,
                                                                 fs.files[saveFile.ZipSaveStoragePath].content,
                                                                 Some(doubles.format(LocalScoreTime(ScoreLookup, saveFile, fs, env))))]
      ensures saveFile.GoogleDriveFileId.Some? && RemoteNamedAs(saveFile, old(m_googleDriveHandler.files)) ==>
                SameListing(old(m_googleDriveHandler.files), m_googleDriveHandler.files)
    {
      var zipped := ZipSaveFile(saveFile, fs, env, now);
      if zipped.Fail? {
        return zipped;
      }
      var saveModifyTime := ReadScoreDatModifyTime(saveFile, fs, env);
      if saveModifyTime.Err? {
        return Fail(saveModifyTime.error);
      }
      if saveFile.GoogleDriveFileId.None? {
        return Fail(ArgumentNull);
      }
      ghost var files := m_googleDriveHandler.files;
      r := m_googleDriveHandler.Update(saveFile.GetRemoteFileName(), fs, saveFile.ZipSaveStoragePath,
                                       saveFile.GoogleDriveFileId.value, doubles.format(saveModifyTime.value));
      if r.Pass? && RemoteNamedAs(saveFile, files) {
        var k := IndexOfId(files, saveFile.GoogleDriveFileId.value);
        ReplaceKeepsListing(files, k, m_googleDriveHandler.files[k]);
      }
    }

    /** The Create case of ExecuteSyncAction: zip the save, upload it into
        the save folder with the local score time as description, and record
        the new file's id on the save. The upload finds the zip just
        written, so only a missing save directory makes it fail. */
    method CreateRemoteSave(saveFile: TouhouSaveFile, fs: FileSystem, env: Foreign, doubles: Doubles, now: real)
      returns (r: Outcome)
      requires m_googleDriveHandler.Valid()
      modifies saveFile, fs, m_googleDriveHandler
      ensures m_googleDriveHandler.Valid()
      ensures m_googleDriveHandler.folders == old(m_googleDriveHandler.folders)
      ensures fs.files == ZippedFiles(saveFile, old(fs.files), old(fs.dirs), env, now)
      ensures fs.dirs == old(fs.dirs) && fs.tempNames == old(fs.tempNames)
      ensures r.Fail? <==> saveFile.GameSavePath !in old(fs.dirs)
      ensures r.Fail? ==> && r.error == DirectoryNotFound(saveFile.GameSavePath)
                          && m_googleDriveHandler.files == old(m_googleDriveHandler.files)
                          && m_googleDriveHandler.nextId == old(m_googleDriveHandler.nextId)
                          && saveFile.GoogleDriveFileId == old(saveFile.GoogleDriveFileId)
      ensures r.Pass? ==>
                && saveFile.GoogleDriveFileId == Some(old(m_googleDriveHandler.nextId))
                && m_googleDriveHandler.nextId == old(m_googleDriveHandler.nextId) + 1
                && m_googleDriveHandler.files ==
                     old(m_googleDriveHandler.files) +
                     [DriveFile(old(m_googleDriveHandler.nextId), saveFile.GameTitle, m_googleDriveSaveFolder,
                                fs.files[saveFile.ZipSaveStoragePath].content,
                                Some(doubles.format(LocalScoreTime(ScoreLookup, saveFile, fs, env))))]
    {
      var zipped := ZipSaveFile(saveFile, fs, env, now);
      if zipped.Fail? {
        return zipped;
      }
      var saveModifyTime := ReadScoreDatModifyTime(saveFile, fs, env);
      if saveModifyTime.Err? {
        return Fail(saveModifyTime.error);
      }
      var id := m_googleDriveHandler.Upload(saveFile.GetRemoteFileName(), fs, saveFile.ZipSaveStoragePath,
                                            m_googleDriveSaveFolder, doubles.format(saveModifyTime.value));
      saveFile.GoogleDriveFileId := Some(id.value);
      r := Pass;
    }

    /** ExecuteSyncAction. Create zips the save, uploads it into the save
        folder with the local score time as description and records the new
        file's id on the save; Push is PushSaves; Pull and None do nothing. */
    method ExecuteSyncAction(saveFile: TouhouSaveFile, action: SyncAction, fs: FileSystem, env: Foreign, doubles: Doubles,
                             now: real)
      returns (r: Outcome)
      requires m_googleDriveHandler.Valid()
      modifies saveFile, fs, m_googleDriveHandler
      ensures m_googleDriveHandler.Valid()
      ensures m_googleDriveHandler.folders == old(m_googleDriveHandler.folders)
      ensures fs.dirs == old(fs.dirs) && fs.tempNames == old(fs.tempNames)
      ensures action == Pull || action == SyncAction.None ==>
                r == Pass && unchanged(saveFile, fs, m_googleDriveHandler)
      ensures action == Create || action == Push ==> fs.files == ZippedFiles(saveFile, old(fs.files), old(fs.dirs), env, now)
      ensures action == Create ==> && (r.Fail? <==> saveFile.GameSavePath !in old(fs.dirs))
                                   && (r.Fail? ==> && r.error == DirectoryNotFound(saveFile.GameSavePath)
                                                   && m_googleDriveHandler.files == old(m_googleDriveHandler.files)
                                                   && m_googleDriveHandler.nextId == old(m_googleDriveHandler.nextId))
      ensures action == Create && r.Pass? ==>
                && saveFile.GoogleDriveFileId == Some(old(m_googleDriveHandler.nextId))
                && m_googleDriveHandler.nextId == old(m_googleDriveHandler.nextId) + 1
                && m_googleDriveHandler.files ==
                     old(m_googleDriveHandler.files) +
                     [DriveFile(old(m_googleDriveHandler.nextId), saveFile.GameTitle, m_googleDriveSaveFolder,
                                fs.files[saveFile.ZipSaveStoragePath].content,
                                Some(doubles.format(LocalScoreTime(ScoreLookup, saveFile, fs, env))))]
      ensures action != Create ==> saveFile.GoogleDriveFileId == old(saveFile.GoogleDriveFileId)
                                   && m_googleDriveHandler.nextId == old(m_googleDriveHandler.nextId)
      ensures action != Create && (saveFile.GoogleDriveFileId.Some? ==> RemoteNamedAs(saveFile, old(m_googleDriveHandler.files))) ==>
                SameListing(old(m_googleDriveHandler.files), m_googleDriveHandler.files)
      ensures action == Push ==>
                && (r.Fail? <==> || saveFile.GameSavePath !in old(fs.dirs)
                                 || saveFile.GoogleDriveFileId.None?
                                 || old(m_googleDriveHandler.GetFile(saveFile.GoogleDriveFileId.value)).Err?)
                && (r.Fail? ==> m_googleDriveHandler.files == old(m_googleDriveHandler.files))
                && (r.Pass? ==>
                      var id := saveFile.GoogleDriveFileId.value;
                      var k := IndexOfId(old(m_googleDriveHandler.files), id);
                      m_googleDriveHandler.files ==
                        old(m_googleDriveHandler.files)[k := DriveFile(id, saveFile.GameTitle, old(m_googleDriveHandler.files)[k].parent,
                                                                       fs.files[saveFile.ZipSaveStoragePath].content,
                                                                       Some(doubles.format(LocalScoreTime(ScoreLookup, saveFile, fs, env))))])
    {
      if action == Create {
        r := CreateRemoteSave(saveFile, fs, env, doubles, now);
      } else if action == Push {
        r := PushSaves(saveFile, fs, env, doubles, now);
      } else {
        r := Pass;
      }
    }

    /** The save has a remote file, found by name in the save folder of
        the given listing, and the save holds that file's id. */
    ghost predicate Synced(saveFile: TouhouSaveFile?, files: seq<DriveFile>)
      reads this, saveFile
    {
      saveFile != null && HoldsIdOf(saveFile.GoogleDriveFileId, files, saveFile.GetRemoteFileName(), m_googleDriveSaveFolder)
    }

    /** The second half of SyncSave, once the save's remote file was found
        and its id stored on the save: decide against the local score time,
        then execute. A found file rules out Create, so the save keeps its
        id and no file is added. */
    method DecideAndExecute(saveFile: TouhouSaveFile, found: DriveFile, fs: FileSystem, env: Foreign, doubles: Doubles,
                            now: real, ghost k: nat)
      returns (r: Outcome)
      requires m_googleDriveHandler.Valid()
      requires k < |m_googleDriveHandler.files| && m_googleDriveHandler.files[k] == found
      requires saveFile.GoogleDriveFileId == Some(found.id) && RemoteNamedAs(saveFile, m_googleDriveHandler.files)
      modifies saveFile, fs, m_googleDriveHandler
      ensures saveFile.GoogleDriveFileId == old(saveFile.GoogleDriveFileId)
      ensures m_googleDriveHandler.Valid()
      ensures m_googleDriveHandler.folders == old(m_googleDriveHandler.folders)
      ensures m_googleDriveHandler.nextId == old(m_googleDriveHandler.nextId)
      ensures SameListing(old(m_googleDriveHandler.files), m_googleDriveHandler.files)
      ensures fs.dirs == old(fs.dirs) && fs.tempNames == old(fs.tempNames)
      ensures saveFile.GameSavePath !in old(fs.dirs) ==>
                && r == Fail(DirectoryNotFound(saveFile.GameSavePath))
                && fs.files == old(fs.files) && m_googleDriveHandler.files == old(m_googleDriveHandler.files)
      ensures saveFile.GameSavePath in old(fs.dirs) ==>
                var action := Decide(Some(found), old(LocalScoreTime(ScoreLookup, saveFile, fs, env)), doubles);
                && (action == Pull || action == SyncAction.None ==>
                      r == Pass && fs.files == old(fs.files) && m_googleDriveHandler.files == old(m_googleDriveHandler.files))
                && (action == Push ==>
                      && r == Pass
                      && fs.files == ZippedFiles(saveFile, old(fs.files), old(fs.dirs), env, now)
                      && m_googleDriveHandler.files ==
                           old(m_googleDriveHandler.files)[k := DriveFile(found.id, saveFile.GameTitle, found.parent,
                                                                          fs.files[saveFile.ZipSaveStoragePath].content,
                                                                          Some(doubles.format(LocalScoreTime(ScoreLookup, saveFile, fs, env))))])
    {
      IndexOfDistinctId(m_googleDriveHandler.files, k);
      ghost var saveModifyTime := LocalScoreTime(ScoreLookup, saveFile, fs, env);
      var action := DetermineSyncAction(Some(found), saveFile, fs, env, doubles);
      if action.Err? {
        return Fail(action.error);
      }
      assert action.value == Decide(Some(found), saveModifyTime, doubles);
      r := ExecuteSyncAction(saveFile, action.value, fs, env, doubles, now);
    }

    /** One iteration of InitialSync's loops: look the save's remote file up
        by name, store its id on the save (remoteFile.Id throws
        NullReferenceException when there is none), then decide and execute.
        Since a file was found, the decision is never Create, so no file is
        added and no file changes id, name or folder. */
    method SyncSave(saveFile: TouhouSaveFile, fs: FileSystem, env: Foreign, doubles: Doubles, now: real) returns (r: Outcome)
      requires m_googleDriveHandler.Valid()
      modifies saveFile, fs, m_googleDriveHandler
      ensures m_googleDriveHandler.Valid()
      ensures m_googleDriveHandler.folders == old(m_googleDriveHandler.folders)
      ensures m_googleDriveHandler.nextId == old(m_googleDriveHandler.nextId)
      ensures SameListing(old(m_googleDriveHandler.files), m_googleDriveHandler.files)
      ensures fs.dirs == old(fs.dirs) && fs.tempNames == old(fs.tempNames)
      ensures FirstWithName(old(m_googleDriveHandler.files), saveFile.GetRemoteFileName(), m_googleDriveSaveFolder).None? ==>
                r == Fail(NullReference) && unchanged(saveFile, fs, m_googleDriveHandler)
      ensures FirstWithName(old(m_googleDriveHandler.files), saveFile.GetRemoteFileName(), m_googleDriveSaveFolder).Some? ==>
                Synced(saveFile, old(m_googleDriveHandler.files))
      ensures FirstWithName(old(m_googleDriveHandler.files), saveFile.GetRemoteFileName(), m_googleDriveSaveFolder).Some? &&
              saveFile.GameSavePath !in old(fs.dirs) ==>
                && r == Fail(DirectoryNotFound(saveFile.GameSavePath))
                && fs.files == old(fs.files) && m_googleDriveHandler.files == old(m_googleDriveHandler.files)
      ensures var found := FirstWithName(old(m_googleDriveHandler.files), saveFile.GetRemoteFileName(), m_googleDriveSaveFolder);
              found.Some? && saveFile.GameSavePath in old(fs.dirs) ==>
                var action := Decide(found, old(LocalScoreTime(ScoreLookup, saveFile, fs, env)), doubles);
                && (action == Pull || action == SyncAction.None ==>
                      r == Pass && fs.files == old(fs.files) && m_googleDriveHandler.files == old(m_googleDriveHandler.files))
                && (action == Push ==>
                      var k := IndexOfId(old(m_googleDriveHandler.files), found.value.id);
                      && r == Pass
                      && fs.files == ZippedFiles(saveFile, old(fs.files), old(fs.dirs), env, now)
                      && m_googleDriveHandler.files ==
                           old(m_googleDriveHandler.files)[k := DriveFile(found.value.id, saveFile.GameTitle, found.value.parent,
                                                                          fs.files[saveFile.ZipSaveStoragePath].content,
                                                                          Some(doubles.format(LocalScoreTime(ScoreLookup, saveFile, fs, env))))])
    {
      var remoteFile := m_googleDriveHandler.FindFirstFileWithName(saveFile.GetRemoteFileName(), m_googleDriveSaveFolder);
      if remoteFile.None? {
        return Fail(NullReference);
      }
      saveFile.GoogleDriveFileId := Some(remoteFile.value.id);
      ghost var files := m_googleDriveHandler.files;
      ghost var k :| 0 <= k < |files| && files[k] == remoteFile.value && Matches(files[k], saveFile.GameTitle, m_googleDriveSaveFolder);
      IndexOfDistinctId(files, k);
      r := DecideAndExecute(saveFile, remoteFile.value, fs, env, doubles, now, k);
    }

    /** SyncSave seen against the listing at the start of the sync, which
        the listing before the call agrees with on ids, names and folders. */
    method SyncSaveAgainst(saveFile: TouhouSaveFile, fs: FileSystem, env: Foreign, doubles: Doubles, now: real,
                           ghost files: seq<DriveFile>)
      returns (r: Outcome)
      requires m_googleDriveHandler.Valid() && SameListing(files, m_googleDriveHandler.files)
      modifies saveFile, fs, m_googleDriveHandler
      ensures m_googleDriveHandler.Valid()
      ensures m_googleDriveHandler.folders == old(m_googleDriveHandler.folders)
      ensures m_googleDriveHandler.nextId == old(m_googleDriveHandler.nextId)
      ensures SameListing(files, m_googleDriveHandler.files)
      ensures fs.dirs == old(fs.dirs) && fs.tempNames == old(fs.tempNames)
      ensures r.Pass? ==> HoldsIdOf(saveFile.GoogleDriveFileId, files, saveFile.GameTitle, m_googleDriveSaveFolder)
    {
      ghost var before := m_googleDriveHandler.files;
      r := SyncSave(saveFile, fs, env, doubles, now);
      FirstWithNameSameListing(files, before, saveFile.GetRemoteFileName(), m_googleDriveSaveFolder);
    }

    /** The saves are all present. */
    ghost predicate SavesPresent()
      reads this, NewGenSaveFiles, OldGenSaveFiles
    {
      && (forall j :: 0 <= j < NewGenSaveFiles.Length ==> NewGenSaveFiles[j] != null)
      && (forall j :: 0 <= j < OldGenSaveFiles.Length ==> OldGenSaveFiles[j] != null)
    }

    /** Every save of the sequence holds the id of the remote file with its
        name in files. */
    ghost predicate AllHoldIds(saves: seq<TouhouSaveFile?>, files: seq<DriveFile>)
      reads this, saves
    {
      forall k :: 0 <= k < |saves| ==>
        saves[k] != null && HoldsIdOf(saves[k].GoogleDriveFileId, files, saves[k].GameTitle, m_googleDriveSaveFolder)
    }

    /** The body of SyncSaves' loop: syncs the save at index i, keeping the
        saves before it and those of kept synced. A save may occur more than
        once; syncing it again stores the same id. */
    method SyncSaveAt(saves: array<TouhouSaveFile?>, i: nat, fs: FileSystem, env: Foreign, doubles: Doubles, now: real,
                      ghost files: seq<DriveFile>, ghost kept: seq<TouhouSaveFile?>)
      returns (r: Outcome)
      requires m_googleDriveHandler.Valid() && SameListing(files, m_googleDriveHandler.files)
      requires i < saves.Length && saves[i] != null
      requires forall j :: 0 <= j < i ==>
                 saves[j] != null && HoldsIdOf(saves[j].GoogleDriveFileId, files, saves[j].GameTitle, m_googleDriveSaveFolder)
      requires AllHoldIds(kept, files)
      modifies saves[i], fs, m_googleDriveHandler
      ensures m_googleDriveHandler.Valid()
      ensures m_googleDriveHandler.folders == old(m_googleDriveHandler.folders)
      ensures m_googleDriveHandler.nextId == old(m_googleDriveHandler.nextId)
      ensures SameListing(files, m_googleDriveHandler.files)
      ensures fs.dirs == old(fs.dirs) && fs.tempNames == old(fs.tempNames)
      ensures r.Pass? ==> forall j :: 0 <= j <= i ==>
                saves[j] != null && HoldsIdOf(saves[j].GoogleDriveFileId, files, saves[j].GameTitle, m_googleDriveSaveFolder)
      ensures r.Pass? ==> AllHoldIds(kept, files)
    {
      var saveFile := saves[i];
      r := SyncSaveAgainst(saveFile, fs, env, doubles, now, files);
      if r.Fail? {
        return;
      }
      forall k | 0 <= k < i
        ensures HoldsIdOf(saves[k].GoogleDriveFileId, files, saves[k].GameTitle, m_googleDriveSaveFolder)
      {
        if saves[k] != saveFile {
          assert saves[k].GoogleDriveFileId == old(saves[k].GoogleDriveFileId);
        }
      }
      forall k | 0 <= k < |kept|
        ensures HoldsIdOf(kept[k].GoogleDriveFileId, files, kept[k].GameTitle, m_googleDriveSaveFolder)
      {
        if kept[k] != saveFile {
          assert kept[k].GoogleDriveFileId == old(kept[k].GoogleDriveFileId);
        }
      }
    }

    /** One of InitialSync's two loops: every save of the array is synced in
        turn, and the first exception ends the loop. files is the listing at
        the start of the sync; the saves of kept were synced before and stay
        synced, even when a save of the array is one of them. */
    method SyncSaves(saves: array<TouhouSaveFile?>, fs: FileSystem, env: Foreign, doubles: Doubles, now: real,
                     ghost files: seq<DriveFile>, ghost kept: seq<TouhouSaveFile?>)
      returns (r: Outcome)
      requires m_googleDriveHandler.Valid() && SameListing(files, m_googleDriveHandler.files)
      requires forall j :: 0 <= j < saves.Length ==> saves[j] != null
      requires AllHoldIds(kept, files)
      modifies fs, m_googleDriveHandler, saves[..]
      ensures m_googleDriveHandler.Valid()
      ensures m_googleDriveHandler.folders == old(m_googleDriveHandler.folders)
      ensures m_googleDriveHandler.nextId == old(m_googleDriveHandler.nextId)
      ensures SameListing(files, m_googleDriveHandler.files)
      ensures fs.dirs == old(fs.dirs) && fs.tempNames == old(fs.tempNames)
      ensures r.Pass? ==> AllHoldIds(saves[..], files) && AllHoldIds(kept, files)
    {
      var i := 0;
      while i < saves.Length
        invariant 0 <= i <= saves.Length
        invariant m_googleDriveHandler.Valid()
        invariant m_googleDriveHandler.folders == old(m_googleDriveHandler.folders)
        invariant m_googleDriveHandler.nextId == old(m_googleDriveHandler.nextId)
        invariant SameListing(files, m_googleDriveHandler.files)
        invariant fs.dirs == old(fs.dirs) && fs.tempNames == old(fs.tempNames)
        invariant forall j :: 0 <= j < i ==>
                    saves[j] != null && HoldsIdOf(saves[j].GoogleDriveFileId, files, saves[j].GameTitle, m_googleDriveSaveFolder)
        invariant AllHoldIds(kept, files)
      {
        r := SyncSaveAt(saves, i, fs, env, doubles, now, files, kept);
        if r.Fail? {
          return;
        }
        i := i + 1;
      }
      assert forall j :: 0 <= j < saves.Length ==> saves[..][j] == saves[j];
      r := Pass;
    }

    /** InitialSync: every new-generation save, then every old-generation
        save, is synced in turn, and the first exception ends the sync. A
        save without a remote file faults on remoteFile.Id, so Create is
        never reached: no file is uploaded, and the files keep their ids,
        names and folders. When the sync completes, every save holds the id
        of the remote file with its name. */
    method InitialSync(fs: FileSystem, env: Foreign, doubles: Doubles, now: real) returns (r: Outcome)
      requires m_googleDriveHandler.Valid() && SavesPresent()
      modifies fs, m_googleDriveHandler, NewGenSaveFiles[..], OldGenSaveFiles[..]
      ensures m_googleDriveHandler.Valid()
      ensures m_googleDriveHandler.folders == old(m_googleDriveHandler.folders)
      ensures m_googleDriveHandler.nextId == old(m_googleDriveHandler.nextId)
      ensures SameListing(old(m_googleDriveHandler.files), m_googleDriveHandler.files)
      ensures fs.dirs == old(fs.dirs) && fs.tempNames == old(fs.tempNames)
      ensures r.Pass? ==> && AllHoldIds(NewGenSaveFiles[..], old(m_googleDriveHandler.files))
                          && AllHoldIds(OldGenSaveFiles[..], old(m_googleDriveHandler.files))
    {
      ghost var files := m_googleDriveHandler.files;
      r := SyncSaves(NewGenSaveFiles, fs, env, doubles, now, files, []);
      if r.Fail? {
        return;
      }
      r := SyncSaves(OldGenSaveFiles, fs, env, doubles, now, files, NewGenSaveFiles[..]);
    }
  }

  /** new SyncHandler(googleDriveHandler): the constructor stores the
      handler, then runs InitSaveFiles, InitGoogleDrive and InitialSync; an
      exception in any of them leaves no handler. When one is built, every
      save holds the id of the remote file with its name, as listed before
      the sync, and the listing keeps its ids, names and folders. */
  method NewSyncHandler(googleDriveHandler: GoogleDriveHandler, earlyDir: Path, oldTree: Option<FindTouhouSavePath.DirTree>,
                        appData: Path, shanghaiAlice: Option<FindTouhouSavePath.DirTree>,
                        fs: FileSystem, env: Foreign, doubles: Doubles, now: real, scoreLookup: ScoreTest)
    returns (r: Result<SyncHandler>)
    requires googleDriveHandler.Valid()
    requires oldTree.Some? ==> oldTree.value.path == earlyDir
    requires shanghaiAlice.Some? ==> shanghaiAlice.value.path == Combine(appData, "ShanghaiAlice")
    modifies fs, googleDriveHandler
    ensures googleDriveHandler.Valid()
    ensures SameListing(old(googleDriveHandler.files), googleDriveHandler.files)
    ensures fs.dirs == old(fs.dirs)
    ensures oldTree.None? ==> r == Err(DirectoryNotFound(earlyDir))
    ensures r.Ok? ==> && fresh(r.value)
                      && r.value.m_googleDriveHandler == googleDriveHandler && r.value.ScoreLookup == scoreLookup
                      && r.value.AllHoldIds(r.value.NewGenSaveFiles[..], old(googleDriveHandler.files))
                      && r.value.AllHoldIds(r.value.OldGenSaveFiles[..], old(googleDriveHandler.files))
  {
    var handler := new SyncHandler(googleDriveHandler, scoreLookup);
    var initSaves := handler.InitSaveFiles(earlyDir, oldTree, appData, shanghaiAlice, fs, now);
    if initSaves.Fail? {
      return Err(initSaves.error);
    }
    handler.InitGoogleDrive();
    var synced := handler.InitialSync(fs, env, doubles, now);
    if synced.Fail? {
      return Err(synced.error);
    }
    r := Ok(handler);
  }
}
