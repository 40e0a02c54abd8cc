/** SaveFiles/TouhouSaveFile.cs, the older revision of a local save: the
    fields every save carries and the file-system queries they answer. The
    two sealed subclasses (TouhouOldGenSaveFile, TouhouNewGenSaveFile) are
    told apart by Generation; their own operations live in the modules of
    their files. */
module TouhouSaveFiles {
  import opened Common
  import opened Platform
  import opened GoogleDrive

  datatype TouhouGameGeneration = New | Old

  /** The first path of a listing that itself starts with prefix: what the
      foreach of GetScoreDatModifyTime finds, since it tests the full path f
      and not its file name. */
  function FirstWithPrefix(paths: seq<Path>, prefix: string): Option<Path>
  {
    if paths == [] then None
    else if StartsWith(paths[0], prefix) then Some(paths[0])
    else FirstWithPrefix(paths[1..], prefix)
  }

  /** File.GetLastWriteTime of the file found, in seconds since the epoch, or
      the sentinel -1 when nothing was found. */
  function TimeOrSentinel(fs: FileSystem, env: Foreign, found: Option<Path>): real
    reads fs`files
  {
    match found
    case None => -1.0
    case Some(f) => fs.LastWriteSeconds(f, env)
  }

  class TouhouSaveFile {
    const GameTitle: string
    const GameSavePath: Path
    const ZipSaveStoragePath: Path
    const Generation: TouhouGameGeneration
    /** m_gameExeName of TouhouOldGenSaveFile: the title's executable name;
        empty for the new generation, which has no such field. */
    const GameExeName: string
    /** GoogleDriveFileId, which SyncHandler.cs assigns and reads although
        TouhouSaveFile.cs does not declare it; null until assigned. */
    var GoogleDriveFileId: Option<FileId>

    /** The base constructor only stores its arguments; it touches no file. */
    constructor(gameTitle: string, zipSaveStoragePath: Path, gameSavePath: Path,
                generation: TouhouGameGeneration, gameExeName: string)
      ensures GameTitle == gameTitle && ZipSaveStoragePath == zipSaveStoragePath
      ensures GameSavePath == gameSavePath && Generation == generation
      ensures GameExeName == gameExeName && GoogleDriveFileId.None?
    {
      GameTitle := gameTitle;
      ZipSaveStoragePath := zipSaveStoragePath;
      Generation := generation;
      GameSavePath := gameSavePath;
      GameExeName := gameExeName;
      GoogleDriveFileId := None;
    }

    /** GenerateCheckSumForZipFile: "" when the zip is missing, else the
        lower-case hexadecimal MD5 of its bytes, 32 digits. */
    function GenerateCheckSumForZipFile(fs: FileSystem, env: Foreign): (r: string)
      reads fs
      ensures r == "" <==> ZipSaveStoragePath !in fs.files
      ensures ZipSaveStoragePath in fs.files ==>
                r == LowerHex(env.md5(fs.files[ZipSaveStoragePath].content)) && |r| == 32
    {
      ZipChecksum(fs.files, ZipSaveStoragePath, env)
    }

    /** GetZipSaveFileModifyTime: File.GetLastWriteTime of the zip. */
    function GetZipSaveFileModifyTime(fs: FileSystem, env: Foreign): real
      reads fs
    {
      fs.LastWriteSeconds(ZipSaveStoragePath, env)
    }

    /** GetRemoteFileName: the name the save is stored under remotely. */
    function GetRemoteFileName(): string
    {
      GameTitle
    }

    /** GetScoreDatModifyTime as written: the first listed .dat path that
        starts with "score" gives its last-write time, else -1. The test is
        applied to the whole path (ScoreFileMissedByFullPathTest).
        Directory.GetFiles throws when the save directory is missing. */
    method GetScoreDatModifyTime(fs: FileSystem, env: Foreign) returns (r: Result<real>)
      ensures GameSavePath !in fs.dirs ==> r == Err(DirectoryNotFound(GameSavePath))
      ensures GameSavePath in fs.dirs ==>
                r == Ok(TimeOrSentinel(fs, env, FirstWithPrefix(Listed(fs.order, fs.files, GameSavePath, ".dat"), "score")))
    {
      var listing := fs.GetFiles(GameSavePath, ".dat");
      if listing.Err? {
        return Err(listing.error);
      }
      var paths := listing.value;
      var i := 0;
      while i < |paths|
        invariant 0 <= i <= |paths|
        invariant FirstWithPrefix(paths, "score") == FirstWithPrefix(paths[i..], "score")
      {
        assert paths[i..][1..] == paths[i + 1..];
        var f := paths[i];
        if StartsWith(f, "score") {
          return Ok(fs.LastWriteSeconds(f, env));
        }
        i := i + 1;
      }
      r := Ok(-1.0);
    }

    /** The score-time lookup as evidently intended, testing each listed
        path's file name as TouhouLocalSaveFile.GetScorePath does; the sync
        logic reads the local time through this method. */
    method GetScoreDatModifyTimeByName(fs: FileSystem, env: Foreign) returns (r: Result<real>)
      ensures GameSavePath !in fs.dirs ==> r == Err(DirectoryNotFound(GameSavePath))
      ensures GameSavePath in fs.dirs ==>
                r == Ok(TimeOrSentinel(fs, env, FirstNamedWithPrefix(Listed(fs.order, fs.files, GameSavePath, ".dat"), "score")))
    {
      var listing := fs.GetFiles(GameSavePath, ".dat");
      if listing.Err? {
        return Err(listing.error);
      }
      var paths := listing.value;
      var i := 0;
      while i < |paths|
        invariant 0 <= i <= |paths|
        invariant FirstNamedWithPrefix(paths, "score") == FirstNamedWithPrefix(paths[i..], "score")
      {
        assert paths[i..][1..] == paths[i + 1..];
        var f := paths[i];
        var fileName := FileName(f);
        if StartsWith(fileName, "score") {
          return Ok(fs.LastWriteSeconds(f, env));
        }
        i := i + 1;
      }
      r := Ok(-1.0);
    }
  }

  /** A listed path of a save directory that is not itself named starting
      with "score" never passes the full-path test: the path begins with the
      directory and a separator, so its first five characters are the
      directory's, or contain that separator. */
  lemma {:induction false} FullPathTestMissesEveryFile(dir: Path, paths: seq<Path>)
    requires dir != "" && !StartsWith(dir, "score")
    requires forall i :: 0 <= i < |paths| ==> ParentPath(paths[i]) == dir
    ensures FirstWithPrefix(paths, "score") == None
  {
    if paths != [] {
      var p := paths[0];
      var k := LastIndexOf(p, DirectorySeparatorChar);
      assert k >= 0 && p[..k] == dir && p[k] == DirectorySeparatorChar;
      FullPathTestMissesEveryFile(dir, paths[1..]);
    }
  }

  /** The discrepancy: a save directory holding score.dat, listed under a
      directory whose path does not start with "score" (any absolute path,
      C:\Games\th07 say), gives -1 under the full-path test while its file
      name test finds the file. */
  lemma ScoreFileMissedByFullPathTest(dir: Path)
    requires dir != "" && !StartsWith(dir, "score")
    ensures var p := dir + [DirectorySeparatorChar] + "score.dat";
            FirstWithPrefix([p], "score") == None && FirstNamedWithPrefix([p], "score") == Some(p)
  {
    var p := dir + [DirectorySeparatorChar] + "score.dat";
    FileNameAfterSeparator(dir, "score.dat");
    assert FileName(p)[..5] == "score";
    assert p[..|dir|] == dir;
    assert LastIndexOf(p, DirectorySeparatorChar) == |dir| by {
      assert p[|dir|] == DirectorySeparatorChar;
      assert forall j :: |dir| < j < |p| ==> p[j] == "score.dat"[j - |dir| - 1];
    }
    FullPathTestMissesEveryFile(dir, [p]);
  }
}
