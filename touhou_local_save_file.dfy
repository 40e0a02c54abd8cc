/** SaveFiles/TouhouLocalSaveFile.cs, the newer revision of a local save:
    the fields every save carries, the metadata the sync compares, and the
    file-system queries behind it. The two sealed subclasses
    (TouhouLocalOldGenSaveFile, TouhouLocalNewGenSaveFile) are told apart by
    Generation; their own operations live in the modules of their files. */
module TouhouLocalSaveFiles {
  import opened Common
  import opened Platform

  datatype TouhouGameGeneration = New | Old

  /** The metadata of a freshly zipped save. Times are seconds since the
      Unix epoch; the sizes are byte counts, -1 for a missing score file. */
  datatype SaveFileMetadata = SaveFileMetadata(
    Checksum: string,
    ZipLastMod: real,
    ZipSize: real,
    DatLastMod: real,
    DatSize: real)

  class TouhouLocalSaveFile {
    const GameTitle: string
    const GameSavePath: Path
    const ZipSaveStoragePath: Path
    const Generation: TouhouGameGeneration
    /** m_gameExeName of TouhouLocalOldGenSaveFile; empty for the new
        generation, which has no such field. */
    const GameExeName: string

    /** The base constructor stores its arguments and then validates the save
        path: for the new generation, whose save directory is only guessed,
        Directory.CreateDirectory makes sure it exists. */
    constructor(gameTitle: string, zipSaveStoragePath: Path, gameSavePath: Path,
                generation: TouhouGameGeneration, gameExeName: string, fs: FileSystem)
      modifies fs
      ensures GameTitle == gameTitle && ZipSaveStoragePath == zipSaveStoragePath
      ensures GameSavePath == gameSavePath && Generation == generation && GameExeName == gameExeName
      ensures fs.dirs == if generation == New then old(fs.dirs) + {gameSavePath} else old(fs.dirs)
      ensures fs.files == old(fs.files) && fs.order == old(fs.order) && fs.tempNames == old(fs.tempNames)
    {
      GameTitle := gameTitle;
      ZipSaveStoragePath := zipSaveStoragePath;
      Generation := generation;
      GameSavePath := gameSavePath;
      GameExeName := gameExeName;
      new;
      if Generation == New {
        fs.CreateDirectory(GameSavePath);
      }
    }

    /** GenerateCheckSumForZipFile: "" when the zip is missing, else the
        lower-case hexadecimal MD5 of its bytes, 32 digits. */
    function GenerateCheckSumForZipFile(fs: FileSystem, env: Foreign): (r: string)
      reads fs`files
      ensures r == "" <==> ZipSaveStoragePath !in fs.files
      ensures ZipSaveStoragePath in fs.files ==>
                r == LowerHex(env.md5(fs.files[ZipSaveStoragePath].content)) && |r| == 32
    {
      ZipChecksum(fs.files, ZipSaveStoragePath, env)
    }

    /** GetZipSaveFileModifyTime: File.GetLastWriteTime of the zip. */
    function GetZipSaveFileModifyTime(fs: FileSystem, env: Foreign): real
      reads fs`files
    {
      fs.LastWriteSeconds(ZipSaveStoragePath, env)
    }

    /** What GetScorePath finds: the first .dat file of the save directory
        whose name starts with "score", None when there is none, and
        DirectoryNotFound when the directory is missing. */
    function ScorePathOf(fs: FileSystem): Result<Option<Path>>
      reads fs`files, fs`dirs, fs`order
    {
      if GameSavePath !in fs.dirs then Err(DirectoryNotFound(GameSavePath))
      else Ok(FirstNamedWithPrefix(Listed(fs.order, fs.files, GameSavePath, ".dat"), "score"))
    }

    /** What GetScoreDatModifyTime returns: the score file's last-write time,
        or -1 without one. */
    function DatLastModOf(fs: FileSystem, env: Foreign): Result<real>
      reads fs`files, fs`dirs, fs`order
    {
      match ScorePathOf(fs)
      case Err(e) => Err(e)
      case Ok(None) => Ok(-1.0)
      case Ok(Some(f)) => Ok(fs.LastWriteSeconds(f, env))
    }

    /** What GetScoreDatSize returns: the score file's length in bytes, or -1
        without one. */
    function DatSizeOf(fs: FileSystem): Result<real>
      reads fs`files, fs`dirs, fs`order
    {
      match ScorePathOf(fs)
      case Err(e) => Err(e)
      case Ok(None) => Ok(-1.0)
      case Ok(Some(f)) =>
        match fs.Length(f)
        case Err(e) => Err(e)
        case Ok(n) => Ok(n as real)
    }

    /** The metadata both ZipSaveFile overrides gather once the zip is
        written, evaluated in their order: checksum, score size (which throws
        on a missing save directory), zip length (which throws on a missing
        zip), score time, zip time. */
    function MetadataOf(fs: FileSystem, env: Foreign): Result<SaveFileMetadata>
      reads fs`files, fs`dirs, fs`order
    {
      var checksum := GenerateCheckSumForZipFile(fs, env);
      match DatSizeOf(fs)
      case Err(e) => Err(e)
      case Ok(datSize) =>
        match fs.Length(ZipSaveStoragePath)
        case Err(e) => Err(e)
        case Ok(zipLength) =>
          match DatLastModOf(fs, env)
          case Err(e) => Err(e)
          case Ok(datLastMod) =>
            Ok(SaveFileMetadata(checksum, GetZipSaveFileModifyTime(fs, env), zipLength as real, datLastMod, datSize))
    }

    /** GetScorePath: scans the .dat files of the save directory in listing
        order and returns the first whose file name starts with "score". */
    method GetScorePath(fs: FileSystem) returns (r: Result<Option<Path>>)
      ensures r.Err? <==> GameSavePath !in fs.dirs
      ensures r.Err? ==> r.error == DirectoryNotFound(GameSavePath)
      ensures r.Ok? ==> r.value == FirstNamedWithPrefix(Listed(fs.order, fs.files, GameSavePath, ".dat"), "score")
    {
      var listing := fs.GetFiles(GameSavePath, ".dat");
      if listing.Err? {
        return Err(listing.error);
      }
      var paths := listing.value;
      var i := 0;
      while i < |paths|
        invariant 0 <= i <= |paths|
        invariant FirstNamedWithPrefix(paths, "score") == FirstNamedWithPrefix(paths[i..], "score")
      {
        assert paths[i..][1..] == paths[i + 1..];
        var f := paths[i];
        var filename := FileName(f);
        if StartsWith(filename, "score") {
          return Ok(Some(f));
        }
        i := i + 1;
      }
      r := Ok(None);
    }

    /** GetScoreDatModifyTime */
    method GetScoreDatModifyTime(fs: FileSystem, env: Foreign) returns (r: Result<real>)
      ensures r == DatLastModOf(fs, env)
    {
      var f := GetScorePath(fs);
      if f.Err? {
        return Err(f.error);
      }
      if f.value.Some? {
        return Ok(fs.LastWriteSeconds(f.value.value, env));
      }
      r := Ok(-1.0);
    }

    /** GetScoreDatSize */
    method GetScoreDatSize(fs: FileSystem) returns (r: Result<real>)
      ensures r == DatSizeOf(fs)
    {
      var f := GetScorePath(fs);
      if f.Err? {
        return Err(f.error);
      }
      if f.value.Some? {
        var length := fs.Length(f.value.value);
        if length.Err? {
          return Err(length.error);
        }
        return Ok(length.value as real);
      }
      r := Ok(-1.0);
    }

    /** The metadata statements shared by both ZipSaveFile overrides:
        checksum, score size, zip length, score time, zip time. */
    method GatherMetadata(fs: FileSystem, env: Foreign)
      returns (r: Result<SaveFileMetadata>)
      ensures r == MetadataOf(fs, env)
    {
      var checksum := GenerateCheckSumForZipFile(fs, env);
      var datSize := GetScoreDatSize(fs);
      if datSize.Err? {
        return Err(datSize.error);
      }
      var zipSize := fs.Length(ZipSaveStoragePath);
      if zipSize.Err? {
        return Err(zipSize.error);
      }
      var datLastMod := GetScoreDatModifyTime(fs, env);
      if datLastMod.Err? {
        return Err(datLastMod.error);
      }
      r := Ok(SaveFileMetadata(checksum, GetZipSaveFileModifyTime(fs, env), zipSize.value as real,
                               datLastMod.value, datSize.value));
    }

    /** LoadZippedSaveFile: opens the zip (FileNotFoundException when it is
        missing), reads it as an archive (InvalidDataException when it is
        not one) and extracts every entry into the save directory,
        overwriting what is there. */
    method LoadZippedSaveFile(fs: FileSystem, env: Foreign) returns (r: Outcome)
      modifies fs
      ensures ZipSaveStoragePath !in old(fs.files) ==>
                r == Fail(FileNotFound(ZipSaveStoragePath)) && fs.files == old(fs.files) && fs.dirs == old(fs.dirs)
      ensures ZipSaveStoragePath in old(fs.files) && env.unpack(old(fs.files)[ZipSaveStoragePath].content).None? ==>
                r == Fail(InvalidData) && fs.files == old(fs.files) && fs.dirs == old(fs.dirs)
      ensures ZipSaveStoragePath in old(fs.files) && env.unpack(old(fs.files)[ZipSaveStoragePath].content).Some? ==>
                var entries := env.unpack(old(fs.files)[ZipSaveStoragePath].content).value;
                && r == Pass
                && fs.dirs == old(fs.dirs) + {GameSavePath}
                && fs.files == Extracted(old(fs.files), GameSavePath, entries)
                && fs.order == ExtractedOrder(old(fs.order), GameSavePath, entries)
      ensures r.Fail? ==> fs.order == old(fs.order)
      ensures fs.tempNames == old(fs.tempNames)
    {
      if ZipSaveStoragePath !in fs.files {
        return Fail(FileNotFound(ZipSaveStoragePath));
      }
      var archive := env.unpack(fs.files[ZipSaveStoragePath].content);
      if archive.None? {
        return Fail(InvalidData);
      }
      fs.ExtractToDirectory(GameSavePath, archive.value);
      r := Pass;
    }
  }

  /** The score lookup: an error exactly when the save directory is
      missing; None exactly when no listed .dat file is named score*;
      otherwise a .dat file directly in the save directory, named score*,
      with no such file listed before it. */
  lemma ScorePathSpec(saveFile: TouhouLocalSaveFile, fs: FileSystem)
    ensures var r := saveFile.ScorePathOf(fs);
            var listing := Listed(fs.order, fs.files, saveFile.GameSavePath, ".dat");
            && (r.Err? <==> saveFile.GameSavePath !in fs.dirs)
            && (r == Ok(None) <==>
                  (saveFile.GameSavePath in fs.dirs && forall i :: 0 <= i < |listing| ==> !StartsWith(FileName(listing[i]), "score")))
            && (r.Ok? && r.value.Some? ==>
                  var f := r.value.value;
                  && f in fs.files && ParentPath(f) == saveFile.GameSavePath
                  && EndsWith(FileName(f), ".dat") && StartsWith(FileName(f), "score")
                  && exists k :: 0 <= k < |listing| && listing[k] == f
                                 && forall j :: 0 <= j < k ==> !StartsWith(FileName(listing[j]), "score"))
  {
    var listing := Listed(fs.order, fs.files, saveFile.GameSavePath, ".dat");
    FirstNamedWithPrefixSpec(listing, "score");
  }

  /** The metadata of a save: it fails exactly when the save directory or
      the zip is missing, the missing directory taking precedence. Otherwise
      the checksum is the zip's MD5 in 32 lower-case digits, the zip size and
      time are the zip's, and the score size is -1 exactly when there is no
      score file, in which case the score time is -1 too; with one, both are
      that file's. */
  lemma MetadataSpec(saveFile: TouhouLocalSaveFile, fs: FileSystem, env: Foreign)
    ensures var r := saveFile.MetadataOf(fs, env);
            var save, zip := saveFile.GameSavePath, saveFile.ZipSaveStoragePath;
            && (r.Err? <==> save !in fs.dirs || zip !in fs.files)
            && (save !in fs.dirs ==> r == Err(DirectoryNotFound(save)))
            && (save in fs.dirs && zip !in fs.files ==> r == Err(FileNotFound(zip)))
    ensures var r := saveFile.MetadataOf(fs, env);
            var zip := saveFile.ZipSaveStoragePath;
            r.Ok? ==>
              var m := r.value;
              && m.Checksum == LowerHex(env.md5(fs.files[zip].content)) && |m.Checksum| == 32
              && m.ZipSize == |fs.files[zip].content| as real
              && m.ZipLastMod == fs.files[zip].lastWrite
              && (m.DatSize == -1.0 <==> saveFile.ScorePathOf(fs) == Ok(None))
              && (m.DatSize == -1.0 ==> m.DatLastMod == -1.0)
              && (saveFile.ScorePathOf(fs).Ok? && saveFile.ScorePathOf(fs).value.Some? ==>
                    var f := saveFile.ScorePathOf(fs).value.value;
                    f in fs.files && m.DatSize == |fs.files[f].content| as real && m.DatLastMod == fs.files[f].lastWrite)
  {
    ScorePathSpec(saveFile, fs);
  }

}
