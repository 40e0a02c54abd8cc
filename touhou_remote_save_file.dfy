/** SaveFiles/TouhouRemoteSaveFile.cs: the remote side of one local save.
    The remote file id is resolved lazily and cached; creating, pushing and
    pulling move the zipped save and its metadata between the local file
    system and the remote store. */
module TouhouRemoteSaveFiles {
  import opened Common
  import opened Platform
  import opened GoogleDrive
  import opened TouhouLocalSaveFiles
  import LocalOldGen = TouhouLocalOldGenSaveFiles
  import LocalNewGen = TouhouLocalNewGenSaveFiles
  import OldGen = TouhouOldGenSaveFiles

  /** JsonConvert, uninterpreted: serialising a metadata record, and
      reading one back (None when the text is not such a record). */
  datatype Json = Json(
    serialize: SaveFileMetadata -> string,
    deserialize: string -> Option<SaveFileMetadata>)

  /** The files after the local save's ZipSaveFile override has run. */
  function ZippedFiles(saveFile: TouhouLocalSaveFile, files: map<Path, FileEntry>, dirs: set<Path>,
                       env: Foreign, now: real): map<Path, FileEntry>
  {
    if saveFile.Generation == Old then
      OldGen.ArchivedFiles(saveFile.ZipSaveStoragePath, saveFile.GameExeName, saveFile.GameSavePath, files, dirs, env, now)
    else
      DirectoryArchived(files, dirs, saveFile.GameSavePath, saveFile.ZipSaveStoragePath, env, now)
  }

  /** Zipping twice in a row at the same time leaves what zipping once
      does. */
  lemma ZippedFilesIdempotent(saveFile: TouhouLocalSaveFile, files: map<Path, FileEntry>, dirs: set<Path>,
                              env: Foreign, now: real)
    ensures var once := ZippedFiles(saveFile, files, dirs, env, now);
            ZippedFiles(saveFile, once, dirs, env, now) == once
  {
    if saveFile.Generation == Old {
      OldGen.ArchivedFilesIdempotent(saveFile.ZipSaveStoragePath, saveFile.GameExeName, saveFile.GameSavePath, files, dirs, env, now);
    } else {
      DirectoryArchivedIdempotent(files, dirs, saveFile.GameSavePath, saveFile.ZipSaveStoragePath, env, now);
    }
  }

  /** The virtual call LocalSaveFile.ZipSaveFile(): the override of the
      save's generation. Both fail exactly when the save directory is
      missing; otherwise the metadata is that of the save as zipped. */
  method ZipLocalSaveFile(saveFile: TouhouLocalSaveFile, fs: FileSystem, env: Foreign, now: real)
    returns (r: Result<SaveFileMetadata>)
    modifies fs
    ensures fs.files == ZippedFiles(saveFile, old(fs.files), old(fs.dirs), env, now)
    ensures fs.dirs == old(fs.dirs) && fs.tempNames == old(fs.tempNames)
    ensures r.Err? <==> saveFile.GameSavePath !in fs.dirs
    ensures r.Err? ==> r.error == DirectoryNotFound(saveFile.GameSavePath)
    ensures r.Ok? ==> r == saveFile.MetadataOf(fs, env) && saveFile.ZipSaveStoragePath in fs.files
    ensures r.Ok? ==> saveFile.ZipSaveStoragePath in fs.order
    ensures saveFile.ZipSaveStoragePath in old(fs.order) ==> fs.order == old(fs.order)
  {
    if saveFile.Generation == Old {
      r := LocalOldGen.ZipSaveFile(saveFile, fs, env, now);
    } else {
      r := LocalNewGen.ZipSaveFile(saveFile, fs, env, now);
    }
    MetadataSpec(saveFile, fs, env);
  }

  /** What GetRemoteSaveFileMetaData makes of a remote description:
      JsonConvert throws ArgumentNullException on a null description, and
      fails on text that is not a metadata record; otherwise the record is
      copied field by field. */
  function DescribedMetadata(description: Option<string>, json: Json): (r: Result<SaveFileMetadata>)
  {
    match description
    case None => Err(ArgumentNull)
    case Some(text) =>
      match json.deserialize(text)
      case None => Err(InvalidData)
      case Some(metadata) =>
        Ok(SaveFileMetadata(metadata.Checksum, metadata.ZipLastMod, metadata.ZipSize, metadata.DatLastMod, metadata.DatSize))
  }

  /** Metadata published as a description reads back as the same record,
      provided JsonConvert reads back what it wrote; a missing or unreadable
      description is an error and never a record. */
  lemma DescribedMetadataSpec(description: Option<string>, json: Json)
    ensures DescribedMetadata(description, json).Ok? <==>
              description.Some? && json.deserialize(description.value).Some?
    ensures DescribedMetadata(description, json).Ok? ==>
              DescribedMetadata(description, json) == Ok(json.deserialize(description.value).value)
    ensures forall m :: description == Some(json.serialize(m)) && json.deserialize(json.serialize(m)) == Some(m) ==>
              DescribedMetadata(description, json) == Ok(m)
  {
    if description.Some? && json.deserialize(description.value).Some? {
      var m := json.deserialize(description.value).value;
      assert SaveFileMetadata(m.Checksum, m.ZipLastMod, m.ZipSize, m.DatLastMod, m.DatSize) == m;
    }
  }

  class TouhouRemoteSaveFile {
    const googleDriveHandler: GoogleDriveHandler
    const remoteSaveFolder: FolderRef
    const LocalSaveFile: TouhouLocalSaveFile
    const RemoteFileName: string
    /** _remoteFileId: null until the id is first read. */
    var remoteFileId: Option<FileId>

    /** The remote file takes its name from the local save's title; the id
        is not looked up yet. */
    constructor(localSaveFile: TouhouLocalSaveFile, googleDriveHandler: GoogleDriveHandler, remoteSaveFolder: FolderRef)
      ensures RemoteFileName == localSaveFile.GameTitle && LocalSaveFile == localSaveFile
      ensures this.googleDriveHandler == googleDriveHandler && this.remoteSaveFolder == remoteSaveFolder
      ensures remoteFileId.None?
    {
      RemoteFileName := localSaveFile.GameTitle;
      this.googleDriveHandler := googleDriveHandler;
      LocalSaveFile := localSaveFile;
      this.remoteSaveFolder := remoteSaveFolder;
      remoteFileId := None;
    }

    /** The RemoteFileId setter: stores the id as the cached one. */
    method SetRemoteFileId(id: Option<FileId>)
      modifies this
      ensures remoteFileId == id
    {
      remoteFileId := id;
    }

    /** The remote file the id lookup would find: the first file with the
        remote name in the remote folder. */
    function Existing(): Option<DriveFile>
      reads googleDriveHandler
    {
      googleDriveHandler.FindFirstFileWithName(RemoteFileName, remoteSaveFolder)
    }

    /** The local files after the id has been read: the same files when the
        id was cached or a remote file exists, else the files zipped by the
        upload that creates the remote file. */
    function ResolvedFiles(cached: Option<FileId>, remote: seq<DriveFile>, files: map<Path, FileEntry>,
                           dirs: set<Path>, env: Foreign, now: real): map<Path, FileEntry>
    {
      if cached.Some? || FirstWithName(remote, RemoteFileName, remoteSaveFolder).Some? then files
      else ZippedFiles(LocalSaveFile, files, dirs, env, now)
    }

    /** The id the RemoteFileId getter resolves to from a state: the cached
        id, else the id of the existing remote file, else the fresh id of
        the upload CreateSaves makes, which fails when the save directory is
        missing. */
    function ResolvedId(cached: Option<FileId>, remote: seq<DriveFile>, nextId: FileId, dirs: set<Path>): Result<FileId>
    {
      if cached.Some? then Ok(cached.value)
      else match FirstWithName(remote, RemoteFileName, remoteSaveFolder)
        case Some(file) => Ok(file.id)
        case None =>
          if LocalSaveFile.GameSavePath in dirs then Ok(nextId) else Err(DirectoryNotFound(LocalSaveFile.GameSavePath))
    }

    /** The file CreateSaves uploads under the id, read from the file system
        holding the zip it has just written. */
    function Uploaded(id: FileId, fs: FileSystem, env: Foreign, json: Json): DriveFile
      reads fs`files, fs`dirs, fs`order
    {
      var metadata := LocalSaveFile.MetadataOf(fs, env);
      DriveFile(id, RemoteFileName, remoteSaveFolder,
                if LocalSaveFile.ZipSaveStoragePath in fs.files then fs.files[LocalSaveFile.ZipSaveStoragePath].content else [],
                if metadata.Ok? then Some(json.serialize(metadata.value)) else None)
    }

    /** The remote listing after the id has been resolved: unchanged, or
        with the one file CreateSaves uploads when there was neither a
        cached id nor an existing file and the save directory exists. */
    function ResolvedListing(cached: Option<FileId>, remote: seq<DriveFile>, nextId: FileId, fs: FileSystem, env: Foreign,
                             json: Json): seq<DriveFile>
      reads fs`files, fs`dirs, fs`order
    {
      if cached.Some? || FirstWithName(remote, RemoteFileName, remoteSaveFolder).Some? || LocalSaveFile.GameSavePath !in fs.dirs
      then remote
      else remote + [Uploaded(nextId, fs, env, json)]
    }

    /** The remote listing after the id has been resolved, up to the content
        and description of the uploaded file: unchanged, or with one file
        appended under the fresh id, the remote name and the remote folder. */
    predicate ResolvedShape(cached: Option<FileId>, remote: seq<DriveFile>, nextId: FileId, dirs: set<Path>,
                            after: seq<DriveFile>)
    {
      if cached.Some? || FirstWithName(remote, RemoteFileName, remoteSaveFolder).Some? || LocalSaveFile.GameSavePath !in dirs
      then after == remote
      else && |after| == |remote| + 1 && after[..|remote|] == remote
           && after[|remote|].id == nextId && after[|remote|].name == RemoteFileName
           && after[|remote|].parent == remoteSaveFolder
    }

    /** The listing RemoteFileId leaves has the shape ResolvedShape states. */
    lemma ResolvedListingShape(cached: Option<FileId>, remote: seq<DriveFile>, nextId: FileId, fs: FileSystem, env: Foreign,
                               json: Json)
      ensures ResolvedShape(cached, remote, nextId, fs.dirs, ResolvedListing(cached, remote, nextId, fs, env, json))
    {
      var after := ResolvedListing(cached, remote, nextId, fs, env, json);
      if !(cached.Some? || FirstWithName(remote, RemoteFileName, remoteSaveFolder).Some? || LocalSaveFile.GameSavePath !in fs.dirs) {
        assert after[..|remote|] == remote;
      }
    }

    /** CreateSaves: zips the local save and uploads the zip under the
        remote name into the remote folder, with the serialised metadata of
        that zipping as description; returns the new file's id. */
    method CreateSaves(fs: FileSystem, env: Foreign, json: Json, now: real) returns (r: Result<FileId>)
      requires googleDriveHandler.Valid()
      modifies fs, googleDriveHandler
      ensures googleDriveHandler.Valid() && googleDriveHandler.folders == old(googleDriveHandler.folders)
      ensures fs.files == ZippedFiles(LocalSaveFile, old(fs.files), old(fs.dirs), env, now)
      ensures fs.dirs == old(fs.dirs) && fs.tempNames == old(fs.tempNames)
      ensures LocalSaveFile.ZipSaveStoragePath in old(fs.order) ==> fs.order == old(fs.order)
      ensures r.Err? <==> LocalSaveFile.GameSavePath !in old(fs.dirs)
      ensures r.Err? ==> && r.error == DirectoryNotFound(LocalSaveFile.GameSavePath)
                         && googleDriveHandler.files == old(googleDriveHandler.files)
                         && googleDriveHandler.nextId == old(googleDriveHandler.nextId)
      ensures r.Ok? ==> && r.value == old(googleDriveHandler.nextId)
                        && googleDriveHandler.nextId == r.value + 1
                        && LocalSaveFile.MetadataOf(fs, env).Ok?
                        && LocalSaveFile.ZipSaveStoragePath in fs.files
                        && googleDriveHandler.files == old(googleDriveHandler.files) +
                             [DriveFile(r.value, RemoteFileName, remoteSaveFolder,
                                        fs.files[LocalSaveFile.ZipSaveStoragePath].content,
                                        Some(json.serialize(LocalSaveFile.MetadataOf(fs, env).value)))]
    {
      var metadata := ZipLocalSaveFile(LocalSaveFile, fs, env, now);
      if metadata.Err? {
        return Err(metadata.error);
      }
      r := googleDriveHandler.Upload(RemoteFileName, fs, LocalSaveFile.ZipSaveStoragePath, remoteSaveFolder,
                                     json.serialize(metadata.value));
      assert LocalSaveFile.MetadataOf(fs, env) == metadata;
    }

    /** GetRemoteFileId: the id of the existing remote file, or the id of the
        one CreateSaves uploads when there is none. */
    method GetRemoteFileId(fs: FileSystem, env: Foreign, json: Json, now: real) returns (r: Result<FileId>)
      requires googleDriveHandler.Valid()
      modifies fs, googleDriveHandler
      ensures googleDriveHandler.Valid() && googleDriveHandler.folders == old(googleDriveHandler.folders)
      ensures fs.files == ResolvedFiles(None, old(googleDriveHandler.files), old(fs.files), old(fs.dirs), env, now)
      ensures fs.dirs == old(fs.dirs) && fs.tempNames == old(fs.tempNames)
      ensures LocalSaveFile.ZipSaveStoragePath in old(fs.order) ==> fs.order == old(fs.order)
      ensures r == old(ResolvedId(None, googleDriveHandler.files, googleDriveHandler.nextId, fs.dirs))
      ensures googleDriveHandler.files ==
                ResolvedListing(None, old(googleDriveHandler.files), old(googleDriveHandler.nextId), fs, env, json)
      ensures old(Existing()).Some? ==> && r == Ok(old(Existing()).value.id)
                                        && googleDriveHandler.files == old(googleDriveHandler.files)
                                        && googleDriveHandler.nextId == old(googleDriveHandler.nextId)
      ensures old(Existing()).None? ==>
                && (r.Err? <==> LocalSaveFile.GameSavePath !in old(fs.dirs))
                && (r.Err? ==> googleDriveHandler.files == old(googleDriveHandler.files))
                && (r.Ok? ==> && r.value == old(googleDriveHandler.nextId)
                              && |googleDriveHandler.files| == |old(googleDriveHandler.files)| + 1
                              && googleDriveHandler.files[..|old(googleDriveHandler.files)|] == old(googleDriveHandler.files)
                              && googleDriveHandler.files[|old(googleDriveHandler.files)|].id == r.value
                              && googleDriveHandler.files[|old(googleDriveHandler.files)|].name == RemoteFileName)
    {
      var file := googleDriveHandler.FindFirstFileWithName(RemoteFileName, remoteSaveFolder);
      if file.Some? {
        return Ok(file.value.id);
      }
      r := CreateSaves(fs, env, json, now);
    }

    /** The RemoteFileId getter: the cached id when there is one, with no
        lookup and no change; otherwise the id GetRemoteFileId resolves,
        which is then cached. */
    method RemoteFileId(fs: FileSystem, env: Foreign, json: Json, now: real) returns (r: Result<FileId>)
      requires googleDriveHandler.Valid()
      modifies this, fs, googleDriveHandler
      ensures googleDriveHandler.Valid() && googleDriveHandler.folders == old(googleDriveHandler.folders)
      ensures fs.files == ResolvedFiles(old(remoteFileId), old(googleDriveHandler.files), old(fs.files), old(fs.dirs), env, now)
      ensures fs.dirs == old(fs.dirs) && fs.tempNames == old(fs.tempNames)
      ensures LocalSaveFile.ZipSaveStoragePath in old(fs.order) ==> fs.order == old(fs.order)
      ensures r == old(ResolvedId(remoteFileId, googleDriveHandler.files, googleDriveHandler.nextId, fs.dirs))
      ensures googleDriveHandler.files ==
                ResolvedListing(old(remoteFileId), old(googleDriveHandler.files), old(googleDriveHandler.nextId), fs, env, json)
      ensures r.Ok? ==> remoteFileId == Some(r.value)
      ensures r.Err? ==> remoteFileId == old(remoteFileId)
      ensures old(remoteFileId).Some? ==> && r == Ok(old(remoteFileId).value)
                                          && googleDriveHandler.files == old(googleDriveHandler.files)
                                          && googleDriveHandler.nextId == old(googleDriveHandler.nextId)
      ensures old(remoteFileId).None? && old(Existing()).Some? ==>
                && r == Ok(old(Existing()).value.id)
                && googleDriveHandler.files == old(googleDriveHandler.files)
                && googleDriveHandler.nextId == old(googleDriveHandler.nextId)
      ensures old(remoteFileId).None? && old(Existing()).None? ==>
                && (r.Err? <==> LocalSaveFile.GameSavePath !in old(fs.dirs))
                && (r.Err? ==> googleDriveHandler.files == old(googleDriveHandler.files))
                && (r.Ok? ==> && r.value == old(googleDriveHandler.nextId)
                              && |googleDriveHandler.files| == |old(googleDriveHandler.files)| + 1
                              && googleDriveHandler.files[..|old(googleDriveHandler.files)|] == old(googleDriveHandler.files)
                              && googleDriveHandler.files[|old(googleDriveHandler.files)|].id == r.value
                              && googleDriveHandler.files[|old(googleDriveHandler.files)|].name == RemoteFileName)
    {
      if remoteFileId.None? {
        r := GetRemoteFileId(fs, env, json, now);
        if r.Ok? {
          remoteFileId := Some(r.value);
        }
        return;
      }
      r := Ok(remoteFileId.value);
    }

    /** GetRemoteSaveFileMetaData: reads the remote id, fetches the remote
        file and reads its description back as metadata. */
    method GetRemoteSaveFileMetaData(fs: FileSystem, env: Foreign, json: Json, now: real) returns (r: Result<SaveFileMetadata>)
      requires googleDriveHandler.Valid()
      modifies this, fs, googleDriveHandler
      ensures googleDriveHandler.Valid() && googleDriveHandler.folders == old(googleDriveHandler.folders)
      ensures fs.files == ResolvedFiles(old(remoteFileId), old(googleDriveHandler.files), old(fs.files), old(fs.dirs), env, now)
      ensures r.Ok? ==> && remoteFileId.Some?
                        && googleDriveHandler.GetFile(remoteFileId.value).Ok?
                        && r == DescribedMetadata(googleDriveHandler.GetFile(remoteFileId.value).value.description, json)
      ensures old(remoteFileId).Some? ==> && googleDriveHandler.files == old(googleDriveHandler.files)
                                          && remoteFileId == old(remoteFileId)
                                          && fs.files == old(fs.files)
      ensures googleDriveHandler.files ==
                ResolvedListing(old(remoteFileId), old(googleDriveHandler.files), old(googleDriveHandler.nextId), fs, env, json)
      ensures var id := old(ResolvedId(remoteFileId, googleDriveHandler.files, googleDriveHandler.nextId, fs.dirs));
              && (id.Err? ==> r == Err(id.error))
              && (id.Ok? && googleDriveHandler.GetFile(id.value).Err? ==> r == Err(RemoteFileMissing))
              && (id.Ok? && googleDriveHandler.GetFile(id.value).Ok? ==>
                    r == DescribedMetadata(googleDriveHandler.GetFile(id.value).value.description, json))
    {
      var id := RemoteFileId(fs, env, json, now);
      if id.Err? {
        return Err(id.error);
      }
      var remoteFile := googleDriveHandler.GetFile(id.value);
      if remoteFile.Err? {
        return Err(remoteFile.error);
      }
      r := DescribedMetadata(remoteFile.value.description, json);
    }

    /** RemoteFileId once the save is zipped: resolving the id may zip the
        save again, which writes the same zip, so the local files stay as
        they are. */
    method RemoteFileIdOfZipped(fs: FileSystem, env: Foreign, json: Json, now: real) returns (r: Result<FileId>)
      requires googleDriveHandler.Valid()
      requires LocalSaveFile.ZipSaveStoragePath in fs.order
      requires ZippedFiles(LocalSaveFile, fs.files, fs.dirs, env, now) == fs.files
      modifies this, fs, googleDriveHandler
      ensures googleDriveHandler.Valid() && googleDriveHandler.folders == old(googleDriveHandler.folders)
      ensures fs.files == old(fs.files) && fs.dirs == old(fs.dirs)
      ensures fs.order == old(fs.order) && fs.tempNames == old(fs.tempNames)
      ensures r.Ok? ==> remoteFileId == Some(r.value)
      ensures old(remoteFileId).Some? ==> remoteFileId == old(remoteFileId)
      ensures r == old(ResolvedId(remoteFileId, googleDriveHandler.files, googleDriveHandler.nextId, fs.dirs))
      ensures googleDriveHandler.files ==
                ResolvedListing(old(remoteFileId), old(googleDriveHandler.files), old(googleDriveHandler.nextId), fs, env, json)
    {
      r := RemoteFileId(fs, env, json, now);
    }

    /** The part of PushSaves after the save has been zipped: read the
        remote id, then update the remote file from the zip. Zipping again
        while resolving the id would write the same zip, so the local files
        stay as they are whichever way the id is resolved. */
    method UpdateFromZip(fs: FileSystem, env: Foreign, json: Json, now: real, metadata: SaveFileMetadata)
      returns (r: Outcome)
      requires googleDriveHandler.Valid()
      requires LocalSaveFile.ZipSaveStoragePath in fs.order && LocalSaveFile.ZipSaveStoragePath in fs.files
      requires ZippedFiles(LocalSaveFile, fs.files, fs.dirs, env, now) == fs.files
      modifies this, fs, googleDriveHandler
      ensures googleDriveHandler.Valid() && googleDriveHandler.folders == old(googleDriveHandler.folders)
      ensures fs.files == old(fs.files) && fs.dirs == old(fs.dirs)
      ensures fs.order == old(fs.order) && fs.tempNames == old(fs.tempNames)
      ensures LocalSaveFile.MetadataOf(fs, env) == old(LocalSaveFile.MetadataOf(fs, env))
      ensures old(remoteFileId).Some? ==> remoteFileId == old(remoteFileId)
      ensures r.Pass? ==>
                && remoteFileId.Some?
                && var remote := googleDriveHandler.GetFile(remoteFileId.value);
                   && remote.Ok?
                   && remote.value.name == RemoteFileName
                   && remote.value.content == fs.files[LocalSaveFile.ZipSaveStoragePath].content
                   && remote.value.description == Some(json.serialize(metadata))
      ensures var id := old(ResolvedId(remoteFileId, googleDriveHandler.files, googleDriveHandler.nextId, fs.dirs));
              var listing := ResolvedListing(old(remoteFileId), old(googleDriveHandler.files), old(googleDriveHandler.nextId),
                                             fs, env, json);
              && (r.Pass? <==> id.Ok? && IndexOfId(listing, id.value) >= 0)
              && (r.Fail? ==> googleDriveHandler.files == listing)
              && (r.Pass? ==>
                    var k := IndexOfId(listing, id.value);
                    googleDriveHandler.files ==
                      listing[k := DriveFile(id.value, RemoteFileName, listing[k].parent,
                                             fs.files[LocalSaveFile.ZipSaveStoragePath].content, Some(json.serialize(metadata)))])
    {
      var id := RemoteFileIdOfZipped(fs, env, json, now);
      assert LocalSaveFile.MetadataOf(fs, env) == old(LocalSaveFile.MetadataOf(fs, env));
      if id.Err? {
        return Fail(id.error);
      }
      ghost var listing := googleDriveHandler.files;
      r := googleDriveHandler.Update(RemoteFileName, fs, LocalSaveFile.ZipSaveStoragePath, id.value, json.serialize(metadata));
      assert r.Pass? <==> IndexOfId(listing, id.value) >= 0;
    }

    /** PushSaves: zips the local save, reads the remote id (which may upload
        a first copy) and replaces the remote file's content with the zip and
        its description with the serialised metadata of that zipping. */
    method PushSaves(fs: FileSystem, env: Foreign, json: Json, now: real) returns (r: Outcome)
      requires googleDriveHandler.Valid()
      modifies this, fs, googleDriveHandler
      ensures googleDriveHandler.Valid() && googleDriveHandler.folders == old(googleDriveHandler.folders)
      ensures fs.files == ZippedFiles(LocalSaveFile, old(fs.files), old(fs.dirs), env, now)
      ensures fs.dirs == old(fs.dirs) && fs.tempNames == old(fs.tempNames)
      ensures LocalSaveFile.GameSavePath !in old(fs.dirs) ==>
                && r == Fail(DirectoryNotFound(LocalSaveFile.GameSavePath))
                && googleDriveHandler.files == old(googleDriveHandler.files)
      ensures old(remoteFileId).Some? ==> remoteFileId == old(remoteFileId)
      ensures r.Pass? ==>
                && remoteFileId.Some?
                && LocalSaveFile.MetadataOf(fs, env).Ok?
                && LocalSaveFile.ZipSaveStoragePath in fs.files
                && var remote := googleDriveHandler.GetFile(remoteFileId.value);
                   && remote.Ok?
                   && remote.value.name == RemoteFileName
                   && remote.value.content == fs.files[LocalSaveFile.ZipSaveStoragePath].content
                   && remote.value.description == Some(json.serialize(LocalSaveFile.MetadataOf(fs, env).value))
      ensures var id := old(ResolvedId(remoteFileId, googleDriveHandler.files, googleDriveHandler.nextId, fs.dirs));
              var listing := ResolvedListing(old(remoteFileId), old(googleDriveHandler.files), old(googleDriveHandler.nextId),
                                             fs, env, json);
              && (r.Pass? <==> LocalSaveFile.GameSavePath in old(fs.dirs) && id.Ok? && IndexOfId(listing, id.value) >= 0)
              && (r.Fail? ==> googleDriveHandler.files == if LocalSaveFile.GameSavePath in old(fs.dirs) then listing
                                                          else old(googleDriveHandler.files))
              && (r.Pass? ==>
                    var k := IndexOfId(listing, id.value);
                    googleDriveHandler.files ==
                      listing[k := DriveFile(id.value, RemoteFileName, listing[k].parent,
                                             fs.files[LocalSaveFile.ZipSaveStoragePath].content,
                                             Some(json.serialize(LocalSaveFile.MetadataOf(fs, env).value)))])
    {
      var metadata := ZipLocalSaveFile(LocalSaveFile, fs, env, now);
      if metadata.Err? {
        return Fail(metadata.error);
      }
      ZippedFilesIdempotent(LocalSaveFile, old(fs.files), old(fs.dirs), env, now);
      ghost var zipped := LocalSaveFile.MetadataOf(fs, env);
      assert zipped == metadata;
      r := UpdateFromZip(fs, env, json, now, metadata.value);
    }

    /** PullSaves: reads the remote id, downloads the remote file into the
        zip path and only then extracts that zip into the save directory. */
    method PullSaves(fs: FileSystem, env: Foreign, json: Json, now: real) returns (r: Outcome)
      requires googleDriveHandler.Valid()
      modifies this, fs, googleDriveHandler
      ensures googleDriveHandler.Valid() && googleDriveHandler.folders == old(googleDriveHandler.folders)
      ensures r.Pass? ==>
                && remoteFileId.Some?
                && googleDriveHandler.GetFile(remoteFileId.value).Ok?
                && var content := googleDriveHandler.GetFile(remoteFileId.value).value.content;
                   var resolved := ResolvedFiles(old(remoteFileId), old(googleDriveHandler.files), old(fs.files), old(fs.dirs), env, now);
                   && env.unpack(content).Some?
                   && fs.dirs == old(fs.dirs) + {LocalSaveFile.GameSavePath}
                   && fs.files == Extracted(resolved[LocalSaveFile.ZipSaveStoragePath := FileEntry(content, now)],
                                            LocalSaveFile.GameSavePath, env.unpack(content).value)
      ensures old(remoteFileId).Some? ==> googleDriveHandler.files == old(googleDriveHandler.files)
      ensures ResolvedShape(old(remoteFileId), old(googleDriveHandler.files), old(googleDriveHandler.nextId), old(fs.dirs),
                            googleDriveHandler.files)
      ensures var id := old(ResolvedId(remoteFileId, googleDriveHandler.files, googleDriveHandler.nextId, fs.dirs));
              var listing := googleDriveHandler.files;
              var resolved := ResolvedFiles(old(remoteFileId), old(googleDriveHandler.files), old(fs.files), old(fs.dirs), env, now);
              && (id.Err? ==> r == Fail(id.error) && fs.files == resolved && fs.dirs == old(fs.dirs))
              && (id.Ok? && IndexOfId(listing, id.value) < 0 ==>
                    r == Fail(RemoteFileMissing) && fs.files == resolved && fs.dirs == old(fs.dirs))
              && (id.Ok? && IndexOfId(listing, id.value) >= 0 ==>
                    var content := listing[IndexOfId(listing, id.value)].content;
                    && (r.Pass? <==> env.unpack(content).Some?)
                    && (r.Fail? ==> && r == Fail(InvalidData) && fs.dirs == old(fs.dirs)
                                    && fs.files == resolved[LocalSaveFile.ZipSaveStoragePath := FileEntry(content, now)]))
    {
      var id := RemoteFileId(fs, env, json, now);
      ResolvedListingShape(old(remoteFileId), old(googleDriveHandler.files), old(googleDriveHandler.nextId), fs, env, json);
      if id.Err? {
        return Fail(id.error);
      }
      ghost var resolved := fs.files;
      var downloaded := googleDriveHandler.Download(id.value, fs, LocalSaveFile.ZipSaveStoragePath, now);
      if downloaded.Fail? {
        return downloaded;
      }
      ghost var content := googleDriveHandler.GetFile(id.value).value.content;
      assert fs.files == resolved[LocalSaveFile.ZipSaveStoragePath := FileEntry(content, now)];
      r := LocalSaveFile.LoadZippedSaveFile(fs, env);
    }
  }

  /** Remote file i wraps local save i, in the remote folder. */
  predicate Wraps(remote: TouhouRemoteSaveFile?, local: TouhouLocalSaveFile?, drive: GoogleDriveHandler, folder: FolderRef)
  {
    && remote != null
    && local != null
    && remote.LocalSaveFile == local
    && remote.RemoteFileName == local.GameTitle
    && remote.googleDriveHandler == drive
    && remote.remoteSaveFolder == folder
  }

  /** ToTouhouRemoteSaveFiles: one remote file per local save, in order, all
      with no id resolved yet. A null slot makes the constructor throw
      NullReferenceException. */
  method ToTouhouRemoteSaveFiles(localSaveFiles: array<TouhouLocalSaveFile?>, drive: GoogleDriveHandler, folder: FolderRef)
    returns (r: Result<array<TouhouRemoteSaveFile?>>)
    ensures r.Ok? <==> forall j :: 0 <= j < localSaveFiles.Length ==> localSaveFiles[j] != null
    ensures r.Err? ==> r.error == NullReference
    ensures r.Ok? ==> && fresh(r.value)
                      && r.value.Length == localSaveFiles.Length
                      && forall j :: 0 <= j < r.value.Length ==>
                           && Wraps(r.value[j], localSaveFiles[j], drive, folder)
                           && fresh(r.value[j])
                           && r.value[j].remoteFileId.None?
  {
    var remoteSaveFiles := new TouhouRemoteSaveFile?[localSaveFiles.Length];
    var i := 0;
    while i < localSaveFiles.Length
      invariant 0 <= i <= localSaveFiles.Length
      invariant forall j :: 0 <= j < i ==> localSaveFiles[j] != null
      invariant forall j :: 0 <= j < i ==>
                  && Wraps(remoteSaveFiles[j], localSaveFiles[j], drive, folder)
                  && fresh(remoteSaveFiles[j])
                  && remoteSaveFiles[j].remoteFileId.None?
    {
      var saveFile := localSaveFiles[i];
      if saveFile == null {
        return Err(NullReference);
      }
      remoteSaveFiles[i] := new TouhouRemoteSaveFile(saveFile, drive, folder);
      i := i + 1;
    }
    r := Ok(remoteSaveFiles);
  }
}
