/** The remote store as GoogleDriveHandler.cs exposes it to the core. The
    network client and OAuth are left out; only the effect of each call on the
    store's state is modelled. */
module GoogleDrive {
  import opened Common
  import opened Platform

  /** A Drive file or folder id (opaque strings in Drive; issued from a
      counter here so that fresh ids are distinct from every earlier one). */
  type FileId = nat

  /** A parent-folder argument: a folder id, or the empty string (None), for
      which searches do not filter by folder and uploads set no parent. */
  type FolderRef = Option<FileId>

  /** A stored file: id, name, parent folder, content and description (null
      when none was set). */
  datatype DriveFile = DriveFile(id: FileId, name: string, parent: FolderRef, content: seq<bv8>, description: Option<string>)

  /** The query FindFilesWithName sends: the name, and the parent folder
      unless the folder argument is empty. */
  predicate Matches(f: DriveFile, name: string, folder: FolderRef)
  {
    f.name == name && (folder.None? || f.parent == folder)
  }

  /** The first file of the listing the query returns, or null. */
  function FirstWithName(files: seq<DriveFile>, name: string, folder: FolderRef): (r: Option<DriveFile>)
    ensures r.None? <==> forall i :: 0 <= i < |files| ==> !Matches(files[i], name, folder)
    ensures r.Some? ==> exists k :: 0 <= k < |files| && files[k] == r.value && Matches(files[k], name, folder)
                                   && forall j :: 0 <= j < k ==> !Matches(files[j], name, folder)
  {
    if files == [] then None
    else if Matches(files[0], name, folder) then Some(files[0])
    else
      var r := FirstWithName(files[1..], name, folder);
      assert forall i :: 1 <= i < |files| ==> files[i] == files[1..][i - 1];
      if r.Some? then
        var k :| 0 <= k < |files[1..]| && files[1..][k] == r.value && Matches(files[1..][k], name, folder)
                 && forall j :: 0 <= j < k ==> !Matches(files[1..][j], name, folder);
        assert files[k + 1] == r.value;
        assert forall j :: 1 <= j < k + 1 ==> !Matches(files[j], name, folder);
        r
      else r
  }

  /** The position of the file with the given id, -1 when there is none. */
  function IndexOfId(files: seq<DriveFile>, id: FileId): (r: int)
    ensures -1 <= r < |files|
    ensures r >= 0 ==> files[r].id == id
    ensures r < 0 <==> forall i :: 0 <= i < |files| ==> files[i].id != id
  {
    if files == [] then -1
    else if files[|files| - 1].id == id then |files| - 1
    else IndexOfId(files[..|files| - 1], id)
  }

  /** No two files share an id. */
  predicate DistinctIds(files: seq<DriveFile>)
  {
    forall i, j :: 0 <= i < j < |files| ==> files[i].id != files[j].id
  }

  /** With distinct ids, the position of a file's id is that file's. */
  lemma IndexOfDistinctId(files: seq<DriveFile>, k: nat)
    requires DistinctIds(files) && k < |files|
    ensures IndexOfId(files, files[k].id) == k
  {
  }

  /** Two listings with the same ids, names and parents at every position:
      they differ at most in contents and descriptions. */
  predicate SameListing(a: seq<DriveFile>, b: seq<DriveFile>)
  {
    && |a| == |b|
    && forall i :: 0 <= i < |a| ==> a[i].id == b[i].id && a[i].name == b[i].name && a[i].parent == b[i].parent
  }

  /** Replacing a file by one with the same id, name and parent keeps the
      listing. */
  lemma ReplaceKeepsListing(files: seq<DriveFile>, k: nat, f: DriveFile)
    requires k < |files| && f.id == files[k].id && f.name == files[k].name && f.parent == files[k].parent
    ensures SameListing(files, files[k := f])
  {
  }

  /** A name query sees only ids, names and parents: on listings that agree
      on those it finds a file in both or in neither, and the same id. */
  lemma {:induction false} FirstWithNameSameListing(a: seq<DriveFile>, b: seq<DriveFile>, name: string, folder: FolderRef)
    requires SameListing(a, b)
    ensures FirstWithName(a, name, folder).None? <==> FirstWithName(b, name, folder).None?
    ensures FirstWithName(a, name, folder).Some? ==> FirstWithName(a, name, folder).value.id == FirstWithName(b, name, folder).value.id
  {
    if a != [] {
      assert a[0].name == b[0].name && a[0].parent == b[0].parent;
      if !Matches(a[0], name, folder) {
        assert SameListing(a[1..], b[1..]) by {
          assert forall i :: 0 <= i < |a| - 1 ==> a[1..][i] == a[i + 1] && b[1..][i] == b[i + 1];
        }
        FirstWithNameSameListing(a[1..], b[1..], name, folder);
      }
    }
  }

  /** Replacing a file by one with the same id leaves every id's index
      where it was. */
  lemma {:induction false} IndexOfIdReplace(files: seq<DriveFile>, k: nat, f: DriveFile, id: FileId)
    requires k < |files| && f.id == files[k].id
    ensures IndexOfId(files[k := f], id) == IndexOfId(files, id)
  {
    var replaced, n := files[k := f], |files| - 1;
    if k == n {
      assert replaced[..n] == files[..n];
    } else {
      assert replaced[..n] == files[..n][k := f];
      IndexOfIdReplace(files[..n], k, f, id);
    }
    assert replaced[n].id == files[n].id;
  }

  class GoogleDriveHandler {
    var files: seq<DriveFile>
    var folders: seq<(string, FileId)>
    var nextId: FileId

    /** Every id in use was issued before nextId, and no two files share
        an id. */
    ghost predicate Valid()
      reads this
    {
      && (forall i :: 0 <= i < |files| ==> files[i].id < nextId)
      && (forall i :: 0 <= i < |folders| ==> folders[i].1 < nextId)
      && DistinctIds(files)
    }

    /** FindFirstFileWithName (GoogleDriveHandler.cs): the first file the
        name query lists, or null. */
    function FindFirstFileWithName(name: string, parentFolder: FolderRef): Option<DriveFile>
      reads this
    {
      FirstWithName(files, name, parentFolder)
    }

    /** GetFolderId: the first folder with the name, else a new folder
        (Mkdir with existOk). */
    method GetFolderId(name: string) returns (id: FileId)
      requires Valid()
      modifies this
      ensures Valid()
      ensures files == old(files)
      ensures (exists i :: 0 <= i < |old(folders)| && old(folders)[i].0 == name) ==>
                folders == old(folders) && nextId == old(nextId) &&
                exists k :: 0 <= k < |folders| && folders[k] == (name, id) && forall j :: 0 <= j < k ==> folders[j].0 != name
      ensures (forall i :: 0 <= i < |old(folders)| ==> old(folders)[i].0 != name) ==>
                id == old(nextId) && folders == old(folders) + [(name, id)] && nextId == old(nextId) + 1
    {
      var k := 0;
      while k < |folders| && folders[k].0 != name
        invariant 0 <= k <= |folders|
        invariant forall j :: 0 <= j < k ==> folders[j].0 != name
      {
        k := k + 1;
      }
      if k < |folders| {
        id := folders[k].1;
      } else {
        id := nextId;
        folders := folders + [(name, id)];
        nextId := nextId + 1;
      }
    }

    /** Upload: reads the local file (FileNotFoundException when it is
        missing) and creates a new remote file with a fresh id. */
    method Upload(name: string, fs: FileSystem, filePath: Path, folder: FolderRef, description: string)
      returns (r: Result<FileId>)
      requires Valid()
      modifies this
      ensures Valid()
      ensures folders == old(folders)
      ensures filePath !in fs.files ==> r == Err(FileNotFound(filePath)) && files == old(files) && nextId == old(nextId)
      ensures filePath in fs.files ==>
                && r == Ok(old(nextId))
                && files == old(files) + [DriveFile(old(nextId), name, folder, fs.files[filePath].content, Some(description))]
                && nextId == old(nextId) + 1
    {
      if filePath !in fs.files {
        return Err(FileNotFound(filePath));
      }
      var id := nextId;
      files := files + [DriveFile(id, name, folder, fs.files[filePath].content, Some(description))];
      nextId := nextId + 1;
      r := Ok(id);
    }

    /** Update: reads the local file and replaces the name, content and
        description of the remote file with the given id. */
    method Update(name: string, fs: FileSystem, filePath: Path, fileId: FileId, description: string)
      returns (r: Outcome)
      requires Valid()
      modifies this
      ensures Valid()
      ensures folders == old(folders) && nextId == old(nextId) && |files| == |old(files)|
      ensures filePath !in fs.files ==> r == Fail(FileNotFound(filePath)) && files == old(files)
      ensures filePath in fs.files && IndexOfId(old(files), fileId) < 0 ==> r == Fail(RemoteFileMissing) && files == old(files)
      ensures filePath in fs.files && IndexOfId(old(files), fileId) >= 0 ==>
                var k := IndexOfId(old(files), fileId);
                && r == Pass
                && files == old(files)[k := DriveFile(fileId, name, old(files)[k].parent, fs.files[filePath].content, Some(description))]
    ensures r.Pass? ==> && GetFile(fileId).Ok?
                        && GetFile(fileId).value.name == name
                        && GetFile(fileId).value.content == fs.files[filePath].content
                        && GetFile(fileId).value.description == Some(description)
    {
      if filePath !in fs.files {
        return Fail(FileNotFound(filePath));
      }
      var k := IndexOfId(files, fileId);
      if k < 0 {
        return Fail(RemoteFileMissing);
      }
      IndexOfIdReplace(files, k, DriveFile(fileId, name, files[k].parent, fs.files[filePath].content, Some(description)), fileId);
      files := files[k := DriveFile(fileId, name, files[k].parent, fs.files[filePath].content, Some(description))];
      r := Pass;
    }

    /** GetFile: the file with the id, or an error when there is none. */
    function GetFile(fileId: FileId): (r: Result<DriveFile>)
      reads this
      ensures r.Ok? ==> r.value in files && r.value.id == fileId
      ensures r.Err? <==> forall i :: 0 <= i < |files| ==> files[i].id != fileId
    {
      var k := IndexOfId(files, fileId);
      if k < 0 then Err(RemoteFileMissing) else Ok(files[k])
    }

    /** Download: writes the remote file's content to a local path. */
    method Download(fileId: FileId, fs: FileSystem, path: Path, now: real) returns (r: Outcome)
      modifies fs
      ensures fs.dirs == old(fs.dirs) && fs.tempNames == old(fs.tempNames)
      ensures GetFile(fileId).Err? ==> r == Fail(RemoteFileMissing) && fs.files == old(fs.files) && fs.order == old(fs.order)
      ensures GetFile(fileId).Ok? ==> r == Pass && fs.files == old(fs.files)[path := FileEntry(GetFile(fileId).value.content, now)]
    {
      var f := GetFile(fileId);
      if f.Err? {
        return Fail(RemoteFileMissing);
      }
      fs.WriteFile(path, f.value.content, now);
      r := Pass;
    }
  }
}
