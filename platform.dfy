/** The operating system and the foreign libraries around the core: the file
    system (System.IO.File, Directory), and the zip, MD5 and clock services,
    which are left uninterpreted and passed in as values. */
module Platform {
  import opened Common

  /** A regular file: its bytes and its last-write time, already converted to
      seconds since the Unix epoch as the core converts every time it reads. */
  datatype FileEntry = FileEntry(content: seq<bv8>, lastWrite: real)

  /** An MD5 digest: sixteen bytes. */
  type Digest = d: seq<bv8> | |d| == 16 witness seq(16, _ => 0 as bv8)

  /** One step of building a zip archive: ZipArchive.CreateEntryFromFile,
      the repository's CreateEntryFromDirectory extension, or
      ZipFile.CreateFromDirectory for a whole directory. */
  datatype ZipSource =
    | FromFile(sourcePath: Path, entryName: string)
    | FromDirectory(sourcePath: Path, entryName: string)
    | WholeDirectory(sourcePath: Path)

  /** An entry read back from an archive: its relative name, its bytes and
      the last-write time recorded for it. */
  datatype ZipEntry = ZipEntry(name: string, content: seq<bv8>, lastWrite: real)

  /** The foreign services, uninterpreted: MD5, zip packing of a list of
      sources read from the given files, zip unpacking (None when the bytes
      are not an archive), and the time File.GetLastWriteTime reports for a
      file that does not exist. */
  datatype Foreign = Foreign(
    md5: seq<bv8> -> Digest,
    pack: (seq<ZipSource>, map<Path, FileEntry>) -> seq<bv8>,
    unpack: seq<bv8> -> Option<seq<ZipEntry>>,
    missingFileWriteTime: real)

  /** The files of `order` that exist, sit directly in dir and whose name ends
      with ext, in enumeration order: Directory.GetFiles(dir, "*" + ext). */
  function Listed(order: seq<Path>, files: map<Path, FileEntry>, dir: Path, ext: string): (r: seq<Path>)
    ensures forall p :: p in r ==> p in files && ParentPath(p) == dir && EndsWith(FileName(p), ext)
    ensures forall p :: p in order && p in files && ParentPath(p) == dir && EndsWith(FileName(p), ext) ==> p in r
  {
    if order == [] then []
    else
      var p := order[|order| - 1];
      var rest := Listed(order[..|order| - 1], files, dir, ext);
      assert forall q :: q in order ==> q in order[..|order| - 1] || q == p;
      if p in files && ParentPath(p) == dir && EndsWith(FileName(p), ext) then rest + [p] else rest
  }

  /** GenerateCheckSumForZipFile (both revisions) on the file at path: ""
      when it is missing, else the MD5 digest of its bytes written as
      BitConverter.ToString(digest).Replace("-", "").ToLowerInvariant(),
      which is 32 lower-case hexadecimal digits. */
  function ZipChecksum(files: map<Path, FileEntry>, path: Path, env: Foreign): (r: string)
    ensures r == "" <==> path !in files
    ensures path in files ==> r == LowerHex(env.md5(files[path].content)) && |r| == 32
    ensures forall i :: 0 <= i < |r| ==> r[i] in LowerHexDigits
  {
    if path !in files then ""
    else
      var digest := env.md5(files[path].content);
      HexTextIsLowerHex(digest);
      LowerHexShape(digest);
      ToLowerInvariant(RemoveChar(BitConverterToString(digest), '-'))
  }

  /** The first path of a listing whose file name starts with prefix: what
      a foreach over the listing finds when it returns on
      f.Split(Path.DirectorySeparatorChar)[^1].StartsWith(prefix). */
  function FirstNamedWithPrefix(paths: seq<Path>, prefix: string): Option<Path>
  {
    if paths == [] then None
    else if StartsWith(FileName(paths[0]), prefix) then Some(paths[0])
    else FirstNamedWithPrefix(paths[1..], prefix)
  }

  /** FirstNamedWithPrefix finds nothing exactly when no file name of the
      listing starts with prefix; otherwise it finds a listed path whose name
      does, and no earlier path's name does. */
  lemma {:induction false} FirstNamedWithPrefixSpec(paths: seq<Path>, prefix: string)
    ensures FirstNamedWithPrefix(paths, prefix).None? <==>
              forall i :: 0 <= i < |paths| ==> !StartsWith(FileName(paths[i]), prefix)
    ensures FirstNamedWithPrefix(paths, prefix).Some? ==>
              exists k :: 0 <= k < |paths| && paths[k] == FirstNamedWithPrefix(paths, prefix).value
                          && StartsWith(FileName(paths[k]), prefix)
                          && forall j :: 0 <= j < k ==> !StartsWith(FileName(paths[j]), prefix)
  {
    if paths != [] && !StartsWith(FileName(paths[0]), prefix) {
      FirstNamedWithPrefixSpec(paths[1..], prefix);
      assert forall i :: 1 <= i < |paths| ==> paths[i] == paths[1..][i - 1];
      var r := FirstNamedWithPrefix(paths[1..], prefix);
      if r.Some? {
        var k :| 0 <= k < |paths[1..]| && paths[1..][k] == r.value && StartsWith(FileName(paths[1..][k]), prefix)
                 && forall j :: 0 <= j < k ==> !StartsWith(FileName(paths[1..][j]), prefix);
        assert paths[k + 1] == r.value;
      }
    }
  }

  /** The files after Path.GetTempFileName has created an empty file, stamped
      now, at each of names in turn. */
  function CreatedTempFiles(files: map<Path, FileEntry>, names: seq<Path>, now: real): map<Path, FileEntry>
  {
    if names == [] then files
    else CreatedTempFiles(files, names[..|names| - 1], now)[names[|names| - 1] := FileEntry([], now)]
  }

  /** Handing out one more name creates one more empty file. */
  lemma CreatedTempFilesStep(files: map<Path, FileEntry>, names: seq<Path>, i: nat, now: real)
    requires i < |names|
    ensures CreatedTempFiles(files, names[..i + 1], now) == CreatedTempFiles(files, names[..i], now)[names[i] := FileEntry([], now)]
  {
    assert names[..i + 1][..i] == names[..i];
  }

  /** Handing out m names and then n more is handing out the first m + n. */
  lemma {:induction false} CreatedTempFilesConcat(files: map<Path, FileEntry>, names: seq<Path>, m: nat, n: nat, now: real)
    requires m + n <= |names|
    ensures CreatedTempFiles(CreatedTempFiles(files, names[..m], now), names[m..][..n], now) ==
            CreatedTempFiles(files, names[..m + n], now)
  {
    if n == 0 {
      assert names[m..][..0] == [];
    } else {
      CreatedTempFilesConcat(files, names, m, n - 1, now);
      CreatedTempFilesStep(CreatedTempFiles(files, names[..m], now), names[m..], n - 1, now);
      CreatedTempFilesStep(files, names, m + n - 1, now);
    }
  }

  /** Each name handed out holds an empty file stamped now; every other
      path is as it was. */
  lemma {:induction false} CreatedTempFilesSpec(files: map<Path, FileEntry>, names: seq<Path>, now: real)
    ensures var r := CreatedTempFiles(files, names, now);
            && (forall p :: p in names ==> p in r && r[p] == FileEntry([], now))
            && (forall p :: p !in names ==> (p in r <==> p in files) && (p in files ==> r[p] == files[p]))
  {
    if names != [] {
      var init := names[..|names| - 1];
      CreatedTempFilesSpec(files, init, now);
      assert names == init + [names[|names| - 1]];
    }
  }

  /** The temporary names still to be handed out are distinct and name no
      existing file or directory: what makes Path.GetTempFileName's names
      unique. */
  predicate NamesUnused(names: seq<Path>, files: map<Path, FileEntry>, dirs: set<Path>)
  {
    && (forall i, j :: 0 <= i < j < |names| ==> names[i] != names[j])
    && (forall i :: 0 <= i < |names| ==> names[i] !in files && names[i] !in dirs)
  }

  /** Handing out the first n unused names in turn: each was no file
      before, each now holds an empty file, and the names left are still
      unused. */
  lemma {:induction false} CreatedTempFilesUnused(files: map<Path, FileEntry>, dirs: set<Path>, names: seq<Path>, n: nat,
                                                  now: real)
    requires NamesUnused(names, files, dirs) && n <= |names|
    ensures var r := CreatedTempFiles(files, names[..n], now);
            && (forall i :: 0 <= i < n ==> names[i] !in files && names[i] in r && r[names[i]] == FileEntry([], now))
            && NamesUnused(names[n..], r, dirs)
  {
    var r := CreatedTempFiles(files, names[..n], now);
    CreatedTempFilesSpec(files, names[..n], now);
    forall i | 0 <= i < n
      ensures names[i] in names[..n]
    {
      assert names[..n][i] == names[i];
    }
    forall i | 0 <= i < |names[n..]|
      ensures names[n..][i] !in r
    {
      assert names[n..][i] == names[n + i];
    }
  }

  /** The files after ZipArchive.ExtractToDirectory(dir, overwrite: true)
      has written each entry, in archive order, to its name under dir with
      the entry's bytes and last-write time. */
  function Extracted(files: map<Path, FileEntry>, dir: Path, entries: seq<ZipEntry>): map<Path, FileEntry>
  {
    if entries == [] then files
    else
      var last := entries[|entries| - 1];
      Extracted(files, dir, entries[..|entries| - 1])[Combine(dir, last.name) := FileEntry(last.content, last.lastWrite)]
  }

  /** The enumeration order after the same extraction: each newly created
      file is enumerated after the existing ones. */
  function ExtractedOrder(order: seq<Path>, dir: Path, entries: seq<ZipEntry>): seq<Path>
  {
    if entries == [] then order
    else
      var rest := ExtractedOrder(order, dir, entries[..|entries| - 1]);
      var p := Combine(dir, entries[|entries| - 1].name);
      if p in rest then rest else rest + [p]
  }

  /** An entry that no later entry of the same name overwrites ends up at
      its path with its bytes and time. */
  lemma {:induction false} ExtractedWritesEntries(files: map<Path, FileEntry>, dir: Path, entries: seq<ZipEntry>)
    ensures var r := Extracted(files, dir, entries);
            forall k :: 0 <= k < |entries| && (forall j :: k < j < |entries| ==> entries[j].name != entries[k].name) ==>
              Combine(dir, entries[k].name) in r && r[Combine(dir, entries[k].name)] == FileEntry(entries[k].content, entries[k].lastWrite)
  {
    if entries != [] {
      var n := |entries| - 1;
      var init := entries[..n];
      ExtractedWritesEntries(files, dir, init);
      var r := Extracted(files, dir, entries);
      var q := Combine(dir, entries[n].name);
      forall k | 0 <= k < |entries| && (forall j :: k < j < |entries| ==> entries[j].name != entries[k].name)
        ensures Combine(dir, entries[k].name) in r && r[Combine(dir, entries[k].name)] == FileEntry(entries[k].content, entries[k].lastWrite)
      {
        if k < n {
          assert init[k] == entries[k];
          assert forall j :: k < j < |init| ==> init[j] == entries[j];
          assert entries[n].name != entries[k].name;
          assert Combine(dir, entries[k].name) != q by {
            CombineInjective(dir, entries[k].name, entries[n].name);
          }
        }
      }
    }
  }

  /** A path no entry is written to keeps what it had. */
  lemma {:induction false} ExtractedKeepsOthers(files: map<Path, FileEntry>, dir: Path, entries: seq<ZipEntry>)
    ensures var r := Extracted(files, dir, entries);
            forall p :: (forall k :: 0 <= k < |entries| ==> p != Combine(dir, entries[k].name)) ==>
              (p in r <==> p in files) && (p in files ==> r[p] == files[p])
  {
    if entries != [] {
      var init := entries[..|entries| - 1];
      ExtractedKeepsOthers(files, dir, init);
      assert forall k :: 0 <= k < |init| ==> init[k] == entries[k];
    }
  }

  /** The files after the zip at dst has been deleted and the whole src
      directory archived into it; with src missing, only the deletion
      happened. */
  function DirectoryArchived(files: map<Path, FileEntry>, dirs: set<Path>, src: Path, dst: Path,
                             env: Foreign, now: real): map<Path, FileEntry>
  {
    var cleared := files - {dst};
    if src in dirs then cleared[dst := FileEntry(env.pack([WholeDirectory(src)], cleared), now)] else cleared
  }

  /** Archiving again at the same time changes nothing: the deleted zip was
      not part of what was archived. */
  lemma DirectoryArchivedIdempotent(files: map<Path, FileEntry>, dirs: set<Path>, src: Path, dst: Path,
                                    env: Foreign, now: real)
    ensures var once := DirectoryArchived(files, dirs, src, dst, env, now);
            DirectoryArchived(once, dirs, src, dst, env, now) == once
  {
    var once := DirectoryArchived(files, dirs, src, dst, env, now);
    assert once - {dst} == files - {dst};
  }

  /** The file system of the machine: regular files, directories, the
      order in which directory listings enumerate files, and the names
      Path.GetTempFileName will hand out next. */
  class FileSystem {
    var files: map<Path, FileEntry>
    var dirs: set<Path>
    var order: seq<Path>
    var tempNames: seq<Path>

    /** The names Path.GetTempFileName will hand out are unused. */
    predicate TempNamesUnused()
      reads `files, `dirs, `tempNames
    {
      NamesUnused(tempNames, files, dirs)
    }

    /** File.Exists */
    predicate FileExists(p: Path)
      reads `files
    {
      p in files
    }

    /** Directory.Exists */
    predicate DirectoryExists(p: Path)
      reads `dirs
    {
      p in dirs
    }

    /** Directory.GetFiles(dir, "*" + ext): DirectoryNotFoundException when
        dir does not exist. */
    function GetFiles(dir: Path, ext: string): (r: Result<seq<Path>>)
      reads `files, `dirs, `order
      ensures r.Err? <==> dir !in dirs
      ensures r.Ok? ==> forall p :: p in r.value ==> p in files && ParentPath(p) == dir && EndsWith(FileName(p), ext)
    {
      if dir !in dirs then Err(DirectoryNotFound(dir)) else Ok(Listed(order, files, dir, ext))
    }

    /** File.GetLastWriteTime(p) in seconds since the epoch; a missing file
        reports the fixed time the platform gives. */
    function LastWriteSeconds(p: Path, env: Foreign): real
      reads `files
    {
      if p in files then files[p].lastWrite else env.missingFileWriteTime
    }

    /** Directory.CreateDirectory */
    method CreateDirectory(p: Path)
      modifies this
      ensures dirs == old(dirs) + {p}
      ensures files == old(files) && order == old(order) && tempNames == old(tempNames)
      ensures old(TempNamesUnused()) && p !in old(tempNames) ==> TempNamesUnused()
    {
      dirs := dirs + {p};
    }

    /** File.Delete: removing a missing file is no error. */
    method Delete(p: Path)
      modifies this
      ensures files == old(files) - {p}
      ensures dirs == old(dirs) && order == old(order) && tempNames == old(tempNames)
      ensures old(TempNamesUnused()) ==> TempNamesUnused()
    {
      files := files - {p};
    }

    /** Writes a whole file (FileMode.Create: create, or truncate and
        overwrite), stamping it with the current time. */
    method WriteFile(p: Path, content: seq<bv8>, now: real)
      modifies this
      ensures files == old(files)[p := FileEntry(content, now)]
      ensures dirs == old(dirs) && tempNames == old(tempNames)
      ensures order == if p in old(order) then old(order) else old(order) + [p]
      ensures old(TempNamesUnused()) && p !in old(tempNames) ==> TempNamesUnused()
    {
      files := files[p := FileEntry(content, now)];
      if p !in order {
        order := order + [p];
      }
    }

    /** ZipFile.CreateFromDirectory(src, dst): DirectoryNotFoundException
        when src is missing, IOException when dst already exists; otherwise
        dst holds the archive of the whole directory. */
    method CreateFromDirectory(src: Path, dst: Path, env: Foreign, now: real) returns (r: Outcome)
      modifies this
      ensures src !in old(dirs) ==> r == Fail(DirectoryNotFound(src)) && files == old(files)
      ensures src in old(dirs) && dst in old(files) ==> r == Fail(DestinationExists(dst)) && files == old(files)
      ensures src in old(dirs) && dst !in old(files) ==>
                r == Pass && files == old(files)[dst := FileEntry(env.pack([WholeDirectory(src)], old(files)), now)]
      ensures dirs == old(dirs) && tempNames == old(tempNames)
      ensures order == if r.Pass? && dst !in old(order) then old(order) + [dst] else old(order)
      ensures old(TempNamesUnused()) && dst !in old(tempNames) ==> TempNamesUnused()
    {
      if src !in dirs {
        return Fail(DirectoryNotFound(src));
      }
      if dst in files {
        return Fail(DestinationExists(dst));
      }
      WriteFile(dst, env.pack([WholeDirectory(src)], files), now);
      r := Pass;
    }

    /** ZipArchive.ExtractToDirectory(dir, overwrite: true): creates dir and
        writes every entry under it. */
    method ExtractToDirectory(dir: Path, entries: seq<ZipEntry>)
      modifies this
      ensures dirs == old(dirs) + {dir}
      ensures files == Extracted(old(files), dir, entries)
      ensures order == ExtractedOrder(old(order), dir, entries)
      ensures tempNames == old(tempNames)
    {
      dirs := dirs + {dir};
      files := Extracted(files, dir, entries);
      order := ExtractedOrder(order, dir, entries);
    }

    /** FileInfo(p).Length: FileNotFoundException when the file is missing. */
    function Length(p: Path): (r: Result<nat>)
      reads `files
      ensures r.Err? <==> p !in files
      ensures r.Ok? ==> r.value == |files[p].content|
    {
      if p in files then Ok(|files[p].content|) else Err(FileNotFound(p))
    }

    /** Path.GetTempFileName: takes the next temporary name and creates an
        empty file there; IOException when no name is left. While the names
        are unused, the one handed out names no existing file or directory
        and will not be handed out again. */
    method GetTempFileName(now: real) returns (r: Result<Path>)
      modifies this
      ensures old(tempNames) == [] ==> r == Err(IOError) && files == old(files) && tempNames == []
      ensures old(tempNames) != [] ==>
                && r == Ok(old(tempNames)[0])
                && tempNames == old(tempNames)[1..]
                && files == old(files)[r.value := FileEntry([], now)]
      ensures dirs == old(dirs)
      ensures order == if r.Ok? && r.value !in old(order) then old(order) + [r.value] else old(order)
      ensures old(TempNamesUnused()) ==> TempNamesUnused()
      ensures old(TempNamesUnused()) && r.Ok? ==> r.value !in old(files) && r.value !in old(dirs) && r.value !in tempNames
    {
      if tempNames == [] {
        return Err(IOError);
      }
      var p := tempNames[0];
      tempNames := tempNames[1..];
      assert forall i :: 0 <= i < |tempNames| ==> tempNames[i] == old(tempNames)[i + 1];
      WriteFile(p, [], now);
      r := Ok(p);
    }
  }
}
