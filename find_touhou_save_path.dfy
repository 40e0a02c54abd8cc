/** SaveFiles/FindTouhouSavePath.cs: the two tables between game titles and
    executable names, the recursive search of an installation directory for
    old-generation executables, and the scan of the ShanghaiAlice folder for
    new-generation save folders. */
module FindTouhouSavePath {
  import opened Common
  import opened Dictionaries
  import opened DictionaryExtension

  /** TouhouToExeName: game title to executable name, in declaration order. */
  const TouhouToExeName: seq<(string, string)> := [
    ("Touhou06", "東方紅魔郷.exe"),
    ("Touhou07", "th07.exe"),
    ("Touhou75", "th075.exe"),
    ("Touhou08", "th08.exe"),
    ("Touhou09", "th09.exe"),
    ("Touhou95", "th095.exe"),
    ("Touhou10", "th10.exe"),
    ("Touhou105", "th105.exe"),
    ("Touhou11", "th11.exe"),
    ("Touhou12", "th12.exe")
  ]

  /** ExeNameToTouhou: executable name to game title. */
  const ExeNameToTouhou: seq<(string, string)> := [
    ("東方紅魔郷.exe", "Touhou06"),
    ("th07.exe", "Touhou07"),
    ("th075.exe", "Touhou75"),
    ("th08.exe", "Touhou08"),
    ("th09.exe", "Touhou09"),
    ("th095.exe", "Touhou95"),
    ("th10.exe", "Touhou10"),
    ("th105.exe", "Touhou105"),
    ("th11.exe", "Touhou11"),
    ("th12.exe", "Touhou12")
  ]

  /** The two tables are well-formed dictionaries (their initialisers would
      throw on a repeated key) and each is the other with its pairs swapped. */
  lemma TablesAreInverse()
    ensures DistinctKeys(TouhouToExeName) && DistinctKeys(ExeNameToTouhou)
    ensures |TouhouToExeName| == |ExeNameToTouhou|
    ensures forall i :: 0 <= i < |ExeNameToTouhou| ==>
              ExeNameToTouhou[i] == (TouhouToExeName[i].1, TouhouToExeName[i].0)
  {
  }

  /** Looking a title up and its executable up again gives the title back, in
      both directions. */
  lemma TitleExeRoundTrip(title: string, exe: string)
    ensures GetValueOrDefault(TouhouToExeName, title) == Some(exe)
        <==> GetValueOrDefault(ExeNameToTouhou, exe) == Some(title)
  {
    TablesAreInverse();
    SwappedLookup(TouhouToExeName, ExeNameToTouhou, title, exe);
  }

  /** In two dictionaries holding the same pairs swapped, x maps to y in the
      one exactly when y maps to x in the other. */
  lemma SwappedLookup<A, B>(ab: seq<(A, B)>, ba: seq<(B, A)>, x: A, y: B)
    requires DistinctKeys(ab) && DistinctKeys(ba) && |ab| == |ba|
    requires forall i :: 0 <= i < |ba| ==> ba[i] == (ab[i].1, ab[i].0)
    ensures GetValueOrDefault(ab, x) == Some(y) <==> GetValueOrDefault(ba, y) == Some(x)
  {
    GetValueOrDefaultSpec(ab, x);
    GetValueOrDefaultSpec(ba, y);
    GetValueOrDefaultFirst(ab, x);
    GetValueOrDefaultFirst(ba, y);
    if GetValueOrDefault(ab, x) == Some(y) {
      var k :| 0 <= k < |ab| && ab[k] == (x, y) && forall j :: 0 <= j < k ==> ab[j].0 != x;
      assert ba[k] == (y, x);
    }
    if GetValueOrDefault(ba, y) == Some(x) {
      var k :| 0 <= k < |ba| && ba[k] == (y, x) && forall j :: 0 <= j < k ==> ba[j].0 != y;
      assert ab[k] == (x, y);
    }
  }

  // -----------------------------------------------------------------------
  // TryAdd of a whole sequence of pairs
  // -----------------------------------------------------------------------

  /** The pairs after TryAdd of every pair of hits, in order. */
  function TryAddAll<K(==), V>(entries: seq<(K, V)>, hits: seq<(K, V)>): seq<(K, V)>
  {
    if hits == [] then entries
    else
      var last := hits[|hits| - 1];
      TryAdded(TryAddAll(entries, hits[..|hits| - 1]), last.0, last.1)
  }

  lemma {:induction false} TryAddAllAppend<K, V>(entries: seq<(K, V)>, a: seq<(K, V)>, b: seq<(K, V)>)
    ensures TryAddAll(entries, a + b) == TryAddAll(TryAddAll(entries, a), b)
  {
    if b == [] {
      assert a + b == a;
    } else {
      assert (a + b)[..|a + b| - 1] == a + b[..|b| - 1];
      assert (a + b)[|a + b| - 1] == b[|b| - 1];
      TryAddAllAppend(entries, a, b[..|b| - 1]);
    }
  }

  lemma KeysAppend<K, V>(a: seq<(K, V)>, b: seq<(K, V)>)
    ensures Keys(a + b) == Keys(a) + Keys(b)
  {
    forall k | k in Keys(a + b) ensures k in Keys(a) + Keys(b) {
      var i :| 0 <= i < |a + b| && (a + b)[i].0 == k;
      if i < |a| { assert a[i] == (a + b)[i]; } else { assert b[i - |a|] == (a + b)[i]; }
    }
    forall k | k in Keys(a) + Keys(b) ensures k in Keys(a + b) {
      if k in Keys(a) {
        var i :| 0 <= i < |a| && a[i].0 == k;
        assert (a + b)[i] == a[i];
      } else {
        var i :| 0 <= i < |b| && b[i].0 == k;
        assert (a + b)[|a| + i] == b[i];
      }
    }
  }

  /** A lookup in a concatenation finds the first list's pair when it has one. */
  lemma {:induction false} LookupAppend<K, V>(a: seq<(K, V)>, b: seq<(K, V)>, key: K)
    ensures GetValueOrDefault(a + b, key)
         == if key in Keys(a) then GetValueOrDefault(a, key) else GetValueOrDefault(b, key)
  {
    if a == [] {
      assert a + b == b;
    } else {
      assert (a + b)[1..] == a[1..] + b;
      LookupAppend(a[1..], b, key);
      if a[0].0 != key {
        KeysAppend([a[0]], a[1..]);
        assert [a[0]] + a[1..] == a;
      } else {
        assert a[0].0 in Keys(a);
      }
    }
  }

  /** TryAdd of every hit keeps the keys distinct, adds exactly the hits'
      keys, and answers every lookup as the first pair with that key among
      the old entries followed by the hits: the first pair found wins. */
  lemma {:induction false} TryAddAllFirstWins<K, V>(entries: seq<(K, V)>, hits: seq<(K, V)>)
    requires DistinctKeys(entries)
    ensures DistinctKeys(TryAddAll(entries, hits))
    ensures Keys(TryAddAll(entries, hits)) == Keys(entries) + Keys(hits)
    ensures forall key :: GetValueOrDefault(TryAddAll(entries, hits), key)
                       == GetValueOrDefault(entries + hits, key)
  {
    if hits != [] {
      var init, last := hits[..|hits| - 1], hits[|hits| - 1];
      assert hits == init + [last];
      TryAddAllFirstWins(entries, init);
      var prev := TryAddAll(entries, init);
      TryAddedKeepsDistinct(prev, last.0, last.1);
      KeysAppend(init, [last]);
      assert Keys([last]) == {last.0};
      forall key
        ensures GetValueOrDefault(TryAddAll(entries, hits), key) == GetValueOrDefault(entries + hits, key)
      {
        assert entries + hits == (entries + init) + [last];
        assert [last][1..] == [];
        KeysAppend(entries, init);
        GetValueOrDefaultSpec(entries + init, key);
        LookupAppend(entries + init, [last], key);
        if last.0 !in Keys(prev) {
          LookupAppend(prev, [last], key);
        }
      }
    } else {
      assert entries + hits == entries;
      assert Keys(hits) == {};
    }
  }

  // -----------------------------------------------------------------------
  // Old generation: recursive search for the games' executables
  // -----------------------------------------------------------------------

  /** A directory as the recursive walk sees it: the full paths of its files
      and its subdirectories, in the order Directory.GetFiles and
      Directory.GetDirectories enumerate them. */
  datatype DirTree = DirTree(path: Path, files: seq<Path>, subdirs: seq<DirTree>)

  /** Directory.GetFiles(directory, "*.exe"): the files whose name ends in .exe. */
  function ExeFiles(files: seq<Path>): seq<Path>
  {
    if files == [] then []
    else
      var rest := ExeFiles(files[..|files| - 1]);
      var f := files[|files| - 1];
      if EndsWith(FileName(f), ".exe") then rest + [f] else rest
  }

  /** The (title, path) pairs the walk offers to TryAdd for a list of
      executables: those whose file name is a key of the executable-to-title
      table (ExeNameToTouhou in the program). */
  function ExeHits(table: seq<(string, string)>, exes: seq<Path>): seq<(string, Path)>
  {
    if exes == [] then []
    else
      var rest := ExeHits(table, exes[..|exes| - 1]);
      var f := exes[|exes| - 1];
      var game := GetValueOrDefault(table, FileName(f));
      if game.Some? then rest + [(game.value, f)] else rest
  }

  /** The executables the walk of t meets, in the order it meets them: the
      directory's own first, then each subdirectory's walk in turn. */
  function Walk(t: DirTree): seq<Path>
    decreases t, |t.subdirs| + 1
  {
    ExeFiles(t.files) + SubdirWalk(t, |t.subdirs|)
  }

  /** The executables met by the walks of the first k subdirectories of t. */
  function SubdirWalk(t: DirTree, k: nat): seq<Path>
    requires k <= |t.subdirs|
    decreases t, k
  {
    if k == 0 then [] else SubdirWalk(t, k - 1) + Walk(t.subdirs[k - 1])
  }

  lemma {:induction false} ExeHitsAppend(table: seq<(string, string)>, a: seq<Path>, b: seq<Path>)
    ensures ExeHits(table, a + b) == ExeHits(table, a) + ExeHits(table, b)
  {
    if b == [] {
      assert a + b == a;
    } else {
      assert (a + b)[..|a + b| - 1] == a + b[..|b| - 1];
      assert (a + b)[|a + b| - 1] == b[|b| - 1];
      ExeHitsAppend(table, a, b[..|b| - 1]);
    }
  }

  lemma ExeHitsSnoc(table: seq<(string, string)>, exes: seq<Path>, f: Path)
    ensures ExeHits(table, exes + [f])
         == ExeHits(table, exes) + match GetValueOrDefault(table, FileName(f))
                            case Some(game) => [(game, f)]
                            case None => []
  {
    assert (exes + [f])[..|exes|] == exes;
  }

  lemma TryAddAllSnoc<K, V>(entries: seq<(K, V)>, hits: seq<(K, V)>, h: (K, V))
    ensures TryAddAll(entries, hits + [h]) == TryAdded(TryAddAll(entries, hits), h.0, h.1)
  {
    assert (hits + [h])[..|hits|] == hits;
  }

  /** One step of the walk over a directory's own executables. */
  lemma ExeHitsStep(table: seq<(string, string)>, entries: seq<(string, Path)>, exes: seq<Path>, i: nat)
    requires i < |exes|
    ensures TryAddAll(entries, ExeHits(table, exes[..i + 1]))
         == match GetValueOrDefault(table, FileName(exes[i]))
            case Some(game) => TryAdded(TryAddAll(entries, ExeHits(table, exes[..i])), game, exes[i])
            case None => TryAddAll(entries, ExeHits(table, exes[..i]))
  {
    assert exes[..i + 1] == exes[..i] + [exes[i]];
    ExeHitsSnoc(table, exes[..i], exes[i]);
    var game := GetValueOrDefault(table, FileName(exes[i]));
    if game.Some? {
      TryAddAllSnoc(entries, ExeHits(table, exes[..i]), (game.value, exes[i]));
    } else {
      assert ExeHits(table, exes[..i]) + [] == ExeHits(table, exes[..i]);
    }
  }

  /** Walking more executables TryAdds their hits after the earlier ones. */
  lemma HitsAppend(table: seq<(string, string)>, entries: seq<(string, Path)>, a: seq<Path>, b: seq<Path>)
    ensures TryAddAll(entries, ExeHits(table, a + b))
         == TryAddAll(TryAddAll(entries, ExeHits(table, a)), ExeHits(table, b))
  {
    ExeHitsAppend(table, a, b);
    TryAddAllAppend(entries, ExeHits(table, a), ExeHits(table, b));
  }

  /** Every pair offered for a list of executables pairs one of them with the
      title the table gives its file name. */
  lemma {:induction false} ExeHitsKnown(table: seq<(string, string)>, exes: seq<Path>)
    ensures forall i :: 0 <= i < |ExeHits(table, exes)| ==>
              ExeHits(table, exes)[i].1 in exes
              && GetValueOrDefault(table, FileName(ExeHits(table, exes)[i].1)) == Some(ExeHits(table, exes)[i].0)
  {
    if exes != [] {
      ExeHitsKnown(table, exes[..|exes| - 1]);
      assert forall f :: f in exes[..|exes| - 1] ==> f in exes;
    }
  }

  /** The loop over one directory's executables: each file whose name is a
      key of table is offered to itemsFound with TryAdd. */
  method AddExecutables(table: seq<(string, string)>, exes: seq<Path>, itemsFound: Dictionary<string, string>)
    requires itemsFound.Valid()
    modifies itemsFound
    ensures itemsFound.Valid()
    ensures itemsFound.entries == TryAddAll(old(itemsFound.entries), ExeHits(table, exes))
  {
    var i := 0;
    while i < |exes|
      invariant 0 <= i <= |exes|
      invariant itemsFound.Valid()
      invariant itemsFound.entries == TryAddAll(old(itemsFound.entries), ExeHits(table, exes[..i]))
    {
      ExeHitsStep(table, old(itemsFound.entries), exes, i);
      var f := exes[i];
      var fileName := FileName(f);
      var game := GetValueOrDefault(table, fileName);
      if game.Some? {
        var _ := itemsFound.TryAdd(game.value, f);
      }
      i := i + 1;
    }
    assert exes[..i] == exes;
  }

  /** SearchTouhouOldGenerationExe(directory, itemsFound): walks the tree,
      TryAdd-ing (title, path) for every executable the table knows, so a
      title already present keeps its path. The table is ExeNameToTouhou,
      which GetTouhouOldGenPath passes in. */
  method SearchTouhouOldGenerationExe(table: seq<(string, string)>, directory: DirTree, itemsFound: Dictionary<string, string>)
    requires itemsFound.Valid()
    modifies itemsFound
    ensures itemsFound.Valid()
    ensures itemsFound.entries == TryAddAll(old(itemsFound.entries), ExeHits(table, Walk(directory)))
    decreases directory, 1
  {
    ghost var e0 := itemsFound.entries;
    AddExecutables(table, ExeFiles(directory.files), itemsFound);
    SearchSubdirectories(table, directory, itemsFound);
    HitsAppend(table, e0, ExeFiles(directory.files), SubdirWalk(directory, |directory.subdirs|));
  }

  /** The recursive calls of SearchTouhouOldGenerationExe, one per
      subdirectory in listing order. */
  method SearchSubdirectories(table: seq<(string, string)>, directory: DirTree, itemsFound: Dictionary<string, string>)
    requires itemsFound.Valid()
    modifies itemsFound
    ensures itemsFound.Valid()
    ensures itemsFound.entries == TryAddAll(old(itemsFound.entries), ExeHits(table, SubdirWalk(directory, |directory.subdirs|)))
    decreases directory, 0
  {
    var j := 0;
    while j < |directory.subdirs|
      invariant 0 <= j <= |directory.subdirs|
      invariant itemsFound.Valid()
      invariant itemsFound.entries == TryAddAll(old(itemsFound.entries), ExeHits(table, SubdirWalk(directory, j)))
    {
      HitsAppend(table, old(itemsFound.entries), SubdirWalk(directory, j), Walk(directory.subdirs[j]));
      SearchTouhouOldGenerationExe(table, directory.subdirs[j], itemsFound);
      j := j + 1;
    }
  }

  /** GetTouhouOldGenPath(dir): a fresh dictionary filled by the walk; the
      walk throws DirectoryNotFoundException when dir does not exist (tree
      is None). */
  method GetTouhouOldGenPath(dir: Path, tree: Option<DirTree>) returns (r: Result<Dictionary<string, string>>)
    requires tree.Some? ==> tree.value.path == dir
    ensures r.Err? <==> tree.None?
    ensures r.Err? ==> r.error == DirectoryNotFound(dir)
    ensures r.Ok? ==> (fresh(r.value) && r.value.Valid()
                       && r.value.entries == TryAddAll([], ExeHits(ExeNameToTouhou, Walk(tree.value))))
  {
    var itemsFound := new Dictionary<string, string>();
    if tree.None? {
      return Err(DirectoryNotFound(dir));
    }
    SearchTouhouOldGenerationExe(ExeNameToTouhou, tree.value, itemsFound);
    r := Ok(itemsFound);
  }

  /** What the search finds: a title is a key exactly when some executable of
      the walk carries it, only titles of TouhouToExeName occur, each path
      found is an executable of the walk named as its title's executable,
      and each title maps to the first such executable the walk met. */
  lemma OldGenSearchFindsFirst(t: DirTree)
    ensures DistinctKeys(TryAddAll([], ExeHits(ExeNameToTouhou, Walk(t))))
    ensures Keys(TryAddAll([], ExeHits(ExeNameToTouhou, Walk(t)))) == Keys(ExeHits(ExeNameToTouhou, Walk(t)))
    ensures Keys(TryAddAll([], ExeHits(ExeNameToTouhou, Walk(t)))) <= Keys(TouhouToExeName)
    ensures forall title :: GetValueOrDefault(TryAddAll([], ExeHits(ExeNameToTouhou, Walk(t))), title)
                         == GetValueOrDefault(ExeHits(ExeNameToTouhou, Walk(t)), title)
    ensures forall i :: 0 <= i < |TryAddAll([], ExeHits(ExeNameToTouhou, Walk(t)))| ==>
              (var (title, path) := TryAddAll([], ExeHits(ExeNameToTouhou, Walk(t)))[i];
               path in Walk(t) && GetValueOrDefault(TouhouToExeName, title) == Some(FileName(path)))
  {
    TablesAreInverse();
    SearchFindsFirst(TouhouToExeName, ExeNameToTouhou, Walk(t));
  }

  /** OldGenSearchFindsFirst for any pair of tables, each the other swapped. */
  lemma SearchFindsFirst(titleToExe: seq<(string, string)>, exeToTitle: seq<(string, string)>, exes: seq<Path>)
    requires DistinctKeys(titleToExe) && DistinctKeys(exeToTitle) && |titleToExe| == |exeToTitle|
    requires forall i :: 0 <= i < |exeToTitle| ==> exeToTitle[i] == (titleToExe[i].1, titleToExe[i].0)
    ensures DistinctKeys(TryAddAll([], ExeHits(exeToTitle, exes)))
    ensures Keys(TryAddAll([], ExeHits(exeToTitle, exes))) == Keys(ExeHits(exeToTitle, exes))
    ensures Keys(TryAddAll([], ExeHits(exeToTitle, exes))) <= Keys(titleToExe)
    ensures forall title :: GetValueOrDefault(TryAddAll([], ExeHits(exeToTitle, exes)), title)
                         == GetValueOrDefault(ExeHits(exeToTitle, exes), title)
    ensures forall i :: 0 <= i < |TryAddAll([], ExeHits(exeToTitle, exes))| ==>
              (var (title, path) := TryAddAll([], ExeHits(exeToTitle, exes))[i];
               path in exes && GetValueOrDefault(titleToExe, title) == Some(FileName(path)))
  {
    var hits := ExeHits(exeToTitle, exes);
    var found := TryAddAll([], hits);
    TryAddAllFirstWins([], hits);
    assert [] + hits == hits;
    assert Keys<string, Path>([]) == {};
    forall i | 0 <= i < |found|
      ensures found[i].1 in exes && GetValueOrDefault(titleToExe, found[i].0) == Some(FileName(found[i].1))
    {
      FoundEntryKnown(titleToExe, exeToTitle, exes, i);
    }
    forall title | title in Keys(found) ensures title in Keys(titleToExe) {
      var i :| 0 <= i < |found| && found[i].0 == title;
      GetValueOrDefaultSpec(titleToExe, title);
    }
  }

  /** One entry of the search result: its path is an executable of the walk
      and its title names that executable in titleToExe. */
  lemma FoundEntryKnown(titleToExe: seq<(string, string)>, exeToTitle: seq<(string, string)>, exes: seq<Path>, i: int)
    requires DistinctKeys(titleToExe) && DistinctKeys(exeToTitle) && |titleToExe| == |exeToTitle|
    requires forall i :: 0 <= i < |exeToTitle| ==> exeToTitle[i] == (titleToExe[i].1, titleToExe[i].0)
    requires 0 <= i < |TryAddAll([], ExeHits(exeToTitle, exes))|
    ensures var (title, path) := TryAddAll([], ExeHits(exeToTitle, exes))[i];
            path in exes && GetValueOrDefault(titleToExe, title) == Some(FileName(path))
  {
    var hits := ExeHits(exeToTitle, exes);
    var found := TryAddAll([], hits);
    var (title, path) := found[i];
    assert GetValueOrDefault(hits, title) == Some(path) by {
      TryAddAllFirstWins([], hits);
      assert [] + hits == hits;
      GetValueOrDefaultSpec(found, title);
    }
    GetValueOrDefaultFirst(hits, title);
    var k :| 0 <= k < |hits| && hits[k] == (title, path);
    assert path in exes && GetValueOrDefault(exeToTitle, FileName(path)) == Some(title) by {
      ExeHitsKnown(exeToTitle, exes);
    }
    SwappedLookup(titleToExe, exeToTitle, title, FileName(path));
  }

  /** A directory that holds th07.exe and a subdirectory holding another
      th07.exe: the search keeps the first one it meets, the outer one. */
  lemma FirstExecutableKept(root: Path, copy: Path)
    ensures var outer, inner := root + [DirectorySeparatorChar] + "th07.exe", copy + [DirectorySeparatorChar] + "th07.exe";
            var t := DirTree(root, [outer], [DirTree(copy, [inner], [])]);
            TryAddAll([], ExeHits(ExeNameToTouhou, Walk(t))) == [("Touhou07", outer)]
  {
    var outer, inner := root + [DirectorySeparatorChar] + "th07.exe", copy + [DirectorySeparatorChar] + "th07.exe";
    var t := DirTree(root, [outer], [DirTree(copy, [inner], [])]);
    Th07Hit(root);
    Th07Hit(copy);
    assert Walk(t) == [outer] + [inner] by {
      assert Walk(t.subdirs[0]) == [inner];
      assert SubdirWalk(t, 1) == [inner];
    }
    ExeHitsAppend(ExeNameToTouhou, [outer], [inner]);
    var first := [("Touhou07", outer)];
    TryAddAllSnoc([], first, ("Touhou07", inner));
    TryAddAllSnoc([], [], ("Touhou07", outer));
    assert [] + first == first;
    assert first + [("Touhou07", inner)] == ExeHits(ExeNameToTouhou, Walk(t));
    assert "Touhou07" in Keys(first);
  }

  /** An executable named th07.exe is listed and offered as Touhou07. */
  lemma Th07Hit(dir: Path)
    ensures var p := dir + [DirectorySeparatorChar] + "th07.exe";
            ExeFiles([p]) == [p] && ExeHits(ExeNameToTouhou, [p]) == [("Touhou07", p)]
  {
    var p := dir + [DirectorySeparatorChar] + "th07.exe";
    FileNameAfterSeparator(dir, "th07.exe");
    assert GetValueOrDefault(ExeNameToTouhou, "th07.exe") == Some("Touhou07");
    assert [p][..0] == [];
  }

  // -----------------------------------------------------------------------
  // New generation: the save folders under %APPDATA%\ShanghaiAlice
  // -----------------------------------------------------------------------

  /** "Touhou" followed by the folder name from its third character on
      (th13 gives Touhou13); Substring(2) throws ArgumentOutOfRangeException
      on a name shorter than two characters. */
  function NewGenTitle(folder: Path): (r: Result<string>)
    ensures r.Err? <==> |FileName(folder)| < 2
    ensures r.Err? ==> r.error == ArgumentOutOfRange
    ensures r.Ok? ==> StartsWith(r.value, "Touhou") && r.value[6..] == FileName(folder)[2..]
  {
    var dirName := FileName(folder);
    if |dirName| < 2 then Err(ArgumentOutOfRange) else Ok("Touhou" + dirName[2..])
  }

  /** The save folder th13 under any directory gives the title Touhou13. */
  lemma NewGenTitleExample(shanghaiAlice: Path)
    ensures NewGenTitle(shanghaiAlice + [DirectorySeparatorChar] + "th13") == Ok("Touhou13")
  {
    FileNameAfterSeparator(shanghaiAlice, "th13");
    assert "th13"[2..] == "13";
    assert "Touhou" + "13" == "Touhou13";
  }

  /** The dictionary after Add of (title, folder) for every folder in order:
      Err at the first folder whose name is too short or whose title is
      already present. */
  function NewGenScan(entries: seq<(string, Path)>, folders: seq<Path>): Result<seq<(string, Path)>>
  {
    if folders == [] then Ok(entries)
    else
      match NewGenScan(entries, folders[..|folders| - 1])
      case Err(e) => Err(e)
      case Ok(prev) =>
        var d := folders[|folders| - 1];
        match NewGenTitle(d)
        case Err(e) => Err(e)
        case Ok(title) => if title in Keys(prev) then Err(DuplicateKey) else Ok(prev + [(title, d)])
  }

  /** Every folder name has the two characters Substring(2) needs. */
  predicate NamesLongEnough(folders: seq<Path>)
  {
    forall i :: 0 <= i < |folders| ==> |FileName(folders[i])| >= 2
  }

  /** No two folders give the same title. */
  predicate TitlesDistinct(folders: seq<Path>)
  {
    forall i, j :: 0 <= i < j < |folders| ==> NewGenTitle(folders[i]) != NewGenTitle(folders[j])
  }

  /** Every folder paired with its title, in order. */
  function Titled(folders: seq<Path>): (r: seq<(string, Path)>)
    requires NamesLongEnough(folders)
    ensures |r| == |folders|
  {
    seq(|folders|, i requires 0 <= i < |folders| => (NewGenTitle(folders[i]).value, folders[i]))
  }

  /** The scan from an empty dictionary succeeds exactly when every folder
      name has at least two characters and no two folders give the same
      title; it then pairs every folder with its title, in order. */
  lemma {:induction false} NewGenScanOk(folders: seq<Path>)
    ensures NewGenScan([], folders).Ok? <==> NamesLongEnough(folders) && TitlesDistinct(folders)
    ensures NewGenScan([], folders).Ok? ==> NewGenScan([], folders).value == Titled(folders)
  {
    if folders != [] {
      var init, d := folders[..|folders| - 1], folders[|folders| - 1];
      assert forall i :: 0 <= i < |init| ==> init[i] == folders[i];
      NewGenScanOk(init);
      var prev := NewGenScan([], init);
      if prev.Ok? {
        var t := NewGenTitle(d);
        if t.Ok? {
          TitleAlreadyScanned(init, t.value);
          if t.value !in Keys(prev.value) {
            assert Titled(folders) == Titled(init) + [(t.value, d)];
          }
        }
      } else if NamesLongEnough(folders) {
        assert NamesLongEnough(init);
      }
    }
  }

  /** After a successful scan, a title is present exactly when one of the
      scanned folders gives it. */
  lemma TitleAlreadyScanned(init: seq<Path>, title: string)
    requires NamesLongEnough(init)
    ensures title in Keys(Titled(init)) <==> exists i :: 0 <= i < |init| && NewGenTitle(init[i]) == Ok(title)
  {
    var ps := Titled(init);
    if title in Keys(ps) {
      var i :| 0 <= i < |ps| && ps[i].0 == title;
      assert NewGenTitle(init[i]) == Ok(title);
    }
    if exists i :: 0 <= i < |init| && NewGenTitle(init[i]) == Ok(title) {
      var i :| 0 <= i < |init| && NewGenTitle(init[i]) == Ok(title);
      assert ps[i].0 == title;
    }
  }

  /** The scan of a folder list extended by one folder. */
  lemma NewGenScanStep(entries: seq<(string, Path)>, folders: seq<Path>, i: nat)
    requires i < |folders|
    ensures NewGenScan(entries, folders[..i + 1])
         == match NewGenScan(entries, folders[..i])
            case Err(e) => Err(e)
            case Ok(prev) =>
              match NewGenTitle(folders[i])
              case Err(e) => Err(e)
              case Ok(title) => if title in Keys(prev) then Err(DuplicateKey) else Ok(prev + [(title, folders[i])])
  {
    assert folders[..i + 1][..i] == folders[..i];
  }

  /** Once the scan has failed on a prefix it fails on the whole list. */
  lemma {:induction false} NewGenScanErrSticks(entries: seq<(string, Path)>, folders: seq<Path>, i: nat)
    requires i <= |folders| && NewGenScan(entries, folders[..i]).Err?
    ensures NewGenScan(entries, folders).Err?
    decreases |folders| - i
  {
    if i < |folders| {
      NewGenScanStep(entries, folders, i);
      NewGenScanErrSticks(entries, folders, i + 1);
    } else {
      assert folders[..i] == folders;
    }
  }

  /** SearchTouhouNewGeneration(itemsFound): Add of ("Touhou" + name[2..],
      folder) for every folder directly under ShanghaiAlice. An exception
      stops the scan, leaving the pairs added before it. */
  method SearchTouhouNewGeneration(shanghaiAlice: DirTree, itemsFound: Dictionary<string, string>)
    returns (r: Outcome)
    requires itemsFound.Valid()
    modifies itemsFound
    ensures itemsFound.Valid()
    ensures r.Pass? <==> NewGenScan(old(itemsFound.entries), FolderPaths(shanghaiAlice.subdirs)).Ok?
    ensures r.Pass? ==> itemsFound.entries == NewGenScan(old(itemsFound.entries), FolderPaths(shanghaiAlice.subdirs)).value
  {
    var folders := FolderPaths(shanghaiAlice.subdirs);
    var i := 0;
    while i < |folders|
      invariant 0 <= i <= |folders|
      invariant itemsFound.Valid()
      invariant NewGenScan(old(itemsFound.entries), folders[..i]) == Ok(itemsFound.entries)
    {
      var d := folders[i];
      NewGenScanStep(old(itemsFound.entries), folders, i);
      var dirName := FileName(d);
      if |dirName| < 2 {
        NewGenScanErrSticks(old(itemsFound.entries), folders, i + 1);
        return Fail(ArgumentOutOfRange);
      }
      var thName := "Touhou" + dirName[2..];
      var added := itemsFound.Add(thName, d);
      if added.Fail? {
        NewGenScanErrSticks(old(itemsFound.entries), folders, i + 1);
        return added;
      }
      i := i + 1;
    }
    assert folders[..i] == folders;
    r := Pass;
  }

  /** Directory.GetDirectories(dir): the full paths of the subdirectories. */
  function FolderPaths(subdirs: seq<DirTree>): (r: seq<Path>)
    ensures |r| == |subdirs| && forall i :: 0 <= i < |r| ==> r[i] == subdirs[i].path
  {
    seq(|subdirs|, i requires 0 <= i < |subdirs| => subdirs[i].path)
  }

  /** GetTouhouNewGenPath(): an empty dictionary when
      %APPDATA%\ShanghaiAlice does not exist (shanghaiAlice is None),
      otherwise the dictionary filled by the scan; the scan's exception
      propagates. */
  method GetTouhouNewGenPath(appData: Path, shanghaiAlice: Option<DirTree>)
    returns (r: Result<Dictionary<string, string>>)
    requires shanghaiAlice.Some? ==> shanghaiAlice.value.path == Combine(appData, "ShanghaiAlice")
    ensures shanghaiAlice.None? ==> r.Ok? && r.value.entries == []
    ensures shanghaiAlice.Some? ==>
              (r.Ok? <==> NewGenScan([], FolderPaths(shanghaiAlice.value.subdirs)).Ok?)
    ensures r.Ok? ==> fresh(r.value) && r.value.Valid()
    ensures r.Ok? && shanghaiAlice.Some? ==>
              r.value.entries == NewGenScan([], FolderPaths(shanghaiAlice.value.subdirs)).value
  {
    var newGenSavesFound := new Dictionary<string, string>();
    if shanghaiAlice.Some? {
      var scanned := SearchTouhouNewGeneration(shanghaiAlice.value, newGenSavesFound);
      if scanned.Fail? {
        return Err(scanned.error);
      }
    }
    r := Ok(newGenSavesFound);
  }
}
