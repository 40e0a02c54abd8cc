/** Values shared by every module of the model: optional values, the .NET
    exceptions the core can raise, and the string and path helpers of the
    .NET base library that the core relies on (Split, StartsWith,
    Path.Combine, BitConverter.ToString, ...). */
module Common {

  /** A reference that may be null. */
  datatype Option<+T> = None | Some(value: T)

  /** The .NET exceptions that the modelled code can raise. */
  datatype Exception =
    | DirectoryNotFound(path: string)   // Directory.GetFiles / ZipFile.CreateFromDirectory on a missing directory
    | FileNotFound(path: string)        // new FileStream(path, FileMode.Open) on a missing file
    | DestinationExists(path: string)   // ZipFile.CreateFromDirectory onto an existing file
    | KeyNotFound                       // Dictionary indexer with a missing key
    | DuplicateKey                      // Dictionary.Add with a key already present (ArgumentException)
    | ArgumentOutOfRange                // string.Substring past the end
    | NullReference                     // member access on null
    | ArgumentNull                      // a null argument where a value is required
    | NotImplemented                    // NotImplementedException
    | InvalidData                       // a malformed archive or description
    | RemoteFileMissing                 // a Drive request for an id that does not exist
    | IOError                           // Path.GetTempFileName with no unique name left
    | InvalidDirectory(path: string)    // new FileSystemWatcher(path) on a missing directory (ArgumentException)

  /** The value of an expression that may throw. */
  datatype Result<+T> = Ok(value: T) | Err(error: Exception)

  /** The completion of a statement that may throw. */
  datatype Outcome = Pass | Fail(error: Exception)

  type Path = string

  /** Path.DirectorySeparatorChar, Path.AltDirectorySeparatorChar and
      Path.VolumeSeparatorChar on Windows, the platform the program targets. */
  const DirectorySeparatorChar: char := '\\'
  const AltDirectorySeparatorChar: char := '/'
  const VolumeSeparatorChar: char := ':'

  /** string.StartsWith for the ASCII prefixes the core uses. */
  predicate StartsWith(s: string, prefix: string)
  {
    |prefix| <= |s| && s[..|prefix|] == prefix
  }

  /** string.EndsWith for the ASCII suffixes the core uses. */
  predicate EndsWith(s: string, suffix: string)
  {
    |suffix| <= |s| && s[|s| - |suffix|..] == suffix
  }

  /** string.LastIndexOf(c), -1 when c does not occur. */
  function LastIndexOf(s: string, c: char): (r: int)
    ensures -1 <= r < |s|
    ensures 0 <= r ==> s[r] == c
    ensures forall j :: r < j < |s| ==> s[j] != c
  {
    if s == [] then -1
    else if s[|s| - 1] == c then |s| - 1
    else LastIndexOf(s[..|s| - 1], c)
  }

  /** string.IndexOf(c), written here as |s| when c does not occur. */
  function IndexOf(s: string, c: char): (r: nat)
    ensures r <= |s|
    ensures r < |s| ==> s[r] == c
    ensures forall j :: 0 <= j < r ==> s[j] != c
  {
    if s == [] then 0
    else if s[0] == c then 0
    else 1 + IndexOf(s[1..], c)
  }

  /** s.Split(c)[^1]: the text after the last occurrence of c. */
  function LastSegment(s: string, c: char): (r: string)
    ensures c !in r
    ensures EndsWith(s, r)
    ensures |r| < |s| ==> s[|s| - |r| - 1] == c
  {
    s[LastIndexOf(s, c) + 1..]
  }

  /** s.Split(c)[0]: the text before the first occurrence of c. */
  function FirstSegment(s: string, c: char): (r: string)
    ensures c !in r
    ensures StartsWith(s, r)
    ensures |r| < |s| ==> s[|r|] == c
  {
    s[..IndexOf(s, c)]
  }

  /** The last component of a path: the characters after its last
      separator, which is what f.Split(Path.DirectorySeparatorChar)[^1]
      yields (FileNameIsLastSegment). */
  function FileName(p: Path): string
  {
    if p == [] || p[|p| - 1] == DirectorySeparatorChar then []
    else FileName(p[..|p| - 1]) + [p[|p| - 1]]
  }

  lemma {:induction false} FileNameIsLastSegment(p: Path)
    ensures FileName(p) == LastSegment(p, DirectorySeparatorChar)
  {
    if p != [] && p[|p| - 1] != DirectorySeparatorChar {
      var q := p[..|p| - 1];
      FileNameIsLastSegment(q);
      assert LastIndexOf(p, DirectorySeparatorChar) == LastIndexOf(q, DirectorySeparatorChar);
      assert p[LastIndexOf(p, DirectorySeparatorChar) + 1..]
          == q[LastIndexOf(q, DirectorySeparatorChar) + 1..] + [p[|p| - 1]];
    }
  }

  /** The file name of a path is what follows its last separator. */
  lemma {:induction false} FileNameAfterSeparator(dir: Path, name: string)
    requires DirectorySeparatorChar !in name
    ensures FileName(dir + [DirectorySeparatorChar] + name) == name
  {
    var p := dir + [DirectorySeparatorChar] + name;
    if name != [] {
      var init := name[..|name| - 1];
      FileNameAfterSeparator(dir, init);
      assert p[..|p| - 1] == dir + [DirectorySeparatorChar] + init;
      assert name == init + [name[|name| - 1]];
    } else {
      assert p[|p| - 1] == DirectorySeparatorChar;
    }
  }

  /** The directory part of a path: everything before its last separator
      ("" when the path has none). */
  function ParentPath(p: Path): (r: Path)
    ensures |r| < |p| || p == r == ""
    ensures StartsWith(p, r)
  {
    var k := LastIndexOf(p, DirectorySeparatorChar);
    if k < 0 then "" else p[..k]
  }

  /** Path.Combine(dir, name) for a relative name: a separator is inserted
      unless dir is empty or already ends with a separator. */
  function Combine(dir: Path, name: string): (r: Path)
    ensures EndsWith(r, name)
    ensures StartsWith(r, dir)
  {
    if dir == [] then name
    else if dir[|dir| - 1] in {DirectorySeparatorChar, AltDirectorySeparatorChar, VolumeSeparatorChar} then dir + name
    else dir + [DirectorySeparatorChar] + name
  }

  /** Under one directory, different names combine to different paths. */
  lemma CombineInjective(dir: Path, a: string, b: string)
    requires a != b
    ensures Combine(dir, a) != Combine(dir, b)
  {
    var prefix := if dir == [] then [] else if dir[|dir| - 1] in {DirectorySeparatorChar, AltDirectorySeparatorChar, VolumeSeparatorChar} then dir else dir + [DirectorySeparatorChar];
    assert Combine(dir, a) == prefix + a && Combine(dir, b) == prefix + b;
    if prefix + a == prefix + b {
      assert a == (prefix + a)[|prefix|..];
    }
  }

  lemma CombineSplits(dir: Path, name: string)
    requires dir != [] && dir[|dir| - 1] != DirectorySeparatorChar
    requires dir[|dir| - 1] !in {AltDirectorySeparatorChar, VolumeSeparatorChar}
    requires DirectorySeparatorChar !in name
    ensures ParentPath(Combine(dir, name)) == dir
    ensures FileName(Combine(dir, name)) == name
  {
    var p := Combine(dir, name);
    assert p == dir + [DirectorySeparatorChar] + name;
    assert p[|dir|] == DirectorySeparatorChar;
    assert forall j :: |dir| < j < |p| ==> p[j] == name[j - |dir| - 1];
    assert LastIndexOf(p, DirectorySeparatorChar) == |dir|;
    FileNameIsLastSegment(p);
  }

  // ---------------------------------------------------------------------
  // Hexadecimal text of a byte sequence, as .NET builds it with
  // BitConverter.ToString(bytes).Replace("-", "").ToLowerInvariant()
  // ---------------------------------------------------------------------

  const LowerHexDigits: string := "0123456789abcdef"
  const UpperHexDigits: string := "0123456789ABCDEF"

  /** The two upper-case digits BitConverter writes for one byte. */
  function UpperPair(b: bv8): string
  {
    [UpperHexDigits[(b as int) / 16], UpperHexDigits[(b as int) % 16]]
  }

  /** The two lower-case digits of one byte. */
  function LowerPair(b: bv8): string
  {
    [LowerHexDigits[(b as int) / 16], LowerHexDigits[(b as int) % 16]]
  }

  /** "-XX" for every byte. */
  function DashedPairs(bytes: seq<bv8>): string
  {
    if bytes == [] then "" else "-" + UpperPair(bytes[0]) + DashedPairs(bytes[1..])
  }

  /** BitConverter.ToString(bytes): upper-case pairs joined by '-'. */
  function BitConverterToString(bytes: seq<bv8>): string
  {
    if bytes == [] then "" else UpperPair(bytes[0]) + DashedPairs(bytes[1..])
  }

  /** s.Replace(c.ToString(), ""). */
  function RemoveChar(s: string, c: char): (r: string)
    ensures c !in r
  {
    if s == [] then "" else (if s[0] == c then "" else [s[0]]) + RemoveChar(s[1..], c)
  }

  function ToLowerChar(c: char): char
  {
    if 'A' <= c <= 'Z' then (c as int - 'A' as int + 'a' as int) as char else c
  }

  /** s.ToLowerInvariant() on the ASCII letters. */
  function ToLowerInvariant(s: string): (r: string)
    ensures |r| == |s|
  {
    if s == [] then "" else [ToLowerChar(s[0])] + ToLowerInvariant(s[1..])
  }

  /** The lower-case hexadecimal text of bytes, two digits per byte, no separators. */
  function LowerHex(bytes: seq<bv8>): string
  {
    if bytes == [] then "" else LowerPair(bytes[0]) + LowerHex(bytes[1..])
  }

  lemma {:induction false} RemoveCharAppend(a: string, b: string, c: char)
    ensures RemoveChar(a + b, c) == RemoveChar(a, c) + RemoveChar(b, c)
  {
    if a != [] {
      assert (a + b)[1..] == a[1..] + b;
      RemoveCharAppend(a[1..], b, c);
    } else {
      assert a + b == b;
    }
  }

  lemma {:induction false} ToLowerAppend(a: string, b: string)
    ensures ToLowerInvariant(a + b) == ToLowerInvariant(a) + ToLowerInvariant(b)
  {
    if a != [] {
      assert (a + b)[1..] == a[1..] + b;
      ToLowerAppend(a[1..], b);
    } else {
      assert a + b == b;
    }
  }

  lemma DigitLowered(d: int)
    requires 0 <= d < 16
    ensures ToLowerChar(UpperHexDigits[d]) == LowerHexDigits[d]
  {
    match d
    case 0 => case 1 => case 2 => case 3 => case 4 => case 5 => case 6 => case 7 =>
    case 8 => case 9 => case 10 => case 11 => case 12 => case 13 => case 14 => case 15 =>
  }

  lemma DigitsLowered(hi: int, lo: int)
    requires 0 <= hi < 16 && 0 <= lo < 16
    ensures ToLowerInvariant(RemoveChar([UpperHexDigits[hi], UpperHexDigits[lo]], '-'))
         == [LowerHexDigits[hi], LowerHexDigits[lo]]
  {
    var u := [UpperHexDigits[hi], UpperHexDigits[lo]];
    assert u[1..][1..] == [];
    assert RemoveChar(u[1..], '-') == [u[1]];
    assert RemoveChar(u, '-') == u;
    DigitLowered(hi);
    DigitLowered(lo);
    assert ToLowerInvariant(u[1..]) == [ToLowerChar(u[1])];
  }

  lemma PairLowered(b: bv8)
    ensures ToLowerInvariant(RemoveChar(UpperPair(b), '-')) == LowerPair(b)
  {
    DigitsLowered((b as int) / 16, (b as int) % 16);
  }

  lemma {:induction false} DashedPairsLowered(bytes: seq<bv8>)
    ensures ToLowerInvariant(RemoveChar(DashedPairs(bytes), '-')) == LowerHex(bytes)
  {
    if bytes != [] {
      var pair, rest := UpperPair(bytes[0]), DashedPairs(bytes[1..]);
      assert DashedPairs(bytes) == "-" + (pair + rest);
      RemoveCharAppend("-", pair + rest, '-');
      RemoveCharAppend(pair, rest, '-');
      assert RemoveChar("-", '-') == "";
      assert RemoveChar(DashedPairs(bytes), '-') == RemoveChar(pair, '-') + RemoveChar(rest, '-');
      ToLowerAppend(RemoveChar(pair, '-'), RemoveChar(rest, '-'));
      PairLowered(bytes[0]);
      DashedPairsLowered(bytes[1..]);
    }
  }

  /** What GenerateCheckSumForZipFile does to the digest bytes yields exactly
      their lower-case hexadecimal text. */
  lemma HexTextIsLowerHex(bytes: seq<bv8>)
    ensures ToLowerInvariant(RemoveChar(BitConverterToString(bytes), '-')) == LowerHex(bytes)
  {
    if bytes != [] {
      RemoveCharAppend(UpperPair(bytes[0]), DashedPairs(bytes[1..]), '-');
      ToLowerAppend(RemoveChar(UpperPair(bytes[0]), '-'), RemoveChar(DashedPairs(bytes[1..]), '-'));
      PairLowered(bytes[0]);
      DashedPairsLowered(bytes[1..]);
    }
  }

  /** LowerHex writes two lower-case hexadecimal digits per byte. */
  lemma {:induction false} LowerHexShape(bytes: seq<bv8>)
    ensures |LowerHex(bytes)| == 2 * |bytes|
    ensures forall i :: 0 <= i < |LowerHex(bytes)| ==> LowerHex(bytes)[i] in LowerHexDigits
  {
    if bytes != [] {
      LowerHexShape(bytes[1..]);
      var p := LowerPair(bytes[0]);
      assert p[0] in LowerHexDigits && p[1] in LowerHexDigits;
      assert LowerHex(bytes) == p + LowerHex(bytes[1..]);
    }
  }
}
