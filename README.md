# TouhouSaveSync in Dafny

TouhouSaveSync keeps the save folders of the Touhou games in step with a
Google Drive folder. It finds the installed games in two ways:

- The old generation (TH06 to TH12) is found by a recursive search for known
  executables under a configured directory.
- The new generation (TH13 onwards) is found by the per-title folders under
  `%APPDATA%\ShanghaiAlice`.

Each save is zipped to a temporary file. A sync decision compares the local
`score*.dat` time with the time published on Drive and says whether to
create, push, pull or do nothing. The project models this core and proves
what it does:

- **The sync decision and start-up** (`SyncHandlers`): the decision table,
  the dispatch of an action, pushing a save, and the constructor sequence.
  The constructor runs, in order: find the saves, find or create the Drive
  folder, sync every save.
- **The save files, older revision** (`TouhouSaveFiles`,
  `TouhouOldGenSaveFiles`, `TouhouNewGenSaveFiles`), which the sync handler
  and both handler factories use. This covers the checksum, the score-time
  lookup, archive entry selection, delete-before-create of the zip, and the
  factories that build one save per discovered game.
- **The save files, newer revision** (`TouhouLocalSaveFiles`,
  `TouhouLocalOldGenSaveFiles`, `TouhouLocalNewGenSaveFiles`). This covers
  the score path, the `-1` sentinels, the `SaveFileMetadata` record, and the
  save directory created for the new generation.
- **The remote save** (`TouhouRemoteSaveFiles`): the lazily resolved and
  cached Drive id, and create, push and pull. Create and push publish the
  metadata of their own zipping; pull downloads the zip before extracting it.
- **Discovery** (`FindTouhouSavePath`):
  - the two executable tables, proved inverse;
  - the depth-first executable search, where the first path found for a
    title wins;
  - the `thNN` to `TouhouNN` folder titles, with their `Add` errors.
- **Handler factories** (`SaveFileHandlers`, `TouhouSaveFilesHandlers`): the
  arrays of handlers they fill, and the callback list of a save handler.
- **Supporting models**:
  - `Dictionaries`: an insertion-ordered `Dictionary` with `TryAdd` and
    `Add`.
  - `DictionaryExtension`: `GetValueOrDefault`.
  - `GoogleDrive`: an abstract Drive store of files and folders, with
    distinct ids.
  - `Platform`: a file system of files, directories, listing order and
    temporary names, plus the foreign zip and MD5 services.
  - `Common`: the string and path helpers the code uses.

Each core C# file becomes one Dafny module, in one file. Classes whose
fields the code assigns are Dafny classes; the abstract save classes become
one Dafny class tagged by its generation. A subclass's own members
(`ZipSaveFile`, `ToTouhouSaveFiles`) are methods of the subclass file's
module, and the caller dispatches on the generation.

Exceptions are values: `Result`/`Outcome` carry an `Exception` datatype
(`DirectoryNotFound`, `KeyNotFound`, `DuplicateKey`, `NullReference`, ...).
Foreign services are parameters:

- MD5 and zip packing and unpacking (`Foreign`);
- JSON (`Json`);
- `Double.Parse` and `ToString` (`Doubles`);
- the clock (`now`);
- the configured directories (`earlyDir`, `appData`) and the directory
  trees the searches walk (`DirTree`).

## Model

| member | source | states |
|---|---|---|
| Common.LastSegment | TouhouSaveSync/SaveFiles/FindTouhouSavePath.cs:50 | `Split(c)[^1]`: holds no `c`, is a suffix of the input, and is preceded by `c` when shorter than it |
| Common.FirstSegment | TouhouSaveSync/SaveFiles/TouhouOldGenSaveFile.cs:26 | `Split(".")[0]`: holds no `c`, is a prefix of the input, and is followed by `c` when shorter than it |
| Common.FileNameIsLastSegment | TouhouSaveSync/SaveFiles/FindTouhouSavePath.cs:50 | the file name of a path is exactly its text after the last directory separator |
| Common.FileNameAfterSeparator | TouhouSaveSync/SaveFiles/TouhouLocalSaveFile.cs:91 | a name without separators appended to a directory is that path's file name |
| Common.ParentPath | TouhouSaveSync/SaveFiles/TouhouOldGenSaveFile.cs:64 | the directory part of a path is a prefix of it and strictly shorter, unless both are empty |
| Common.Combine | TouhouSaveSync/SaveFiles/TouhouOldGenSaveFile.cs:28 | `Path.Combine(dir, name)` starts with the directory and ends with the name |
| Common.CombineInjective | TouhouSaveSync/SaveFiles/TouhouOldGenSaveFile.cs:36-37 | under one directory, different names give different paths (so the two score paths differ) |
| Common.CombineSplits | TouhouSaveSync/SaveFiles/TouhouOldGenSaveFile.cs:28-30 | a combined path splits back into its directory and its file name |
| Common.RemoveChar | TouhouSaveSync/SaveFiles/TouhouSaveFile.cs:42 | `Replace("-", "")` leaves no dash |
| Common.ToLowerInvariant | TouhouSaveSync/SaveFiles/TouhouSaveFile.cs:42 | lower-casing keeps the length |
| Common.HexTextIsLowerHex | TouhouSaveSync/SaveFiles/TouhouSaveFile.cs:42 | `BitConverter.ToString(d).Replace("-", "").ToLowerInvariant()` is exactly the lower-case hexadecimal text of `d` |
| Common.LowerHexShape | TouhouSaveSync/SaveFiles/TouhouSaveFile.cs:42 | that text has two digits per byte, all of them lower-case hexadecimal digits |
| Platform.Listed | TouhouSaveSync/SaveFiles/TouhouLocalSaveFile.cs:89 | `Directory.GetFiles(dir, "*.dat")` lists exactly the existing files directly in `dir` whose name ends with the extension |
| Platform.ZipChecksum | TouhouSaveSync/SaveFiles/TouhouLocalSaveFile.cs:67-75 | the checksum is "" exactly when the zip is missing; otherwise it is the MD5 of the zip's bytes as 32 lower-case hexadecimal digits |
| Platform.FirstNamedWithPrefixSpec | TouhouSaveSync/SaveFiles/TouhouLocalSaveFile.cs:89-98 | the first-match loop finds nothing exactly when no listed file name starts with the prefix; otherwise it finds a listed path whose name does, with none before it |
| Platform.CreatedTempFilesSpec | TouhouSaveSync/SaveFiles/TouhouNewGenSaveFile.cs:33 | every temporary name handed out holds an empty file; every other path is as it was |
| Platform.CreatedTempFilesUnused | TouhouSaveSync/SaveFiles/TouhouNewGenSaveFile.cs:33 | handing out unused temporary names in turn: none was a file before, each now holds an empty file, and the names left stay unused |
| Platform.CreatedTempFilesConcat | TouhouSaveSync/SaveFiles/TouhouSaveFilesHandler.cs:20-29 | handing out m temporary names and then n more creates the same files as handing out the first m + n at once |
| Platform.ExtractedWritesEntries | TouhouSaveSync/SaveFiles/TouhouLocalSaveFile.cs:146 | after extraction with overwrite, an entry no later entry of the same name overwrites sits at its path under the directory, with its bytes and time |
| Platform.ExtractedKeepsOthers | TouhouSaveSync/SaveFiles/TouhouLocalSaveFile.cs:146 | extraction leaves every path that no entry is written to as it was |
| Platform.DirectoryArchivedIdempotent | TouhouSaveSync/SaveFiles/TouhouNewGenSaveFile.cs:16-18 | delete-then-archive run twice at the same time leaves what one run leaves, because the deleted zip is never archived |
| Platform.FileSystem.GetFiles | TouhouSaveSync/SaveFiles/TouhouSaveFile.cs:72 | `Directory.GetFiles` fails exactly when the directory is missing; otherwise it lists only files of that directory with the extension |
| Platform.FileSystem.CreateDirectory | TouhouSaveSync/SaveFiles/TouhouLocalSaveFile.cs:58 | the directory exists afterwards; nothing else changes; a directory created at no pending temporary name keeps the names unused |
| Platform.FileSystem.Delete | TouhouSaveSync/SaveFiles/TouhouNewGenSaveFile.cs:17 | the file is gone afterwards; deleting a missing file is no error; unused temporary names stay unused |
| Platform.FileSystem.WriteFile | TouhouSaveSync/SaveFiles/TouhouOldGenSaveFile.cs:23 | `FileMode.Create` replaces the whole file and stamps it with the current time; a write to no pending temporary name keeps the names unused |
| Platform.FileSystem.CreateFromDirectory | TouhouSaveSync/SaveFiles/TouhouNewGenSaveFile.cs:18 | `ZipFile.CreateFromDirectory` fails on a missing source directory and on an existing destination, changing nothing; otherwise the destination holds the archive of the directory; a destination that is no pending temporary name keeps the names unused |
| Platform.FileSystem.ExtractToDirectory | TouhouSaveSync/SaveFiles/TouhouLocalSaveFile.cs:146 | extraction creates the directory and writes every entry under it, in archive order |
| Platform.FileSystem.Length | TouhouSaveSync/SaveFiles/TouhouLocalSaveFile.cs:123 | `FileInfo.Length` fails exactly when the file is missing; otherwise it is the byte count |
| Platform.FileSystem.GetTempFileName | TouhouSaveSync/SaveFiles/TouhouNewGenSaveFile.cs:33 | the next temporary name is handed out and an empty file created there; with no name left, an I/O error changes nothing; while the names are unused (`TempNamesUnused`), the name handed out was no file or directory before, is not handed out again, and the rest stay unused |
| Dictionaries.TryAddedKeepsDistinct | TouhouSaveSync/SaveFiles/FindTouhouSavePath.cs:56 | `TryAdd` keeps the keys of the dictionary distinct |
| Dictionaries.Dictionary.constructor | TouhouSaveSync/SaveFiles/FindTouhouSavePath.cs:68 | a new dictionary is empty and well-formed |
| Dictionaries.Dictionary.TryAdd | TouhouSaveSync/SaveFiles/FindTouhouSavePath.cs:56 | `TryAdd` adds the pair exactly when the key is absent, reports whether it did, and never overwrites |
| Dictionaries.Dictionary.Add | TouhouSaveSync/SaveFiles/FindTouhouSavePath.cs:101 | `Add` appends the pair when the key is absent; on a present key it fails with `DuplicateKey` and leaves the dictionary as it was |
| DictionaryExtension.GetValueOrDefaultFirst | TouhouSaveSync/Utility/DictionaryExtension.cs:7-14 | a lookup that hits returns the value stored with the key |
| DictionaryExtension.GetValueOrDefaultSpec | TouhouSaveSync/Utility/DictionaryExtension.cs:10-13 | a lookup returns null (None), and no error, exactly when the key is missing; with distinct keys it returns the key's value |
| FindTouhouSavePath.TablesAreInverse | TouhouSaveSync/SaveFiles/FindTouhouSavePath.cs:12-38 | both tables are well-formed dictionaries of the same size, each the other with its pairs swapped |
| FindTouhouSavePath.TitleExeRoundTrip | TouhouSaveSync/SaveFiles/FindTouhouSavePath.cs:12-38 | a title maps to an executable exactly when that executable maps back to the title |
| FindTouhouSavePath.SwappedLookup | TouhouSaveSync/SaveFiles/FindTouhouSavePath.cs:12-38 | in any two dictionaries holding the same pairs swapped, x maps to y in one exactly when y maps to x in the other |
| FindTouhouSavePath.TryAddAllFirstWins | TouhouSaveSync/SaveFiles/FindTouhouSavePath.cs:56 | `TryAdd` of a series of hits keeps the keys distinct, adds exactly the hits' keys, and every lookup answers with the first pair offered for the key |
| FindTouhouSavePath.ExeHitsKnown | TouhouSaveSync/SaveFiles/FindTouhouSavePath.cs:50-56 | every pair offered pairs a walked executable with the title the table gives its file name |
| FindTouhouSavePath.AddExecutables | TouhouSaveSync/SaveFiles/FindTouhouSavePath.cs:47-58 | the files loop `TryAdd`s, in listing order, every executable whose file name the table knows |
| FindTouhouSavePath.SearchTouhouOldGenerationExe | TouhouSaveSync/SaveFiles/FindTouhouSavePath.cs:45-64 | the recursive search `TryAdd`s the hits of the depth-first walk: a directory's own executables, then each subdirectory's in turn |
| FindTouhouSavePath.SearchSubdirectories | TouhouSaveSync/SaveFiles/FindTouhouSavePath.cs:60-63 | the subdirectory loop adds the walks of all subdirectories in listing order |
| FindTouhouSavePath.GetTouhouOldGenPath | TouhouSaveSync/SaveFiles/FindTouhouSavePath.cs:66-71 | a fresh dictionary starting empty holds only the hits of the walk; a missing directory is `DirectoryNotFound` |
| FindTouhouSavePath.OldGenSearchFindsFirst | TouhouSaveSync/SaveFiles/FindTouhouSavePath.cs:45-71 | the search result has distinct keys, exactly the titles some walked executable carries, only titles of `TouhouToExeName`, and for each title the first such executable met |
| FindTouhouSavePath.SearchFindsFirst | TouhouSaveSync/SaveFiles/FindTouhouSavePath.cs:45-64 | the same as `OldGenSearchFindsFirst`, for any pair of mutually swapped tables |
| FindTouhouSavePath.FoundEntryKnown | TouhouSaveSync/SaveFiles/FindTouhouSavePath.cs:52-56 | each found path is a walked executable whose file name is its title's executable name |
| FindTouhouSavePath.FirstExecutableKept | TouhouSaveSync/SaveFiles/FindTouhouSavePath.cs:56 | with th07.exe in a directory and in its subdirectory, the outer path is kept for Touhou07 |
| FindTouhouSavePath.Th07Hit | TouhouSaveSync/SaveFiles/FindTouhouSavePath.cs:47-56 | a file named th07.exe is listed and offered as Touhou07 |
| FindTouhouSavePath.NewGenTitle | TouhouSaveSync/SaveFiles/FindTouhouSavePath.cs:97-99 | the title is "Touhou" followed by the folder name from its third character on; `Substring(2)` fails exactly on a name shorter than two characters |
| FindTouhouSavePath.NewGenTitleExample | TouhouSaveSync/SaveFiles/FindTouhouSavePath.cs:98 | the folder th13 gives Touhou13 |
| FindTouhouSavePath.Titled | TouhouSaveSync/SaveFiles/FindTouhouSavePath.cs:95-102 | the folders paired with their titles keep the folders' number |
| FindTouhouSavePath.NewGenScanOk | TouhouSaveSync/SaveFiles/FindTouhouSavePath.cs:95-102 | the scan succeeds exactly when every folder name is long enough and no two folders give the same title (`Add` rejects a repeat); it then pairs every folder with its title, in order |
| FindTouhouSavePath.TitleAlreadyScanned | TouhouSaveSync/SaveFiles/FindTouhouSavePath.cs:101 | after a scan, a title is present exactly when one of the scanned folders gives it |
| FindTouhouSavePath.NewGenScanErrSticks | TouhouSaveSync/SaveFiles/FindTouhouSavePath.cs:95-102 | an exception on a prefix of the folders ends the whole scan |
| FindTouhouSavePath.SearchTouhouNewGeneration | TouhouSaveSync/SaveFiles/FindTouhouSavePath.cs:91-103 | the loop `Add`s (title, folder) for each folder under ShanghaiAlice and succeeds exactly when the scan does, with its result |
| FindTouhouSavePath.FolderPaths | TouhouSaveSync/SaveFiles/FindTouhouSavePath.cs:95 | `Directory.GetDirectories` gives the subdirectories' paths, one per subdirectory, in order |
| FindTouhouSavePath.GetTouhouNewGenPath | TouhouSaveSync/SaveFiles/FindTouhouSavePath.cs:105-118 | empty without a ShanghaiAlice folder; otherwise it succeeds exactly when the scan does and holds the scan's pairs |
| GoogleDrive.FirstWithName | TouhouSaveSync/GoogleDriveHandler.cs:106-110 | null exactly when no file matches the name and folder; otherwise a matching file with no match before it |
| GoogleDrive.IndexOfId | TouhouSaveSync/SaveFiles/TouhouRemoteSaveFile.cs:47 | the position of the file with an id, -1 exactly when there is none |
| GoogleDrive.IndexOfDistinctId | TouhouSaveSync/SaveFiles/TouhouRemoteSaveFile.cs:47 | with distinct ids, a file's id is found at that file's position |
| GoogleDrive.FirstWithNameSameListing | TouhouSaveSync/GoogleDriveHandler.cs:106-110 | a name query sees only ids, names and folders: two listings that agree on those give the same answer and the same id |
| GoogleDrive.GoogleDriveHandler.GetFolderId | TouhouSaveSync/GoogleDriveHandler.cs:158-167 | the id of the first folder with the name, changing nothing; otherwise a new folder with a fresh id |
| GoogleDrive.GoogleDriveHandler.Upload | TouhouSaveSync/GoogleDriveHandler.cs:178-194 | a missing local file fails and changes nothing; otherwise a new file with a fresh id, the name, the folder, the local bytes and the description |
| GoogleDrive.GoogleDriveHandler.Update | TouhouSaveSync/SyncHandler.cs:161-162 | replaces the name, content and description of the file with the id and keeps its folder; a missing local file or id fails and changes nothing |
| GoogleDrive.GoogleDriveHandler.GetFile | TouhouSaveSync/SaveFiles/TouhouRemoteSaveFile.cs:47 | the stored file with the id; an error exactly when there is none |
| GoogleDrive.GoogleDriveHandler.Download | TouhouSaveSync/SaveFiles/TouhouRemoteSaveFile.cs:83 | the local path receives the remote file's bytes; a missing id fails and changes nothing |
| TouhouSaveFiles.TouhouSaveFile.constructor | TouhouSaveSync/SaveFiles/TouhouSaveFile.cs:22-28 | stores the four fields unchanged, touches no file, and has no Drive id yet |
| TouhouSaveFiles.TouhouSaveFile.GenerateCheckSumForZipFile | TouhouSaveSync/SaveFiles/TouhouSaveFile.cs:35-43 | "" exactly when the zip is missing; otherwise the zip's MD5 as 32 lower-case hexadecimal digits |
| TouhouSaveFiles.TouhouSaveFile.GetScoreDatModifyTime | TouhouSaveSync/SaveFiles/TouhouSaveFile.cs:70-82 | as written: the time of the first listed `.dat` path that itself starts with "score", else -1; a missing save directory throws |
| TouhouSaveFiles.TouhouSaveFile.GetScoreDatModifyTimeByName | TouhouSaveSync/SaveFiles/TouhouSaveFile.cs:72-81 | corrected: the time of the first listed `.dat` file whose file name starts with "score", else -1 |
| TouhouSaveFiles.FullPathTestMissesEveryFile | TouhouSaveSync/SaveFiles/TouhouSaveFile.cs:74 | under a directory not itself starting with "score", no listed path passes the full-path test |
| TouhouSaveFiles.ScoreFileMissedByFullPathTest | TouhouSaveSync/SaveFiles/TouhouSaveFile.cs:74 | a score.dat beside the game is missed by the full-path test and found by the file-name test |
| TouhouOldGenSaveFiles.NewTouhouOldGenSaveFile | TouhouSaveSync/SaveFiles/TouhouOldGenSaveFile.cs:15-19 | fails with `KeyNotFound` exactly when the title is not in `TouhouToExeName`; otherwise stores the fields with the title's executable name |
| TouhouOldGenSaveFiles.ArchiveSourcesExist | TouhouSaveSync/SaveFiles/TouhouOldGenSaveFile.cs:28-47 | every archive entry is read from an existing file or directory of the save directory, stored under its own name |
| TouhouOldGenSaveFiles.ArchiveNamesDistinct | TouhouSaveSync/SaveFiles/TouhouOldGenSaveFile.cs:28-47 | no two archive entries share a name |
| TouhouOldGenSaveFiles.DistinctEndings | TouhouSaveSync/SaveFiles/TouhouOldGenSaveFile.cs:30-47 | entries whose names end in different characters ("g", "t", "y") are distinct |
| TouhouOldGenSaveFiles.ArchiveEntrySelection | TouhouSaveSync/SaveFiles/TouhouOldGenSaveFile.cs:28-47 | cfg entry iff the cfg file exists; replay entry iff the replay directory exists; score.dat iff it exists; score{gameName}.dat iff score.dat does not and it does |
| TouhouOldGenSaveFiles.ArchivedFilesIdempotent | TouhouSaveSync/SaveFiles/TouhouOldGenSaveFile.cs:23-24 | the zip is truncated before any entry is read, so writing the archive again at the same time changes nothing |
| TouhouOldGenSaveFiles.WriteArchive | TouhouSaveSync/SaveFiles/TouhouOldGenSaveFile.cs:23-48 | the zip holds the archive of the selected entries, read after the truncation; no other file changes |
| TouhouOldGenSaveFiles.ZipSaveFile | TouhouSaveSync/SaveFiles/TouhouOldGenSaveFile.cs:21-51 | writes the archive and returns the 32-digit checksum of the zip it just wrote |
| TouhouOldGenSaveFiles.LoadZippedSaveFile | TouhouSaveSync/SaveFiles/TouhouOldGenSaveFile.cs:53-56 | always `NotImplemented` |
| TouhouOldGenSaveFiles.NewTempSaveFile | TouhouSaveSync/SaveFiles/TouhouOldGenSaveFile.cs:64-65 | takes the next temporary name and builds the save of the pair, saving in the executable's parent directory |
| TouhouOldGenSaveFiles.ToTouhouSaveFiles | TouhouSaveSync/SaveFiles/TouhouOldGenSaveFile.cs:58-70 | succeeds exactly when there are enough temporary names and every title is known; then slot j holds the save of pair j, saving in its executable's directory, zipping to the j-th temporary name |
| TouhouNewGenSaveFiles.NewTouhouNewGenSaveFile | TouhouSaveSync/SaveFiles/TouhouNewGenSaveFile.cs:9-12 | stores the title, zip and save path with generation New |
| TouhouNewGenSaveFiles.ZipSaveFile | TouhouSaveSync/SaveFiles/TouhouNewGenSaveFile.cs:14-20 | deletes the old zip and then archives the whole save directory; a missing directory fails after the deletion; otherwise it returns the new zip's 32-digit checksum |
| TouhouNewGenSaveFiles.LoadZippedSaveFile | TouhouSaveSync/SaveFiles/TouhouNewGenSaveFile.cs:22-25 | always `NotImplemented` |
| TouhouNewGenSaveFiles.ToTouhouSaveFiles | TouhouSaveSync/SaveFiles/TouhouNewGenSaveFile.cs:27-38 | succeeds exactly when there are enough temporary names; then slot j is a New save with pair j's title and save path, zipping to the j-th temporary name |
| TouhouLocalSaveFiles.TouhouLocalSaveFile.constructor | TouhouSaveSync/SaveFiles/TouhouLocalSaveFile.cs:37-60 | stores the fields unchanged; creates the save directory exactly for the New generation; changes no file |
| TouhouLocalSaveFiles.TouhouLocalSaveFile.GenerateCheckSumForZipFile | TouhouSaveSync/SaveFiles/TouhouLocalSaveFile.cs:67-75 | "" exactly when the zip is missing; otherwise the zip's MD5 as 32 lower-case hexadecimal digits |
| TouhouLocalSaveFiles.TouhouLocalSaveFile.GetScorePath | TouhouSaveSync/SaveFiles/TouhouLocalSaveFile.cs:87-99 | fails exactly when the save directory is missing; otherwise the first listed `.dat` file whose name starts with "score", or null |
| TouhouLocalSaveFiles.TouhouLocalSaveFile.GetScoreDatModifyTime | TouhouSaveSync/SaveFiles/TouhouLocalSaveFile.cs:107-116 | the score file's time, or -1 without one (see `MetadataSpec`) |
| TouhouLocalSaveFiles.TouhouLocalSaveFile.GetScoreDatSize | TouhouSaveSync/SaveFiles/TouhouLocalSaveFile.cs:118-127 | the score file's length, or -1 without one (see `MetadataSpec`) |
| TouhouLocalSaveFiles.TouhouLocalSaveFile.GatherMetadata | TouhouSaveSync/SaveFiles/TouhouLocalOldGenSaveFile.cs:69-81 | the metadata statements shared by both overrides, in the source's order of evaluation |
| TouhouLocalSaveFiles.TouhouLocalSaveFile.LoadZippedSaveFile | TouhouSaveSync/SaveFiles/TouhouLocalSaveFile.cs:141-147 | a missing zip is `FileNotFound` and a non-archive is `InvalidData`, neither changing anything; otherwise every entry is extracted into the save directory, overwriting |
| TouhouLocalSaveFiles.ScorePathSpec | TouhouSaveSync/SaveFiles/TouhouLocalSaveFile.cs:87-99 | an error iff the directory is missing; null iff no listed `.dat` name starts with "score"; otherwise a listed score file of the directory with none before it |
| TouhouLocalSaveFiles.MetadataSpec | TouhouSaveSync/SaveFiles/TouhouLocalNewGenSaveFile.cs:27-39 | fails iff the directory or the zip is missing; checksum, zip size and zip time are the zip's; DatSize is -1 iff there is no score file, and then DatLastMod is -1 too; otherwise both are the score file's |
| TouhouLocalOldGenSaveFiles.NewTouhouLocalOldGenSaveFile | TouhouSaveSync/SaveFiles/TouhouLocalOldGenSaveFile.cs:14-18 | fails with `KeyNotFound` exactly when the title is not in the old-generation table; otherwise stores the fields and the table's executable name; no file or directory changes |
| TouhouLocalOldGenSaveFiles.ZipSaveFile | TouhouSaveSync/SaveFiles/TouhouLocalOldGenSaveFile.cs:20-82 | writes the same archive as the older revision, then returns the metadata of the save as zipped; fails exactly when the save directory is missing |
| TouhouLocalOldGenSaveFiles.NewTempSaveFile | TouhouSaveSync/SaveFiles/TouhouLocalOldGenSaveFile.cs:90 | takes the next temporary name and builds the save of the pair, using its path as the save directory |
| TouhouLocalOldGenSaveFiles.ToTouhouSaveFiles | TouhouSaveSync/SaveFiles/TouhouLocalOldGenSaveFile.cs:84-95 | succeeds exactly when there are enough temporary names and every title is known; then slot j is an Old save of pair j with its path as the save path |
| TouhouLocalNewGenSaveFiles.NewTouhouLocalNewGenSaveFile | TouhouSaveSync/SaveFiles/TouhouLocalNewGenSaveFile.cs:12-15 | a New save with the given fields whose save directory is created |
| TouhouLocalNewGenSaveFiles.ZipSaveFile | TouhouSaveSync/SaveFiles/TouhouLocalNewGenSaveFile.cs:17-40 | deletes the old zip and archives the whole save directory; a missing directory fails; otherwise the metadata of the new zip, which always succeeds |
| TouhouLocalNewGenSaveFiles.NewTempSaveFile | TouhouSaveSync/SaveFiles/TouhouLocalNewGenSaveFile.cs:48 | takes the next temporary name, builds the save and creates its save directory |
| TouhouLocalNewGenSaveFiles.ToTouhouSaveFiles | TouhouSaveSync/SaveFiles/TouhouLocalNewGenSaveFile.cs:42-53 | succeeds exactly when there are enough temporary names; then slot j is a New save of pair j; the save directories of the pairs built are created |
| TouhouRemoteSaveFiles.ZippedFilesIdempotent | TouhouSaveSync/SaveFiles/TouhouRemoteSaveFile.cs:93 | zipping a local save twice at the same time leaves what zipping once does |
| TouhouRemoteSaveFiles.ZipLocalSaveFile | TouhouSaveSync/SaveFiles/TouhouRemoteSaveFile.cs:68 | the virtual `ZipSaveFile` fails exactly when the save directory is missing; otherwise it returns the metadata of the save as zipped |
| TouhouRemoteSaveFiles.DescribedMetadataSpec | TouhouSaveSync/SaveFiles/TouhouRemoteSaveFile.cs:45-59 | the metadata read back is the deserialised description, field by field; a null or unreadable description is an error; serialised metadata reads back as itself |
| TouhouRemoteSaveFiles.TouhouRemoteSaveFile.constructor | TouhouSaveSync/SaveFiles/TouhouRemoteSaveFile.cs:31-37 | the remote name is the local save's title; the id is not resolved yet |
| TouhouRemoteSaveFiles.TouhouRemoteSaveFile.SetRemoteFileId | TouhouSaveSync/SaveFiles/TouhouRemoteSaveFile.cs:26 | the setter stores the cached id |
| TouhouRemoteSaveFiles.TouhouRemoteSaveFile.CreateSaves | TouhouSaveSync/SaveFiles/TouhouRemoteSaveFile.cs:66-75 | zips the save and uploads exactly one file: the zip, under the remote name, in the remote folder, described by the serialised metadata of that zipping; returns its fresh id |
| TouhouRemoteSaveFiles.TouhouRemoteSaveFile.GetRemoteFileId | TouhouSaveSync/SaveFiles/TouhouRemoteSaveFile.cs:39-43 | an existing same-named file's id, uploading nothing; otherwise exactly one upload, whose id is returned; the result and the new listing are `ResolvedId` and `ResolvedListing` of the state before |
| TouhouRemoteSaveFiles.TouhouRemoteSaveFile.RemoteFileId | TouhouSaveSync/SaveFiles/TouhouRemoteSaveFile.cs:14-25 | a cached id is returned with no lookup and no change; otherwise the resolved id is returned and cached; in every case the result is `ResolvedId` and the new listing `ResolvedListing` of the state before, so a missing save directory is the only failure |
| TouhouRemoteSaveFiles.TouhouRemoteSaveFile.ResolvedListingShape | TouhouSaveSync/SaveFiles/TouhouRemoteSaveFile.cs:14-25 | resolving the id leaves the listing unchanged, or appends exactly one file under the fresh id, the remote name and the remote folder |
| TouhouRemoteSaveFiles.TouhouRemoteSaveFile.GetRemoteSaveFileMetaData | TouhouSaveSync/SaveFiles/TouhouRemoteSaveFile.cs:45-59 | the result in full: the error of a failed resolution; `RemoteFileMissing` when no file has the resolved id (a stale cached id); otherwise the description of that file read back by `DescribedMetadata`; the listing is the resolved one, and with a cached id nothing changes |
| TouhouRemoteSaveFiles.TouhouRemoteSaveFile.RemoteFileIdOfZipped | TouhouSaveSync/SaveFiles/TouhouRemoteSaveFile.cs:94-95 | once the save is zipped, resolving the id leaves the local files as they are; the result and the listing are the resolved ones |
| TouhouRemoteSaveFiles.TouhouRemoteSaveFile.UpdateFromZip | TouhouSaveSync/SaveFiles/TouhouRemoteSaveFile.cs:94-95 | succeeds exactly when the id resolves and a file has it; then the whole new listing is the resolved one with that file given the remote name, the zip's bytes and the given metadata as description; on failure the listing is the resolved one |
| TouhouRemoteSaveFiles.TouhouRemoteSaveFile.PushSaves | TouhouSaveSync/SaveFiles/TouhouRemoteSaveFile.cs:91-96 | zips the save; succeeds exactly when the save directory exists and a file has the resolved id; then the whole new listing is the resolved one with that file holding the zip's bytes and the serialised metadata of that zipping; a missing save directory changes no remote file |
| TouhouRemoteSaveFiles.TouhouRemoteSaveFile.PullSaves | TouhouSaveSync/SaveFiles/TouhouRemoteSaveFile.cs:81-85 | succeeds exactly when the id resolves, a file has it and its bytes are an archive; the remote bytes are first written to the zip path and then extracted from there into the save directory; each failure states the local files it leaves (the downloaded zip stays on an unreadable archive) |
| TouhouRemoteSaveFiles.ToTouhouRemoteSaveFiles | TouhouSaveSync/SaveFiles/TouhouRemoteSaveFile.cs:98-110 | an array of the same length whose slot i wraps local save i, with no id resolved; a null slot is `NullReference` |
| SaveFileHandlers.ExecutableNameSpec | TouhouSaveSync/SaveFiles/SaveFileHandler.cs:24-26 | found exactly when the title is in the table of the save's generation; it is then that executable name up to its first '.' |
| SaveFileHandlers.SaveFileHandler.constructor | TouhouSaveSync/SaveFiles/SaveFileHandler.cs:21-28 | stores the save and the name, watches the save directory, and registers no callback |
| SaveFileHandlers.SaveFileHandler.RegisterFileSystemWatcher | TouhouSaveSync/SaveFiles/SaveFileHandler.cs:34-43 | the watcher watches the save directory for last-write changes of `*.dat` with events on; callbacks are kept |
| SaveFileHandlers.SaveFileHandler.OnSaveFileChangeFromWatch | TouhouSaveSync/SaveFiles/SaveFileHandler.cs:51-55 | every registered callback is called once with this handler, in registration order; none when none is registered |
| SaveFileHandlers.SaveFileHandler.RegisterOnSaveFileChangeCallbackExternal | TouhouSaveSync/SaveFiles/SaveFileHandler.cs:61-64 | `+=` appends the callback and keeps the earlier ones; null adds nothing |
| SaveFileHandlers.NewSaveFileHandler | TouhouSaveSync/SaveFiles/SaveFileHandler.cs:21-43 | `KeyNotFound` for a title missing from its generation's table, then `InvalidDirectory` for a missing save directory; otherwise a handler for the save with its executable name |
| SaveFileHandlers.AddHandlers | TouhouSaveSync/SaveFiles/SaveFileHandler.cs:71-83 | a handler for each save in consecutive slots from the start; the other slots stay as they were |
| SaveFileHandlers.AddNewGenHandlers | TouhouSaveSync/SaveFiles/SaveFileHandler.cs:71-76 | the first loop: slots 0 onwards hold the new-generation handlers in order; the names taken hold empty temporary files |
| SaveFileHandlers.AddOldGenHandlers | TouhouSaveSync/SaveFiles/SaveFileHandler.cs:78-83 | the second loop: the slots after the new-generation ones hold the old-generation handlers in order; earlier slots are kept; the names taken hold empty temporary files |
| SaveFileHandlers.ToTouhouSaveFilesHandlers | TouhouSaveSync/SaveFiles/SaveFileHandler.cs:66-86 | an array of `newGen.Count + oldGen.Count` slots, every slot filled: new-generation handlers first, then old-generation ones, each in dictionary order; the first `newGen.Count + oldGen.Count` temporary names hold empty files |
| TouhouSaveFilesHandlers.TouhouSaveFilesHandler.constructor | TouhouSaveSync/SaveFiles/TouhouSaveFilesHandler.cs:10-13 | stores the save unchanged |
| TouhouSaveFilesHandlers.WriteNewGen | TouhouSaveSync/SaveFiles/TouhouSaveFilesHandler.cs:20-24 | slots 0 onwards hold the new-generation handlers in order; later slots are kept |
| TouhouSaveFilesHandlers.FillNewGen | TouhouSaveSync/SaveFiles/TouhouSaveFilesHandler.cs:20-24 | builds the new-generation saves and fills slots 0 onwards with their handlers; the names taken hold empty temporary files |
| TouhouSaveFilesHandlers.WriteOldGenAsWritten | TouhouSaveSync/SaveFiles/TouhouSaveFilesHandler.cs:26-29 | as written: each handler is written to the same slot, which ends up holding the last; no other slot changes |
| TouhouSaveFilesHandlers.FillOldGenAsWritten | TouhouSaveSync/SaveFiles/TouhouSaveFilesHandler.cs:26-29 | as written: builds the old-generation saves, whose names hold empty temporary files; the one slot written holds the last handler |
| TouhouSaveFilesHandlers.ToTouhouSaveFilesHandlersAsWritten | TouhouSaveSync/SaveFiles/TouhouSaveFilesHandler.cs:15-32 | as written: `newGen.Count + oldGen.Count` slots; new-generation handlers in order; slot `newGen.Count` holds the last old-generation handler; every later slot stays null; the first `newGen.Count + oldGen.Count` temporary names hold empty files |
| TouhouSaveFilesHandlers.WriteOldGen | TouhouSaveSync/SaveFiles/TouhouSaveFilesHandler.cs:26-29 | corrected: the old-generation handlers in consecutive slots from the counter on |
| TouhouSaveFilesHandlers.FillOldGen | TouhouSaveSync/SaveFiles/TouhouSaveFilesHandler.cs:26-29 | corrected: builds the old-generation saves, whose names hold empty temporary files, and fills the slots from the counter on |
| TouhouSaveFilesHandlers.ToTouhouSaveFilesHandlers | TouhouSaveSync/SaveFiles/TouhouSaveFilesHandler.cs:15-32 | corrected: every slot holds a handler, new-generation ones first and old-generation ones after them, each in dictionary order; the first `newGen.Count + oldGen.Count` temporary names hold empty files |
| SyncHandlers.CompareTimes | TouhouSaveSync/SyncHandler.cs:99-110 | None iff the times are at most 60 s apart (inclusive); Push iff local is later by more; Pull iff local is earlier by more; never Create |
| SyncHandlers.CompareTimesSwapped | TouhouSaveSync/SyncHandler.cs:99-110 | swapping the times turns Push into Pull and back, and keeps None |
| SyncHandlers.Decide | TouhouSaveSync/SyncHandler.cs:77-110 | Create iff there is no remote file; Push on a null or unparsable description; otherwise the time comparison |
| SyncHandlers.StampedFileInSync | TouhouSaveSync/SyncHandler.cs:123-125 | a remote file described with the local time, as Create writes it, decides None when the number reads back as written |
| SyncHandlers.FullPathStampNeverPushed | TouhouSaveSync/SyncHandler.cs:80-105 | as written (full-path score lookup): for a save directory that is non-empty and does not start with "score", the local time is always -1, so a remote file stamped by the sync itself decides None whatever the score file's time |
| SyncHandlers.ZipSaveFile | TouhouSaveSync/SyncHandler.cs:120 | the generation's `ZipSaveFile` fails only for a new-generation save whose directory is missing; otherwise the zip exists |
| SyncHandlers.SyncHandler.constructor | TouhouSaveSync/SyncHandler.cs:33-35 | stores the Drive handler and the score lookup, with no saves and no folder yet |
| SyncHandlers.SyncHandler.BuildSaveFiles | TouhouSaveSync/SyncHandler.cs:46-47 | succeeds exactly when the temporary names suffice and every old title is known; then the saves are those of the found pairs, new generation first, taking the names in turn |
| SyncHandlers.SyncHandler.InitSaveFiles | TouhouSaveSync/SyncHandler.cs:41-48 | a missing early-games directory fails; success exactly when both searches and both factories succeed; then the arrays hold the saves of what was found |
| SyncHandlers.SyncHandler.InitGoogleDrive | TouhouSaveSync/SyncHandler.cs:50-54 | the save folder is the first Drive folder named TouhouSaveSync, created when there is none |
| SyncHandlers.SyncHandler.ReadScoreDatModifyTime | TouhouSaveSync/SyncHandler.cs:80 | `GetScoreDatModifyTime` with the handler's score lookup: a missing save directory throws; otherwise the local time `LocalScoreTime` gives for that lookup |
| SyncHandlers.SyncHandler.DetermineSyncAction | TouhouSaveSync/SyncHandler.cs:75-111 | Create without a remote file, reading nothing; otherwise the local time is read with the handler's score lookup (a missing directory throws) and the decision is `Decide`, never Create |
| SyncHandlers.SyncHandler.PushSaves | TouhouSaveSync/SyncHandler.cs:158-163 | zips the save, then replaces the content of the remote file with the save's id and sets its description to the local time of the handler's score lookup; fails with no id or no such file; keeps the listing |
| SyncHandlers.SyncHandler.CreateRemoteSave | TouhouSaveSync/SyncHandler.cs:118-127 | zips, uploads one file described with the local time of the handler's score lookup into the save folder, and records its fresh id on the save; only a missing save directory fails |
| SyncHandlers.SyncHandler.ExecuteSyncAction | TouhouSaveSync/SyncHandler.cs:113-143 | Create as `CreateRemoteSave`; Push as `PushSaves`; Pull and None change nothing |
| SyncHandlers.SyncHandler.DecideAndExecute | TouhouSaveSync/SyncHandler.cs:63 | for a found remote file: a missing save directory fails changing nothing; otherwise the action is `Decide` on the local time; Pull and None change nothing; Push zips the save and replaces that file's content and description in place |
| SyncHandlers.SyncHandler.SyncSave | TouhouSaveSync/SyncHandler.cs:58-64 | with no remote file, `remoteFile.Id` faults before anything changes; otherwise the save holds the found file's id, and the action executed is `Decide` on the found file and the local time, with the effect `DecideAndExecute` states; no file is added or renamed |
| SyncHandlers.SyncHandler.SyncSaveAgainst | TouhouSaveSync/SyncHandler.cs:58-64 | one iteration seen against the listing at the start of the sync: on success the save holds the id of the file with its name there |
| SyncHandlers.SyncHandler.SyncSaveAt | TouhouSaveSync/SyncHandler.cs:58-64 | syncing slot i keeps the earlier slots and the earlier array synced |
| SyncHandlers.SyncHandler.SyncSaves | TouhouSaveSync/SyncHandler.cs:58-64 | one loop of InitialSync: on success every save of the array holds its remote file's id, and the saves synced before still do |
| SyncHandlers.SyncHandler.InitialSync | TouhouSaveSync/SyncHandler.cs:56-73 | uploads nothing and keeps every file's id, name and folder; on success every save of both arrays holds the id of the remote file with its name |
| SyncHandlers.NewSyncHandler | TouhouSaveSync/SyncHandler.cs:33-39 | a missing early-games directory fails; a handler built holds the Drive handler and the score lookup, and every save holds its remote file's id; the Drive listing keeps its ids, names and folders |

## Left out

- Console output and NLog logging are left out; they change no state the
  model follows.
- `ConfigManager` is not part of this model. The `EarlyTouhouGamesDirectory`
  setting and `%APPDATA%` are parameters (`earlyDir`, `appData`).
- The directory walk is a snapshot. The recursive search and the
  ShanghaiAlice scan read a `DirTree` (a directory, its files and its
  subdirectories in listing order) rather than the live file system. A
  directory changed during the walk is not modelled.
- `Directory.GetFiles(dir, "*.dat")` is modelled as "the name ends with the
  extension". The pattern quirks of Windows (three-letter extensions also
  matching longer ones, 8.3 names) are not modelled.
- Times and sizes are `real` seconds and bytes, not IEEE doubles.
  `Double.Parse` and `Double.ToString` are the uninterpreted `Doubles`.
  Local time zones in `GetLastWriteTime` are not modelled; every time is
  already in seconds since the epoch.
- MD5, zip packing and unpacking, and JSON are uninterpreted functions.
  Their round trips are not proved; `DescribedMetadataSpec` and
  `StampedFileInSync` take them as hypotheses.
- Zip entries for directories are not modelled, nor is the path check of
  `ExtractToDirectory`. An archive is the list of its sources (files,
  directories or a whole directory), handed to the packing function.
- One `now` per operation: every file an operation writes gets the same
  time.
- `Directory.GetParent(gamePath).FullName` is the text before the last
  separator. Path normalisation (`..`, relative paths, a trailing
  separator) is not modelled.
- The mime type argument of `Upload` and `Update` is dropped.
- Drive ids are natural numbers issued from a counter, with distinct ids as
  an invariant of the store. Folders are a separate ordered list of
  (name, id) pairs.
- `GetFile` and `Download` are called by `TouhouRemoteSaveFile.cs` but are
  not in `GoogleDriveHandler.cs`. They are modelled as the store's lookup
  and a write of the remote bytes.
- GoogleDrive.GoogleDriveHandler.Update: `GoogleDriveHandler.cs` declares a
  four-argument `Update` with no description. Both callers pass five
  arguments, so the model follows the callers and sets the description.
- The revisions disagree in several places, and each is modelled as its
  callers use it:
  - `GoogleDriveFileId` is assigned by `SyncHandler.cs` but not declared in
    `TouhouSaveFile.cs`; the model gives the class that field.
  - The `TouhouToExeNameOldGen` and `TouhouToExeNameNewGen` tables are not
    in `FindTouhouSavePath.cs`, so they are parameters of the members that
    read them.
- Delegates are modelled by identity only (`Callback`). The
  `FileSystemWatcher` threading is left out: a change event is a plain
  method call.
- TouhouRemoteSaveFiles.TouhouRemoteSaveFile.GetRemoteSaveFileMetaData:
  every exception `JsonConvert` raises on a description that is not a
  metadata record is the one `InvalidData` error; the exception types are
  not told apart. This includes the text "null", which cannot become the
  `SaveFileMetadata` struct.
- `TouhouSaveFile.GetRemoteFileName` has no contract of its own. That the
  remote name is the game title is stated where it is used, by the
  contracts of `CreateRemoteSave`, `PushSaves` and `SyncSaveAgainst`.
- `UpdateTouhouOldGenerationConfig` writes through `ConfigManager`, and
  `UpdateTouhouNewGenerationConfig` is empty; neither is modelled.
  `GoogleDriveHandler.UploadFileIfNotExistElseUpdate` only returns "" and
  has no caller.
- `FindFoldersWithName` and `FindFilesWithName` are a single first-match
  query over the store. Paging and the Drive query syntax are not modelled.
- `RemoteFileName`'s private setter is only used by the constructor and is
  not modelled on its own.
- `SyncHandler.PullSaves` and `SyncLoop` have empty bodies. They do nothing
  and are not modelled.
- SyncHandlers.SyncHandler.InitialSync requires that no slot of the save
  arrays is null. The arrays built by `InitSaveFiles` are always full.
- `InitialSync` has two identical loops, over the new-generation and then
  the old-generation array. They are one method, `SyncSaves`, called twice.
  Its loop body is `SyncSaveAt`, which keeps a save synced even when the
  same object sits in both arrays.
- The sync handler's `ScoreLookup` chooses how `DetermineSyncAction`,
  `CreateRemoteSave`, `PushSaves` and everything above them read the local
  score time. `FullPathTest` is `GetScoreDatModifyTime` as written;
  `FileNameTest` is the corrected `GetScoreDatModifyTimeByName` (see
  Findings). `FullPathStampNeverPushed` states what the written lookup
  does to the sync.
- Platform.FileSystem.GetTempFileName: the name handed out is unused only
  while `TempNamesUnused` holds. `ExtractToDirectory` and the writes made
  at a pending temporary name are not shown to keep it.
- Platform.FileSystem.CreateDirectory: `Directory.CreateDirectory` also
  creates missing parent directories and throws `IOException` when a file
  exists at the path; the model only adds the path to the directories.
- Old-generation saves are built only for titles of `TouhouToExeName`. A
  missing title is `KeyNotFound` (modelled), so the handler factories fail
  for it as the code does.

## Findings

| source | as written | input that shows it | evidently intended | confidence | as-written member | corrected member |
|---|---|---|---|---|---|---|
| TouhouSaveSync/SaveFiles/TouhouSaveFile.cs:74 | `f.StartsWith("score")` tests the full path returned by `Directory.GetFiles`, so it fails for every score file of a save directory whose path does not start with "score" | a save directory `C:\Games\th07` holding `score.dat`: the full-path test gives -1 while the file-name test finds the file (`ScoreFileMissedByFullPathTest`, `FullPathTestMissesEveryFile`); in the sync, a save changed after its first upload is never pushed (`FullPathStampNeverPushed`) | test the file name, as `TouhouLocalSaveFile.GetScorePath` does | not executed | TouhouSaveFiles.TouhouSaveFile.GetScoreDatModifyTime | TouhouSaveFiles.TouhouSaveFile.GetScoreDatModifyTimeByName |
| TouhouSaveSync/SaveFiles/TouhouSaveFilesHandler.cs:26-29 | the second loop never advances `i`, so every old-generation handler is written to slot `newGen.Count` | two old-generation games: slot `newGen.Count` holds only the second one's handler, and the last slot stays null | advance `i` as the first loop and `SaveFileHandler.ToTouhouSaveFilesHandlers` do, filling every slot | not executed | TouhouSaveFilesHandlers.ToTouhouSaveFilesHandlersAsWritten | TouhouSaveFilesHandlers.ToTouhouSaveFilesHandlers |
