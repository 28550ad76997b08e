# tape: packaging, scanning, byte counting and configuration, in Dafny

tape deploys a static site. It scans a source directory into a stream of
file records, packs each record into an entry of a gzip-compressed tar
archive, counts the bytes that stream through, and reads its configuration
from the command line: a source directory, an S3 URI, and a dashboard URL
whose path names a stack and an environment. This project models the
sequential core of those steps and proves what they promise.

Modules, one file each:

- `wrappers.dfy` (`Wrappers`): `Option` and `Result` (an `Err` carries the Go error's message).
- `paths.dfy` (`Paths`): the Go string and path helpers the core relies on.
  They are `strings.Split`, `strings.Trim`, `strings.TrimPrefix`,
  `strings.Replace(s, sub, "", -1)`, `filepath.Clean`/`Join` and
  `filepath.Base`, all with the Unix separator `/`.
- `archive.dfy` (`Archive`): the tar side of packaging.
  - File kinds and `tar.FileInfoHeader`.
  - The file system, a map from path to contents that open, fail to open, or fail part way through a copy.
  - `ArchiveSink`, a class standing for the tar writer, the gzip writer and the destination.
    It holds the entries written so far and the order in which the three layers were closed.
- `package.dfy` (`Package`): `buildPackage` and `addFile` of package.go, on records `(baseDir, relativePath, link, stat, err)`.
- `legacy.dfy` (`Legacy`): `main`, `buildPackage` and `addFile` of main.go.
  Records there are `FileStat(src, path, link, stat, err)`, the archive prefix is fixed to `site` and the root record is skipped.
- `scan.dfy` (`Scan`): `scanDirectory` of files.go.
  The precondition on the stat result comes first. Then the walk callback emits one record per visited entry and at most one trailing error record, onto a `Channel` that is closed once.
- `sizeio.dfy` (`SizeIO`): sizeio.go.
  - `SizeReader` and `SizeWriter` are classes whose counters add each call's byte count with int64 wrap-around.
  - The integer loop of `byteCountDecimal` is a method.
- `config.dfy` (`Config`): `newConfig`, and the dashboard client's base URL.

Each packaging loop (`BuildPackage`/`AddAll`) is an imperative method over the `ArchiveSink`. It is proved equal to a functional specification:
- `AddFile` gives the outcome of one record;
- `Loop` folds the outcomes and stops at the first error;
- `Pack` is `Loop` applied to the outcomes of all records.

The lemmas about `Loop` and `Pack` state the order, first-error and counter properties.

Points about the code that the model keeps as they are:
- Entry names come from `filepath.Join`, which also cleans the path. `Paths.JoinPlain` shows that the name is `prefix + "/" + relativePath` when both are plain.
- package.go packs every record it receives, the root record and any `.git` entries included. No filter is modelled.
- package.go's `addFile` ignores a record's own `err`. The record a failed walk sends has no file information, so it fails at `FileInfoHeader`, and the walk's error is not part of the message (`Package.WalkErrorLost`).

## Model

| member | source | states |
|---|---|---|
| Archive.FileInfoHeader | package.go:43-46 | a header is built exactly when there is file information and the file is not a socket; it keeps the file's kind and carries the link target only for a symlink |
| Archive.Open | package.go:61-64 | opening succeeds exactly for a path present in the file system whose contents can be opened, and then yields those contents |
| Archive.ArchiveSink.WriteHeader | package.go:52-54 | a header whose write fails leaves the archive unchanged and reports the failure; otherwise exactly one header-only entry is appended |
| Archive.ArchiveSink.Write | package.go:68-72 | body bytes are appended to the last entry written, and all earlier entries stay as they were |
| Archive.ArchiveSink.CloseChain | package.go:16-25 | the deferred closes run last-in-first-out: tar writer, then gzip writer, then the destination |
| Package.AddFileEntry | package.go:41-73 | a record yields at most one entry and yields one on success. The entry is named Join(prefix, relativePath) with the record's kind; it carries the link only for symlinks; non-regular entries have no body and cannot fail after the header; a regular entry's body is what was copied from baseDir/relativePath, and written counts exactly its bytes |
| Package.AddFileErrorStage | package.go:43-72 | every error is the underlying message behind its stage's prefix: "FileInfoHeader: " plus tar's error, "WriteHeader: " plus the writer's, "cant open file: " plus os.Open's, "can't copy file data into tarball: " plus the copy's; a header-only entry cannot fail. Each prefix appears iff its stage is the one that failed |
| Package.WalkErrorLost | package.go:43-46 | the record of a failed walk, which has no file information, fails with "FileInfoHeader: archive/tar: FileInfo is nil" whatever its own error was |
| Package.LoopSuccess | package.go:27-36 | for outcomes where each successful record left one entry, the loop succeeds iff every record succeeds; then compressed is the number of records, the entries are the records' entries in order, and size is the sum of their body lengths |
| Package.LoopFirstError | package.go:29-33 | on failure the error is that of the first failing record, all records before it succeeded, and the archive holds their entries plus whatever the failing record had written |
| Package.LoopExtend | package.go:29-36 | processing one more record after a successful prefix appends its entries, and either stops with its error or adds one to compressed and its written bytes to size |
| Package.LoopStopsAtError | package.go:29-33 | once a record fails, later records change nothing: no entries, no counters, same error |
| Package.PackSuccess | package.go:27-36 | packaging succeeds iff addFile succeeds on every record; then compressed counts the records, the archive has one entry per record in record order, and size is the total body length |
| Package.PackFirstError | package.go:29-33 | a failing packaging run returns the first record's error, and records appended after the input do not change the outcome |
| Package.AddFilePlain | package.go:43-61 | for a plain prefix and relative path that open and copy fine, the entry is named prefix/relativePath; a regular entry's body is the whole file, and any other entry has no body and counts 0 bytes |
| Package.ExampleOutcomes | package_test.go:38-57 | the three test records (file1, dir1/file2, symlink1 → file1) each yield their single expected entry |
| Package.PackExample | package_test.go:33-62 | packaging the three test records under a plain prefix succeeds with entries prefix/file1, prefix/dir1/file2 and prefix/symlink1 (link file1), in that order; compressed is 3 and size is the two files' lengths |
| Package.PackTestAsWritten | package_test.go:33-62 | with the test's records as written, where os.Stat has followed symlink1, packaging succeeds with three regular entries, prefix/symlink1 holding file1's bytes with no link name, and size counting file1 twice |
| Package.ExamplePlain | package_test.go:38-62 | the prefix "site" and the test's relative paths are plain, so the example applies to the test's call |
| Package.BuildPackage | package.go:13-39 | the archive grows by exactly the entries of Pack and the method returns Pack's error, compressed count and size; on every path the three writers are closed once, in the deferred order |
| Package.AddAll | package.go:27-36 | the loop appends exactly Pack's entries and returns its error and counters |
| Package.AddFileTo | package.go:41-73 | the record's entries are appended to the archive and the method returns addFile's written count and error, as AddFile specifies |
| Legacy.RelativeNameBelow | main.go:121 | for a path directly below src whose remainder does not contain src again, the relative name is exactly that remainder |
| Legacy.RelativeNameRepeated | main.go:121 | every occurrence of src is removed, not just the leading one: "/s/x/s/f" under "/s" becomes "x/f" |
| Legacy.EntryNameBelow | main.go:134 | a record at src/rel, with a plain prefix and a plain rel that does not contain src, is archived as prefix/rel |
| Legacy.AddFileEntry | main.go:118-158 | the root record and the walk's error record yield nothing and no error; other records yield at most one entry (exactly one on success), named Join(prefix, relative name); non-regular entries have no body, and a regular entry's body is the copied file |
| Legacy.AddFileErrors | main.go:128-155 | header, header-write and open errors are returned unchanged; only a copy failure is wrapped with "can't copy file data into tarball: " |
| Legacy.LoopAppend | main.go:110-114 | records are handled in order and the first error ends the loop; a later batch contributes only if the earlier one succeeded |
| Legacy.PackAppend | main.go:110-114 | packaging a stream in two parts is packaging the first part and, only if it succeeded, continuing with the second |
| Legacy.WalkErrorIgnored | main.go:124-126 | the trailing error record of a failed walk is skipped like the root, so a run that succeeded up to it still succeeds and adds no entry |
| Legacy.BuildPackage | main.go:93-116 | a failed os.Create is returned with nothing written and nothing closed; otherwise the archive grows by exactly Pack's entries, Pack's error is returned and the three writers close in the deferred order |
| Legacy.AddAll | main.go:110-114 | the loop appends exactly Pack's entries and returns its error |
| Legacy.AddFileTo | main.go:118-158 | the record's entries are appended to the archive and addFile's error is returned, as AddFile specifies |
| Legacy.Run | main.go:13-36 | anything but two user arguments prints the usage and exits 1. A failed Abs, a missing or non-directory source, a failed os.Create or a failed record prints that error and exits 1. The exit status is 0 exactly when none of these happens. Before os.Create succeeds, nothing is written to the archive or closed; after it, the archive grows by exactly the entries that packaging the scanned records writes (Pack), and the three writers are closed in the deferred order |
| Scan.Precheck | files.go:13-23 | the scan may proceed iff the path exists and is a directory: a missing path gives "doesn't exist", a failing stat its own error, and any other file "is not a directory" |
| Scan.Callback | files.go:28-45 | a visit yields a record iff the walk reported no error and, for a symlink, Readlink succeeded; the record carries src, the visited path and its file information, and a link only for a symlink, holding the unfollowed target |
| Scan.ScanDirectory | files.go:9-54 | a failed precheck returns its error on a channel that is never written or closed; otherwise the channel receives exactly the emitted records and is closed once |
| Scan.EmittedAllOk | files.go:39-44 | a walk without errors emits one record per visited entry, in visit order, each with src and the visited path and no error |
| Scan.EmittedFirstFailure | files.go:28-49 | the first failing visit stops the walk: the records before it, then one error record carrying its error, and nothing more |
| Scan.EmittedShape | files.go:32-49 | in every output there are at most as many records as visits; an error record can only be the last one; a non-empty link occurs only on a symlink's record |
| Scan.ScanFixture | files_test.go:16 | the fixture directory, with 6 entries including its root and no errors, yields 6 records |
| Scan.PrecheckFixture | files_test.go:14-15 | "not-exist" is rejected with "path 'not-exist' doesn't exist" and a regular file with "<path> is not a directory" |
| SizeIO.Wrap64 | sizeio.go:22 | the counter stays in the int64 range, agrees with the exact sum modulo 2^64, and equals it when it fits |
| SizeIO.SizeReader.constructor | sizeio.go:15-19 | a new reader wraps the given stream with counter 0 and the end not reached |
| SizeIO.SizeReader.Read | sizeio.go:20-27 | the inner count and error are returned unchanged; the count is added whatever the error; done becomes true on io.EOF and never goes back |
| SizeIO.SizeReader.Close | sizeio.go:29-31 | closing closes the wrapped reader once and returns its error |
| SizeIO.SizeReader.N | sizeio.go:35-37 | reports the current counter and end flag |
| SizeIO.SizeWriter.constructor | sizeio.go:44-48 | a new writer wraps the given stream with counter 0 |
| SizeIO.SizeWriter.Write | sizeio.go:49-53 | the inner count and error are returned unchanged and the count is added whatever the error |
| SizeIO.SizeWriter.Close | sizeio.go:55-57 | closing closes the wrapped writer once and returns its error |
| SizeIO.SizeWriter.N | sizeio.go:60-62 | reports the current counter |
| SizeIO.CountedSnoc | sizeio.go:22 | a run of calls followed by one more call is the run's counter plus that call's count, so Read and Write keep the counter equal to the fold of all counts seen |
| SizeIO.CountedGrows | sizeio.go:20-27 | with non-negative counts and while the total fits in int64, the counter is the start plus the sum of the counts and never decreases |
| SizeIO.CountedWraps | sizeio.go:22 | beyond the int64 maximum the counter wraps to the minimum |
| SizeIO.ByteCountDecimal | sizeio.go:64-75 | counts below 1000, negatives included, are shown in bytes. Otherwise the divisor is the largest power of 1000 not above the count, the quotient lies in [1, 1000), and the unit index is at most 5, so "kMGTPE" is indexed in range and the divisor fits in int64 |
| SizeIO.PowBound | sizeio.go:69-74 | if 1000^(e+1) fits in int64 then e is at most 5, which keeps the unit index inside "kMGTPE" |
| Config.NewConfig | config.go:19-61 | the checks run in order: absolute path, dashboard parse, five path segments, S3 parse, scheme "s3", non-empty host. The first failure is the error, and the result is a configuration iff all pass. It then takes the stack from segment 2, the environment from segment 4, the bucket from the host, the key from the path unchanged, and the archive prefix from the last element of the source path |
| Config.DashboardSegments | config.go:35-39 | a dashboard path of five plain segments, with or without a trailing '/', splits back into exactly those segments |
| Config.EnclosedTrim | config.go:35 | trimming '/' at both ends of "/" + s (optionally followed by '/') gives back s when s begins and ends with a non-separator |
| Config.NewConfigExample | config.go:24-57 | a well-formed source path, dashboard URL and S3 URI give a configuration with the source's last element as prefix, the stack and environment from the dashboard path, and the bucket and key from the URI |
| Config.DashboardBaseURL | config.go:97 | the base URL starts with the scheme, continues with "://" and ends with the host; nothing of the path is in it |
| Config.DashboardBaseURLInjective | config.go:97 | for schemes without ':', equal base URLs mean equal scheme and host |
| Paths.Split | config.go:35 | splitting yields at least one part, and no part contains the separator |
| Paths.JoinSplit | config.go:35 | joining the parts of a split gives the original string back |
| Paths.SplitJoin | config.go:35 | splitting a join of separator-free parts gives the parts back |
| Paths.TrimLeft | config.go:35 | trimming the front removes exactly a run of the trimmed character, leaving a suffix that does not start with it |
| Paths.TrimRight | config.go:35 | trimming the back removes exactly a run of the trimmed character, leaving a prefix that does not end with it |
| Paths.TrimEnclosed | config.go:35 | a string that neither starts nor ends with the character is recovered from one leading and optional trailing copy |
| Paths.TrimPrefix | main.go:121 | the prefix is removed when present, and otherwise the string is unchanged |
| Paths.RemoveAll | main.go:121 | removing occurrences never lengthens the string |
| Paths.RemoveAllAbsent | main.go:121 | a string that does not contain src is left unchanged |
| Paths.RemoveAllLeading | main.go:121 | a leading occurrence is removed along with those after it |
| Paths.Clean | package.go:49 | cleaning never yields the empty path |
| Paths.Join | package.go:49 | a join is empty iff both elements are |
| Paths.CleanPlain | package.go:49 | a path of plain elements is already clean |
| Paths.JoinPlain | package.go:49 | joining a plain prefix and a plain relative path is plain concatenation with one '/' |
| Paths.Base | config.go:28 | the base is never empty and is "/" or a single element without a separator |
| Paths.BaseOfAbsolute | config.go:28 | the base of an absolute path of plain elements is its last element |

## Left out

- Tar and gzip encoding are library code. The archive is a sequence of entries, each with a name, a link name, a kind and a body. Header fields other than these (mode, size, times), the compression levels and the golden-file byte comparison of package_test.go:66-82 are not modelled.
- The error branch of `gzip.NewWriterLevel` (package.go:19-21, main.go:102-104) is not modelled. It can only fail for an invalid level, and both calls pass a constant valid level.
- A failing `WriteHeader` (a bad header or a failing underlying writer) is given by the sink's `headerFaults` map from entry name to message.
- The tar writer's own check that a body does not exceed the header's size is not modelled. The source writes exactly the file's bytes.
- Closing the opened body file (package.go:65, main.go:150) is not modelled. Files are values in a map.
- OS calls are parameters:
  - `os.Stat` is a stat result;
  - `filepath.Walk` and `os.Readlink` are a sequence of visits;
  - `os.Open` and `io.Copy` are the file-system map;
  - `os.Create` is an optional error;
  - `filepath.Abs` is a result.
  Windows separators are not modelled.
- Goroutines, channels and atomics are not modelled as concurrency:
  - the scan's goroutine and unbuffered channel are the records sent, in order, onto a `Channel` object;
  - the packager consumes them as a sequence;
  - the goroutine left blocked when packaging stops early is out of scope;
  - `atomic.AddInt64`/`LoadInt64` and the unsynchronised `done` flag are plain fields.
- The copy of `scanDirectory` in main.go:46-91 is the same code as files.go and is modelled once, by `Scan`.
- The definition of package.go's record type is not part of this model. Its fields are the ones package.go and package_test.go use.
- package_test.go builds its records with `os.Stat`, which follows the symlink. `Package.PackTestAsWritten` models those records. `Package.PackExample` gives `symlink1` the symlink kind instead, as a walk with `Lstat` would, so that the example exercises the link branch.
- Logging (`Debugf`, `Println`, internal/logger.go) is output only and is left out. `handleError` is not part of this model; its call sites end with an `Err` result.
- `url.Parse` is not modelled; its scheme, host and path are inputs. The two environment variables are inputs too.
- The AWS and dashboard SDK work (`bucketRegion`, `S3Client`, `ssp.NewClient`, config.go:63-73 and 93-107, except the base-URL string) involves the network and credentials and is left out.
- Package.BuildPackage: `compressed` and `size` are unbounded naturals, with no int64 overflow, because no archive could reach 2^63 records or bytes.
- Legacy.Run: the usage and error lines are returned as the output string rather than printed, and `os.Exit(1)` is the returned status.
- SizeIO.ByteCountDecimal: returns the chosen divisor and unit instead of the string, because the `float64` division and `%.1f` formatting are not modelled.
- SizeIO.CountedGrows: holds only under the io.Reader/io.Writer contract that a call never reports a negative count; a misbehaving inner stream can make the counter decrease.
