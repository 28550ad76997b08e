/**
 * package.go: buildPackage streams the scanned records into the tar writer,
 * one addFile per record, stopping at the first error, and counts the
 * records added and the body bytes copied.
 */
module Package {
  import opened Wrappers
  import opened Paths
  import opened Archive

  /** A scanned record as package.go reads it. */
  datatype Record = Record(baseDir: string, relativePath: string, link: string, stat: Option<FileInfo>, err: Option<string>)

  const HeaderError := "FileInfoHeader: "
  const WriteHeaderError := "WriteHeader: "
  const OpenError := "cant open file: "

  /** The name of a record's entry inside the archive. */
  function EntryName(destBaseDir: string, file: Record): string
  {
    Join(destBaseDir, file.relativePath)
  }

  /** The path a regular record's body is read from. */
  function SourcePath(file: Record): string
  {
    Join(file.baseDir, file.relativePath)
  }

  /** What addFile leaves in the archive, the byte count it returns, and its error. */
  datatype Added = Added(entries: seq<Entry>, written: nat, err: Option<string>)

  /** addFile as a function of the record, the file system and the sink's header faults. */
  function AddFile(destBaseDir: string, file: Record, fs: FileSystem, faults: map<string, string>): Added
  {
    match FileInfoHeader(file.stat, file.link)
    case Err(e) => Added([], 0, Some(HeaderError + e))
    case Ok(h) =>
      var name := EntryName(destBaseDir, file);
      if name in faults then Added([], 0, Some(WriteHeaderError + faults[name]))
      else
        var header := Entry(name, h.linkname, h.kind, []);
        if h.kind != Regular then Added([header], 0, None)
        else
          match Open(fs, SourcePath(file))
          case Err(e) => Added([header], 0, Some(OpenError + e))
          case Ok(c) =>
            var data := Copied(c);
            var copyErr := if c.CopyFails? then Some(CopyError + c.msg) else None;
            Added([header.(body := data)], |data|, copyErr)
  }

  /**
   * addFile leaves at most one entry, named Join(destBaseDir, relativePath),
   * with kind and link name from the record's metadata; a non-regular entry
   * is a header only and counts 0 bytes; a regular entry's body is exactly
   * what was copied from Join(baseDir, relativePath), and that many bytes
   * are reported.
   */
  lemma AddFileEntry(destBaseDir: string, file: Record, fs: FileSystem, faults: map<string, string>)
    ensures var a := AddFile(destBaseDir, file, fs, faults);
            && |a.entries| <= 1
            && (a.err.None? ==> |a.entries| == 1)
            && (a.entries == [] ==> a.written == 0)
    ensures var a := AddFile(destBaseDir, file, fs, faults);
            a.entries != [] ==>
              && file.stat.Some?
              && a.entries[0].name == EntryName(destBaseDir, file)
              && a.entries[0].kind == file.stat.value.kind
              && a.entries[0].linkname == (if file.stat.value.kind == Symlink then file.link else "")
              && a.written == |a.entries[0].body|
              && (a.entries[0].kind != Regular ==> a.entries[0].body == [] && a.err.None?)
              && (a.entries[0].kind == Regular ==>
                    a.entries[0].body == (if Open(fs, SourcePath(file)).Ok? then Copied(fs[SourcePath(file)]) else []))
  {
  }

  /**
   * Every error is the underlying one behind the prefix of its stage, and
   * the prefix of an error message tells which stage of addFile failed.
   */
  lemma AddFileErrorStage(destBaseDir: string, file: Record, fs: FileSystem, faults: map<string, string>)
    ensures var a := AddFile(destBaseDir, file, fs, faults);
            var h := FileInfoHeader(file.stat, file.link);
            var name := EntryName(destBaseDir, file);
            var src := SourcePath(file);
            && (h.Err? ==> a.err == Some(HeaderError + h.error))
            && (h.Ok? && name in faults ==> a.err == Some(WriteHeaderError + faults[name]))
            && (h.Ok? && name !in faults && h.value.kind != Regular ==> a.err == None)
            && (h.Ok? && name !in faults && h.value.kind == Regular && Open(fs, src).Err? ==>
                  a.err == Some(OpenError + Open(fs, src).error))
            && (h.Ok? && name !in faults && h.value.kind == Regular && Open(fs, src).Ok? ==>
                  a.err == if fs[src].CopyFails? then Some(CopyError + fs[src].msg) else None)
    ensures var a := AddFile(destBaseDir, file, fs, faults);
            var h := FileInfoHeader(file.stat, file.link);
            var headerWritten := h.Ok? && EntryName(destBaseDir, file) !in faults;
            a.err.Some? ==>
              && (HeaderError <= a.err.value <==> h.Err?)
              && (WriteHeaderError <= a.err.value <==> h.Ok? && !headerWritten)
              && (OpenError <= a.err.value <==> headerWritten && Open(fs, SourcePath(file)).Err?)
              && (CopyError <= a.err.value <==> headerWritten && Open(fs, SourcePath(file)).Ok?)
  {
    var a := AddFile(destBaseDir, file, fs, faults);
    var h := FileInfoHeader(file.stat, file.link);
    if a.err.Some? {
      var e := a.err.value;
      assert HeaderError[0] == 'F' && WriteHeaderError[0] == 'W';
      assert OpenError[0] == 'c' && CopyError[0] == 'c';
      assert OpenError[3] == 't' && CopyError[3] == '\'';
      if h.Err? {
        assert e[0] == 'F';
      } else if EntryName(destBaseDir, file) in faults {
        assert e[0] == 'W';
      } else if Open(fs, SourcePath(file)).Err? {
        assert e[0] == 'c' && e[3] == 't';
      } else {
        assert e[0] == 'c' && e[3] == '\'';
      }
    }
  }

  /**
   * package.go's addFile does not look at a record's own error: the record
   * a failed walk sends, which has no metadata, fails at FileInfoHeader,
   * and the walk's error is not part of the message.
   */
  lemma WalkErrorLost(destBaseDir: string, base: string, rel: string, link: string, e: string,
                      fs: FileSystem, faults: map<string, string>)
    ensures AddFile(destBaseDir, Record(base, rel, link, None, Some(e)), fs, faults)
            == Added([], 0, Some(HeaderError + NilInfoError))
  {
  }

  /** What buildPackage leaves behind: entries, error, and its two counters. */
  datatype Packed = Packed(entries: seq<Entry>, err: Option<string>, compressed: nat, size: nat)

  /**
   * The loop of buildPackage over the addFile outcomes in order: entries
   * accumulate, the first error ends it, and each success adds one to
   * compressed and its byte count to size.
   */
  function Loop(results: seq<Added>): Packed
    decreases |results|
  {
    if results == [] then Packed([], None, 0, 0)
    else if results[0].err.Some? then Packed(results[0].entries, results[0].err, 0, 0)
    else
      var rest := Loop(results[1..]);
      Packed(results[0].entries + rest.entries, rest.err, rest.compressed + 1, rest.size + results[0].written)
  }

  /** The addFile outcome of every record, in order. */
  function AddFiles(destBaseDir: string, files: seq<Record>, fs: FileSystem, faults: map<string, string>): (r: seq<Added>)
    ensures |r| == |files|
    decreases |files|
  {
    if files == [] then [] else [AddFile(destBaseDir, files[0], fs, faults)] + AddFiles(destBaseDir, files[1..], fs, faults)
  }

  /** The outcome at index i is addFile of the record at index i. */
  lemma {:induction false} AddFilesAt(destBaseDir: string, files: seq<Record>, fs: FileSystem, faults: map<string, string>, i: nat)
    requires i < |files|
    ensures AddFiles(destBaseDir, files, fs, faults)[i] == AddFile(destBaseDir, files[i], fs, faults)
    decreases i
  {
    if i > 0 {
      AddFilesAt(destBaseDir, files[1..], fs, faults, i - 1);
      assert files[1..][i - 1] == files[i];
    }
  }

  /** buildPackage over a sequence of records. */
  function Pack(destBaseDir: string, files: seq<Record>, fs: FileSystem, faults: map<string, string>): Packed
  {
    Loop(AddFiles(destBaseDir, files, fs, faults))
  }

  /** The total number of body bytes in a sequence of entries. */
  function BodyBytes(entries: seq<Entry>): nat
    decreases |entries|
  {
    if entries == [] then 0 else |entries[0].body| + BodyBytes(entries[1..])
  }

  /**
   * The loop succeeds exactly when every outcome does; then it has taken
   * one entry from each outcome in order, compressed is the number of
   * outcomes and size the sum of their byte counts.
   */
  lemma {:induction false} LoopSuccess(results: seq<Added>)
    requires forall i :: 0 <= i < |results| && results[i].err.None? ==>
               |results[i].entries| == 1 && results[i].written == |results[i].entries[0].body|
    ensures Loop(results).err.None? <==> forall i :: 0 <= i < |results| ==> results[i].err.None?
    ensures Loop(results).err.None? ==>
              && Loop(results).compressed == |results|
              && |Loop(results).entries| == |results|
              && (forall i :: 0 <= i < |results| ==> Loop(results).entries[i] == results[i].entries[0])
              && Loop(results).size == BodyBytes(Loop(results).entries)
    decreases |results|
  {
    if results != [] {
      var rest := Loop(results[1..]);
      assert forall i :: 0 <= i < |results| - 1 ==> results[1..][i] == results[i + 1];
      LoopSuccess(results[1..]);
      if results[0].err.None? && rest.err.None? {
        var all := Loop(results).entries;
        assert all == results[0].entries + rest.entries;
        assert all[1..] == rest.entries;
      }
    }
  }

  /**
   * On failure the outcomes before index compressed all succeeded, the one
   * at that index failed with exactly the error returned, and the entries
   * are those of the outcomes up to and including it.
   */
  lemma {:induction false} LoopFirstError(results: seq<Added>)
    requires Loop(results).err.Some?
    ensures var p := Loop(results);
            && p.compressed < |results|
            && (forall j :: 0 <= j < p.compressed ==> results[j].err.None?)
            && results[p.compressed].err == p.err
            && p.entries == Loop(results[..p.compressed]).entries + results[p.compressed].entries
    decreases |results|
  {
    var p := Loop(results);
    if results[0].err.Some? {
      assert results[..0] == [];
    } else {
      var tail := results[1..];
      LoopFirstError(tail);
      var k := Loop(tail).compressed;
      assert tail[k] == results[k + 1];
      forall j | 0 <= j < k + 1 ensures results[j].err.None? {
        if j > 0 {
          assert tail[j - 1] == results[j];
        }
      }
      var front := results[..k + 1];
      assert front[0] == results[0];
      assert front[1..] == tail[..k];
    }
  }

  /**
   * One more outcome after a run that ended without error: its entries are
   * appended, its error (if any) becomes the result, and only a success
   * counts as one more compressed file with its bytes.
   */
  lemma {:induction false} LoopExtend(results: seq<Added>, x: Added)
    requires Loop(results).err.None?
    ensures var p := Loop(results);
            Loop(results + [x])
            == if x.err.Some? then Packed(p.entries + x.entries, x.err, p.compressed, p.size)
               else Packed(p.entries + x.entries, None, p.compressed + 1, p.size + x.written)
    decreases |results|
  {
    if results == [] {
      assert results + [x] == [x] && [x][1..] == [];
      assert [] + x.entries == x.entries + [] == x.entries;
    } else {
      assert (results + [x])[0] == results[0];
      assert (results + [x])[1..] == results[1..] + [x];
      LoopExtend(results[1..], x);
      var q := Loop(results[1..]);
      assert results[0].entries + (q.entries + x.entries) == results[0].entries + q.entries + x.entries;
    }
  }

  /** After the first error no later outcome is looked at. */
  lemma {:induction false} LoopStopsAtError(results: seq<Added>, more: seq<Added>)
    requires Loop(results).err.Some?
    ensures Loop(results + more) == Loop(results)
    decreases |results|
  {
    assert (results + more)[0] == results[0];
    if results[0].err.None? {
      assert (results + more)[1..] == results[1..] + more;
      LoopStopsAtError(results[1..], more);
    }
  }

  /**
   * buildPackage succeeds exactly when addFile succeeds on every record; it
   * then holds one entry per record, in the order received, each as addFile
   * built it, with compressed the number of records and size the body bytes.
   */
  lemma PackSuccess(destBaseDir: string, files: seq<Record>, fs: FileSystem, faults: map<string, string>)
    ensures var p := Pack(destBaseDir, files, fs, faults);
            p.err.None? <==> forall i :: 0 <= i < |files| ==> AddFile(destBaseDir, files[i], fs, faults).err.None?
    ensures var p := Pack(destBaseDir, files, fs, faults);
            p.err.None? ==>
              && p.compressed == |files|
              && |p.entries| == |files|
              && p.size == BodyBytes(p.entries)
              && forall i :: 0 <= i < |files| ==> [p.entries[i]] == AddFile(destBaseDir, files[i], fs, faults).entries
  {
    var results := AddFiles(destBaseDir, files, fs, faults);
    forall i | 0 <= i < |files| ensures results[i] == AddFile(destBaseDir, files[i], fs, faults) {
      AddFilesAt(destBaseDir, files, fs, faults, i);
    }
    if forall i :: 0 <= i < |results| ==> results[i].err.None? {
      forall i | 0 <= i < |results|
        ensures |results[i].entries| == 1 && results[i].written == |results[i].entries[0].body|
      {
        AddFileEntry(destBaseDir, files[i], fs, faults);
      }
      LoopSuccess(results);
      forall i | 0 <= i < |results| ensures [Loop(results).entries[i]] == results[i].entries {
        assert results[i].entries == [results[i].entries[0]];
      }
    } else {
      var i :| 0 <= i < |results| && results[i].err.Some?;
      if Loop(results).err.None? {
        LoopNoErrorBefore(results, i);
      }
    }
  }

  /** A successful loop met no failing outcome. */
  lemma {:induction false} LoopNoErrorBefore(results: seq<Added>, i: nat)
    requires i < |results| && results[i].err.Some?
    ensures Loop(results).err.Some?
    decreases |results|
  {
    if results[0].err.None? {
      assert results[1..][i - 1] == results[i];
      LoopNoErrorBefore(results[1..], i - 1);
    }
  }

  /**
   * buildPackage's first error is the error of the record at index
   * compressed; the records before it were all added, the ones after it are
   * never looked at, and the entries are those of the records up to it.
   */
  lemma PackFirstError(destBaseDir: string, files: seq<Record>, more: seq<Record>, fs: FileSystem, faults: map<string, string>)
    requires Pack(destBaseDir, files, fs, faults).err.Some?
    ensures var p := Pack(destBaseDir, files, fs, faults);
            && p.compressed < |files|
            && (forall j :: 0 <= j < p.compressed ==> AddFile(destBaseDir, files[j], fs, faults).err.None?)
            && AddFile(destBaseDir, files[p.compressed], fs, faults).err == p.err
            && p.entries == Pack(destBaseDir, files[..p.compressed], fs, faults).entries
                            + AddFile(destBaseDir, files[p.compressed], fs, faults).entries
            && Pack(destBaseDir, files + more, fs, faults) == p
  {
    var results := AddFiles(destBaseDir, files, fs, faults);
    LoopFirstError(results);
    var k := Loop(results).compressed;
    forall j | 0 <= j <= k ensures results[j] == AddFile(destBaseDir, files[j], fs, faults) {
      AddFilesAt(destBaseDir, files, fs, faults, j);
    }
    assert files == files[..k] + files[k..];
    AddFilesAppend(destBaseDir, files[..k], files[k..], fs, faults);
    assert AddFiles(destBaseDir, files[..k], fs, faults) == results[..k];
    LoopStopsAtError(results, AddFiles(destBaseDir, more, fs, faults));
    AddFilesAppend(destBaseDir, files, more, fs, faults);
  }

  /** The outcomes of two runs of records, one after the other. */
  lemma {:induction false} AddFilesAppend(destBaseDir: string, files: seq<Record>, more: seq<Record>, fs: FileSystem, faults: map<string, string>)
    ensures AddFiles(destBaseDir, files + more, fs, faults)
            == AddFiles(destBaseDir, files, fs, faults) + AddFiles(destBaseDir, more, fs, faults)
    decreases |files|
  {
    if files == [] {
      assert files + more == more;
    } else {
      assert (files + more)[0] == files[0];
      assert (files + more)[1..] == files[1..] + more;
      AddFilesAppend(destBaseDir, files[1..], more, fs, faults);
    }
  }

  /**
   * The records of package_test.go, read from the directory base: two
   * regular files and a symbolic link to file1.
   */
  function ExampleRecords(base: string): seq<Record>
  {
    [ Record(base, "file1", "", Some(FileInfo("file1", Regular)), None),
      Record(base, "dir1" + [Separator] + "file2", "", Some(FileInfo("file2", Regular)), None),
      Record(base, "symlink1", "file1", Some(FileInfo("symlink1", Symlink)), None) ]
  }

  /**
   * A record with a plain relative path and metadata that tar accepts, whose
   * name has no header fault and, when it is a regular file, whose source
   * is readable, is added as one entry named prefix/relativePath.
   */
  lemma AddFilePlain(destBaseDir: string, file: Record, fs: FileSystem, faults: map<string, string>)
    requires PlainName(destBaseDir) && PlainPath(file.relativePath)
    requires file.stat.Some? && file.stat.value.kind != Socket
    requires destBaseDir + [Separator] + file.relativePath !in faults
    requires file.stat.value.kind == Regular ==> SourcePath(file) in fs && fs[SourcePath(file)].Readable?
    ensures var kind := file.stat.value.kind;
            AddFile(destBaseDir, file, fs, faults) ==
              if kind == Regular then
                var data := fs[SourcePath(file)].data;
                Added([Entry(destBaseDir + [Separator] + file.relativePath, "", kind, data)], |data|, None)
              else
                Added([Entry(destBaseDir + [Separator] + file.relativePath, if kind == Symlink then file.link else "", kind, [])], 0, None)
  {
    JoinPlain(destBaseDir, file.relativePath);
  }

  /**
   * On those records, under a plain prefix (the test uses "site"), with no
   * header faults and both regular files readable, buildPackage succeeds
   * with three entries, named prefix/file1, prefix/dir1/file2 and
   * prefix/symlink1, the last a symbolic link to "file1" with no body, the
   * first two holding their files' bytes.
   */
  lemma PackExample(prefix: string, base: string, fs: FileSystem, data1: seq<byte>, data2: seq<byte>)
    requires PlainName(prefix)
    requires SourcePath(ExampleRecords(base)[0]) in fs && fs[SourcePath(ExampleRecords(base)[0])] == Readable(data1)
    requires SourcePath(ExampleRecords(base)[1]) in fs && fs[SourcePath(ExampleRecords(base)[1])] == Readable(data2)
    ensures Pack(prefix, ExampleRecords(base), fs, map[])
            == Packed([Entry(prefix + "/file1", "", Regular, data1),
                       Entry(prefix + "/dir1/file2", "", Regular, data2),
                       Entry(prefix + "/symlink1", "file1", Symlink, [])],
                      None, 3, |data1| + |data2|)
  {
    var r0 := Added([Entry(prefix + "/file1", "", Regular, data1)], |data1|, None);
    var r1 := Added([Entry(prefix + "/dir1/file2", "", Regular, data2)], |data2|, None);
    var r2 := Added([Entry(prefix + "/symlink1", "file1", Symlink, [])], 0, None);
    ExampleOutcomes(prefix, base, fs, data1, data2);
    LoopThree(r0, r1, r2);
    assert r0.entries + r1.entries + r2.entries
        == [r0.entries[0], r1.entries[0], r2.entries[0]];
  }

  /** The addFile outcomes of the three fixture records. */
  lemma ExampleOutcomes(prefix: string, base: string, fs: FileSystem, data1: seq<byte>, data2: seq<byte>)
    requires PlainName(prefix)
    requires SourcePath(ExampleRecords(base)[0]) in fs && fs[SourcePath(ExampleRecords(base)[0])] == Readable(data1)
    requires SourcePath(ExampleRecords(base)[1]) in fs && fs[SourcePath(ExampleRecords(base)[1])] == Readable(data2)
    ensures AddFiles(prefix, ExampleRecords(base), fs, map[])
            == [Added([Entry(prefix + "/file1", "", Regular, data1)], |data1|, None),
                Added([Entry(prefix + "/dir1/file2", "", Regular, data2)], |data2|, None),
                Added([Entry(prefix + "/symlink1", "file1", Symlink, [])], 0, None)]
  {
    ExampleFile1(prefix, base, fs, data1);
    ExampleFile2(prefix, base, fs, data2);
    ExampleSymlink(prefix, base, fs);
    AddFilesThree(prefix, ExampleRecords(base), fs, map[]);
  }

  /** The outcomes of three records are addFile of each, in order. */
  lemma AddFilesThree(destBaseDir: string, files: seq<Record>, fs: FileSystem, faults: map<string, string>)
    requires |files| == 3
    ensures AddFiles(destBaseDir, files, fs, faults)
            == [AddFile(destBaseDir, files[0], fs, faults), AddFile(destBaseDir, files[1], fs, faults),
                AddFile(destBaseDir, files[2], fs, faults)]
  {
    var tail, last := files[1..], files[2..];
    assert tail[0] == files[1] && tail[1..] == last && last[0] == files[2] && last[1..] == [];
    assert AddFiles(destBaseDir, last, fs, faults) == [AddFile(destBaseDir, files[2], fs, faults)];
    assert AddFiles(destBaseDir, tail, fs, faults)
        == [AddFile(destBaseDir, files[1], fs, faults)] + AddFiles(destBaseDir, last, fs, faults);
  }

  /** Three successful outcomes in a row: all their entries, no error, three files compressed. */
  lemma LoopThree(a: Added, b: Added, c: Added)
    requires a.err.None? && b.err.None? && c.err.None?
    ensures Loop([a, b, c]) == Packed(a.entries + b.entries + c.entries, None, 3, a.written + b.written + c.written)
  {
    assert [a, b, c][1..] == [b, c] && [b, c][1..] == [c] && [c][1..] == [];
    assert Loop([c]) == Packed(c.entries, None, 1, c.written);
    assert Loop([b, c]) == Packed(b.entries + c.entries, None, 2, b.written + c.written);
    assert a.entries + (b.entries + c.entries) == a.entries + b.entries + c.entries;
  }

  /** The prefix used by the test is a plain name, and the relative paths of the records are plain. */
  lemma ExamplePlain()
    ensures PlainName("site") && PlainPath("file1") && PlainPath("dir1/file2") && PlainPath("symlink1")
  {
    PlainNamePath("file1");
    PlainNamePath("symlink1");
    PlainNamePath("file2");
    PlainPathCons("dir1", "file2");
    assert "dir1" + [Separator] + "file2" == "dir1/file2";
  }

  /** addFile on the first record: its header and the bytes of file1. */
  lemma ExampleFile1(prefix: string, base: string, fs: FileSystem, data1: seq<byte>)
    requires PlainName(prefix)
    requires SourcePath(ExampleRecords(base)[0]) in fs && fs[SourcePath(ExampleRecords(base)[0])] == Readable(data1)
    ensures AddFile(prefix, ExampleRecords(base)[0], fs, map[]) == Added([Entry(prefix + "/file1", "", Regular, data1)], |data1|, None)
  {
    PlainNamePath("file1");
    assert prefix + [Separator] + "file1" == prefix + "/file1";
    AddFilePlain(prefix, ExampleRecords(base)[0], fs, map[]);
  }

  /** addFile on the second record: its header and the bytes of dir1/file2. */
  lemma ExampleFile2(prefix: string, base: string, fs: FileSystem, data2: seq<byte>)
    requires PlainName(prefix)
    requires SourcePath(ExampleRecords(base)[1]) in fs && fs[SourcePath(ExampleRecords(base)[1])] == Readable(data2)
    ensures AddFile(prefix, ExampleRecords(base)[1], fs, map[]) == Added([Entry(prefix + "/dir1/file2", "", Regular, data2)], |data2|, None)
  {
    assert prefix + [Separator] + "dir1" + [Separator] + "file2" == prefix + "/dir1/file2";
    AddNested(prefix, base, "dir1", "file2", fs, data2);
  }

  /** addFile on a readable regular file one directory below the source root. */
  lemma AddNested(prefix: string, base: string, dir: string, name: string, fs: FileSystem, data: seq<byte>)
    requires PlainName(prefix) && PlainName(dir) && PlainName(name)
    requires var file := Record(base, dir + [Separator] + name, "", Some(FileInfo(name, Regular)), None);
             SourcePath(file) in fs && fs[SourcePath(file)] == Readable(data)
    ensures var file := Record(base, dir + [Separator] + name, "", Some(FileInfo(name, Regular)), None);
            AddFile(prefix, file, fs, map[])
            == Added([Entry(prefix + [Separator] + dir + [Separator] + name, "", Regular, data)], |data|, None)
  {
    var rel := dir + [Separator] + name;
    PlainNamePath(name);
    PlainPathCons(dir, name);
    assert prefix + [Separator] + rel == prefix + [Separator] + dir + [Separator] + name;
    AddFilePlain(prefix, Record(base, rel, "", Some(FileInfo(name, Regular)), None), fs, map[]);
  }

  /** addFile on the third record: a header carrying the link, no body. */
  lemma ExampleSymlink(prefix: string, base: string, fs: FileSystem)
    requires PlainName(prefix)
    ensures AddFile(prefix, ExampleRecords(base)[2], fs, map[]) == Added([Entry(prefix + "/symlink1", "file1", Symlink, [])], 0, None)
  {
    PlainNamePath("symlink1");
    assert prefix + [Separator] + "symlink1" == prefix + "/symlink1";
    AddFilePlain(prefix, ExampleRecords(base)[2], fs, map[]);
  }

  /**
   * The records exactly as package_test.go builds them: os.Stat follows
   * symlink1 to file1, so its metadata is that of a regular file.
   */
  function TestRecords(base: string): seq<Record>
  {
    [ ExampleRecords(base)[0], ExampleRecords(base)[1],
      Record(base, "symlink1", "file1", Some(FileInfo("symlink1", Regular)), None) ]
  }

  /**
   * On the test's records as written, the link name is dropped and symlink1
   * is archived as a regular file holding file1's bytes (what opening
   * base/symlink1 reads), so size counts file1 twice.
   */
  lemma PackTestAsWritten(prefix: string, base: string, fs: FileSystem, data1: seq<byte>, data2: seq<byte>)
    requires PlainName(prefix)
    requires SourcePath(TestRecords(base)[0]) in fs && fs[SourcePath(TestRecords(base)[0])] == Readable(data1)
    requires SourcePath(TestRecords(base)[1]) in fs && fs[SourcePath(TestRecords(base)[1])] == Readable(data2)
    requires SourcePath(TestRecords(base)[2]) in fs && fs[SourcePath(TestRecords(base)[2])] == Readable(data1)
    ensures Pack(prefix, TestRecords(base), fs, map[])
            == Packed([Entry(prefix + "/file1", "", Regular, data1),
                       Entry(prefix + "/dir1/file2", "", Regular, data2),
                       Entry(prefix + "/symlink1", "", Regular, data1)],
                      None, 3, |data1| + |data2| + |data1|)
  {
    var r0 := Added([Entry(prefix + "/file1", "", Regular, data1)], |data1|, None);
    var r1 := Added([Entry(prefix + "/dir1/file2", "", Regular, data2)], |data2|, None);
    var r2 := Added([Entry(prefix + "/symlink1", "", Regular, data1)], |data1|, None);
    ExampleFile1(prefix, base, fs, data1);
    ExampleFile2(prefix, base, fs, data2);
    FollowedLink(prefix, base, fs, data1);
    AddFilesThree(prefix, TestRecords(base), fs, map[]);
    LoopThree(r0, r1, r2);
    assert r0.entries + r1.entries + r2.entries
        == [r0.entries[0], r1.entries[0], r2.entries[0]];
  }

  /** addFile on symlink1 with the followed metadata: a regular entry with the target's bytes. */
  lemma FollowedLink(prefix: string, base: string, fs: FileSystem, data1: seq<byte>)
    requires PlainName(prefix)
    requires SourcePath(TestRecords(base)[2]) in fs && fs[SourcePath(TestRecords(base)[2])] == Readable(data1)
    ensures AddFile(prefix, TestRecords(base)[2], fs, map[]) == Added([Entry(prefix + "/symlink1", "", Regular, data1)], |data1|, None)
  {
    PlainNamePath("symlink1");
    assert prefix + [Separator] + "symlink1" == prefix + "/symlink1";
    AddFilePlain(prefix, TestRecords(base)[2], fs, map[]);
  }

  /**
   * buildPackage: the chain of writers is set up, every record is added in
   * order until the first error, and the tar writer, the gzip writer and the
   * destination are closed, in that order, on every return.
   */
  method BuildPackage(tarPrefix: string, writer: ArchiveSink, files: seq<Record>, fs: FileSystem)
    returns (err: Option<string>, compressed: nat, size: nat)
    modifies writer
    ensures var p := Pack(tarPrefix, files, fs, writer.headerFaults);
            && writer.entries == old(writer.entries) + p.entries
            && err == p.err
            && compressed == p.compressed
            && size == p.size
    ensures writer.closed == old(writer.closed) + [TarWriter, GzipWriter, Destination]
  {
    var destBaseDir := tarPrefix;
    err, compressed, size := AddAll(writer, destBaseDir, files, fs);
    writer.CloseChain();
  }

  /** The loop of buildPackage: addFile on each record until one fails. */
  method AddAll(writer: ArchiveSink, destBaseDir: string, files: seq<Record>, fs: FileSystem)
    returns (err: Option<string>, compressed: nat, size: nat)
    modifies writer`entries
    ensures var p := Pack(destBaseDir, files, fs, writer.headerFaults);
            && writer.entries == old(writer.entries) + p.entries
            && err == p.err
            && compressed == p.compressed
            && size == p.size
  {
    ghost var results := AddFiles(destBaseDir, files, fs, writer.headerFaults);
    compressed, size := 0, 0;
    err := None;
    var i := 0;
    while i < |files|
      invariant 0 <= i <= |files|
      invariant var p := Loop(results[..i]);
                && p.err.None?
                && writer.entries == old(writer.entries) + p.entries
                && compressed == p.compressed && size == p.size
    {
      ghost var p := Loop(results[..i]);
      var written, e := AddNext(writer, destBaseDir, files, i, fs, results);
      LoopSnoc(results, i);
      AppendAssoc(old(writer.entries), p.entries, results[i].entries);
      if e.Some? {
        LoopPrefixError(results, i + 1);
        return e, compressed, size;
      }
      size := size + written;
      compressed := compressed + 1;
      i := i + 1;
    }
    assert results[..i] == results;
  }

  /** The loop over the first i + 1 outcomes, from the loop over the first i. */
  lemma LoopSnoc(results: seq<Added>, i: nat)
    requires i < |results| && Loop(results[..i]).err.None?
    ensures var p, x := Loop(results[..i]), results[i];
            Loop(results[..i + 1])
            == if x.err.Some? then Packed(p.entries + x.entries, x.err, p.compressed, p.size)
               else Packed(p.entries + x.entries, None, p.compressed + 1, p.size + x.written)
  {
    assert results[..i + 1] == results[..i] + [results[i]];
    LoopExtend(results[..i], results[i]);
  }

  /** Once a prefix of the outcomes ends in an error, the rest is not looked at. */
  lemma LoopPrefixError(results: seq<Added>, k: nat)
    requires k <= |results| && Loop(results[..k]).err.Some?
    ensures Loop(results) == Loop(results[..k])
  {
    LoopStopsAtError(results[..k], results[k..]);
    assert results[..k] + results[k..] == results;
  }

  /** addFile on the record at index i. */
  method AddNext(tw: ArchiveSink, destBaseDir: string, files: seq<Record>, i: nat, fs: FileSystem, ghost results: seq<Added>)
    returns (written: nat, err: Option<string>)
    requires i < |files| && results == AddFiles(destBaseDir, files, fs, tw.headerFaults)
    modifies tw`entries
    ensures tw.entries == old(tw.entries) + results[i].entries && written == results[i].written && err == results[i].err
  {
    AddFilesAt(destBaseDir, files, fs, tw.headerFaults, i);
    written, err := AddFileTo(tw, destBaseDir, files[i], fs);
  }

  /** addFile against the sink: header, then for regular files the body. */
  method AddFileTo(tw: ArchiveSink, destBaseDir: string, file: Record, fs: FileSystem) returns (written: nat, err: Option<string>)
    modifies tw`entries
    ensures var a := AddFile(destBaseDir, file, fs, tw.headerFaults);
            tw.entries == old(tw.entries) + a.entries && written == a.written && err == a.err
  {
    ghost var before := tw.entries;
    var header := FileInfoHeader(file.stat, file.link);
    if header.Err? {
      return 0, Some(HeaderError + header.error);
    }
    var h := header.value.(name := EntryName(destBaseDir, file));
    var werr := tw.WriteHeader(h);
    if werr.Some? {
      return 0, Some(WriteHeaderError + werr.value);
    }
    if h.kind != Regular {
      return 0, None;
    }
    var f := Open(fs, SourcePath(file));
    if f.Err? {
      return 0, Some(OpenError + f.error);
    }
    var data := Copied(f.value);
    ghost var started := Entry(h.name, h.linkname, h.kind, []);
    assert tw.entries == before + [started];
    tw.Write(data);
    assert tw.entries == before + [started.(body := data)] by {
      assert (before + [started])[..|before|] == before;
      assert started.body + data == data;
    }
    written := |data|;
    if f.value.CopyFails? {
      err := Some(CopyError + f.value.msg);
    } else {
      err := None;
    }
  }
}
