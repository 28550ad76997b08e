/**
 * main.go: the earlier command-line packager. main checks its arguments,
 * scans the source directory and writes every scanned record, except the
 * root, into a tar archive under the fixed prefix "site", taking each
 * record's archive name from its path with the scanned root removed.
 */
module Legacy {
  import opened Wrappers
  import opened Paths
  import opened Archive
  import opened Scan

  /** The archive root name main passes to buildPackage. */
  const SitePrefix := "site"

  /** The relative name of a record: its path with every occurrence of src removed, then one leading '/'. */
  function RelativeName(path: string, src: string): string
  {
    TrimPrefix(RemoveAll(path, src), [Separator])
  }

  /**
   * For a path directly below src whose remainder does not contain src
   * again, the relative name is exactly that remainder.
   */
  lemma RelativeNameBelow(src: string, rel: string)
    requires src != []
    requires forall i :: !OccursAt([Separator] + rel, src, i)
    ensures RelativeName(src + [Separator] + rel, src) == rel
  {
    assert src + [Separator] + rel == src + ([Separator] + rel);
    RemoveAllLeading(src, [Separator] + rel);
    RemoveAllAbsent([Separator] + rel, src);
  }

  /**
   * A path that repeats the root's name further down loses that occurrence
   * too: below "/s", the path "/s/x/s/f" gets the relative name "x/f".
   */
  lemma RelativeNameRepeated()
    ensures RelativeName("/s/x/s/f", "/s") == "x/f"
  {
    var s, src := "/s/x/s/f", "/s";
    assert s == src + "/x/s/f";
    RemoveAllLeading(src, "/x/s/f");
    assert "/x/s/f"[..2][1] != src[1];
    assert "/x/s/f"[1..] == "x/s/f";
    assert "x/s/f"[..2][0] != src[0];
    assert "x/s/f"[1..] == "/s/f";
    assert "/s/f" == src + "/f";
    RemoveAllLeading(src, "/f");
    assert "/f"[..2][1] != src[1];
    assert "/f"[1..] == "f";
    assert RemoveAll("f", src) == "f";
    assert RemoveAll("/s/f", src) == "/f";
    assert RemoveAll("x/s/f", src) == "x/f";
    assert RemoveAll("/x/s/f", src) == "/x/f";
    assert RemoveAll(s, src) == "/x/f";
  }

  /** What the older addFile leaves in the archive and the error it returns. */
  datatype Added = Added(entries: seq<Entry>, err: Option<string>)

  /**
   * The older addFile: the root record (path equal to src) is skipped;
   * header, write and open errors are returned unchanged and only a copy
   * error is wrapped; the body is read from the record's own path.
   */
  function AddFile(tarDirectoryName: string, file: FileStat, fs: FileSystem, faults: map<string, string>): Added
  {
    var relativeName := RelativeName(file.path, file.src);
    if file.path == file.src then Added([], None)
    else
      match FileInfoHeader(file.stat, file.link)
      case Err(e) => Added([], Some(e))
      case Ok(h) =>
        var name := Join(tarDirectoryName, relativeName);
        if name in faults then Added([], Some(faults[name]))
        else
          var header := Entry(name, h.linkname, h.kind, []);
          if h.kind != Regular then Added([header], None)
          else
            match Open(fs, file.path)
            case Err(e) => Added([header], Some(e))
            case Ok(c) =>
              Added([header.(body := Copied(c))], if c.CopyFails? then Some(CopyError + c.msg) else None)
  }

  /**
   * The root record, and the walk's error record (whose src and path are
   * both empty), add nothing and report no error; any other record leaves
   * at most one entry, named Join(prefix, relative name), holding for a
   * regular file the bytes copied from the record's path and nothing else.
   */
  lemma AddFileEntry(tarDirectoryName: string, file: FileStat, fs: FileSystem, faults: map<string, string>)
    ensures var a := AddFile(tarDirectoryName, file, fs, faults);
            && (file.path == file.src ==> a == Added([], None))
            && |a.entries| <= 1
            && (a.err.None? && file.path != file.src ==> |a.entries| == 1)
    ensures var a := AddFile(tarDirectoryName, file, fs, faults);
            a.entries != [] ==>
              && file.stat.Some?
              && a.entries[0].name == Join(tarDirectoryName, RelativeName(file.path, file.src))
              && a.entries[0].kind == file.stat.value.kind
              && a.entries[0].linkname == (if file.stat.value.kind == Symlink then file.link else "")
              && (a.entries[0].kind != Regular ==> a.entries[0].body == [] && a.err.None?)
              && (a.entries[0].kind == Regular ==>
                    a.entries[0].body == (if Open(fs, file.path).Ok? then Copied(fs[file.path]) else []))
    ensures forall e :: AddFile(tarDirectoryName, ErrorRecord(e), fs, faults) == Added([], None)
  {
  }

  /**
   * Only a copy failure is wrapped: a header, write or open failure is
   * returned as the library reported it.
   */
  lemma AddFileErrors(tarDirectoryName: string, file: FileStat, fs: FileSystem, faults: map<string, string>)
    requires file.path != file.src
    ensures var a := AddFile(tarDirectoryName, file, fs, faults);
            var h := FileInfoHeader(file.stat, file.link);
            var name := Join(tarDirectoryName, RelativeName(file.path, file.src));
            && (h.Err? ==> a.err == Some(h.error))
            && (h.Ok? && name in faults ==> a.err == Some(faults[name]))
            && (h.Ok? && name !in faults && h.value.kind == Regular && Open(fs, file.path).Err? ==>
                  a.err == Some(Open(fs, file.path).error))
            && (h.Ok? && name !in faults && h.value.kind == Regular && Open(fs, file.path).Ok? ==>
                  a.err == if fs[file.path].CopyFails? then Some(CopyError + fs[file.path].msg) else None)
  {
  }

  /** What the older buildPackage leaves behind: entries and error. */
  datatype Built = Built(entries: seq<Entry>, err: Option<string>)

  /** The older addFile outcome of every record, in order. */
  function Outcomes(tarDirectoryName: string, files: seq<FileStat>, fs: FileSystem, faults: map<string, string>): (r: seq<Added>)
    ensures |r| == |files|
    decreases |files|
  {
    if files == [] then [] else [AddFile(tarDirectoryName, files[0], fs, faults)] + Outcomes(tarDirectoryName, files[1..], fs, faults)
  }

  /** The outcome at index i is the older addFile of the record at index i. */
  lemma {:induction false} OutcomesAt(tarDirectoryName: string, files: seq<FileStat>, fs: FileSystem, faults: map<string, string>, i: nat)
    requires i < |files|
    ensures Outcomes(tarDirectoryName, files, fs, faults)[i] == AddFile(tarDirectoryName, files[i], fs, faults)
    decreases i
  {
    if i > 0 {
      OutcomesAt(tarDirectoryName, files[1..], fs, faults, i - 1);
      assert files[1..][i - 1] == files[i];
    }
  }

  /** The outcomes of two runs of records, one after the other. */
  lemma {:induction false} OutcomesAppend(tarDirectoryName: string, files: seq<FileStat>, more: seq<FileStat>,
                                          fs: FileSystem, faults: map<string, string>)
    ensures Outcomes(tarDirectoryName, files + more, fs, faults)
            == Outcomes(tarDirectoryName, files, fs, faults) + Outcomes(tarDirectoryName, more, fs, faults)
    decreases |files|
  {
    if files == [] {
      assert files + more == more;
    } else {
      assert (files + more)[0] == files[0];
      assert (files + more)[1..] == files[1..] + more;
      OutcomesAppend(tarDirectoryName, files[1..], more, fs, faults);
    }
  }

  /** The loop of the older buildPackage over the outcomes: entries accumulate until the first error. */
  function Loop(results: seq<Added>): Built
    decreases |results|
  {
    if results == [] then Built([], None)
    else if results[0].err.Some? then Built(results[0].entries, results[0].err)
    else
      var rest := Loop(results[1..]);
      Built(results[0].entries + rest.entries, rest.err)
  }

  /** The older buildPackage over a sequence of records. */
  function Pack(tarDirectoryName: string, files: seq<FileStat>, fs: FileSystem, faults: map<string, string>): Built
  {
    Loop(Outcomes(tarDirectoryName, files, fs, faults))
  }

  /** Running the loop over two runs of outcomes: the second only matters if the first ended without error. */
  lemma {:induction false} LoopAppend(results: seq<Added>, more: seq<Added>)
    ensures var p, q := Loop(results), Loop(more);
            Loop(results + more) == if p.err.Some? then p else Built(p.entries + q.entries, q.err)
    decreases |results|
  {
    if results == [] {
      assert results + more == more;
    } else {
      assert (results + more)[0] == results[0];
      assert (results + more)[1..] == results[1..] + more;
      LoopAppend(results[1..], more);
      if results[0].err.None? {
        var p1, q := Loop(results[1..]), Loop(more);
        if p1.err.None? {
          AppendAssoc(results[0].entries, p1.entries, q.entries);
        }
      }
    }
  }

  /**
   * After the first error no later record is looked at; after records that
   * all went in, the later ones add their entries and decide the error.
   */
  lemma PackAppend(tarDirectoryName: string, files: seq<FileStat>, more: seq<FileStat>,
                   fs: FileSystem, faults: map<string, string>)
    ensures var p := Pack(tarDirectoryName, files, fs, faults);
            var q := Pack(tarDirectoryName, more, fs, faults);
            Pack(tarDirectoryName, files + more, fs, faults)
              == if p.err.Some? then p else Built(p.entries + q.entries, q.err)
  {
    OutcomesAppend(tarDirectoryName, files, more, fs, faults);
    LoopAppend(Outcomes(tarDirectoryName, files, fs, faults), Outcomes(tarDirectoryName, more, fs, faults));
  }

  /**
   * The walk's error record at the end of a successful run is silently
   * dropped: a failed walk still ends with no error.
   */
  lemma WalkErrorIgnored(tarDirectoryName: string, files: seq<FileStat>, e: string,
                         fs: FileSystem, faults: map<string, string>)
    requires Pack(tarDirectoryName, files, fs, faults).err.None?
    ensures Pack(tarDirectoryName, files + [ErrorRecord(e)], fs, faults) == Pack(tarDirectoryName, files, fs, faults)
  {
    PackAppend(tarDirectoryName, files, [ErrorRecord(e)], fs, faults);
    AddFileEntry(tarDirectoryName, ErrorRecord(e), fs, faults);
    var rs := Outcomes(tarDirectoryName, [ErrorRecord(e)], fs, faults);
    assert [ErrorRecord(e)][1..] == [];
    assert rs == [Added([], None)];
    assert rs[1..] == [];
    assert Loop(rs) == Built([], None);
    assert Pack(tarDirectoryName, files, fs, faults).entries + [] == Pack(tarDirectoryName, files, fs, faults).entries;
  }

  /**
   * A record directly below the scanned root, with a plain relative path
   * that does not repeat the root, is archived as prefix/relative path.
   */
  lemma EntryNameBelow(tarDirectoryName: string, src: string, rel: string, file: FileStat,
                       fs: FileSystem, faults: map<string, string>)
    requires PlainName(tarDirectoryName) && PlainPath(rel) && src != []
    requires forall i :: !OccursAt([Separator] + rel, src, i)
    requires file.src == src && file.path == src + [Separator] + rel
    ensures var a := AddFile(tarDirectoryName, file, fs, faults);
            a.entries != [] ==> a.entries[0].name == tarDirectoryName + [Separator] + rel
  {
    RelativeNameBelow(src, rel);
    JoinPlain(tarDirectoryName, rel);
    AddFileEntry(tarDirectoryName, file, fs, faults);
  }

  /**
   * The older buildPackage: on a failed os.Create nothing is written or
   * closed; otherwise every record is added in order until the first error,
   * and the tar writer, the gzip writer and the file are closed in that
   * order on every return.
   */
  method BuildPackage(tarDirectoryName: string, createErr: Option<string>, writer: ArchiveSink,
                      files: seq<FileStat>, fs: FileSystem) returns (err: Option<string>)
    modifies writer
    ensures createErr.Some? ==> err == createErr && writer.entries == old(writer.entries) && writer.closed == old(writer.closed)
    ensures createErr.None? ==>
              var p := Pack(tarDirectoryName, files, fs, writer.headerFaults);
              && writer.entries == old(writer.entries) + p.entries
              && err == p.err
              && writer.closed == old(writer.closed) + [TarWriter, GzipWriter, Destination]
  {
    if createErr.Some? {
      return createErr;
    }
    err := AddAll(writer, tarDirectoryName, files, fs);
    writer.CloseChain();
  }

  /** The loop of the older buildPackage. */
  method AddAll(writer: ArchiveSink, tarDirectoryName: string, files: seq<FileStat>, fs: FileSystem)
    returns (err: Option<string>)
    modifies writer`entries
    ensures var p := Pack(tarDirectoryName, files, fs, writer.headerFaults);
            writer.entries == old(writer.entries) + p.entries && err == p.err
  {
    ghost var results := Outcomes(tarDirectoryName, files, fs, writer.headerFaults);
    err := None;
    var i := 0;
    while i < |files|
      invariant 0 <= i <= |files|
      invariant var p := Loop(results[..i]);
                p.err.None? && writer.entries == old(writer.entries) + p.entries
    {
      ghost var p := Loop(results[..i]);
      var e := AddNext(writer, tarDirectoryName, files, i, fs, results);
      LoopSnoc(results, i);
      AppendAssoc(old(writer.entries), p.entries, results[i].entries);
      if e.Some? {
        LoopAppend(results[..i + 1], results[i + 1..]);
        assert results[..i + 1] + results[i + 1..] == results;
        return e;
      }
      i := i + 1;
    }
    assert results[..i] == results;
  }

  /** The loop over the first i + 1 outcomes, from the loop over the first i. */
  lemma LoopSnoc(results: seq<Added>, i: nat)
    requires i < |results|
    ensures var p := Loop(results[..i]);
            Loop(results[..i + 1]) == if p.err.Some? then p else Built(p.entries + results[i].entries, results[i].err)
  {
    var x := results[i];
    assert results[..i + 1] == results[..i] + [x];
    LoopAppend(results[..i], [x]);
    assert [x][1..] == [];
    assert x.entries + [] == x.entries;
  }

  /** The older addFile on the record at index i. */
  method AddNext(tw: ArchiveSink, tarDirectoryName: string, files: seq<FileStat>, i: nat, fs: FileSystem,
                 ghost results: seq<Added>)
    returns (err: Option<string>)
    requires i < |files| && results == Outcomes(tarDirectoryName, files, fs, tw.headerFaults)
    modifies tw`entries
    ensures tw.entries == old(tw.entries) + results[i].entries && err == results[i].err
  {
    OutcomesAt(tarDirectoryName, files, fs, tw.headerFaults, i);
    err := AddFileTo(tw, tarDirectoryName, files[i], fs);
  }

  /** The older addFile against the sink. */
  method AddFileTo(tw: ArchiveSink, tarDirectoryName: string, file: FileStat, fs: FileSystem) returns (err: Option<string>)
    modifies tw`entries
    ensures var a := AddFile(tarDirectoryName, file, fs, tw.headerFaults);
            tw.entries == old(tw.entries) + a.entries && err == a.err
  {
    ghost var before := tw.entries;
    var relativeName := RelativeName(file.path, file.src);
    if file.path == file.src {
      return None;
    }
    var header := FileInfoHeader(file.stat, file.link);
    if header.Err? {
      return Some(header.error);
    }
    var h := header.value.(name := Join(tarDirectoryName, relativeName));
    var werr := tw.WriteHeader(h);
    if werr.Some? {
      return werr;
    }
    if h.kind != Regular {
      return None;
    }
    var f := Open(fs, file.path);
    if f.Err? {
      return Some(f.error);
    }
    var data := Copied(f.value);
    ghost var started := Entry(h.name, h.linkname, h.kind, []);
    assert tw.entries == before + [started];
    tw.Write(data);
    assert tw.entries == before + [started.(body := data)] by {
      assert (before + [started])[..|before|] == before;
      assert started.body + data == data;
    }
    if f.value.CopyFails? {
      err := Some(CopyError + f.value.msg);
    } else {
      err := None;
    }
  }

  /** The usage line printed for a wrong argument count. */
  function Usage(program: string): string
  {
    "usage: " + program + " path/to/src/directory destination.tar.gz\n"
  }

  /**
   * main, given os.Args, what filepath.Abs returns for the source argument,
   * what the scan sees, whether os.Create fails, the archive sink and the
   * file contents: exit status 1 with the usage line for a wrong argument
   * count, status 1 with the error for a failing step, status 0 otherwise.
   * Nothing is written to or closed on the archive before os.Create has
   * succeeded; after that the archive holds what buildPackage wrote.
   */
  method Run(args: seq<string>, absSrc: Result<string>, st: StatResult, visits: seq<Visit>,
             createErr: Option<string>, writer: ArchiveSink, fs: FileSystem) returns (status: int, output: string)
    requires |args| >= 1
    modifies writer
    ensures |args| != 3 ==> status == 1 && output == Usage(args[0])
    ensures |args| == 3 && absSrc.Err? ==> status == 1 && output == absSrc.error + "\n"
    ensures |args| == 3 && absSrc.Ok? && Precheck(absSrc.value, st).Some? ==>
              status == 1 && output == Precheck(absSrc.value, st).value + "\n"
    ensures status == 0 <==>
              && |args| == 3 && absSrc.Ok? && Precheck(absSrc.value, st).None? && createErr.None?
              && Pack(SitePrefix, Emitted(absSrc.value, visits), fs, writer.headerFaults).err.None?
    ensures status == 0 ==> output == ""
    ensures |args| != 3 || absSrc.Err? || Precheck(absSrc.value, st).Some? || createErr.Some? ==>
              writer.entries == old(writer.entries) && writer.closed == old(writer.closed)
    ensures |args| == 3 && absSrc.Ok? && Precheck(absSrc.value, st).None? && createErr.Some? ==>
              status == 1 && output == createErr.value + "\n"
    ensures |args| == 3 && absSrc.Ok? && Precheck(absSrc.value, st).None? && createErr.None? ==>
              var p := Pack(SitePrefix, Emitted(absSrc.value, visits), fs, writer.headerFaults);
              && writer.entries == old(writer.entries) + p.entries
              && writer.closed == old(writer.closed) + [TarWriter, GzipWriter, Destination]
              && (p.err.Some? ==> status == 1 && output == p.err.value + "\n")
  {
    if |args| != 3 {
      return 1, Usage(args[0]);
    }
    if absSrc.Err? {
      return 1, absSrc.error + "\n";
    }
    var basePath := absSrc.value;
    var files, scanErr := ScanDirectory(basePath, st, visits);
    if scanErr.Some? {
      return 1, scanErr.value + "\n";
    }
    var err := BuildPackage(SitePrefix, createErr, writer, files.sent, fs);
    if err.Some? {
      return 1, err.value + "\n";
    }
    return 0, "";
  }
}
