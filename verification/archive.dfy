/**
 * What the packaging code sees of the file system and of the tar/gzip writer
 * chain: file metadata, tar.FileInfoHeader, file contents by path, and an
 * archive sink that records the entries written and the writers closed.
 */
module Archive {
  import opened Wrappers

  newtype byte = x: int | 0 <= x < 256

  /** The type bits of an os.FileMode. */
  datatype Kind = Regular | Directory | Symlink | NamedPipe | BlockDevice | CharDevice | Socket

  /** The part of an os.FileInfo that the packaging code reads. */
  datatype FileInfo = FileInfo(name: string, kind: Kind)

  /** The part of a tar.Header that the packaging code sets or reads. */
  datatype Header = Header(name: string, kind: Kind, linkname: string)

  const NilInfoError := "archive/tar: FileInfo is nil"

  /**
   * tar.FileInfoHeader(fi, link): a nil FileInfo and a socket are refused;
   * a directory's name gets a trailing '/'; only a symlink keeps the link.
   */
  function FileInfoHeader(fi: Option<FileInfo>, link: string): (r: Result<Header>)
    ensures r.Ok? <==> fi.Some? && fi.value.kind != Socket
    ensures r.Ok? ==> r.value.kind == fi.value.kind
    ensures r.Ok? ==> r.value.linkname == (if fi.value.kind == Symlink then link else "")
  {
    match fi
    case None => Err(NilInfoError)
    case Some(info) =>
      if info.kind == Socket then Err("archive/tar: sockets not supported")
      else
        var name := if info.kind == Directory then info.name + "/" else info.name;
        Ok(Header(name, info.kind, if info.kind == Symlink then link else ""))
  }

  /** One entry of the tar stream: its header fields and the body that follows it. */
  datatype Entry = Entry(name: string, linkname: string, kind: Kind, body: seq<byte>)

  /** What opening and reading a path gives. */
  datatype Contents =
    | Readable(data: seq<byte>)
    | OpenFails(msg: string)
    | CopyFails(partial: seq<byte>, msg: string)

  /** The file system as a map from path to what reading that path gives. */
  type FileSystem = map<string, Contents>

  /** os.Open(p): an error for a path that does not exist or cannot be opened. */
  function Open(fs: FileSystem, p: string): (r: Result<Contents>)
    ensures r.Ok? <==> p in fs && !fs[p].OpenFails?
    ensures r.Ok? ==> r.value == fs[p]
  {
    if p !in fs then Err("open " + p + ": no such file or directory")
    else if fs[p].OpenFails? then Err(fs[p].msg)
    else Ok(fs[p])
  }

  /** The bytes io.Copy moves out of an opened file before it ends or fails. */
  function Copied(c: Contents): seq<byte>
  {
    match c
    case Readable(data) => data
    case CopyFails(partial, _) => partial
    case OpenFails(_) => []
  }

  /** The wrapping io.Copy failures get in both versions of addFile. */
  const CopyError := "can't copy file data into tarball: "

  /** Appending to an archive is associative. */
  lemma AppendAssoc(a: seq<Entry>, b: seq<Entry>, c: seq<Entry>)
    ensures (a + b) + c == a + (b + c)
  {
  }

  /** The three writers of the output chain, innermost last. */
  datatype Layer = TarWriter | GzipWriter | Destination

  /**
   * The tar writer over the gzip writer over the destination, seen through
   * the entries it has received and the order in which its layers were
   * closed. A header write fails, with the given message, for the names in
   * headerFaults (a failure of the underlying writers).
   */
  class ArchiveSink {
    var entries: seq<Entry>
    var closed: seq<Layer>
    const headerFaults: map<string, string>

    constructor (headerFaults: map<string, string>)
      ensures entries == [] && closed == [] && this.headerFaults == headerFaults
    {
      entries := [];
      closed := [];
      this.headerFaults := headerFaults;
    }

    /** tar.Writer.WriteHeader: starts a new entry with an empty body. */
    method WriteHeader(h: Header) returns (err: Option<string>)
      modifies this`entries
      ensures err == (if h.name in headerFaults then Some(headerFaults[h.name]) else None)
      ensures entries == if err.Some? then old(entries) else old(entries) + [Entry(h.name, h.linkname, h.kind, [])]
    {
      if h.name in headerFaults {
        err := Some(headerFaults[h.name]);
      } else {
        err := None;
        entries := entries + [Entry(h.name, h.linkname, h.kind, [])];
      }
    }

    /** tar.Writer.Write: appends bytes to the body of the current entry. */
    method Write(data: seq<byte>)
      requires entries != []
      modifies this`entries
      ensures var last := old(entries)[|old(entries)| - 1];
              entries == old(entries)[..|old(entries)| - 1] + [last.(body := last.body + data)]
    {
      var last := entries[|entries| - 1];
      entries := entries[..|entries| - 1] + [last.(body := last.body + data)];
    }

    /** Close of one layer of the chain. */
    method Close(layer: Layer)
      modifies this`closed
      ensures closed == old(closed) + [layer]
    {
      closed := closed + [layer];
    }

    /** The deferred closes of the chain run last-in first-out: tar, gzip, destination. */
    method CloseChain()
      modifies this`closed
      ensures closed == old(closed) + [TarWriter, GzipWriter, Destination]
    {
      Close(TarWriter);
      Close(GzipWriter);
      Close(Destination);
    }
  }
}
