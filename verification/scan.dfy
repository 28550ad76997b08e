/**
 * files.go (and its copy in main.go): scanDirectory checks that the source
 * path is an existing directory, then walks it and sends one record per
 * visited entry on a channel, followed by one error record if the walk
 * stopped on an error, and closes the channel.
 */
module Scan {
  import opened Wrappers
  import opened Archive

  /** A record sent by the scan: the scanned root, the visited path, its link target, metadata and error. */
  datatype FileStat = FileStat(src: string, path: string, link: string, stat: Option<FileInfo>, err: Option<string>)

  /** What os.Stat says about the root path. */
  datatype StatResult = NotExist | StatFailed(msg: string) | Found(info: FileInfo)

  /** The messages of the two precondition failures. */
  function MissingError(absPath: string): string
  {
    "path '" + absPath + "' doesn't exist"
  }

  function NotDirectoryError(absPath: string): string
  {
    absPath + " is not a directory"
  }

  /**
   * The checks made before the walk starts: a missing path, a failing
   * stat and a path that is not a directory are each reported with their
   * own error; only an existing directory passes.
   */
  function Precheck(absPath: string, st: StatResult): (r: Option<string>)
    ensures r.None? <==> st.Found? && st.info.kind == Directory
    ensures st.NotExist? ==> r == Some(MissingError(absPath))
    ensures st.StatFailed? ==> r == Some(st.msg)
    ensures st.Found? && st.info.kind != Directory ==> r == Some(NotDirectoryError(absPath))
  {
    match st
    case NotExist => Some(MissingError(absPath))
    case StatFailed(msg) => Some(msg)
    case Found(info) => if info.kind != Directory then Some(NotDirectoryError(absPath)) else None
  }

  /**
   * One call of the walk callback: the visited path, its Lstat metadata, the
   * error the walk passes in, and what os.Readlink would return for it.
   */
  datatype Visit = Visit(path: string, info: FileInfo, err: Option<string>, readlink: Result<string>)

  /**
   * The walk callback: a visit error, or a failing Readlink on a symbolic
   * link, stops the walk with that error; otherwise the record for the
   * visited entry is sent, carrying the link target only for a symbolic link.
   */
  function Callback(absPath: string, v: Visit): (r: Result<FileStat>)
    ensures r.Ok? <==> v.err.None? && (v.info.kind == Symlink ==> v.readlink.Ok?)
    ensures r.Err? ==> r.error == if v.err.Some? then v.err.value else v.readlink.error
    ensures r.Ok? ==> && r.value.src == absPath && r.value.path == v.path
                      && r.value.stat == Some(v.info) && r.value.err.None?
    ensures r.Ok? ==> r.value.link == if v.info.kind == Symlink then v.readlink.value else ""
  {
    if v.err.Some? then Err(v.err.value)
    else if v.info.kind == Symlink then
      match v.readlink
      case Err(e) => Err(e)
      case Ok(target) => Ok(FileStat(absPath, v.path, target, Some(v.info), None))
    else Ok(FileStat(absPath, v.path, "", Some(v.info), None))
  }

  /** The record sent after the walk when it ended with an error: only err is set. */
  function ErrorRecord(e: string): FileStat
  {
    FileStat("", "", "", None, Some(e))
  }

  /**
   * Everything the scan sends for a sequence of visits: the record of each
   * visit until the first callback error, then one error record.
   */
  function Emitted(absPath: string, visits: seq<Visit>): seq<FileStat>
    decreases |visits|
  {
    if visits == [] then []
    else
      match Callback(absPath, visits[0])
      case Err(e) => [ErrorRecord(e)]
      case Ok(rec) => [rec] + Emitted(absPath, visits[1..])
  }

  /** The unbuffered channel, seen through what was sent on it and how often it was closed. */
  class Channel {
    var sent: seq<FileStat>
    var closeCount: nat

    constructor ()
      ensures sent == [] && closeCount == 0
    {
      sent := [];
      closeCount := 0;
    }

    method Send(rec: FileStat)
      modifies this`sent
      ensures sent == old(sent) + [rec]
    {
      sent := sent + [rec];
    }

    method Close()
      modifies this`closeCount
      ensures closeCount == old(closeCount) + 1
    {
      closeCount := closeCount + 1;
    }
  }

  /**
   * scanDirectory: on a failed check the error is returned and the channel
   * is neither written nor closed; otherwise the walk's records are sent in
   * visit order and the channel is closed once, after the walk.
   */
  method ScanDirectory(absPath: string, st: StatResult, visits: seq<Visit>) returns (out: Channel, err: Option<string>)
    ensures fresh(out)
    ensures err == Precheck(absPath, st)
    ensures err.Some? ==> out.sent == [] && out.closeCount == 0
    ensures err.None? ==> out.sent == Emitted(absPath, visits) && out.closeCount == 1
  {
    out := new Channel();
    err := Precheck(absPath, st);
    if err.Some? {
      return;
    }
    var i := 0;
    while i < |visits|
      invariant 0 <= i <= |visits|
      invariant out.closeCount == 0
      invariant out.sent + Emitted(absPath, visits[i..]) == Emitted(absPath, visits)
    {
      EmittedFrom(absPath, visits, i);
      var r := Callback(absPath, visits[i]);
      if r.Err? {
        out.Send(ErrorRecord(r.error));
        break;
      }
      ghost var sent := out.sent;
      out.Send(r.value);
      Prepend(sent, r.value, Emitted(absPath, visits[i + 1..]));
      i := i + 1;
    }
    if i == |visits| {
      assert out.sent == Emitted(absPath, visits);
    }
    out.Close();
  }

  /** What is sent from the visit at index i on. */
  lemma EmittedFrom(absPath: string, visits: seq<Visit>, i: nat)
    requires i < |visits|
    ensures var r := Callback(absPath, visits[i]);
            Emitted(absPath, visits[i..])
            == if r.Err? then [ErrorRecord(r.error)] else [r.value] + Emitted(absPath, visits[i + 1..])
  {
    assert visits[i..][0] == visits[i] && visits[i..][1..] == visits[i + 1..];
  }

  lemma Prepend(a: seq<FileStat>, x: FileStat, b: seq<FileStat>)
    ensures (a + [x]) + b == a + ([x] + b)
  {
  }

  /**
   * When no visit fails, one record is sent per visit, in order, each
   * carrying the scanned root as src, the visited path, and no error.
   */
  lemma {:induction false} EmittedAllOk(absPath: string, visits: seq<Visit>)
    requires forall i :: 0 <= i < |visits| ==> Callback(absPath, visits[i]).Ok?
    ensures var out := Emitted(absPath, visits);
            && |out| == |visits|
            && forall i :: 0 <= i < |visits| ==>
                 && out[i] == Callback(absPath, visits[i]).value
                 && out[i].src == absPath && out[i].path == visits[i].path && out[i].err.None?
    decreases |visits|
  {
    if visits != [] {
      var rest := visits[1..];
      assert forall i :: 0 <= i < |rest| ==> rest[i] == visits[i + 1];
      EmittedAllOk(absPath, rest);
    }
  }

  /**
   * When the visit at index k is the first one whose callback fails, the
   * records of the k visits before it are sent, then one error record
   * carrying that failure, and no later visit is looked at.
   */
  lemma {:induction false} EmittedFirstFailure(absPath: string, visits: seq<Visit>, k: nat)
    requires k < |visits|
    requires forall i :: 0 <= i < k ==> Callback(absPath, visits[i]).Ok?
    requires Callback(absPath, visits[k]).Err?
    ensures Emitted(absPath, visits) == Emitted(absPath, visits[..k]) + [ErrorRecord(Callback(absPath, visits[k]).error)]
    ensures |Emitted(absPath, visits)| == k + 1
    decreases k
  {
    if k == 0 {
      assert visits[..0] == [];
    } else {
      var rest := visits[1..];
      assert forall i :: 0 <= i < k - 1 ==> rest[i] == visits[i + 1];
      assert rest[k - 1] == visits[k];
      EmittedFirstFailure(absPath, rest, k - 1);
      assert visits[..k][0] == visits[0];
      assert visits[..k][1..] == rest[..k - 1];
      EmittedAllOk(absPath, visits[..k]);
    }
  }

  /**
   * Whatever the visits, every record but the last is a data record from
   * the scanned root; an error record can only be the last one and carries
   * only its error; a link target is only ever recorded for a symbolic link.
   */
  lemma {:induction false} EmittedShape(absPath: string, visits: seq<Visit>)
    ensures var out := Emitted(absPath, visits);
            && |out| <= |visits|
            && (forall i :: 0 <= i < |out| && out[i].err.None? ==>
                  out[i].src == absPath && out[i].stat.Some?)
            && (forall i :: 0 <= i < |out| && out[i].err.Some? ==>
                  i == |out| - 1 && out[i] == ErrorRecord(out[i].err.value))
            && (forall i :: 0 <= i < |out| && out[i].link != "" ==>
                  out[i].stat.Some? && out[i].stat.value.kind == Symlink)
    decreases |visits|
  {
    if visits != [] {
      EmittedShape(absPath, visits[1..]);
      var out := Emitted(absPath, visits);
      var r := Callback(absPath, visits[0]);
      if r.Ok? {
        var tail := Emitted(absPath, visits[1..]);
        assert out == [r.value] + tail;
        assert forall i :: 1 <= i < |out| ==> out[i] == tail[i - 1];
      }
    }
  }

  /**
   * The fixture directory of files_test.go: six entries, the root included,
   * none failing, give six records.
   */
  lemma ScanFixture(absPath: string, visits: seq<Visit>)
    requires |visits| == 6
    requires forall i :: 0 <= i < 6 ==> visits[i].err.None? && visits[i].readlink.Ok?
    ensures |Emitted(absPath, visits)| == 6
  {
    assert forall i :: 0 <= i < |visits| ==> Callback(absPath, visits[i]).Ok?;
    EmittedAllOk(absPath, visits);
  }

  /** The other two cases of files_test.go: a missing path and a regular file are refused before the walk. */
  lemma PrecheckFixture(absPath: string, file: FileInfo)
    requires file.kind == Regular
    ensures Precheck("not-exist", NotExist) == Some("path 'not-exist' doesn't exist")
    ensures Precheck(absPath, Found(file)) == Some(absPath + " is not a directory")
  {
    assert MissingError("not-exist") == "path 'not-exist' doesn't exist";
  }
}
