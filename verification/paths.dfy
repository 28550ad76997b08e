/**
 * The string and path functions of Go's standard library that the packaging
 * and configuration code calls (strings.Split, strings.Join, strings.Trim,
 * strings.TrimPrefix, strings.Replace with an empty replacement,
 * filepath.Clean, filepath.Join, path.Join and filepath.Base), for the Unix
 * separator '/'.
 */
module Paths {

  const Separator: char := '/'

  /** strings.Split(s, string(sep)): the pieces of s between the occurrences of sep. */
  function Split(s: string, sep: char): (parts: seq<string>)
    ensures |parts| >= 1
    ensures forall i :: 0 <= i < |parts| ==> sep !in parts[i]
    decreases |s|
  {
    if s == [] then [""]
    else
      var rest := Split(s[1..], sep);
      if s[0] == sep then [""] + rest
      else [[s[0]] + rest[0]] + rest[1..]
  }

  /** strings.Join(parts, string(sep)). */
  function JoinWith(parts: seq<string>, sep: char): string
    decreases |parts|
  {
    if parts == [] then ""
    else if |parts| == 1 then parts[0]
    else parts[0] + [sep] + JoinWith(parts[1..], sep)
  }

  /** Joining the pieces of a split gives back the string. */
  lemma {:induction false} JoinSplit(s: string, sep: char)
    ensures JoinWith(Split(s, sep), sep) == s
    decreases |s|
  {
    if s != [] {
      var rest := Split(s[1..], sep);
      JoinSplit(s[1..], sep);
      if s[0] == sep {
        JoinEmptyHead(rest, sep);
      } else {
        JoinExtendHead(s[0], rest, sep);
      }
      assert s == [s[0]] + s[1..];
    }
  }

  /** An empty first piece puts a separator in front of the join of the others. */
  lemma JoinEmptyHead(rest: seq<string>, sep: char)
    requires rest != []
    ensures JoinWith([""] + rest, sep) == [sep] + JoinWith(rest, sep)
  {
    assert ([""] + rest)[1..] == rest;
  }

  /** A character put in front of the first piece is put in front of the join. */
  lemma JoinExtendHead(c: char, rest: seq<string>, sep: char)
    requires rest != []
    ensures JoinWith([[c] + rest[0]] + rest[1..], sep) == [c] + JoinWith(rest, sep)
  {
    var parts := [[c] + rest[0]] + rest[1..];
    assert parts[1..] == rest[1..];
  }

  /** A string without the separator splits into itself alone. */
  lemma {:induction false} SplitNoSep(a: string, sep: char)
    requires sep !in a
    ensures Split(a, sep) == [a]
    decreases |a|
  {
    if a != [] {
      SplitNoSep(a[1..], sep);
      assert [a[0]] + a[1..] == a;
    }
  }

  /** The piece before the first separator comes off first. */
  lemma {:induction false} SplitAfter(a: string, b: string, sep: char)
    requires sep !in a
    ensures Split(a + [sep] + b, sep) == [a] + Split(b, sep)
    decreases |a|
  {
    var s := a + [sep] + b;
    if a == [] {
      assert s[1..] == b;
    } else {
      assert s[1..] == a[1..] + [sep] + b;
      SplitAfter(a[1..], b, sep);
      assert [a[0]] + a[1..] == a;
    }
  }

  /** Splitting a join of separator-free pieces gives back the pieces. */
  lemma {:induction false} SplitJoin(parts: seq<string>, sep: char)
    requires |parts| >= 1
    requires forall i :: 0 <= i < |parts| ==> sep !in parts[i]
    ensures Split(JoinWith(parts, sep), sep) == parts
    decreases |parts|
  {
    if |parts| == 1 {
      SplitNoSep(parts[0], sep);
    } else {
      SplitJoin(parts[1..], sep);
      SplitAfter(parts[0], JoinWith(parts[1..], sep), sep);
      assert [parts[0]] + parts[1..] == parts;
    }
  }

  /** The join of at least two pieces ends with a separator and the last piece. */
  lemma {:induction false} JoinWithLast(parts: seq<string>, sep: char)
    requires |parts| >= 2
    ensures JoinWith(parts, sep) == JoinWith(parts[..|parts| - 1], sep) + [sep] + parts[|parts| - 1]
    decreases |parts|
  {
    var n := |parts|;
    if n > 2 {
      JoinWithLast(parts[1..], sep);
      assert parts[1..][..n - 2] == parts[..n - 1][1..];
      assert parts[1..][n - 2] == parts[n - 1];
    } else {
      assert parts[..1] == [parts[0]];
    }
  }

  /** strings.TrimLeft(s, string(c)): s without its leading run of c. */
  function TrimLeft(s: string, c: char): (r: string)
    ensures |r| <= |s| && r == s[|s| - |r|..]
    ensures r == [] || r[0] != c
    ensures forall i :: 0 <= i < |s| - |r| ==> s[i] == c
    decreases |s|
  {
    if s != [] && s[0] == c then TrimLeft(s[1..], c) else s
  }

  /** strings.TrimRight(s, string(c)): s without its trailing run of c. */
  function TrimRight(s: string, c: char): (r: string)
    ensures |r| <= |s| && r == s[..|r|]
    ensures r == [] || r[|r| - 1] != c
    ensures forall i :: |r| <= i < |s| ==> s[i] == c
    decreases |s|
  {
    if s != [] && s[|s| - 1] == c then TrimRight(s[..|s| - 1], c) else s
  }

  /** strings.Trim(s, string(c)). */
  function Trim(s: string, c: char): string
  {
    TrimRight(TrimLeft(s, c), c)
  }

  /** One leading and at most one trailing c around a string that neither starts nor ends with c are trimmed away. */
  lemma TrimEnclosed(x: string, c: char)
    requires x != [] && x[0] != c && x[|x| - 1] != c
    ensures Trim([c] + x, c) == x
    ensures Trim([c] + x + [c], c) == x
  {
    assert ([c] + x)[1..] == x;
    assert ([c] + x + [c])[1..] == x + [c];
    assert (x + [c])[..|x|] == x;
  }

  /** A join of plain elements neither starts nor ends with the separator. */
  lemma JoinPlainEnds(parts: seq<string>)
    requires |parts| >= 1
    requires forall i :: 0 <= i < |parts| ==> PlainName(parts[i])
    ensures var s, first, last := JoinWith(parts, Separator), parts[0], parts[|parts| - 1];
            && first != [] && last != [] && s != []
            && s[0] == first[0] && s[|s| - 1] == last[|last| - 1]
  {
    var s := JoinWith(parts, Separator);
    assert PlainName(parts[0]) && PlainName(parts[|parts| - 1]);
    if |parts| >= 2 {
      JoinWithLast(parts, Separator);
      assert s == parts[0] + [Separator] + JoinWith(parts[1..], Separator);
    }
  }

  /** strings.TrimPrefix(s, p). */
  function TrimPrefix(s: string, p: string): (r: string)
    ensures p <= s ==> s == p + r
    ensures !(p <= s) ==> r == s
  {
    if p <= s then s[|p|..] else s
  }

  /** sub occurs in s starting at index i. */
  predicate OccursAt(s: string, sub: string, i: int)
  {
    0 <= i && i + |sub| <= |s| && s[i..i + |sub|] == sub
  }

  /**
   * strings.Replace(s, sub, "", -1): every non-overlapping occurrence of sub,
   * found from left to right, removed. An empty sub leaves s unchanged.
   */
  function RemoveAll(s: string, sub: string): (r: string)
    ensures |r| <= |s|
    decreases |s|
  {
    if sub == [] || |s| < |sub| then s
    else if s[..|sub|] == sub then RemoveAll(s[|sub|..], sub)
    else [s[0]] + RemoveAll(s[1..], sub)
  }

  /** A string in which sub never occurs is left as it is. */
  lemma {:induction false} RemoveAllAbsent(s: string, sub: string)
    requires sub != []
    requires forall i :: !OccursAt(s, sub, i)
    ensures RemoveAll(s, sub) == s
    decreases |s|
  {
    if |s| >= |sub| {
      assert !OccursAt(s, sub, 0);
      assert s[..|sub|] == s[0..0 + |sub|];
      forall j
        ensures !OccursAt(s[1..], sub, j)
      {
        if OccursAt(s[1..], sub, j) {
          assert s[1..][j..j + |sub|] == s[j + 1..j + 1 + |sub|];
          assert OccursAt(s, sub, j + 1);
        }
      }
      RemoveAllAbsent(s[1..], sub);
      assert [s[0]] + s[1..] == s;
    }
  }

  /** A leading occurrence is removed. */
  lemma RemoveAllLeading(sub: string, t: string)
    requires sub != []
    ensures RemoveAll(sub + t, sub) == RemoveAll(t, sub)
  {
    var s := sub + t;
    assert s[..|sub|] == sub;
    assert s[|sub|..] == t;
  }

  /** An element of a path that is neither empty, ".", ".." nor contains the separator. */
  predicate PlainName(seg: string)
  {
    seg != "" && seg != "." && seg != ".." && Separator !in seg
  }

  /** A relative path made of plain elements only: "file1", "dir1/file2". */
  predicate PlainPath(p: string)
  {
    forall seg <- Split(p, Separator) :: PlainName(seg)
  }

  /** A single plain element is a plain path. */
  lemma PlainNamePath(name: string)
    requires PlainName(name)
    ensures PlainPath(name)
  {
    SplitNoSep(name, Separator);
  }

  /** A plain element followed by the separator and a plain path is a plain path. */
  lemma PlainPathCons(name: string, p: string)
    requires PlainName(name) && PlainPath(p)
    ensures PlainPath(name + [Separator] + p)
  {
    SplitAfter(name, p, Separator);
  }

  /**
   * The lexical processing of filepath.Clean over the elements of a path:
   * empty and "." elements are dropped; ".." drops the element before it,
   * is dropped at the root of a rooted path, and is kept otherwise.
   */
  function CleanElements(segs: seq<string>, rooted: bool, kept: seq<string>): seq<string>
    decreases |segs|
  {
    if segs == [] then kept
    else
      var s := segs[0];
      var next :=
        if s == "" || s == "." then kept
        else if s == ".." then
          (if kept != [] && kept[|kept| - 1] != ".." then kept[..|kept| - 1]
           else if rooted then kept
           else kept + [".."])
        else kept + [s];
      CleanElements(segs[1..], rooted, next)
  }

  /** filepath.Clean(p) (and path.Clean): the shortest equivalent path, "." for an empty one. */
  function Clean(p: string): (r: string)
    ensures r != ""
  {
    if p == "" then "."
    else
      var rooted := p[0] == Separator;
      var body := JoinWith(CleanElements(Split(p, Separator), rooted, []), Separator);
      if rooted then [Separator] + body
      else if body == "" then "."
      else body
  }

  /**
   * filepath.Join(a, b) and path.Join(a, b): for two elements both are the
   * cleaned join of the elements from the first non-empty one on, and "" when
   * both are empty.
   */
  function Join(a: string, b: string): (r: string)
    ensures r == "" <==> a == "" && b == ""
  {
    if a != "" then Clean(a + [Separator] + b)
    else if b != "" then Clean(b)
    else ""
  }

  /** Plain elements are all kept, in order. */
  lemma {:induction false} CleanElementsPlain(segs: seq<string>, rooted: bool, kept: seq<string>)
    requires forall i :: 0 <= i < |segs| ==> PlainName(segs[i])
    ensures CleanElements(segs, rooted, kept) == kept + segs
    decreases |segs|
  {
    if segs != [] {
      assert PlainName(segs[0]);
      CleanElementsPlain(segs[1..], rooted, kept + [segs[0]]);
      assert kept + [segs[0]] + segs[1..] == kept + segs;
    }
  }

  /** A plain relative path is already clean. */
  lemma CleanPlain(p: string)
    requires PlainPath(p)
    ensures Clean(p) == p
  {
    var segs := Split(p, Separator);
    assert PlainName(segs[0]);
    forall i | 0 <= i < |segs| ensures PlainName(segs[i]) {
      assert segs[i] in segs;
    }
    CleanElementsPlain(segs, false, []);
    assert [] + segs == segs;
    JoinSplit(p, Separator);
  }

  /** Joining a plain name and a plain relative path puts one separator between them. */
  lemma JoinPlain(a: string, b: string)
    requires PlainName(a) && PlainPath(b)
    ensures Join(a, b) == a + [Separator] + b
  {
    SplitAfter(a, b, Separator);
    var segs := Split(a + [Separator] + b, Separator);
    forall seg | seg in segs ensures PlainName(seg) {
      if seg != a {
        assert seg in Split(b, Separator);
      }
    }
    CleanPlain(a + [Separator] + b);
  }

  /** The last element of s after its last occurrence of c (all of s when c does not occur). */
  function AfterLast(s: string, c: char): (r: string)
    ensures |r| <= |s| && r == s[|s| - |r|..]
    ensures c !in r
    ensures |r| < |s| ==> s[|s| - |r| - 1] == c
    ensures s != [] && s[|s| - 1] != c ==> r != []
    decreases |s|
  {
    if s == [] || s[|s| - 1] == c then []
    else AfterLast(s[..|s| - 1], c) + [s[|s| - 1]]
  }

  /**
   * filepath.Base(p): "." for an empty path, "/" for a path of separators
   * only, otherwise the last element once trailing separators are removed.
   */
  function Base(p: string): (r: string)
    ensures r != ""
    ensures r == "/" || Separator !in r
  {
    if p == "" then "."
    else
      var t := TrimRight(p, Separator);
      if t == "" then [Separator] else AfterLast(t, Separator)
  }

  /** The element after the last separator is what follows that separator. */
  lemma {:induction false} AfterLastOf(prefix: string, x: string, c: char)
    requires c !in x
    ensures AfterLast(prefix + [c] + x, c) == x
    decreases |x|
  {
    var s := prefix + [c] + x;
    if x != [] {
      assert s[..|s| - 1] == prefix + [c] + x[..|x| - 1];
      AfterLastOf(prefix, x[..|x| - 1], c);
      assert x[..|x| - 1] + [x[|x| - 1]] == x;
    }
  }

  /** The base of a path that does not end with the separator is its last element. */
  lemma BaseOfUnslashed(p: string)
    requires p != [] && p[|p| - 1] != Separator
    ensures Base(p) == AfterLast(p, Separator)
  {
    assert TrimRight(p, Separator) == p;
  }

  /** An absolute path of plain elements, cut before its last element. */
  lemma AbsoluteLast(segs: seq<string>) returns (prefix: string)
    requires |segs| >= 1
    ensures [Separator] + JoinWith(segs, Separator) == prefix + [Separator] + segs[|segs| - 1]
  {
    var n := |segs|;
    if n == 1 {
      prefix := [];
    } else {
      prefix := [Separator] + JoinWith(segs[..n - 1], Separator);
      JoinWithLast(segs, Separator);
    }
  }

  /** The base of an absolute path of plain elements is its last element. */
  lemma BaseOfAbsolute(segs: seq<string>)
    requires |segs| >= 1
    requires forall i :: 0 <= i < |segs| ==> PlainName(segs[i])
    ensures Base([Separator] + JoinWith(segs, Separator)) == segs[|segs| - 1]
  {
    var last := segs[|segs| - 1];
    assert PlainName(last);
    var prefix := AbsoluteLast(segs);
    var p := prefix + [Separator] + last;
    AfterLastOf(prefix, last, Separator);
    assert p[|p| - 1] == last[|last| - 1];
    BaseOfUnslashed(p);
  }
}
