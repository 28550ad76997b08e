/**
 * sizeio.go: a reader and a writer that count the bytes passing through
 * the stream they wrap, and the choice of a decimal unit for a byte count.
 */
module SizeIO {

  const Int64Min: int := -0x8000_0000_0000_0000
  const Int64Max: int := 0x7fff_ffff_ffff_ffff
  const Modulus64: int := 0x1_0000_0000_0000_0000

  predicate InInt64(x: int)
  {
    Int64Min <= x <= Int64Max
  }

  /** Two's complement wrap-around of an int64 addition result. */
  function Wrap64(x: int): (r: int)
    ensures InInt64(r)
    ensures (r - x) % Modulus64 == 0
    ensures InInt64(x) ==> r == x
  {
    (x - Int64Min) % Modulus64 + Int64Min
  }

  /** What a call on the wrapped stream reports besides the byte count. */
  datatype IoError = NoError | Eof | Failed(msg: string)

  /** The (n, err) pair returned by a Read or Write of the wrapped stream. */
  datatype Answer = Answer(n: int, err: IoError)

  /** The wrapped io.ReadCloser or io.WriteCloser, seen through its Close calls. */
  class Stream {
    const closeErr: IoError
    var closeCalls: nat

    constructor (closeErr: IoError)
      ensures this.closeErr == closeErr && closeCalls == 0
    {
      this.closeErr := closeErr;
      closeCalls := 0;
    }

    method Close() returns (err: IoError)
      modifies this`closeCalls
      ensures err == closeErr && closeCalls == old(closeCalls) + 1
    {
      err := closeErr;
      closeCalls := closeCalls + 1;
    }
  }

  /**
   * The counter after a run of calls that reported the byte counts ns, in
   * order, starting from c: each call adds its count with int64 wrap-around.
   */
  function Counted(c: int, ns: seq<int>): int
    decreases |ns|
  {
    if ns == [] then c else Counted(Wrap64(c + ns[0]), ns[1..])
  }

  function Sum(ns: seq<int>): int
    decreases |ns|
  {
    if ns == [] then 0 else ns[0] + Sum(ns[1..])
  }

  /**
   * Under the io.Reader and io.Writer contract (no call reports a negative
   * count) and while the total fits in an int64, the counter is the start
   * plus the sum of the counts, and so never decreases.
   */
  lemma {:induction false} CountedGrows(c: int, ns: seq<int>)
    requires 0 <= c
    requires forall i :: 0 <= i < |ns| ==> 0 <= ns[i]
    requires c + Sum(ns) <= Int64Max
    ensures Counted(c, ns) == c + Sum(ns)
    ensures c <= Counted(c, ns)
    decreases |ns|
  {
    if ns != [] {
      SumNonNegative(ns[1..]);
      assert forall i :: 0 <= i < |ns| - 1 ==> ns[1..][i] == ns[i + 1];
      CountedGrows(c + ns[0], ns[1..]);
    }
  }

  lemma {:induction false} SumNonNegative(ns: seq<int>)
    requires forall i :: 0 <= i < |ns| ==> 0 <= ns[i]
    ensures 0 <= Sum(ns)
    decreases |ns|
  {
    if ns != [] {
      assert forall i :: 0 <= i < |ns| - 1 ==> ns[1..][i] == ns[i + 1];
      SumNonNegative(ns[1..]);
    }
  }

  /** Past the int64 range the counter wraps to a negative value. */
  lemma CountedWraps()
    ensures Counted(Int64Max, [1]) == Int64Min
  {
    assert [1][1..] == [];
  }

  /** SizeReader: counts the bytes read and remembers whether the end of the stream was reached. */
  class SizeReader {
    const r: Stream
    var n: int
    var done: bool

    /** NewSizeReader: the counter starts at 0 and the end is not reached. */
    constructor (r: Stream)
      ensures this.r == r && n == 0 && !done
    {
      this.r := r;
      n := 0;
      done := false;
    }

    /**
     * Read passes on what the wrapped reader answered, unchanged; the count
     * is added to the counter whatever the error, and done becomes true on
     * io.EOF and is never reset.
     */
    method Read(inner: Answer) returns (count: int, err: IoError)
      modifies this`n, this`done
      ensures count == inner.n && err == inner.err
      ensures n == Wrap64(old(n) + inner.n)
      ensures done == (old(done) || inner.err == Eof)
    {
      count, err := inner.n, inner.err;
      n := Wrap64(n + count);
      if err != NoError && err == Eof {
        done := true;
      }
    }

    /** Close closes the wrapped reader and returns its error. */
    method Close() returns (err: IoError)
      modifies r`closeCalls
      ensures err == r.closeErr && r.closeCalls == old(r.closeCalls) + 1
    {
      err := r.Close();
    }

    /** N reports the counter and the end flag and changes nothing. */
    method N() returns (count: int, isDone: bool)
      ensures count == n && isDone == done
    {
      count, isDone := n, done;
    }
  }

  /** SizeWriter: counts the bytes written. */
  class SizeWriter {
    const w: Stream
    var n: int

    /** NewSizeWriter: the counter starts at 0. */
    constructor (w: Stream)
      ensures this.w == w && n == 0
    {
      this.w := w;
      n := 0;
    }

    /** Write passes on what the wrapped writer answered; the count is added whatever the error. */
    method Write(inner: Answer) returns (count: int, err: IoError)
      modifies this`n
      ensures count == inner.n && err == inner.err
      ensures n == Wrap64(old(n) + inner.n)
    {
      count, err := inner.n, inner.err;
      n := Wrap64(n + count);
    }

    /** Close closes the wrapped writer and returns its error. */
    method Close() returns (err: IoError)
      modifies w`closeCalls
      ensures err == w.closeErr && w.closeCalls == old(w.closeCalls) + 1
    {
      err := w.Close();
    }

    /** N reports the counter and changes nothing. */
    method N() returns (count: int)
      ensures count == n
    {
      count := n;
    }
  }

  /**
   * One more call at the end of a run adds its count to the counter, so a
   * Read or Write on a counter equal to Counted(c, ns) leaves it equal to
   * Counted(c, ns + [count]).
   */
  lemma {:induction false} CountedSnoc(c: int, ns: seq<int>, x: int)
    ensures Counted(c, ns + [x]) == Wrap64(Counted(c, ns) + x)
    decreases |ns|
  {
    if ns == [] {
      assert ns + [x] == [x];
      assert [x][1..] == [];
    } else {
      assert (ns + [x])[0] == ns[0];
      assert (ns + [x])[1..] == ns[1..] + [x];
      CountedSnoc(Wrap64(c + ns[0]), ns[1..], x);
    }
  }

  /** 1000 to the power e. */
  function Pow1000(e: nat): (r: int)
    ensures r >= 1
  {
    if e == 0 then 1 else 1000 * Pow1000(e - 1)
  }

  /** How byteCountDecimal renders a count: plain bytes, or a quotient by div with the unit letter. */
  datatype Rendering = Bytes(count: int) | Scaled(div: int, exp: nat, unit: char)

  const Units: string := "kMGTPE"

  /**
   * byteCountDecimal without the float formatting: counts below 1000,
   * negative ones included, are shown in bytes; otherwise the unit is the
   * one whose power of 1000 is the largest not above the count, which for
   * any int64 is at most exa, and the divisor stays within int64.
   */
  method ByteCountDecimal(b: int) returns (r: Rendering)
    requires InInt64(b)
    ensures r.Bytes? <==> b < 1000
    ensures r.Bytes? ==> r.count == b
    ensures r.Scaled? ==>
              && r.exp <= 5
              && r.div == Pow1000(r.exp + 1)
              && InInt64(r.div)
              && r.div <= b < 1000 * r.div
              && 1 <= b / r.div < 1000
              && r.unit == Units[r.exp]
  {
    if b < 1000 {
      return Bytes(b);
    }
    var div, exp := 1000, 0;
    var n := b / 1000;
    while n >= 1000
      invariant exp <= 5
      invariant div == Pow1000(exp + 1)
      invariant 0 < div <= b
      invariant n == b / div
      decreases n
    {
      NextUnit(b, div, n);
      div := div * 1000;
      exp := exp + 1;
      n := n / 1000;
      PowBound(exp);
    }
    LastUnit(b, div, n);
    return Scaled(div, exp, Units[exp]);
  }

  /** When the quotient is still 1000 or more, the next power of 1000 fits under b. */
  lemma NextUnit(b: int, d: int, n: int)
    requires 0 < d <= b && n == b / d && n >= 1000
    ensures d * 1000 <= b
    ensures n / 1000 == b / (d * 1000)
  {
    QuotientBounds(b, d, n);
    assert d * 1000 <= d * n;
    DivDiv(b, d, 1000);
  }

  /** When the quotient is below 1000, b lies between the divisor and 1000 times it. */
  lemma LastUnit(b: int, d: int, n: int)
    requires 0 < d <= b && n == b / d && n < 1000
    ensures d <= b < 1000 * d
    ensures 1 <= b / d < 1000
  {
    QuotientBounds(b, d, n);
    MulLeft(d, n + 1, 1000);
  }

  /** Dividing twice is dividing by the product. */
  lemma DivDiv(b: int, d: int, k: int)
    requires 0 <= b && 0 < d && 0 < k
    ensures b / d / k == b / (d * k)
  {
    var q := b / d;
    var r := b % d;
    var q2 := q / k;
    var r2 := q % k;
    assert b == d * q + r;
    assert q == k * q2 + r2;
    assert d * q == d * (k * q2) + d * r2;
    assert d * (k * q2) == (d * k) * q2;
    assert d * r2 <= d * (k - 1) by {
      MulLeft(d, r2, k - 1);
    }
    DivUnique(b, d * k, q2, d * r2 + r);
  }

  lemma MulLeft(d: int, x: int, y: int)
    requires 0 < d && x <= y
    ensures d * x <= d * y
  {
  }

  /** Euclidean division has a unique quotient. */
  lemma DivUnique(b: int, m: int, q: int, r: int)
    requires 0 < m && b == m * q + r && 0 <= r < m
    ensures b / m == q
  {
    var q' := b / m;
    var r' := b % m;
    assert m * q' + r' == m * q + r;
    if q' < q {
      assert m * (q - q') == r' - r;
      MulLeft(m, 1, q - q');
    } else if q' > q {
      assert m * (q' - q) == r - r';
      MulLeft(m, 1, q' - q);
    }
  }

  /** The quotient bounds the dividend. */
  lemma QuotientBounds(b: int, d: int, n: int)
    requires 0 <= b && 0 < d && n == b / d
    ensures d * n <= b < d * (n + 1)
  {
  }

  /** A power of 1000 within int64 has an exponent of at most 6. */
  lemma PowBound(e: nat)
    requires Pow1000(e + 1) <= Int64Max
    ensures e <= 5
  {
    if e >= 6 {
      PowMonotone(7, e + 1);
    }
  }

  lemma {:induction false} PowMonotone(a: nat, b: nat)
    requires a <= b
    ensures Pow1000(a) <= Pow1000(b)
    decreases b - a
  {
    if a < b {
      PowMonotone(a, b - 1);
    }
  }
}
