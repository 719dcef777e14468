/**
 * The moving-average smoother (rc_smoother) and the tri-axis smoothed vector
 * (rc_smoothvector3): a fixed ring buffer of MaxSize ints, of which the first
 * `size` slots are used, with a write index, a fill count and a running sum,
 * all updated in place.
 */
module Smoothing {

  /** SMOOTHER_BUF_SIZE_MAX: the length of every ring buffer. */
  const MaxSize: int := 128

  function Min(a: int, b: int): int { if a <= b then a else b }

  /** The last min(k, |s|) elements of s, oldest first. */
  function LastN(s: seq<int>, k: nat): (w: seq<int>)
    ensures |w| == Min(k, |s|)
  {
    if k <= |s| then s[|s| - k..] else s
  }

  function Zeros(k: nat): (z: seq<int>)
    ensures |z| == k && forall i :: 0 <= i < k ==> z[i] == 0
  {
    seq(k, _ => 0)
  }

  function Sum(s: seq<int>): int
  {
    if s == [] then 0 else s[0] + Sum(s[1..])
  }

  lemma {:induction false} SumAppend(s: seq<int>, x: int)
    ensures Sum(s + [x]) == Sum(s) + x
  {
    if s == [] {
      assert s + [x] == [x];
    } else {
      assert (s + [x])[1..] == s[1..] + [x];
      SumAppend(s[1..], x);
    }
  }

  /** The running sum cannot leave [-|s|*m, |s|*m] when every sample lies in [-m, m]. */
  lemma {:induction false} SumBound(s: seq<int>, m: nat)
    requires forall i :: 0 <= i < |s| ==> -(m as int) <= s[i] <= m
    ensures -(|s| * m) <= Sum(s) <= |s| * m
  {
    if s != [] {
      SumBound(s[1..], m);
      assert |s| * m == m + |s[1..]| * m;
    }
  }

  /**
   * The samples are int16_t (AccelData), so a full window of them and its sum
   * fit in a 32-bit int: the C `sum` field never overflows.
   */
  lemma WindowSumFitsInt32(w: seq<int>)
    requires |w| <= MaxSize
    requires forall i :: 0 <= i < |w| ==> -0x8000 <= w[i] <= 0x7FFF
    ensures -0x8000_0000 <= Sum(w) < 0x8000_0000
  {
    SumBound(w, 0x8000);
    assert |w| * 0x8000 <= MaxSize * 0x8000;
  }

  /** C integer division, which truncates toward zero (not Dafny's Euclidean `/`). */
  function TruncDiv(a: int, b: int): (q: int)
    requires b > 0
    ensures a >= 0 ==> q * b <= a < q * b + b
    ensures a < 0 ==> q * b - b < a <= q * b
  {
    if a >= 0 then a / b else -((-a) / b)
  }

  /** One accelerometer sample (AccelData): three axes in milli-G and a timestamp in ms. */
  datatype AccelSample = AccelSample(x: int, y: int, z: int, timestamp: int)

  function Xs(d: seq<AccelSample>): (r: seq<int>)
    ensures |r| == |d|
  {
    seq(|d|, i requires 0 <= i < |d| => d[i].x)
  }

  function Ys(d: seq<AccelSample>): (r: seq<int>)
    ensures |r| == |d|
  {
    seq(|d|, i requires 0 <= i < |d| => d[i].y)
  }

  function Zs(d: seq<AccelSample>): (r: seq<int>)
    ensures |r| == |d|
  {
    seq(|d|, i requires 0 <= i < |d| => d[i].z)
  }

  /** The sample histories of the three axes of a smoothed vector. */
  datatype History = History(xs: seq<int>, ys: seq<int>, zs: seq<int>)

  /** The histories after a batch: each axis gains the batch's samples of that axis, in order. */
  function Grown(h: History, data: seq<AccelSample>): History
  {
    History(h.xs + Xs(data), h.ys + Ys(data), h.zs + Zs(data))
  }

  /** A ring of `size` slots starting at position p, read oldest first. */
  function Rotate(b: seq<int>, p: int, size: int): seq<int>
    requires 0 <= p <= size <= |b|
  {
    b[p..size] + b[..p]
  }

  /** Writing the sample at p and advancing p drops the oldest element and appends the sample. */
  lemma RotateStep(b: seq<int>, p: int, size: int, sample: int)
    requires 0 <= p < size <= |b|
    ensures Rotate(b[p := sample], Next(p, size), size) == Rotate(b, p, size)[1..] + [sample]
  {
    var b' := b[p := sample];
    if p + 1 < size {
      assert b'[p + 1..size] == b[p + 1..size];
      assert b'[..p + 1] == b[..p] + [sample];
    } else {
      assert b'[..0] == [];
      assert b'[0..size] == b[..p] + [sample];
    }
  }

  /** The window after one more sample: it grows until full, then slides. */
  lemma LastNStep(s: seq<int>, k: nat, x: int)
    requires k >= 1
    ensures LastN(s + [x], k) == if |s| < k then LastN(s, k) + [x] else LastN(s, k)[1..] + [x]
  {
    if |s| < k {
      assert LastN(s + [x], k) == s + [x];
    } else {
      assert (s + [x])[|s| + 1 - k..] == s[|s| + 1 - k..] + [x];
    }
  }

  /** The write position after p: (p + 1) % size for 0 <= p < size. */
  function Next(p: int, size: int): (q: int)
    requires 0 <= p < size
    ensures q == (p + 1) % size
  {
    if p + 1 < size then p + 1 else 0
  }

  /**
   * The smoother invariant over plain values: the write position follows the
   * number of samples, the fill count saturates at size, the used slots read
   * from the write position on hold zeros followed by the window, the unused
   * slots stay zero and the running sum is the window's sum.
   */
  ghost predicate Inv(b: seq<int>, p: int, n: int, sum: int, samples: seq<int>, size: int)
  {
    && |b| == MaxSize
    && 1 <= size <= MaxSize
    && 0 <= p < size
    && p == |samples| % size
    && n == Min(|samples|, size)
    && Rotate(b, p, size) == Zeros(size - n) + LastN(samples, size)
    && (forall i :: size <= i < MaxSize ==> b[i] == 0)
    && sum == Sum(LastN(samples, size))
  }

  /** One rc_update_smoother step keeps the invariant. */
  lemma InvStep(b: seq<int>, p: int, n: int, sum: int, samples: seq<int>, size: int, x: int)
    requires Inv(b, p, n, sum, samples, size)
    ensures Inv(b[p := x], Next(p, size), if n < size then n + 1 else n,
                sum - b[p] + x, samples + [x], size)
  {
    RingStep(b, p, n, samples, size, x);
    SumStep(b, p, n, samples, size, x);
    ModStep(|samples|, size);
  }

  /** Advancing a position kept as k % m gives (k + 1) % m. */
  lemma ModStep(k: nat, m: int)
    requires m >= 1
    ensures (k % m + 1) % m == (k + 1) % m
  {
    var q := k / m;
    var r := k % m;
    if r + 1 < m {
      ModUnique(k + 1, m, q, r + 1);
      ModUnique(r + 1, m, 0, r + 1);
    } else {
      ModUnique(k + 1, m, q + 1, 0);
      ModUnique(r + 1, m, 1, 0);
    }
  }

  /** The remainder of q * m + r is r when 0 <= r < m. */
  lemma ModUnique(x: int, m: int, q: int, r: int)
    requires m >= 1 && 0 <= r < m && x == q * m + r
    ensures x % m == r
  {
    var d := x / m - q;
    assert d * m == r - x % m;
    if d >= 1 {
      MulAtLeast(d, m);
    } else if d <= -1 {
      MulAtLeast(-d, m);
    }
  }

  lemma MulAtLeast(d: int, m: int)
    requires d >= 1 && m >= 1
    ensures d * m >= m
  {
  }

  /** The write position indexes the buffer. */
  lemma InvBounds(b: seq<int>, p: int, n: int, sum: int, samples: seq<int>, size: int)
    requires Inv(b, p, n, sum, samples, size)
    ensures 0 <= p < size <= |b| == MaxSize
  {
  }

  /** The ring read from the next write position holds one zero fewer, or the slid window. */
  lemma RingStep(b: seq<int>, p: int, n: int, samples: seq<int>, size: int, x: int)
    requires 1 <= size <= |b| && 0 <= p < size && n == Min(|samples|, size)
    requires Rotate(b, p, size) == Zeros(size - n) + LastN(samples, size)
    ensures Rotate(b[p := x], Next(p, size), size)
            == Zeros(size - (if n < size then n + 1 else n)) + LastN(samples + [x], size)
  {
    RotateStep(b, p, size, x);
    LastNStep(samples, size, x);
    if n < size {
      FillingStep(Rotate(b, p, size), size - n, LastN(samples, size), x);
    } else {
      assert Rotate(b, p, size) == LastN(samples, size);
    }
  }

  /** Dropping the first of k >= 1 zeros in front of w and appending x. */
  lemma FillingStep(ring: seq<int>, k: int, w: seq<int>, x: int)
    requires k >= 1 && ring == Zeros(k) + w
    ensures ring[1..] + [x] == Zeros(k - 1) + (w + [x])
  {
    assert ring[1..] == Zeros(k - 1) + w;
  }

  /** The running sum loses the overwritten slot and gains the sample: the sum of the new window. */
  lemma SumStep(b: seq<int>, p: int, n: int, samples: seq<int>, size: int, x: int)
    requires 1 <= size <= |b| && 0 <= p < size && n == Min(|samples|, size)
    requires Rotate(b, p, size) == Zeros(size - n) + LastN(samples, size)
    ensures Sum(LastN(samples, size)) - b[p] + x == Sum(LastN(samples + [x], size))
  {
    var w := LastN(samples, size);
    var ring := Rotate(b, p, size);
    LastNStep(samples, size, x);
    SumAppend(w, x);
    assert ring[0] == b[p];
    if n == size {
      assert ring == w;
      assert Sum(w) == w[0] + Sum(w[1..]);
      SumAppend(w[1..], x);
    }
  }

  lemma AxesSnoc(d: seq<AccelSample>, i: int)
    requires 0 <= i < |d|
    ensures Xs(d[..i + 1]) == Xs(d[..i]) + [d[i].x]
    ensures Ys(d[..i + 1]) == Ys(d[..i]) + [d[i].y]
    ensures Zs(d[..i + 1]) == Zs(d[..i]) + [d[i].z]
  {
  }

  /** A history that has grown by a prefix, and then by one more sample, has grown by the longer prefix. */
  lemma Extend(h: seq<int>, h0: seq<int>, grown: seq<int>, x: int)
    requires h == h0 + grown
    ensures h + [x] == h0 + (grown + [x])
  {
  }

  class Smoother {
    var n: int          // fill count, saturating at size
    var p: int          // next write position
    const buf: array<int>
    var sum: int        // running sum of the buffer
    const size: int     // capacity in use, 1..MaxSize

    /** Every sample fed since setup, oldest first. */
    ghost var Samples: seq<int>

    /** The samples the mean is taken over: the last min(|Samples|, size) ones. */
    ghost function Window(): seq<int>
      reads this
      requires size >= 0
    {
      LastN(Samples, size)
    }

    ghost predicate Valid()
      reads this, buf
    {
      Inv(buf[..], p, n, sum, Samples, size)
    }

    /** A zeroed smoother (the memset of rc_setup_smoothvector3) of the given capacity. */
    constructor (capacity: int)
      requires 1 <= capacity <= MaxSize
      ensures Valid() && fresh(buf)
      ensures size == capacity && Samples == []
    {
      var b := new int[MaxSize](_ => 0);
      assert b[..][0..capacity] == Zeros(capacity);
      buf := b;
      n, p, sum := 0, 0, 0;
      size := capacity;
      Samples := [];
    }

    /** rc_update_smoother: overwrite the oldest slot with the sample. */
    method Update(sample: int)
      requires Valid()
      modifies this, buf
      ensures Valid()
      ensures Samples == old(Samples) + [sample]
    {
      InvStep(buf[..], p, n, sum, Samples, size, sample);
      InvBounds(buf[..], p, n, sum, Samples, size);
      ghost var b := buf[..];
      var q := p;
      assert q < buf.Length;
      if n < size {
        n := n + 1;
      }
      sum := sum - buf[q];
      buf[q] := sample;
      sum := sum + sample;
      p := (q + 1) % size;
      assert p == Next(q, size);
      Samples := Samples + [sample];
      assert buf[..] == b[q := sample];
    }

    /** rc_get_smoother_value: the truncated mean of the window, 0 when empty. */
    function Mean(): (r: int)
      reads this, buf
      requires Valid()
      ensures r == if |Window()| == 0 then 0 else TruncDiv(Sum(Window()), |Window()|)
    {
      if n == 0 then 0 else TruncDiv(sum, n)
    }
  }

  class SmoothVector3 {
    const sx: Smoother
    const sy: Smoother
    const sz: Smoother
    ghost const Repr: set<object>

    ghost predicate Valid()
      reads this, Repr
    {
      && Repr == {sx, sx.buf, sy, sy.buf, sz, sz.buf} && this !in Repr
      && sx != sy && sy != sz && sx != sz
      && sx.buf != sy.buf && sy.buf != sz.buf && sx.buf != sz.buf
      && sx.Valid() && sy.Valid() && sz.Valid()
      && sx.size == sy.size == sz.size
    }

    ghost function Seen(): History
      reads this, sx, sy, sz
    {
      History(sx.Samples, sy.Samples, sz.Samples)
    }

    /** rc_setup_smoothvector3: three empty smoothers sharing one capacity, clamped to MaxSize. */
    constructor (size: int)
      requires size >= 1
      ensures Valid() && fresh(Repr)
      ensures sx.Samples == [] && sy.Samples == [] && sz.Samples == []
      ensures sx.size == Min(size, MaxSize)
    {
      var s := size;
      if s > MaxSize {
        s := MaxSize;
      }
      var x := new Smoother(s);
      var y := new Smoother(s);
      var z := new Smoother(s);
      sx, sy, sz := x, y, z;
      Repr := {x, x.buf, y, y.buf, z, z.buf};
    }

    /** One iteration of rc_update_smoothvector3's loop: the sample's three axes, in order x, y, z. */
    method UpdateSample(a: AccelSample)
      requires Valid()
      modifies Repr
      ensures Valid()
      ensures sx.Samples == old(sx.Samples) + [a.x]
      ensures sy.Samples == old(sy.Samples) + [a.y]
      ensures sz.Samples == old(sz.Samples) + [a.z]
    {
      sx.Update(a.x);
      sy.Update(a.y);
      sz.Update(a.z);
    }

    /** rc_update_smoothvector3: feed the batch, sample by sample, to all three axes. */
    method UpdateBatch(data: seq<AccelSample>)
      requires Valid()
      modifies Repr
      ensures Valid()
      ensures sx.Samples == old(sx.Samples) + Xs(data)
      ensures sy.Samples == old(sy.Samples) + Ys(data)
      ensures sz.Samples == old(sz.Samples) + Zs(data)
    {
      for i := 0 to |data|
        invariant Valid()
        invariant sx.Samples == old(sx.Samples) + Xs(data[..i])
        invariant sy.Samples == old(sy.Samples) + Ys(data[..i])
        invariant sz.Samples == old(sz.Samples) + Zs(data[..i])
      {
        ghost var hx, hy, hz := sx.Samples, sy.Samples, sz.Samples;
        UpdateSample(data[i]);
        AxesSnoc(data, i);
        Extend(hx, old(sx.Samples), Xs(data[..i]), data[i].x);
        Extend(hy, old(sy.Samples), Ys(data[..i]), data[i].y);
        Extend(hz, old(sz.Samples), Zs(data[..i]), data[i].z);
      }
      assert data[..|data|] == data;
    }
  }

  /** Capacity 2 fed 10, 20 gives 15; a further -30 gives -5, the mean -10 / 2 truncated toward zero. */
  method MeanExample() returns (full: int, rolled: int)
    ensures full == 15 && rolled == -5
  {
    var s := new Smoother(2);
    FeedTwo(s, 10, 20);
    ExampleWindows();
    full := s.Mean();
    s.Update(-30);
    assert s.Samples == [10, 20, -30];
    rolled := s.Mean();
  }

  /** Two samples fed to an empty smoother. */
  method FeedTwo(s: Smoother, a: int, b: int)
    requires s.Valid()
    modifies s, s.buf
    ensures s.Valid() && s.Samples == old(s.Samples) + [a, b]
  {
    s.Update(a);
    s.Update(b);
  }

  /** Capacity 4 fed 10, 20, 30, 40 gives 25; a further 100 gives 47, the mean 190 / 4 truncated. */
  method MeanExampleFour() returns (full: int, rolled: int)
    ensures full == 25 && rolled == 47
  {
    var s := new Smoother(4);
    FeedTwo(s, 10, 20);
    FeedTwo(s, 30, 40);
    assert s.Samples == [10, 20, 30, 40];
    FourWindows();
    full := s.Mean();
    s.Update(100);
    assert s.Samples == [10, 20, 30, 40, 100];
    rolled := s.Mean();
  }

  /** The two windows of MeanExampleFour and their means. */
  lemma FourWindows()
    ensures LastN([10, 20, 30, 40], 4) == [10, 20, 30, 40]
    ensures LastN([10, 20, 30, 40, 100], 4) == [20, 30, 40, 100]
    ensures TruncDiv(Sum([10, 20, 30, 40]), 4) == 25
    ensures TruncDiv(Sum([20, 30, 40, 100]), 4) == 47
  {
    assert [10, 20, 30, 40, 100][1..] == [20, 30, 40, 100];
    assert [10, 20, 30, 40][1..] == [20, 30, 40];
    assert [20, 30, 40][1..] == [30, 40];
    assert [30, 40][1..] == [40];
    assert [20, 30, 40, 100][1..] == [30, 40, 100];
    assert [30, 40, 100][1..] == [40, 100];
    assert [40, 100][1..] == [100];
  }

  /** The two windows of MeanExample and their truncated means: -10 / 2 truncates to -5. */
  lemma ExampleWindows()
    ensures LastN([10, 20], 2) == [10, 20]
    ensures LastN([10, 20, -30], 2) == [20, -30]
    ensures TruncDiv(Sum([10, 20]), 2) == 15
    ensures TruncDiv(Sum([20, -30]), 2) == -5
  {
    assert [10, 20, -30][1..] == [20, -30];
    assert [10, 20][1..] == [20];
    assert [20, -30][1..] == [-30];
  }
}
