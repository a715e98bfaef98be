/** Bytes, little-endian words and alignment, shared by the file writers. */
module Bytes {

  type Byte = b: int | 0 <= b < 256

  const TWO32: nat := 0x1_0000_0000

  /** Conversion to `uint32_t`. */
  function U32(x: nat): (r: nat)
    ensures r < TWO32
    ensures x < TWO32 ==> r == x
  {
    x % TWO32
  }

  function WordLE(x: nat): (s: seq<Byte>)
    ensures |s| == 4
  {
    [x % 256, x / 256 % 256, x / 65536 % 256, x / 16777216 % 256]
  }

  function ReadWordLE(s: seq<Byte>): (x: nat)
    requires |s| == 4
  {
    var b0: int, b1: int, b2: int, b3: int := s[0], s[1], s[2], s[3];
    b0 + 256 * b1 + 65536 * b2 + 16777216 * b3
  }

  /** Storing a 32-bit word and reading it back is the identity. */
  lemma WordRoundTrip(x: nat)
    requires x < TWO32
    ensures ReadWordLE(WordLE(x)) == x
  {
    var a := x / 256;
    var b := a / 256;
    var c := b / 256;
    assert x / 65536 == b && x / 16777216 == c && c < 256;
    assert x == 256 * a + x % 256 && a == 256 * b + a % 256 && b == 256 * c + b % 256;
  }

  function Word4BE(x: nat): (s: seq<Byte>)
    ensures |s| == 4
  {
    [x / 16777216 % 256, x / 65536 % 256, x / 256 % 256, x % 256]
  }

  /** The first four bytes as a big-endian word. */
  function Read4BE(s: seq<Byte>): nat
    requires |s| >= 4
  {
    ReadWordLE([s[3], s[2], s[1], s[0]])
  }

  lemma Word4BERoundTrip(x: nat)
    requires x < TWO32
    ensures Read4BE(Word4BE(x)) == x
  {
    WordRoundTrip(x);
  }

  function WordsLE(xs: seq<nat>): (s: seq<Byte>)
    ensures |s| == 4 * |xs|
  {
    if xs == [] then [] else WordsLE(xs[..|xs| - 1]) + WordLE(xs[|xs| - 1])
  }

  lemma AtLeastOneMultiple(a: int, n: nat)
    requires a >= 1
    ensures a * n >= n
  {
    assert a * n == (a - 1) * n + n;
  }

  lemma MultipleMod(q: nat, n: nat)
    requires n > 0
    ensures q * n % n == 0
  {
    var d, m := q * n / n, q * n % n;
    assert (q - d) * n == m;
    if q > d {
      AtLeastOneMultiple(q - d, n);
    } else if q < d {
      AtLeastOneMultiple(d - q, n);
    }
  }

  lemma NextMultiple(x: nat, n: nat)
    requires n > 0
    ensures (x + n - x % n) % n == 0
  {
    MultipleMod(x / n + 1, n);
    assert (x / n + 1) * n == x + n - x % n;
  }

  /** `RoundUp(x, n)` for a power of two `n`: the least multiple of `n` at or above `x`. */
  function RoundUp(x: nat, n: nat): (r: nat)
    requires n > 0
    ensures x <= r < x + n
    ensures r % n == 0
  {
    NextMultiple(x, n);
    if x % n == 0 then x else x + n - x % n
  }

  /** No multiple of `n` lies between `x` and `RoundUp(x, n)`. */
  lemma {:induction false} RoundUpLeast(x: nat, n: nat, m: nat)
    requires n > 0 && m >= x && m % n == 0
    ensures RoundUp(x, n) <= m
  {
    var qm, qr := m / n, RoundUp(x, n) / n;
    assert (qr - qm) * n == RoundUp(x, n) - m;
    if qr > qm {
      AtLeastOneMultiple(qr - qm, n);
    } else if qr < qm {
      AtLeastOneMultiple(qm - qr, n);
    }
  }

  /** `data` stands in `w` at position `off`. */
  ghost predicate At(w: seq<Byte>, off: nat, data: seq<Byte>) {
    off + |data| <= |w| && forall k :: 0 <= k < |data| ==> w[off + k] == data[k]
  }

  lemma AtSlice(w: seq<Byte>, off: nat, data: seq<Byte>, i: nat, n: nat)
    requires At(w, off, data) && i + n <= |data|
    ensures w[off + i..off + i + n] == data[i..i + n]
  {
    var here, there := w[off + i..off + i + n], data[i..i + n];
    forall j | 0 <= j < n ensures here[j] == there[j] {
      assert w[off + (i + j)] == data[i + j];
    }
  }

  lemma {:induction false} WordsAt(xs: seq<nat>, i: nat)
    requires i < |xs|
    ensures WordsLE(xs)[4 * i..4 * i + 4] == WordLE(xs[i])
  {
    var n := |xs| - 1;
    var front := WordsLE(xs[..n]);
    if i < n {
      WordsAt(xs[..n], i);
      assert WordsLE(xs)[4 * i..4 * i + 4] == front[4 * i..4 * i + 4];
    } else {
      assert WordsLE(xs)[4 * i..4 * i + 4] == WordLE(xs[n]);
    }
  }

  lemma SliceOfSlice(s: seq<Byte>, from: nat, to: nat, a: nat, b: nat)
    requires from + b <= to <= |s| && a <= b
    ensures s[from..to][a..b] == s[from + a..from + b]
  {
    var x, y := s[from..to][a..b], s[from + a..from + b];
    forall i | 0 <= i < b - a ensures x[i] == y[i] {
      assert x[i] == s[from..to][a + i] == s[from + a + i];
    }
  }
}
