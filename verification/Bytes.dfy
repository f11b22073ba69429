/** Bytes, and the little-endian and big-endian forms of a number. */
module Bytes {
  type byte = x: int | 0 <= x < 256

  /** The number of values that `width` bytes can hold. */
  function Span(width: nat): (r: nat)
    ensures r > 0
  {
    if width == 0 then 1 else 256 * Span(width - 1)
  }

  function LittleEndian(n: nat, width: nat): (r: seq<byte>)
    ensures |r| == width
  {
    if width == 0 then [] else [n % 256] + LittleEndian(n / 256, width - 1)
  }

  function LittleValue(bs: seq<byte>): nat {
    if bs == [] then 0 else bs[0] + 256 * LittleValue(bs[1..])
  }

  function BigEndian(n: nat, width: nat): (r: seq<byte>)
    ensures |r| == width
  {
    if width == 0 then [] else BigEndian(n / 256, width - 1) + [n % 256]
  }

  function BigValue(bs: seq<byte>): nat {
    if bs == [] then 0 else 256 * BigValue(bs[..|bs| - 1]) + bs[|bs| - 1]
  }

  lemma {:induction false} LittleRoundTrip(n: nat, width: nat)
    requires n < Span(width)
    ensures LittleValue(LittleEndian(n, width)) == n
  {
    if width > 0 {
      LittleRoundTrip(n / 256, width - 1);
      assert LittleEndian(n, width)[1..] == LittleEndian(n / 256, width - 1);
    }
  }

  lemma LowByte(b: byte, high: nat)
    ensures (b + 256 * high) % 256 == b && (b + 256 * high) / 256 == high
  {
  }

  lemma {:induction false} LittleOfValue(bs: seq<byte>)
    ensures LittleValue(bs) < Span(|bs|)
    ensures LittleEndian(LittleValue(bs), |bs|) == bs
    decreases |bs|
  {
    if bs != [] {
      var high := LittleValue(bs[1..]);
      LittleOfValue(bs[1..]);
      LowByte(bs[0], high);
      assert LittleValue(bs) == bs[0] + 256 * high;
      assert LittleEndian(LittleValue(bs), |bs|) == [bs[0]] + LittleEndian(high, |bs| - 1);
      hide LittleEndian, LittleValue;
      assert bs == [bs[0]] + bs[1..];
    }
  }

  lemma {:induction false} BigRoundTrip(n: nat, width: nat)
    requires n < Span(width)
    ensures BigValue(BigEndian(n, width)) == n
  {
    if width > 0 {
      BigRoundTrip(n / 256, width - 1);
      assert BigEndian(n, width)[..width - 1] == BigEndian(n / 256, width - 1);
    }
  }

  /** The digits of a number to the base 256, the lowest first. */
  lemma {:induction false} LittleDigits(n: nat, width: nat, k: nat)
    requires k < width
    ensures LittleEndian(n, width)[k] == n / Span(k) % 256
  {
    if k > 0 {
      LittleDigits(n / 256, width - 1, k - 1);
      DivideTwice(n, Span(k - 1));
    }
  }

  /** And the highest first. */
  lemma {:induction false} BigDigits(n: nat, width: nat, k: nat)
    requires k < width
    ensures BigEndian(n, width)[k] == n / Span(width - 1 - k) % 256
  {
    if k < width - 1 {
      BigDigits(n / 256, width - 1, k);
      DivideTwice(n, Span(width - 2 - k));
    }
  }

  lemma DivideTwice(n: nat, d: nat)
    requires d > 0
    ensures n / 256 / d == n / (256 * d)
  {
    var q := n / 256;
    var r, s := n % 256, q % d;
    assert q == d * (q / d) + s && n == 256 * q + r;
    assert n == 256 * d * (q / d) + (256 * s + r);
    assert 256 * s + r < 256 * d;
    Quotient(256 * d, q / d, 256 * s + r);
  }

  lemma Quotient(d: nat, q: nat, r: nat)
    requires r < d
    ensures (d * q + r) / d == q
  {
    var n := d * q + r;
    assert n == d * (n / d) + n % d;
    assert d * (n / d - q) == r - n % d;
    SmallMultiple(d, n / d - q);
  }

  lemma SmallMultiple(d: int, k: int)
    requires -d < d * k < d
    ensures k == 0
  {
    assert k >= 1 ==> d * k == d + d * (k - 1);
    assert k <= -1 ==> d * k == -d - d * (-k - 1);
  }

  lemma Remainder(d: nat, q: nat, r: nat)
    requires r < d
    ensures (d * q + r) % d == r
  {
    var n := d * q + r;
    var k := n / d - q;
    calc {
      d * k;
      d * (n / d) - d * q;
      r - n % d;
    }
    SmallMultiple(d, k);
  }
}
