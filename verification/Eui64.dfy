/** Stream IDs as 64-bit numbers (`eui64_read`, `eui64_write`). */
module Eui64 {
  import opened Wire

  const LIMIT := 0x1_0000_0000_0000_0000

  /** Big-endian value of any number of bytes. */
  function Value(b: seq<byte>): nat {
    if b == [] then 0 else Value(b[..|b| - 1]) * 256 + b[|b| - 1]
  }

  function Power(n: nat): nat {
    if n == 0 then 1 else 256 * Power(n - 1)
  }

  /** `eui64_read` */
  function Read(b: seq<byte>): nat
    requires |b| == 8
  {
    b[0] as int * 0x100_0000_0000_0000 + b[1] as int * 0x1_0000_0000_0000 + b[2] as int * 0x100_0000_0000
    + b[3] as int * 0x1_0000_0000 + b[4] as int * 0x100_0000 + b[5] as int * 0x1_0000 + b[6] as int * 0x100 + b[7]
  }

  /** `eui64_write` */
  function Write(v: nat): (b: seq<byte>)
    ensures |b| == 8
  {
    [v / 0x100_0000_0000_0000 % 256, v / 0x1_0000_0000_0000 % 256, v / 0x100_0000_0000 % 256, v / 0x1_0000_0000 % 256,
     v / 0x100_0000 % 256, v / 0x1_0000 % 256, v / 0x100 % 256, v % 256]
  }

  lemma ReadIsValue(b: seq<byte>)
    requires |b| == 8
    ensures Read(b) == Value(b)
  {
    assert b[..7][..6] == b[..6] && b[..6][..5] == b[..5] && b[..5][..4] == b[..4] && b[..4][..3] == b[..3];
    assert b[..3][..2] == b[..2] && b[..2][..1] == b[..1] && b[..1][..0] == [];
    assert Value(b[..1]) == b[0];
    assert Value(b[..2]) == b[0] as int * 256 + b[1];
    assert Value(b[..3]) == Value(b[..2]) * 256 + b[2];
    assert Value(b[..4]) == Value(b[..3]) * 256 + b[3];
    assert Value(b[..5]) == Value(b[..4]) * 256 + b[4];
    assert Value(b[..6]) == Value(b[..5]) * 256 + b[5];
    assert Value(b[..7]) == Value(b[..6]) * 256 + b[6];
  }

  lemma {:induction false} ValueBounded(b: seq<byte>)
    ensures Value(b) < Power(|b|)
  {
    if b != [] {
      ValueBounded(b[..|b| - 1]);
    }
  }

  lemma ReadWrite(v: nat)
    requires v < LIMIT
    ensures Read(Write(v)) == v
  {
    var q1 := v / 256;
    var q2 := q1 / 256;
    var q3 := q2 / 256;
    var q4 := q3 / 256;
    var q5 := q4 / 256;
    var q6 := q5 / 256;
    var q7 := q6 / 256;
    Shifts(v);
    assert q7 < 256;
  }

  lemma Shifts(v: nat)
    ensures v / 0x1_0000 == v / 0x100 / 256 && v / 0x100_0000 == v / 0x1_0000 / 256
    ensures v / 0x1_0000_0000 == v / 0x100_0000 / 256 && v / 0x100_0000_0000 == v / 0x1_0000_0000 / 256
    ensures v / 0x1_0000_0000_0000 == v / 0x100_0000_0000 / 256
    ensures v / 0x100_0000_0000_0000 == v / 0x1_0000_0000_0000 / 256
  {
  }

  /** Equal lengths: the value determines the bytes. */
  lemma {:induction false} ValueInjective(a: seq<byte>, b: seq<byte>)
    requires |a| == |b| && Value(a) == Value(b)
    ensures a == b
    decreases |a|
  {
    if a != [] {
      var n := |a| - 1;
      assert a[n] == Value(a) % 256 && b[n] == Value(b) % 256;
      ValueInjective(a[..n], b[..n]);
      assert a == a[..n] + [a[n]] && b == b[..n] + [b[n]];
    }
  }

  /** Writing what was read gives the same bytes back. */
  lemma WriteRead(b: seq<byte>)
    requires |b| == 8
    ensures Read(b) < LIMIT && Write(Read(b)) == b
  {
    ReadWrite(Read(b));
    ReadIsValue(b);
    ReadIsValue(Write(Read(b)));
    ValueInjective(Write(Read(b)), b);
  }

  /** Byte-wise comparison from the front, as `memcmp` does it. */
  predicate Before(a: seq<byte>, b: seq<byte>)
    requires |a| == |b|
  {
    a != [] && (a[0] < b[0] || (a[0] == b[0] && Before(a[1..], b[1..])))
  }

  lemma {:induction false} ValueFront(b: seq<byte>)
    requires b != []
    ensures Value(b) == b[0] * Power(|b| - 1) + Value(b[1..])
    decreases |b|
  {
    var n := |b| - 1;
    if n > 0 {
      ValueFront(b[..n]);
      assert b[..n][1..] == b[1..][..n - 1];
      var p, q := Power(n - 1), Value(b[1..][..n - 1]);
      assert Value(b) == (b[0] * p + q) * 256 + b[n];
      assert b[0] * Power(n) == b[0] * (256 * p) == (b[0] * p) * 256;
    }
  }

  /** Numeric order of stream IDs is byte-lexicographic order. */
  lemma {:induction false} OrderAgrees(a: seq<byte>, b: seq<byte>)
    requires |a| == |b|
    ensures Value(a) < Value(b) <==> Before(a, b)
    decreases |a|
  {
    if a != [] {
      ValueFront(a);
      ValueFront(b);
      ValueBounded(a[1..]);
      ValueBounded(b[1..]);
      OrderAgrees(a[1..], b[1..]);
      Digit(a[0], b[0], Power(|a| - 1));
      Digit(b[0], a[0], Power(|a| - 1));
    }
  }

  lemma Digit(x: nat, y: nat, p: nat)
    ensures x < y ==> x * p + p <= y * p
  {
    if x < y {
      Multiple(y - x - 1, p);
      assert y * p == x * p + (y - x - 1) * p + p;
    }
  }

  lemma Multiple(d: nat, p: nat)
    ensures 0 <= d * p
  {
  }
}
