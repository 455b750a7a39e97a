/** The FirstValue fields of MSRP attributes: stream IDs and destination addresses that are incremented along
    a vector, and the fields of a talker declaration (IEEE 802.1Q-2011 section 35.2.2). */
module StreamValues {
  import opened Mrp
  import opened Wire
  import opened Eui64

  // ---------------------------------------------------------------- incrementing

  /** `msrp_increment_streamid` and `mmrp_increment_macaddr`: add one with carry, but never touch byte 0. */
  function Increment(b: seq<byte>): (r: seq<byte>)
    ensures |r| == |b|
  {
    if |b| <= 1 then b
    else
      var n := |b| - 1;
      if b[n] != 255 then b[..n] + [b[n] + 1] else Increment(b[..n]) + [0]
  }

  /** The loop of both functions, in place. */
  method IncrementInPlace(a: array<byte>)
    modifies a
    ensures a[..] == Increment(old(a[..]))
  {
    ghost var b := a[..];
    var i := a.Length - 1;
    assert b[..a.Length] == b;
    while i > 0
      invariant i < a.Length && (a.Length > 0 ==> 0 <= i)
      invariant a.Length > 0 ==> a[..i + 1] == b[..i + 1]
      invariant a.Length > 0 ==> Increment(b) == Increment(b[..i + 1]) + a[i + 1..]
    {
      assert b[..i + 1][..i] == b[..i] && b[..i + 1][i] == a[i];
      ghost var tail := a[i + 1..];
      if a[i] != 255 {
        a[i] := a[i] + 1;
        assert a[..] == b[..i] + [b[i] + 1] + tail;
        return;
      }
      a[i] := 0;
      assert a[i..] == [0] + tail;
      assert Increment(b[..i]) + [0] + tail == Increment(b[..i]) + ([0] + tail);
      i := i - 1;
    }
    assert a.Length > 0 ==> a[..] == a[..1] + a[1..];
  }

  /** Adding one, modulo 256 to the number of bytes after the first. */
  function Successor(v: nat, n: nat): nat {
    if v + 1 == Power(n) then 0 else v + 1
  }

  lemma {:induction false} IncrementIsSuccessor(b: seq<byte>)
    requires |b| >= 1
    ensures Increment(b)[0] == b[0]
    ensures Value(Increment(b)[1..]) == Successor(Value(b[1..]), |b| - 1)
  {
    var n := |b| - 1;
    if n > 0 {
      var low, r := b[1..], Increment(b)[1..];
      assert low[n - 1] == b[n] && low[..n - 1] == b[..n][1..];
      ValueBounded(low[..n - 1]);
      if b[n] != 255 {
        assert r[..n - 1] == low[..n - 1] && r[n - 1] == b[n] + 1;
      } else {
        IncrementIsSuccessor(b[..n]);
        assert r[..n - 1] == Increment(b[..n])[1..] && r[n - 1] == 0;
      }
    }
  }

  // ---------------------------------------------------------------- talkers

  /** `msrpdu_talker_fail_t` */
  datatype Talker = Talker(stream: seq<byte>, dest: seq<byte>, vlan: int, frameSize: int, interval: int,
                           rank: byte, latency: int, bridge: seq<byte>, failure: byte)

  ghost predicate WellFormed(t: Talker) {
    && |t.stream| == 8 && |t.dest| == 6 && |t.bridge| == 8
    && 0 <= t.vlan < 0x1_0000 && 0 <= t.frameSize < 0x1_0000 && 0 <= t.interval < 0x1_0000
    && 0 <= t.latency < 0x1_0000_0000
  }

  /** The fields as they are put on the wire; Advertise stops before the failure information. */
  function TalkerBytes(t: Talker): seq<byte> {
    t.stream + t.dest + [Hi(t.vlan), Lo(t.vlan)] + [Hi(t.frameSize), Lo(t.frameSize)] + [Hi(t.interval), Lo(t.interval)]
    + [t.rank] + [t.latency / 0x100_0000 % 256, t.latency / 0x1_0000 % 256, t.latency / 0x100 % 256, t.latency % 256]
    + t.bridge + [t.failure]
  }

  const NO_BRIDGE: seq<byte> := [0, 0, 0, 0, 0, 0, 0, 0]

  function Word32(b: seq<byte>, i: int): int {
    Word(b, i) * 0x1_0000 + Word(b, i + 2)
  }

  /** The receiver's side: a stored talker from the bytes of a first value. */
  function TalkerOf(b: seq<byte>): Talker
    requires |b| == 25 || |b| == 34
  {
    Talker(b[..8], b[8..14], Word(b, 14), Word(b, 16), Word(b, 18), b[20], Word32(b, 21),
           if |b| == 34 then b[25..33] else NO_BRIDGE, if |b| == 34 then b[33] else 0)
  }

  lemma WordParts(w: int)
    requires 0 <= w < 0x1_0000
    ensures Hi(w) as int * 256 + Lo(w) == w
  {
  }

  lemma LatencyParts(w: int)
    requires 0 <= w < 0x1_0000_0000
    ensures (w / 0x100_0000 % 256 * 256 + w / 0x1_0000 % 256) * 0x1_0000 + (w / 0x100 % 256 * 256 + w % 256) == w
  {
    Shifts(w);
    var q1 := w / 0x100;
    var q2 := q1 / 256;
    var q3 := q2 / 256;
  }

  /** Every field comes back from the 34 bytes of a Failed declaration, and all but the failure
      information from the 25 bytes of an Advertise. */
  lemma TalkerRoundTrip(t: Talker)
    requires WellFormed(t)
    ensures |TalkerBytes(t)| == 34
    ensures TalkerOf(TalkerBytes(t)) == t
    ensures TalkerOf(TalkerBytes(t)[..25]) == t.(bridge := NO_BRIDGE, failure := 0)
  {
    var b := TalkerBytes(t);
    WordParts(t.vlan);
    WordParts(t.frameSize);
    WordParts(t.interval);
    LatencyParts(t.latency);
    assert b[..8] == t.stream && b[8..14] == t.dest && b[25..33] == t.bridge;
    var c := b[..25];
    assert c[..8] == t.stream && c[8..14] == t.dest;
  }
}
