/** MVRP frames byte by byte, as IEEE 802.1Q-2011 sections 10.8 and 11.2 lay them out. */
module MvrpBytes {
  import opened Mrp
  import opened Participant
  import opened Mvrp
  import opened Wire
  import opened MvrpCodec
  import opened MvrpFrames
  import opened Convergence

  /** Mandatory attributes with consecutive VIDs, which make up one vector. */
  function RunOf(first: int, cs: seq<int>): (os: seq<Offer>)
    ensures |os| == |cs| && forall i :: 0 <= i < |cs| ==> os[i] == Offer(first + i, true, false, Some(cs[i]))
  {
    seq(|cs|, i requires 0 <= i < |cs| => Offer(first + i, true, false, Some(cs[i])))
  }

  lemma {:induction false} RunIsWhole(first: int, cs: seq<int>)
    requires 0 <= first && first + |cs| <= 0xFFFF
    ensures RunLength(RunOf(first + 1, cs), first) == |cs|
    decreases |cs|
  {
    if cs != [] {
      var os := RunOf(first + 1, cs);
      assert os[1..] == RunOf(first + 2, cs[1..]);
      RunIsWhole(first + 1, cs[1..]);
    }
  }

  lemma OneVector(first: int, cs: seq<int>, lva: bool)
    requires Codes(cs) && cs != [] && 0 <= first && first + |cs| <= 0x10000 && |cs| <= 5900
    ensures EmitVectors(RunOf(first, cs), 0, ROOM, lva) == Vectors(VectorBytes(lva, first, cs))
  {
    hide VectorBytes;
    var os := RunOf(first, cs);
    assert os[1..] == RunOf(first + 1, cs[1..]);
    RunIsWhole(first, cs[1..]);
    assert VectorLength(os) == |cs| && os[..|cs|] == os && os[|cs|..] == [];
    assert CodesOf(os) == cs;
    assert EmitVectors([], 2 + VectorSize(|cs|), ROOM, false) == Vectors([]);
  }

  lemma VectorFormat(first: int, cs: seq<int>, lva: bool)
    requires Codes(cs) && 0 <= first < 0x10000 && |cs| <= 5900
    ensures VectorBytes(lva, first, cs)
         == [(if lva then 32 else 0) + |cs| / 256, |cs| % 256, first / 256, first % 256] + Packed(cs)
  {
    hide PackAll, Packed;
    PackedIs(cs);
    HeaderBytes(|cs|, lva);
  }

  /** The frame that announces `cs` for the VIDs from `first` on: destination 01-80-C2-00-00-21, EtherType 88-F5,
      protocol version 0, attribute type 1 of length 2, LeaveAllEvent times 8192 plus NumberOfValues, the first VID,
      the packed events, and two endmarks. */
  lemma FrameBytes(station: seq<byte>, first: int, cs: seq<int>, lva: bool, sendEmpty: bool)
    requires Codes(cs) && cs != [] && 0 <= first && first + |cs| <= 0x10000 && |cs| <= 5900
    ensures BuildFrame(station, RunOf(first, cs), lva, sendEmpty) ==
            Some([0x01, 0x80, 0xC2, 0x00, 0x00, 0x21] + station + [0x88, 0xF5, 0x00]
                 + ([1, 2]
                    + ([(if lva then 32 else 0) + |cs| / 256, |cs| % 256, first / 256, first % 256] + Packed(cs))
                    + [0, 0])
                 + [0, 0])
  {
    hide EmitVectors, Packed, VectorBytes;
    OneVector(first, cs, lva);
    VectorFormat(first, cs, lva);
  }

  /** A station in whose database the six messages occur once each, in the order of their codes. */
  function AllMessages(first: int): seq<Vlan> {
    [Entry(first, VN, MT), Entry(first + 1, VP, IN), Entry(first + 2, LO, IN),
     Entry(first + 3, VP, MT), Entry(first + 4, LO, LV), Entry(first + 5, LA, IN)]
  }

  lemma AllMessagesOffers(first: int)
    ensures OffersAfter(AllMessages(first), Tx) == RunOf(first, [0, 1, 2, 3, 4, 5])
  {
  }

  /** New is 0, JoinIn 1, In 2, JoinMt 3, Mt 4 and Lv 5. */
  lemma AllMessagesFrame(station: seq<byte>, first: int, t: Timers, p2p: bool)
    requires 0 <= first <= 0xFFFA && !t.laTx
    ensures FrameOf(station, Db(AllMessages(first), t, p2p), Transmit) ==
            Some([0x01, 0x80, 0xC2, 0x00, 0x00, 0x21] + station + [0x88, 0xF5, 0x00]
                 + ([1, 2] + ([0, 6, first / 256, first % 256] + [0 * 36 + 1 * 6 + 2, 3 * 36 + 4 * 6 + 5]) + [0, 0])
                 + [0, 0])
  {
    hide BuildFrame, PduCode, Packed;
    var es, cs := AllMessages(first), [0, 1, 2, 3, 4, 5];
    AllMessagesOffers(first);
    assert Packed(cs) == [0 * 36 + 1 * 6 + 2, 3 * 36 + 4 * 6 + 5];
    FrameBytes(station, first, cs, false, false);
  }

  // ---------------------------------------------------------------- what a receiver does not accept

  predicate HasHeader(frame: seq<byte>) {
    |frame| >= 17 && frame[..6] == [0x01, 0x80, 0xC2, 0x00, 0x00, 0x21] && frame[12] == 0x88 && frame[13] == 0xF5
  }

  /** Frames that are too short, or not addressed to MVRP, raise nothing. */
  lemma ForeignFrameIgnored(frame: seq<byte>)
    requires !HasHeader(frame)
    ensures Dispatch(frame) == []
  {
  }

  /** A vector without values, or with more values than the frame holds, ends the parsing: of the frame that begins with
      it only a LeaveAll is taken. */
  lemma BadVectorEnds(frame: seq<byte>)
    requires HasHeader(frame) && |frame| >= 19 && frame[15] == 1 && frame[16] == 2
    requires var h := Word(frame, 17); h != 0 && (h % 8192 == 0 || 19 + h % 8192 / 3 >= |frame|)
    ensures Dispatch(frame) == if Word(frame, 17) / 8192 == 1 then [RecvLeaveAll] else []
  {
    hide ScanMessages, ScanVectors;
    var h := Word(frame, 17);
    BadVector(frame, |frame|);
    ScanVidMessage(frame, 15, |frame|, false, [], ScanVectors(frame, 17, |frame|, false, []));
  }

  lemma BadVector(frame: seq<byte>, eof: int)
    requires var h := Word(frame, 17); h != 0 && (h % 8192 == 0 || 19 + h % 8192 / 3 >= eof)
    ensures var s := ScanVectors(frame, 17, eof, false, []);
            s.next.None? && s.inputs == if Word(frame, 17) / 8192 == 1 then [RecvLeaveAll] else []
  {
  }

  /** A message of an unknown type ends the parsing of a frame of protocol version 0, and so does a VID message with the
      wrong length in any version. */
  lemma BadMessageEnds(frame: seq<byte>)
    requires HasHeader(frame) && |frame| >= 18 && frame[15] != 0
    requires if frame[15] == 1 then frame[16] != 2 else frame[14] == 0
    ensures Dispatch(frame) == []
  {
    hide ScanVectors;
  }

  /** A message of a type that only a newer version knows, with one vector of `n` values and an endmark. */
  function NewerMessage(t: byte, n: nat, first: seq<byte>, events: seq<byte>): seq<byte>
    requires |first| < 256 && n < 8192
  {
    [t, |first|, n / 256, n % 256] + (first + events + [0, 0])
  }

  /** In a frame of a newer version such a message is passed over, and parsing resumes behind it. */
  lemma NewerMessageSkipped(buf: seq<byte>, p: int, eof: int, saw: bool, done: seq<Input>, t: byte, n: nat,
                            first: seq<byte>, events: seq<byte>)
    requires t > 1 && |first| < 256 && n < 8192 && |events| == (n + 2) / 3 && ByteAt(buf, 14) != 0
    requires Holds(buf, p, NewerMessage(t, n, first, events)) && p + |NewerMessage(t, n, first, events)| <= eof - 2
    ensures ScanMessages(buf, p, eof, 0, saw, done)
         == ScanMessages(buf, p + |NewerMessage(t, n, first, events)|, eof, 1, saw, done)
  {
    hide ScanMessages, Holds, Word;
    var h: seq<byte> := [t, |first|, n / 256, n % 256];
    HoldsSplit(buf, p, h, first + events + [0, 0]);
    HoldsSplit(buf, p + 4, first + events, [0, 0]);
    HoldsAt(buf, p, h, 0);
    HoldsAt(buf, p, h, 1);
    WordAt(buf, p, h, 2, n);
    assert 0 <= p by { assert Holds(buf, p, h); HoldsInside(buf, p, h); }
    var q := p + 4 + |first| + |events|;
    SkipNewer(buf, p, eof, saw, done, q);
    WordAt(buf, q, [0, 0], 0, 0);
    OneEndmark(buf, q, eof, saw, done);
  }

  lemma HoldsInside(buf: seq<byte>, p: int, bs: seq<byte>)
    requires Holds(buf, p, bs)
    ensures 0 <= p
  {
  }

  lemma SkipNewer(buf: seq<byte>, p: int, eof: int, saw: bool, done: seq<Input>, q: int)
    requires 0 <= p < eof - 2 && ByteAt(buf, p) > 1 && ByteAt(buf, 14) != 0 && Word(buf, p + 2) < 8192
    requires q == p + 4 + ByteAt(buf, p + 1) + (Word(buf, p + 2) + 2) / 3
    ensures ScanMessages(buf, p, eof, 0, saw, done) == ScanMessages(buf, q, eof, 0, saw, done)
  {
    hide ScanVectors;
  }

  lemma OneEndmark(buf: seq<byte>, q: int, eof: int, saw: bool, done: seq<Input>)
    requires 0 <= q < eof - 2 && Word(buf, q) == 0
    ensures ScanMessages(buf, q, eof, 0, saw, done) == ScanMessages(buf, q + 2, eof, 1, saw, done)
  {
    hide ScanVectors, Word;
  }
}
