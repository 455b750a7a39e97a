/** MSRP frames byte by byte, as IEEE 802.1Q-2011 sections 10.8 and 35.2.2 lay them out. */
module MsrpBytes {
  import opened Mrp
  import opened Participant
  import opened Msrp
  import opened Wire
  import Eui64
  import opened StreamValues
  import opened MsrpCodec
  import opened MsrpMessages
  import opened MsrpFrames
  import opened MsrpStations

  /** Attribute type, length of a value, and length of a list with one value and its endmark. */
  function Head(kind: Kind): seq<byte> {
    match kind
    case TalkerAdvertise => [1, 25, 0, 30]
    case TalkerFailed => [2, 34, 0, 39]
    case Listener => [3, 8, 0, 14]
    case Domain => [4, 4, 0, 9]
  }

  /** What the first value of a vector spells out. */
  function Value(r: Declaration): (v: seq<byte>)
    requires WellTyped(r)
    ensures |v| == match r.kind case TalkerAdvertise => 25 case TalkerFailed => 34 case Listener => 8 case Domain => 4
  {
    match r.kind
    case TalkerAdvertise => Eui64.Write(r.number) + r.body.rest
    case TalkerFailed => Eui64.Write(r.number) + r.body.rest + r.body.bridge + [r.body.failure]
    case Listener => Eui64.Write(r.number)
    case Domain => [r.number, r.body.priority, r.body.vid / 256, r.body.vid % 256]
  }

  /** The one message of a station that has just been asked to join `r`: the head, one value without LeaveAll, the value
      itself, JoinMt in the first place of its byte (3 times 36), for a listener the substate in the first place of its
      byte, and the endmark. */
  function JoinMessage(r: Declaration): (m: seq<byte>)
    requires WellTyped(r) && (r.kind == Listener ==> 0 <= r.substate < 4)
    ensures 0 < |m| < 60
  {
    Head(r.kind) + ([0, 1] + Value(r) + [108] + (if r.kind == Listener then [64 * r.substate] else []) + [0, 0])
  }

  function FormatFor(kind: Kind): Format {
    match kind
    case TalkerAdvertise => AdvertiseFormat
    case TalkerFailed => FailedFormat
    case Listener => ListenerFormat
    case Domain => DomainFormat
  }

  /** What the emitter of the right kind finds. */
  function JoinOffer(r: Declaration): Offer
    requires WellTyped(r)
  {
    Offer(true, true, false, Some(3), FullOf(r), r.substate)
  }

  lemma OneVector(r: Declaration, room: int)
    requires WellTyped(r) && 100 <= room
    ensures var fmt, os := FormatFor(r.kind), [JoinOffer(r)];
            WellFormedOffers(fmt, os) && EmitVectors(fmt, os, 0, room, false) == Vectors(VectorBytes(fmt, false, os))
  {
    hide VectorBytes, FullOf;
    var fmt, os := FormatFor(r.kind), [JoinOffer(r)];
    FieldsBack(fmt, r, 3, if fmt == ListenerFormat then r.substate else 0);
    assert os[1..] == [] && VectorLength(fmt, os) == 1 && os[..1] == os;
    assert EmitVectors(fmt, [], 4 + VectorSize(fmt, 1), room, false) == Vectors([]);
    assert VectorBytes(fmt, false, os) + [] == VectorBytes(fmt, false, os);
  }

  lemma VectorFormat(r: Declaration)
    requires WellTyped(r) && (r.kind == Listener ==> 0 <= r.substate < 4) && |FullOf(r)| == FullLen(FormatFor(r.kind))
    ensures var fmt, os := FormatFor(r.kind), [JoinOffer(r)];
            VectorBytes(fmt, false, os) == [0, 1] + FullOf(r)[..FirstLen(fmt)] + [108]
                                           + (if fmt == ListenerFormat then [64 * r.substate] else [])
  {
    hide FullOf, PackAll, Pack4All, Packed, Header, WellTyped;
    var fmt, os := FormatFor(r.kind), [JoinOffer(r)];
    HeaderBytes(1, false);
    JoinByte();
    assert CodesOf(os) == [3] && SubstatesOf(os) == [r.substate];
    if fmt == ListenerFormat {
      SubstateByte(r.substate);
    }
  }

  lemma JoinByte()
    ensures PackAll([3]) == [108]
  {
    hide PackAll;
    PackedIs([3]);
  }

  lemma SubstateByte(substate: int)
    requires 0 <= substate < 4
    ensures Pack4All([substate]) == [64 * substate]
  {
  }

  lemma MessageBytes(r: Declaration, room: int, lva: bool)
    requires WellTyped(r) && (r.kind == Listener ==> 0 <= r.substate < 4) && 100 <= room && !lva
    ensures var fmt, os := FormatFor(r.kind), [JoinOffer(r)];
            WellFormedOffers(fmt, os) && EmitMessage(fmt, os, room, lva, false) == Some(JoinMessage(r))
  {
    hide EmitVectors, VectorBytes, FullOf, JoinMessage;
    var fmt := FormatFor(r.kind);
    FieldsBack(fmt, r, 3, if fmt == ListenerFormat then r.substate else 0);
    OneVector(r, room);
    VectorFormat(r);
    Assembled(r);
  }

  lemma Assembled(r: Declaration)
    requires WellTyped(r) && (r.kind == Listener ==> 0 <= r.substate < 4)
    ensures var fmt := FormatFor(r.kind);
            Message(fmt, [0, 1] + FullOf(r)[..FirstLen(fmt)] + [108]
                         + (if fmt == ListenerFormat then [64 * r.substate] else [])) == JoinMessage(r)
  {
    hide FullOf, Value;
    ValueBytes(r);
  }

  lemma ValueBytes(r: Declaration)
    requires WellTyped(r)
    ensures FullOf(r)[..FirstLen(FormatFor(r.kind))] == Value(r)
  {
    hide Eui64.Write;
  }

  /** Nothing of another kind is said. */
  lemma NothingElse(fmt: Format, x: Attribute, e: Event, room: int, lva: bool)
    requires WellTyped(x.key) && x.key.kind != KindOf(fmt) && 100 <= room
    ensures var os := OffersFor(fmt, [x], e);
            WellFormedOffers(fmt, os) && EmitMessage(fmt, os, room, lva, false) == Some([])
  {
    hide AppRequest, PduCode, RegNext, FullOf, WellTyped, VectorBytes, VectorLength;
    var os := OffersFor(fmt, [x], e);
    assert os[1..] == [];
    assert EmitVectors(fmt, [], 0, room, lva) == Vectors([]);
  }

  /** The frame of a station whose only attribute its client has just asked it to join: destination 01-80-C2-00-00-0E,
      EtherType 22-EA, protocol version 0, the one message and the endmark of the frame. */
  lemma FrameBytes(station: seq<byte>, r: Declaration, t: Timers, p2p: bool)
    requires WellTyped(r) && (r.kind == Listener ==> 0 <= r.substate < 4) && !t.laTx
    ensures var db := Db([Entry(r, VP, MT)], t, p2p);
            && Valid(db)
            && FrameOf(station, db, Transmit) ==
               Some([0x01, 0x80, 0xC2, 0x00, 0x00, 0x0E] + station + [0x22, 0xEA, 0x00] + JoinMessage(r) + [0, 0])
  {
    hide EmitMessage, FullOf, JoinMessage, WellTyped;
    var x := Entry(r, VP, MT);
    var es := [x];
    var q := Offering(es, Tx);
    forall fmt ensures WellFormedOffers(fmt, q.For(fmt)) && EmitsOnly(fmt, r, q.For(fmt)) {
      if fmt == FormatFor(r.kind) {
        assert OffersFor(fmt, es, Tx) == [JoinOffer(r)];
        forall room: int | 100 <= room { MessageBytes(r, room, false); }
      } else {
        forall room: int | 100 <= room { NothingElse(fmt, x, Tx, room, false); }
      }
    }
    OneMessage(q, r);
  }

  /** With any room to speak of, the emitter of the right kind writes the message and the others nothing. */
  ghost predicate EmitsOnly(fmt: Format, r: Declaration, os: seq<Offer>)
    requires WellFormedOffers(fmt, os) && WellTyped(r) && (r.kind == Listener ==> 0 <= r.substate < 4)
  {
    forall room: int :: 100 <= room ==>
      EmitMessage(fmt, os, room, false, false) == Some(if fmt == FormatFor(r.kind) then JoinMessage(r) else [])
  }

  lemma NextMessage(q: Offers, r: Declaration, n: nat, list: seq<byte>)
    requires WellFormedAll(q) && WellTyped(r) && (r.kind == Listener ==> 0 <= r.substate < 4)
    requires n < 4 && EmitsOnly(Nth(n), r, q.For(Nth(n))) && Messages(q, false, false, n) == Some(list) && |list| < 60
    ensures Messages(q, false, false, n + 1)
         == Some(list + if Nth(n) == FormatFor(r.kind) then JoinMessage(r) else [])
  {
    hide EmitMessage, JoinMessage, WellTyped;
    assert 100 <= ROOM - |list|;
  }

  lemma OneMessage(q: Offers, r: Declaration)
    requires WellFormedAll(q) && WellTyped(r) && (r.kind == Listener ==> 0 <= r.substate < 4)
    requires forall fmt :: EmitsOnly(fmt, r, q.For(fmt))
    ensures Messages(q, false, false, 4) == Some(JoinMessage(r))
  {
    hide EmitsOnly, JoinMessage, WellTyped, Messages;
    var m := JoinMessage(r);
    assert forall n: nat :: EmitsOnly(Nth(n), r, q.For(Nth(n)));
    assert Messages(q, false, false, 0) == Some([]) by { Start(q); }
    NextMessage(q, r, 0, []);
    var l1 := if AdvertiseFormat == FormatFor(r.kind) then m else [];
    assert [] + l1 == l1;
    NextMessage(q, r, 1, l1);
    var l2 := if r.kind == TalkerAdvertise || r.kind == TalkerFailed then m else [];
    assert l1 + (if FailedFormat == FormatFor(r.kind) then m else []) == l2;
    NextMessage(q, r, 2, l2);
    var l3 := if r.kind == Domain then [] else m;
    assert l2 + (if ListenerFormat == FormatFor(r.kind) then m else []) == l3;
    NextMessage(q, r, 3, l3);
    assert l3 + (if DomainFormat == FormatFor(r.kind) then m else []) == m;
  }

  lemma Start(q: Offers)
    requires WellFormedAll(q)
    ensures Messages(q, false, false, 0) == Some([])
  {
  }

  // ---------------------------------------------------------------- what a receiver does not accept

  predicate HasHeader(frame: seq<byte>) {
    |frame| >= 17 && frame[..6] == [0x01, 0x80, 0xC2, 0x00, 0x00, 0x0E] && frame[12] == 0x22 && frame[13] == 0xEA
  }

  /** Frames that are too short, or not addressed to MSRP, raise nothing. */
  lemma ForeignFrameIgnored(frame: seq<byte>)
    requires !HasHeader(frame)
    ensures Dispatch(frame) == []
  {
  }

  /** The lengths that belong to the types. */
  predicate KnownMessage(t: byte, length: byte) {
    (t == 1 && length == 25) || (t == 2 && length == 34) || (t == 3 && length == 8) || (t == 4 && length == 4)
  }

  /** A message raises something only if its type is known, its length belongs to the type, and its list is long enough
      for one value, ends inside the frame and is followed there by an endmark. */
  lemma ListenedTo(buf: seq<byte>, p: int, eof: int, saw: set<Format>)
    requires 0 <= p
    ensures var r, size := ReadMessage(buf, p, eof, saw), Word(buf, p + 2);
            r.Some? && r.value.scan.heard != [] ==>
              && KnownMessage(ByteAt(buf, p), ByteAt(buf, p + 1)) && size >= ByteAt(buf, p + 1) + 3
              && p + 2 + size < eof && ByteAt(buf, p + 2 + size) == 0 && ByteAt(buf, p + 3 + size) == 0
  {
    hide ScanVectors, Word;
  }

  /** A frame that begins with an unknown message raises nothing. */
  lemma BadMessageEnds(frame: seq<byte>)
    requires HasHeader(frame) && |frame| >= 18 && frame[15] != 0 && !KnownMessage(frame[15], frame[16])
    ensures Dispatch(frame) == []
  {
    hide ScanVectors;
  }

  /** A vector with more values than the frame holds ends the parsing; only its LeaveAll is taken. */
  lemma BadVectorEnds(fmt: Format, buf: seq<byte>, p: int, eof: int, saw: bool)
    requires 0 <= p && Word(buf, p) % 8192 != 0
    requires var n := Word(buf, p) % 8192;
             if fmt == ListenerFormat then p + 10 + (n + 2) / 3 + (n + 3) / 4 >= eof else p + 2 + n / 3 >= eof
    ensures ScanVectors(fmt, buf, p, eof, saw, []).heard
         == if Word(buf, p) / 8192 == 1 && !saw then [LeaveAll] else []
  {
    hide VectorItems;
  }

  /** A message whose list claims to be too short for a value: type, length, list length, NumberOfValues, a value, and
      the events and substates that belong to that number of values. */
  function ShortMessage(t: byte, size: nat, n: nat, first: seq<byte>, events: seq<byte>): seq<byte>
    requires |first| < 256 && size < 0x1_0000 && n < 8192
  {
    [t, |first|, size / 256, size % 256, n / 256, n % 256] + (first + events)
  }

  /** Such a message raises nothing, and parsing resumes behind it. */
  lemma ShortMessageSkipped(buf: seq<byte>, p: nat, eof: int, saw: set<Format>, t: byte, size: nat, n: nat,
                            first: seq<byte>, events: seq<byte>)
    requires |first| < 256 && KnownMessage(t, |first|) && size < |first| + 3 && n < 8192
    requires |events| == (n + 2) / 3 + if t == 3 then (n + 3) / 4 else 0
    requires Holds(buf, p, ShortMessage(t, size, n, first, events))
    ensures var r := ReadMessage(buf, p, eof, saw);
            && r.Some? && r.value.scan.heard == []
            && r.value.scan.next == Some(p + |ShortMessage(t, size, n, first, events)|)
  {
    hide ScanVectors, Word, Holds;
    var h: seq<byte> := [t, |first|, size / 256, size % 256, n / 256, n % 256];
    HoldsSplit(buf, p, h, first + events);
    HoldsAt(buf, p, h, 0);
    HoldsAt(buf, p, h, 1);
    WordAt(buf, p, h, 2, size);
    WordAt(buf, p, h, 4, n);
  }
}
