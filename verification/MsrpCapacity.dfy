/** Which attributes an MSRP message has room for, counted in the bytes of the vectors before them. */
module MsrpCapacity {
  import opened Mrp
  import opened Wire
  import opened MsrpCodec
  import opened MsrpRoundTrip
  import opened MsrpMessages
  import opened MsrpSender

  /** A vector is begun only in front of this position of a message in `room` bytes. */
  function StartLimit(fmt: Format, room: int): int {
    match fmt
    case AdvertiseFormat => room - 30
    case FailedFormat => room - 39
    case ListenerFormat => room - 15
    case DomainFormat => room - 7
  }

  /** The emitter's write position behind `b` bytes of vectors. */
  function Position(b: nat): nat {
    if b == 0 then 0 else 4 + b
  }

  /** All vectors that are begun: their bytes, and how many values the last one has. */
  datatype Begun = Begun(bytes: nat, last: nat)

  function Attempted(fmt: Format, os: seq<Offer>, b: nat, room: int): Begun
    requires WellFormedOffers(fmt, os)
    decreases |os|
  {
    if os == [] || Position(b) >= StartLimit(fmt, room) then Begun(0, 0)
    else if !Mandatory(os[0]) then Attempted(fmt, os[1..], b, room)
    else
      var n := VectorLength(fmt, os);
      var rest := Attempted(fmt, os[n..], b + VectorSize(fmt, n), room);
      Begun(VectorSize(fmt, n) + rest.bytes, if rest.bytes == 0 then n else rest.last)
  }

  /** The bytes of the vectors that come before the one with offer `i` in it. */
  function BytesBefore(fmt: Format, os: seq<Offer>, i: nat): nat
    requires WellFormedOffers(fmt, os) && i < |os|
    decreases |os|
  {
    if !Mandatory(os[0]) then if i == 0 then 0 else BytesBefore(fmt, os[1..], i - 1)
    else
      var n := VectorLength(fmt, os);
      if i < n then 0 else VectorSize(fmt, n) + BytesBefore(fmt, os[n..], i - n)
  }

  // ---------------------------------------------------------------- when a message goes out

  /** Does what is begun behind `b` bytes leave two bytes for the endmark? A listener vector whose substates fill their
      last byte needs one more. */
  predicate LeavesRoom(fmt: Format, a: Begun, b: nat, room: int) {
    4 + b + a.bytes + (if fmt == ListenerFormat && a.last % 4 == 0 then 1 else 0) <= room - 2
  }

  /** A vector that is followed by another did not overrun. */
  lemma {:induction false} BegunBehind(fmt: Format, os: seq<Offer>, b: nat, room: int)
    requires WellFormedOffers(fmt, os) && Attempted(fmt, os, b, room).bytes > 0
    ensures Position(b) < StartLimit(fmt, room)
  {
  }

  /** The emitter fails exactly if the last vector it begins overruns the buffer; otherwise it writes them all. */
  lemma {:induction false} EmitAttempts(fmt: Format, os: seq<Offer>, b: nat, room: int, lva: bool)
    requires WellFormedOffers(fmt, os) && MineEncodable(os)
    ensures var a, v := Attempted(fmt, os, b, room), EmitVectors(fmt, os, Position(b), room, lva);
            if a.bytes == 0 then v == Vectors([])
            else if LeavesRoom(fmt, a, b, room) then v.Vectors? && |v.bytes| == a.bytes
            else v.Oops?
    decreases |os|
  {
    hide VectorBytes, VectorLength, MineEncodable, AllEncodable, WellFormedOffers, EventBytes;
    if os != [] && Position(b) < StartLimit(fmt, room) {
      if !Mandatory(os[0]) {
        LaterOffers(fmt, os, 1);
        EmitAttempts(fmt, os[1..], b, room, lva);
      } else {
        var n := HeadLength(fmt, os);
        RunEncodable(fmt, os);
        LaterOffers(fmt, os, n);
        var end := b + VectorSize(fmt, n);
        EmitAttempts(fmt, os[n..], end, room, false);
        if Attempted(fmt, os[n..], end, room).bytes > 0 {
          BegunBehind(fmt, os[n..], end, room);
        }
      }
    }
  }

  lemma HeadLength(fmt: Format, os: seq<Offer>) returns (n: nat)
    requires WellFormedOffers(fmt, os) && os != [] && os[0].mine
    ensures |os[0].full| == FullLen(fmt) && n == VectorLength(fmt, os)
  {
    n := VectorLength(fmt, os);
  }

  /** A message goes out if and only if there is room for a vector at all and what is begun leaves room for the endmark;
      with nothing begun it is empty, or an empty LeaveAll if one is due. */
  lemma MessageGoesOutIff(fmt: Format, os: seq<Offer>, room: int, lva: bool, sendEmpty: bool)
    requires WellFormedOffers(fmt, os) && MineEncodable(os)
    ensures var a, m := Attempted(fmt, os, 0, room), EmitMessage(fmt, os, room, lva, sendEmpty);
            && (m.Some? <==> room >= (match fmt case AdvertiseFormat => 28 case FailedFormat => 37
                                                case ListenerFormat => 13 case DomainFormat => 5)
                             && (a.bytes == 0 || LeavesRoom(fmt, a, 0, room)))
            && (m.Some? ==>
                  |m.value| == if a.bytes > 0 then a.bytes + 6 else if sendEmpty then FirstLen(fmt) + 8 else 0)
  {
    hide EmitVectors, Attempted, LeavesRoom;
    EmitAttempts(fmt, os, 0, room, lva);
  }

  // ---------------------------------------------------------------- what a message carries

  lemma {:induction false} SentHead(fmt: Format, os: seq<Offer>, b: nat, room: int, i: nat)
    requires WellFormedOffers(fmt, os) && DifferentStreams(fmt, os) && i < |os| && os[i].mine
    requires Mandatory(os[0]) && Position(b) < StartLimit(fmt, room)
    ensures var n, x := VectorLength(fmt, os), ItemOf(fmt, os[i]);
            x in Sent(fmt, os, Position(b), room) <==>
            i < n || x in Sent(fmt, os[n..], Position(b + VectorSize(fmt, n)), room)
  {
    hide VectorLength, ItemOf, FullChain, Advance;
    var n := HeadLength(fmt, os);
    var x := ItemOf(fmt, os[i]);
    RunFacts(fmt, os);
    RunAllMine(fmt, os);
    ChainIsMine(fmt, os[..n]);
    var head := ItemsOf(fmt, os[..n]);
    if i < n {
      assert head[i] == x;
    } else {
      forall k | 0 <= k < n ensures head[k] != x {
        assert os[..n][k] == os[k];
        ItemStream(fmt, os[k]);
        ItemStream(fmt, os[i]);
      }
    }
  }

  /** A mandatory attribute is sent if and only if the vectors before its own end in front of the limit. */
  lemma {:induction false} SentIff(fmt: Format, os: seq<Offer>, b: nat, room: int, i: nat)
    requires WellFormedOffers(fmt, os) && DifferentStreams(fmt, os) && i < |os| && Mandatory(os[i])
    ensures ItemOf(fmt, os[i]) in Sent(fmt, os, Position(b), room) <==>
            Position(b + BytesBefore(fmt, os, i)) < StartLimit(fmt, room)
    decreases |os|
  {
    hide VectorLength, ItemOf, VectorSize, DifferentStreams, WellFormedOffers;
    if Position(b) < StartLimit(fmt, room) {
      if !Mandatory(os[0]) {
        LaterDifferent(fmt, os, 1);
        SentIff(fmt, os[1..], b, room, i - 1);
      } else {
        var n := HeadLength(fmt, os);
        SentHead(fmt, os, b, room, i);
        if i >= n {
          LaterDifferent(fmt, os, n);
          SentIff(fmt, os[n..], b + VectorSize(fmt, n), room, i - n);
        }
      }
    }
  }
}
