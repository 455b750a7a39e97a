/** Whole MVRP frames: the receiver undoes the sender, what a frame selects for sending, and exactly
    when everything selected fits. */
module MvrpFrames {
  import opened Mrp
  import opened Participant
  import opened Mvrp
  import opened Wire
  import opened MvrpCodec
  import opened MvrpRoundTrip

  // ---------------------------------------------------------------- the frame round trip

  lemma ScanVidMessage(buf: seq<byte>, p: int, eof: int, saw: bool, done: seq<Input>, s: Scan)
    requires 0 <= p < eof - 2 && ByteAt(buf, p) == VID_TYPE && ByteAt(buf, p + 1) == 2
    requires s == ScanVectors(buf, p + 2, eof, saw, done)
    ensures ScanMessages(buf, p, eof, 0, saw, done)
         == if s.next.None? then s.inputs else ScanMessages(buf, s.next.value, eof, 0, s.saw, s.inputs)
  {
    hide ScanVectors;
  }

  /** The endmarks of the message and of the frame end the parsing, padding or not. */
  lemma ScanEnd(buf: seq<byte>, p: int, eof: int, saw: bool, done: seq<Input>)
    requires 0 <= p && Holds(buf, p, [0, 0]) && Holds(buf, p + 2, [0, 0]) && eof >= p + 4
    ensures ScanMessages(buf, p, eof, 0, saw, done) == done
  {
    WordAt(buf, p, [0, 0], 0, 0);
    WordAt(buf, p + 2, [0, 0], 0, 0);
    assert ScanMessages(buf, p, eof, 0, saw, done) == ScanMessages(buf, p + 2, eof, 1, saw, done);
  }

  lemma VidMessage(buf: seq<byte>, p: int, eof: int, s: Scan)
    requires 0 <= p < eof - 2 && Holds(buf, p, [VID_TYPE, 2])
    requires s == ScanVectors(buf, p + 2, eof, false, [])
    ensures ScanMessages(buf, p, eof, 0, false, [])
         == if s.next.None? then s.inputs else ScanMessages(buf, s.next.value, eof, 0, s.saw, s.inputs)
  {
    hide ScanVectors, ScanMessages;
    HoldsAt(buf, p, [VID_TYPE, 2], 0);
    HoldsAt(buf, p, [VID_TYPE, 2], 1);
    ScanVidMessage(buf, p, eof, false, [], s);
  }

  lemma MessageScan(buf: seq<byte>, p: int, eof: int, lva: bool, bs: seq<byte>, items: seq<Item>, s: Scan)
    requires Holds(buf, p, [VID_TYPE, 2]) && eof >= p + |bs| + 6
    requires Holds(buf, p + 2 + |bs|, [0, 0]) && Holds(buf, p + 4 + |bs|, [0, 0])
    requires s == ScanVectors(buf, p + 2, eof, false, [])
    requires s == Expected(p + 2, false, [], lva, bs, items)
    ensures ScanMessages(buf, p, eof, 0, false, []) == s.inputs
  {
    hide ScanVectors, ScanMessages, LaInputs, Deliver;
    VidMessage(buf, p, eof, s);
    ScanEnd(buf, s.next.value, eof, s.saw, s.inputs);
  }

  lemma ScanLeaveAllOnly(buf: seq<byte>, p: int, eof: int)
    requires 0 <= p && Word(buf, p) == LVA_FLAG
    ensures ScanVectors(buf, p, eof, false, []) == Scan([RecvLeaveAll], None, true)
  {
    assert [] + LaInputs(true) == [RecvLeaveAll];
  }

  lemma EmptyMessageScan(buf: seq<byte>, p: int, eof: int)
    requires 0 <= p < eof - 2 && Holds(buf, p, [VID_TYPE, 2]) && Holds(buf, p + 2, EMPTY_LEAVEALL)
    ensures ScanMessages(buf, p, eof, 0, false, []) == [RecvLeaveAll]
  {
    WordAt(buf, p + 2, EMPTY_LEAVEALL, 0, LVA_FLAG);
    ScanLeaveAllOnly(buf, p + 2, eof);
    VidMessage(buf, p, eof, Scan([RecvLeaveAll], None, true));
  }

  lemma FrameLayout(station: seq<byte>, bs: seq<byte>, frame: seq<byte>)
    requires |station| == 6 && frame == FrameHeader(station) + ([VID_TYPE, 2] + bs + [0, 0]) + [0, 0]
    ensures |frame| == MESSAGE_START + |bs| + 6
    ensures Holds(frame, 0, FrameHeader(station))
    ensures Holds(frame, MESSAGE_START, [VID_TYPE, 2]) && Holds(frame, MESSAGE_START + 2, bs + [0, 0])
    ensures Holds(frame, MESSAGE_START + 4 + |bs|, [0, 0])
  {
    var h := FrameHeader(station);
    assert frame == h + ([VID_TYPE, 2] + ((bs + [0, 0]) + [0, 0]));
    assert Holds(frame, 0, frame);
    HoldsSplit(frame, 0, h, [VID_TYPE, 2] + ((bs + [0, 0]) + [0, 0]));
    HoldsSplit(frame, |h|, [VID_TYPE, 2], (bs + [0, 0]) + [0, 0]);
    HoldsSplit(frame, |h| + 2, bs + [0, 0], [0, 0]);
  }

  lemma HeaderAccepted(station: seq<byte>, buf: seq<byte>)
    requires |station| == 6 && Holds(buf, 0, FrameHeader(station))
    ensures Word(buf, 12) == 0x88F5 && buf[..6] == MVRP_ADDR
  {
    hide Word;
    var h := FrameHeader(station);
    WordAt(buf, 0, h, 12, 0x88F5);
    assert buf[..6] == h[..6];
  }

  /** The layout again, as it arrives. */
  lemma PaddedLayout(station: seq<byte>, bs: seq<byte>, frame: seq<byte>, k: nat)
    requires |station| == 6 && frame == FrameHeader(station) + ([VID_TYPE, 2] + bs + [0, 0]) + [0, 0]
    ensures var buf := Padded(frame, k);
            && |buf| == MESSAGE_START + |bs| + 6 + k
            && Word(buf, 12) == 0x88F5 && buf[..6] == MVRP_ADDR
            && Holds(buf, MESSAGE_START, [VID_TYPE, 2]) && Holds(buf, MESSAGE_START + 2, bs + [0, 0])
            && Holds(buf, MESSAGE_START + 4 + |bs|, [0, 0])
  {
    hide Word, FrameHeader, Holds;
    var buf := Padded(frame, k);
    FrameLayout(station, bs, frame);
    HoldsPadded(frame, k, 0, FrameHeader(station));
    HoldsPadded(frame, k, MESSAGE_START, [VID_TYPE, 2]);
    HoldsPadded(frame, k, MESSAGE_START + 2, bs + [0, 0]);
    HoldsPadded(frame, k, MESSAGE_START + 4 + |bs|, [0, 0]);
    HeaderAccepted(station, buf);
  }

  /** A received frame, however padded, raises exactly one event per encoded attribute, in order, preceded by
      exactly one rLA! if and only if the sender signalled LeaveAll. */
  lemma FrameRoundTrip(station: seq<byte>, os: seq<Offer>, lva: bool, sendEmpty: bool, frame: seq<byte>, k: nat)
    requires |station| == 6 && OffersAscend(os) && (sendEmpty ==> lva)
    requires BuildFrame(station, os, lva, sendEmpty) == Some(frame)
    ensures Dispatch(Padded(frame, k)) == LaInputs(lva) + Deliver(Sent(os, 0, ROOM))
  {
    hide ScanVectors, ScanMessages, EmitVectors, Sent, FrameHeader, Word, Padded;
    var bs := EmitVectors(os, 0, ROOM, lva).bytes;
    var buf := Padded(frame, k);
    if bs == [] {
      PaddedLayout(station, EMPTY_LEAVEALL, frame, k);
      HoldsSplit(buf, MESSAGE_START + 2, EMPTY_LEAVEALL, [0, 0]);
      EmptyMessageScan(buf, MESSAGE_START, |buf|);
      NothingSent(os, 0, ROOM, lva);
    } else {
      PaddedLayout(station, bs, frame, k);
      HoldsSplit(buf, MESSAGE_START + 2, bs, [0, 0]);
      VectorsDecode(os, 0, ROOM, lva, bs, buf, MESSAGE_START + 2, |buf|, false, []);
      var s := Expected(MESSAGE_START + 2, false, [], lva, bs, Sent(os, 0, ROOM));
      MessageScan(buf, MESSAGE_START, |buf|, lva, bs, Sent(os, 0, ROOM), s);
      assert [] + LaInputs(lva) + Deliver(Sent(os, 0, ROOM)) == LaInputs(lva) + Deliver(Sent(os, 0, ROOM));
    }
  }

  lemma {:induction false} NothingSent(os: seq<Offer>, p: nat, room: int, lva: bool)
    requires EmitVectors(os, p, room, lva) == Vectors([])
    ensures Sent(os, p, room) == []
    decreases |os|
  {
    if os != [] && p < room - 8 && (!os[0].tx || os[0].optional) {
      NothingSent(os[1..], p, room, lva);
    }
  }

  /** Frames never outgrow the buffer, so every write of the emitter stays inside it. */
  lemma FrameFits(station: seq<byte>, os: seq<Offer>, lva: bool, sendEmpty: bool)
    requires |station| == 6 && BuildFrame(station, os, lva, sendEmpty).Some?
    ensures |BuildFrame(station, os, lva, sendEmpty).value| < MAX_FRAME_SIZE
  {
  }

  // ---------------------------------------------------------------- what gets selected

  /** What the emitter would send with unlimited room. */
  function Selected(os: seq<Offer>): seq<Item>
    decreases |os|
  {
    if os == [] then []
    else if !os[0].tx || os[0].optional then Selected(os[1..])
    else ItemsOf(os[..VectorLength(os)]) + Selected(os[VectorLength(os)..])
  }

  /** How many bytes its vectors take. */
  function TotalSize(os: seq<Offer>): nat
    decreases |os|
  {
    if os == [] then 0
    else if !os[0].tx || os[0].optional then TotalSize(os[1..])
    else VectorSize(VectorLength(os)) + TotalSize(os[VectorLength(os)..])
  }

  /** `i` is reached from the mandatory offer `j` through pending offers with consecutive VIDs. */
  ghost predicate Reaches(os: seq<Offer>, j: int, i: int) {
    && 0 <= j <= i < |os| && os[j].tx && !os[j].optional
    && forall k :: j <= k <= i ==> os[k].tx && os[k].vid == os[j].vid + k - j
  }

  /** No run reaches across the place where the emitter closed a vector or skipped an offer. */
  lemma NoCrossing(os: seq<Offer>, n: nat, j: int, i: nat)
    requires OffersAscend(os) && 1 <= n <= i < |os| && Reaches(os, j, i)
    requires if os[0].tx && !os[0].optional then n == VectorLength(os) else n == 1
    ensures n <= j
  {
    hide RunLength;
    RunFacts(os[1..], os[0].vid);
    var rest := os[1..];
    assert rest[n - 1] == os[n];
    assert j > 0 ==> rest[j - 1] == os[j];
  }

  lemma ReachesShift(os: seq<Offer>, tail: seq<Offer>, n: nat, j: int, i: nat)
    requires n <= j <= i < |os| && tail == os[n..]
    ensures Reaches(os, j, i) <==> Reaches(tail, j - n, i - n)
  {
    assert forall k :: n <= k < |os| ==> tail[k - n] == os[k];
    if Reaches(tail, j - n, i - n) {
      forall k | j <= k <= i ensures os[k].tx && os[k].vid == os[j].vid + k - j {
        assert tail[k - n] == os[k];
      }
    }
  }

  ghost predicate Reached(os: seq<Offer>, i: int) {
    exists j :: Reaches(os, j, i)
  }

  lemma ReachedTail(os: seq<Offer>, tail: seq<Offer>, n: nat, i: nat)
    requires OffersAscend(os) && 1 <= n <= i < |os| && tail == os[n..]
    requires if os[0].tx && !os[0].optional then n == VectorLength(os) else n == 1
    ensures Reached(os, i) <==> Reached(tail, i - n)
  {
    if Reached(os, i) {
      var j :| Reaches(os, j, i);
      NoCrossing(os, n, j, i);
      ReachesShift(os, tail, n, j, i);
    }
    if Reached(tail, i - n) {
      var j :| Reaches(tail, j, i - n);
      ReachesShift(os, tail, n, j + n, i);
    }
  }

  lemma HeadReaches(os: seq<Offer>, i: nat)
    requires OffersAscend(os) && os != [] && os[0].tx && !os[0].optional && i < VectorLength(os)
    ensures Reached(os, i)
  {
    RunFacts(os[1..], os[0].vid);
    assert forall k :: 1 <= k < |os| ==> os[k] == os[1..][k - 1];
    assert Reaches(os, 0, i);
  }

  /** Exactly the mandatory offers, and the optional ones that directly continue a run, are sent. */
  lemma {:induction false} SelectedExactly(os: seq<Offer>, i: nat)
    requires OffersAscend(os) && i < |os|
    ensures Item(os[i].vid, CodeOf(os[i])) in Selected(os) <==> Reached(os, i)
    decreases |os|
  {
    var mandatory := os[0].tx && !os[0].optional;
    var n := if mandatory then VectorLength(os) else 1;
    if i >= n {
      SelectedExactly(os[n..], i - n);
      ReachedTail(os, os[n..], n, i);
      SelectedTail(os, n, i);
    } else if mandatory {
      HeadReaches(os, i);
      assert ItemsOf(os[..n])[i] in ItemsOf(os[..n]);
    } else {
      SelectedAbove(os[1..], os[0].vid);
    }
  }

  lemma SelectedTail(os: seq<Offer>, n: nat, i: nat)
    requires OffersAscend(os) && 1 <= n <= i < |os|
    requires if os[0].tx && !os[0].optional then n == VectorLength(os) else n == 1
    ensures Item(os[i].vid, CodeOf(os[i])) in Selected(os) <==> Item(os[i].vid, CodeOf(os[i])) in Selected(os[n..])
  {
    var head := ItemsOf(os[..n]);
    assert forall k :: 0 <= k < n ==> head[k].vid == os[k].vid < os[i].vid;
  }

  lemma {:induction false} SelectedAbove(os: seq<Offer>, v: int)
    requires OffersAscend(os) && forall i :: 0 <= i < |os| ==> v < os[i].vid
    ensures forall x :: x in Selected(os) ==> v < x.vid
    decreases |os|
  {
    if os != [] {
      var n := if !os[0].tx || os[0].optional then 1 else VectorLength(os);
      SelectedAbove(os[n..], v);
    }
  }

  // ---------------------------------------------------------------- capacity

  /** The largest total of vector bytes a frame has room for. */
  const CAPACITY := ROOM - 7

  lemma {:induction false} SmallFits(os: seq<Offer>, p: nat, room: int, lva: bool)
    requires AllEncodable(os) && (if p == 0 then 2 else p) + TotalSize(os) <= room - 5
    ensures EmitVectors(os, p, room, lva).Vectors? && |EmitVectors(os, p, room, lva).bytes| == TotalSize(os)
    decreases |os|
  {
    hide RunLength, VectorBytes;
    if os == [] {
    } else if p >= room - 8 {
      NothingElse(os);
    } else if !os[0].tx || os[0].optional {
      SmallFits(os[1..], p, room, lva);
    } else {
      var n := VectorLength(os);
      assert AllEncodable(os[..n]) && AllEncodable(os[n..]);
      SmallFits(os[n..], (if p == 0 then 2 else p) + VectorSize(n), room, false);
    }
  }

  lemma {:induction false} SmallIsSentWhole(os: seq<Offer>, p: nat, room: int)
    requires (if p == 0 then 2 else p) + TotalSize(os) <= room - 5
    ensures Sent(os, p, room) == Selected(os)
    decreases |os|
  {
    if os == [] {
    } else if p >= room - 8 {
      NothingElse(os);
    } else if !os[0].tx || os[0].optional {
      SmallIsSentWhole(os[1..], p, room);
    } else {
      var n := VectorLength(os);
      SmallIsSentWhole(os[n..], (if p == 0 then 2 else p) + VectorSize(n), room);
    }
  }

  /** Offers whose vectors take no bytes select nothing. */
  lemma {:induction false} NothingElse(os: seq<Offer>)
    requires TotalSize(os) < 5
    ensures TotalSize(os) == 0 && Selected(os) == []
    decreases |os|
  {
    if os != [] && (!os[0].tx || os[0].optional) {
      NothingElse(os[1..]);
    }
  }

  lemma {:induction false} SentIsWhole(os: seq<Offer>, p: nat, room: int, lva: bool)
    requires EmitVectors(os, p, room, lva).Vectors?
    ensures |Sent(os, p, room)| <= |Selected(os)|
    ensures |Sent(os, p, room)| == |Selected(os)| ==> |EmitVectors(os, p, room, lva).bytes| == TotalSize(os)
    decreases |os|
  {
    if os != [] {
      if p >= room - 8 {
        SelectedSize(os);
      } else if !os[0].tx || os[0].optional {
        SentIsWhole(os[1..], p, room, lva);
      } else {
        var n := VectorLength(os);
        SentIsWhole(os[n..], (if p == 0 then 2 else p) + VectorSize(n), room, false);
      }
    }
  }

  lemma {:induction false} SelectedSize(os: seq<Offer>)
    ensures Selected(os) == [] ==> TotalSize(os) == 0
    decreases |os|
  {
    if os != [] && (!os[0].tx || os[0].optional) {
      SelectedSize(os[1..]);
    }
  }

  /** A non-empty selection goes out, and goes out whole, if and only if its vectors take at most
      1978 bytes. */
  lemma FrameCarriesAllIff(station: seq<byte>, os: seq<Offer>, lva: bool, sendEmpty: bool)
    requires AllEncodable(os) && Selected(os) != []
    ensures BuildFrame(station, os, lva, sendEmpty).Some? && Sent(os, 0, ROOM) == Selected(os)
            <==> TotalSize(os) <= CAPACITY
  {
    if TotalSize(os) <= CAPACITY {
      SmallFits(os, 0, ROOM, lva);
      SmallIsSentWhole(os, 0, ROOM);
      SelectedNeedsBytes(os);
    } else if BuildFrame(station, os, lva, sendEmpty).Some? && Sent(os, 0, ROOM) == Selected(os) {
      SentIsWhole(os, 0, ROOM, lva);
    }
  }

  lemma {:induction false} SelectedNeedsBytes(os: seq<Offer>)
    requires Selected(os) != []
    ensures TotalSize(os) > 0
    decreases |os|
  {
    if !os[0].tx || os[0].optional {
      SelectedNeedsBytes(os[1..]);
    }
  }
}
