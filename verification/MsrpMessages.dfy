/** Whole MSRP messages, wherever they stand in a received frame. */
module MsrpMessages {
  import opened Mrp
  import opened Wire
  import opened StreamValues
  import opened MsrpCodec
  import opened MsrpRoundTrip

  // ---------------------------------------------------------------- the message round trip

  lemma MessageLayout(fmt: Format, bs: seq<byte>, buf: seq<byte>, p: int)
    requires Holds(buf, p, Message(fmt, bs)) && |bs| + 2 < 0x1_0000
    ensures ByteAt(buf, p) == TypeCode(fmt) && ByteAt(buf, p + 1) == FirstLen(fmt) && Word(buf, p + 2) == |bs| + 2
    ensures Holds(buf, p + 4, bs + [0, 0])
  {
    hide Word;
    var size := |bs| + 2;
    var h: seq<byte> := [TypeCode(fmt), FirstLen(fmt), Hi(size), Lo(size)];
    HoldsSplit(buf, p, h, bs + [0, 0]);
    HoldsAt(buf, p, h, 0);
    HoldsAt(buf, p, h, 1);
    WordAt(buf, p, h, 2, size);
  }

  /** The attribute list length that the emitters write always passes the receiver's check. */
  lemma ListLengthPasses(fmt: Format, bs: seq<byte>, buf: seq<byte>, p: int, eof: int)
    requires Holds(buf, p, Message(fmt, bs)) && FirstLen(fmt) < |bs| < 0x1_0000 - 2
    requires p + |Message(fmt, bs)| <= eof
    ensures FormatOf(ByteAt(buf, p)) == Some(fmt)
    ensures ByteAt(buf, p + 1) == FirstLen(fmt) && ListLengthOk(fmt, buf, p + 2, eof)
    ensures Holds(buf, p + 4, bs + [0, 0])
  {
    MessageLayout(fmt, bs, buf, p);
    HoldsAt(buf, p + 4, bs + [0, 0], |bs|);
    HoldsAt(buf, p + 4, bs + [0, 0], |bs| + 1);
  }

  lemma ScanLeaveAllOnly(fmt: Format, buf: seq<byte>, a: int, eof: int, saw: bool, done: seq<Heard>)
    requires Holds(buf, a, [0x20, 0] + Zeroes(FirstLen(fmt)) + [0, 0])
    ensures ScanVectors(fmt, buf, a, eof, saw, done)
         == Scan(done + LaHeard(!saw), Some(a + 2 + FirstLen(fmt)), true)
  {
    hide Word, VectorItems, Holds;
    var z := Zeroes(FirstLen(fmt));
    HoldsSplit(buf, a, [0x20, 0] + z, [0, 0]);
    HoldsSplit(buf, a, [0x20, 0], z);
    WordAt(buf, a, [0x20, 0], 0, LVA_FLAG);
    WordAt(buf, a + 2 + FirstLen(fmt), [0, 0], 0, 0);
    HoldsHere(buf, a, [0x20, 0] + z + [0, 0]);
    assert ScanVectors(fmt, buf, a + 2 + FirstLen(fmt), eof, true, done + LaHeard(!saw))
        == Scan(done + LaHeard(!saw), Some(a + 2 + FirstLen(fmt)), true);
  }

  lemma HoldsHere(buf: seq<byte>, a: int, bs: seq<byte>)
    requires Holds(buf, a, bs)
    ensures 0 <= a
  {
  }

  lemma {:induction false} NothingSent(fmt: Format, os: seq<Offer>, p: nat, room: int, lva: bool)
    requires WellFormedOffers(fmt, os) && EmitVectors(fmt, os, p, room, lva) == Vectors([])
    ensures Sent(fmt, os, p, room) == []
    decreases |os|
  {
    if os != [] && p < room - LeastVector(fmt) - 2 && (!os[0].mine || !os[0].tx || os[0].optional) {
      NothingSent(fmt, os[1..], p, room, lva);
    }
  }

  lemma {:induction false} VectorsBounded(fmt: Format, os: seq<Offer>, p: nat, room: int, lva: bool, bs: seq<byte>)
    requires WellFormedOffers(fmt, os) && EmitVectors(fmt, os, p, room, lva) == Vectors(bs)
    ensures bs != [] ==> FirstLen(fmt) < |bs| && (if p == 0 then 4 else p) + |bs| <= room - 2
    decreases |os|
  {
    hide VectorLength, VectorBytes;
    if os != [] && p < room - LeastVector(fmt) - 2 {
      if !os[0].mine || !os[0].tx || os[0].optional {
        VectorsBounded(fmt, os[1..], p, room, lva, bs);
      } else {
        var n := VectorLength(fmt, os);
        var end := (if p == 0 then 4 else p) + VectorSize(fmt, n);
        VectorsBounded(fmt, os[n..], end, room, false, EmitVectors(fmt, os[n..], end, room, false).bytes);
      }
    }
  }

  /** Wherever a message stands, the receiver takes the branch of its kind and decodes it to one rLA! if LeaveAll was
      signalled and not yet seen for that kind, and then to the sent items, in order; parsing stops at its endmark. */
  lemma MessageRoundTrip(fmt: Format, os: seq<Offer>, room: int, lva: bool, sendEmpty: bool, m: seq<byte>,
                         buf: seq<byte>, p: nat, eof: int, saw: set<Format>)
    requires WellFormedOffers(fmt, os) && room <= MAX_FRAME_SIZE && (sendEmpty ==> lva)
    requires EmitMessage(fmt, os, room, lva, sendEmpty) == Some(m) && m != []
    requires Fits(fmt, Sent(fmt, os, 0, room)) && Holds(buf, p, m) && p + |m| <= eof
    ensures ReadMessage(buf, p, eof, saw)
         == Some(Read(fmt, Scan(LaHeard(lva && fmt !in saw) + Deliver(fmt, Sent(fmt, os, 0, room)),
                                Some(p + |m| - 2), fmt in saw || lva)))
  {
    hide ScanVectors, EmitVectors, Sent, Fits, ListLengthOk, WellFormedOffers, Deliver, FormatOf, LaHeard;
    var bs := EmitVectors(fmt, os, 0, room, lva).bytes;
    var items, seen := Sent(fmt, os, 0, room), fmt in saw;
    if bs == [] {
      var e := [0x20, 0] + Zeroes(FirstLen(fmt));
      NothingSent(fmt, os, 0, room, lva);
      ListLengthPasses(fmt, e, buf, p, eof);
      ScanLeaveAllOnly(fmt, buf, p + 4, eof, seen, []);
      NoItems(fmt, LaHeard(lva && !seen));
    } else {
      VectorsBounded(fmt, os, 0, room, lva, bs);
      ListLengthPasses(fmt, bs, buf, p, eof);
      VectorsDecode(fmt, os, 0, room, lva, bs, buf, p + 4, eof, seen, []);
      NoItems(fmt, LaHeard(lva && !seen));
    }
  }

  lemma NoItems(fmt: Format, done: seq<Heard>)
    ensures done + Deliver(fmt, []) == done && [] + done == done
  {
  }

  // ---------------------------------------------------------------- with ample room everything is sent

  /** Everything an emitter selects when nothing limits it. */
  function Selected(fmt: Format, os: seq<Offer>): seq<Item>
    requires WellFormedOffers(fmt, os)
    decreases |os|
  {
    if os == [] then []
    else if !os[0].mine || !os[0].tx || os[0].optional then Selected(fmt, os[1..])
    else
      var n := VectorLength(fmt, os);
      RunFacts(fmt, os);
      ItemsOf(fmt, os[..n]) + Selected(fmt, os[n..])
  }

  /** How many bytes the vectors for all of it take. */
  function TotalSize(fmt: Format, os: seq<Offer>): nat
    requires WellFormedOffers(fmt, os)
    decreases |os|
  {
    if os == [] then 0
    else if !os[0].mine || !os[0].tx || os[0].optional then TotalSize(fmt, os[1..])
    else
      var n := VectorLength(fmt, os);
      VectorSize(fmt, n) + TotalSize(fmt, os[n..])
  }

  /** The attributes of the kind being sent all have a message that can be encoded. */
  predicate MineEncodable(os: seq<Offer>) {
    forall i :: 0 <= i < |os| ==> os[i].mine ==> Encodable(os[i])
  }

  lemma {:induction false} RunIsMine(fmt: Format, os: seq<Offer>, full: seq<byte>)
    requires |full| == FullLen(fmt)
    ensures forall i :: 0 <= i < RunLength(fmt, os, full) ==> os[i].mine
    decreases |os|
  {
    if RunLength(fmt, os, full) > 0 {
      RunIsMine(fmt, os[1..], os[0].full);
      assert forall i :: 0 < i < |os| ==> os[i] == os[1..][i - 1];
    }
  }

  lemma RunEncodable(fmt: Format, os: seq<Offer>)
    requires os != [] && |os[0].full| == FullLen(fmt) && os[0].mine && MineEncodable(os)
    ensures AllEncodable(os[..VectorLength(fmt, os)])
  {
    hide Encodable;
    RunIsMine(fmt, os[1..], os[0].full);
    assert forall i :: 0 < i < |os| ==> os[i] == os[1..][i - 1];
  }

  lemma LaterOffers(fmt: Format, os: seq<Offer>, n: nat)
    requires WellFormedOffers(fmt, os) && MineEncodable(os) && n <= |os|
    ensures WellFormedOffers(fmt, os[n..]) && MineEncodable(os[n..])
  {
    hide Encodable;
    assert forall i :: 0 <= i < |os[n..]| ==> os[n..][i] == os[n + i];
  }

  /** With room for all vectors, one more and the margins, nothing is cut off and nothing overruns. */
  lemma {:induction false} AmpleRoom(fmt: Format, os: seq<Offer>, p: nat, room: int, lva: bool)
    requires WellFormedOffers(fmt, os) && MineEncodable(os)
    requires (if p == 0 then 4 else p) + TotalSize(fmt, os) + LeastVector(fmt) + 3 <= room
    ensures var v := EmitVectors(fmt, os, p, room, lva);
            v.Vectors? && |v.bytes| == TotalSize(fmt, os) && Sent(fmt, os, p, room) == Selected(fmt, os)
    decreases |os|
  {
    hide VectorLength, VectorSize, LeastVector, FullLen, VectorBytes, ItemsOf, MineEncodable, AllEncodable;
    if os != [] {
      if !os[0].mine || !os[0].tx || os[0].optional {
        LaterOffers(fmt, os, 1);
        AmpleRoom(fmt, os[1..], p, room, lva);
      } else {
        var n := VectorLength(fmt, os);
        RunEncodable(fmt, os);
        LaterOffers(fmt, os, n);
        AmpleRoom(fmt, os[n..], (if p == 0 then 4 else p) + VectorSize(fmt, n), room, false);
      }
    }
  }

  /** Coalescing loses nothing: every attribute that is marked for sending and not optional is among the
      selected items, with its own value, event and substate. */
  lemma {:induction false} NothingLost(fmt: Format, os: seq<Offer>, i: nat)
    requires WellFormedOffers(fmt, os) && i < |os| && os[i].mine && os[i].tx && !os[i].optional
    ensures ItemOf(fmt, os[i]) in Selected(fmt, os)
    decreases |os|
  {
    hide VectorLength, ItemOf;
    if !os[0].mine || !os[0].tx || os[0].optional {
      NothingLost(fmt, os[1..], i - 1);
    } else {
      var n := VectorLength(fmt, os);
      RunFacts(fmt, os);
      if i < n {
        assert ItemsOf(fmt, os[..n])[i] == ItemOf(fmt, os[i]);
      } else {
        NothingLost(fmt, os[n..], i - n);
      }
    }
  }

  // ---------------------------------------------------------------- listeners

  function Spoken(items: seq<Item>): (r: seq<Heard>)
    ensures |r| == |items| && forall i :: 0 <= i < |items| ==> r[i] == Got(items[i])
  {
    seq(|items|, i requires 0 <= i < |items| => Got(items[i]))
  }

  ghost predicate Reported(items: seq<Item>) {
    forall i :: 0 <= i < |items| ==> 1 <= items[i].substate <= 3
  }

  lemma {:induction false} DeliverAll(fmt: Format, items: seq<Item>)
    requires fmt == ListenerFormat ==> Reported(items)
    ensures Deliver(fmt, items) == Spoken(items)
    decreases |items|
  {
    if items != [] {
      DeliverAll(fmt, items[1..]);
      assert items == [items[0]] + items[1..];
    }
  }

  ghost predicate InRange(hs: seq<Heard>) {
    forall i :: 0 <= i < |hs| ==> hs[i].Got? ==> 1 <= hs[i].item.substate <= 3
  }

  lemma InRangeConcat(a: seq<Heard>, b: seq<Heard>)
    requires InRange(a) && InRange(b)
    ensures InRange(a + b)
  {
  }

  lemma AcceptInRange(buf: seq<byte>, f: int, n: nat, j: nat, v: seq<byte>, c: int)
    ensures InRange(Accept(ListenerFormat, Item(v, c, SubstateAt(ListenerFormat, buf, f, n, j))))
  {
  }

  lemma {:induction false} VectorInRange(buf: seq<byte>, f: int, n: nat, k: nat, v: seq<byte>, j: nat)
    requires |v| == 8
    ensures InRange(VectorItems(ListenerFormat, buf, f, n, k, v, j))
    decreases n - k
  {
    hide InRange, Accept, SubstateAt, CodeAt, Advance;
    if k >= n {
      NothingInRange();
    } else if CodeAt(ListenerFormat, buf, f, k - k % 3) > 5 {
      VectorInRange(buf, f, n, k - k % 3 + 3, v, j);
    } else {
      AcceptInRange(buf, f, n, j, v, CodeAt(ListenerFormat, buf, f, k));
      VectorInRange(buf, f, n, k + 1, Advance(ListenerFormat, v), j + 1);
      var x := Item(v, CodeAt(ListenerFormat, buf, f, k), SubstateAt(ListenerFormat, buf, f, n, j));
      InRangeConcat(Accept(ListenerFormat, x),
                    VectorItems(ListenerFormat, buf, f, n, k + 1, Advance(ListenerFormat, v), j + 1));
    }
  }

  lemma NothingInRange()
    ensures InRange([]) && InRange([LeaveAll])
  {
  }

  /** Whatever a listener message contains, the receiver raises only the substates 1 to 3. */
  lemma {:induction false} ScanInRange(buf: seq<byte>, p: int, eof: int, saw: bool, done: seq<Heard>)
    requires 0 <= p && InRange(done)
    ensures InRange(ScanVectors(ListenerFormat, buf, p, eof, saw, done).heard)
    decreases |buf| - p
  {
    hide InRange, VectorItems, FirstAt;
    var h := Word(buf, p);
    if h != 0 {
      var n := NumValues(h);
      NothingInRange();
      var d := done + LaHeard(HasLva(h) && !saw);
      InRangeConcat(done, LaHeard(HasLva(h) && !saw));
      assert p < |buf| by { assert ByteAt(buf, p) != 0 || ByteAt(buf, p + 1) != 0; }
      if n == 0 {
        ScanInRange(buf, p + 10, eof, saw || HasLva(h), d);
      } else if !Malformed(ListenerFormat, p + 2, n, eof) {
        var v := FirstAt(ListenerFormat, buf, p + 2);
        VectorInRange(buf, p + 2, n, 0, v, 0);
        InRangeConcat(d, VectorItems(ListenerFormat, buf, p + 2, n, 0, v, 0));
        ScanInRange(buf, p + VectorSize(ListenerFormat, n), eof, saw || HasLva(h),
                    d + VectorItems(ListenerFormat, buf, p + 2, n, 0, v, 0));
      }
    }
  }

  lemma MessageInRange(buf: seq<byte>, p: int, eof: int)
    requires 0 <= p
    ensures InRange(ScanMessage(ListenerFormat, buf, p, eof, false).heard)
  {
    hide ScanVectors;
    ScanInRange(buf, p + 4, eof, false, []);
  }

  /** A listener message decodes to the sequence of stream IDs, events and substates that was sent if and
      only if every sent substate is one of Asking Failed, Ready and Ready Failed. */
  lemma ListenerRoundTripIff(os: seq<Offer>, room: int, lva: bool, sendEmpty: bool, m: seq<byte>,
                             buf: seq<byte>, p: nat, eof: int)
    requires WellFormedOffers(ListenerFormat, os) && room <= MAX_FRAME_SIZE && (sendEmpty ==> lva)
    requires EmitMessage(ListenerFormat, os, room, lva, sendEmpty) == Some(m) && m != []
    requires Holds(buf, p, m) && p + |m| <= eof
    ensures var items := Sent(ListenerFormat, os, 0, room);
            ReadMessage(buf, p, eof, {})
              == Some(Read(ListenerFormat, Scan(LaHeard(lva) + Spoken(items), Some(p + |m| - 2), lva)))
            <==> Reported(items)
  {
    hide ScanMessage, EmitMessage, Sent, Deliver, LaHeard;
    var items := Sent(ListenerFormat, os, 0, room);
    if Reported(items) {
      MessageRoundTrip(ListenerFormat, os, room, lva, sendEmpty, m, buf, p, eof, {});
      DeliverAll(ListenerFormat, items);
    }
    var s := ScanMessage(ListenerFormat, buf, p, eof, false);
    if s.heard == LaHeard(lva) + Spoken(items) {
      MessageInRange(buf, p, eof);
      SpokenInRange(LaHeard(lva), items);
    }
  }

  lemma SpokenInRange(la: seq<Heard>, items: seq<Item>)
    requires InRange(la + Spoken(items))
    ensures Reported(items)
  {
    forall i | 0 <= i < |items| ensures 1 <= items[i].substate <= 3 {
      assert (la + Spoken(items))[|la| + i] == Got(items[i]);
    }
  }

  /** The offer of a listener whose client gave the substate 0. */
  function IgnoredOffer(stream: seq<byte>, code: int): Offer {
    Offer(true, true, false, Some(code), stream, 0)
  }

  lemma IgnoredIsSent(stream: seq<byte>, code: int, room: int)
    requires |stream| == 8 && 0 <= code < 6 && 40 <= room <= MAX_FRAME_SIZE
    ensures var os := [IgnoredOffer(stream, code)];
            && WellFormedOffers(ListenerFormat, os)
            && EmitVectors(ListenerFormat, os, 0, room, false).Vectors?
            && Sent(ListenerFormat, os, 0, room) == [Item(stream, code, 0)]
  {
    var os := [IgnoredOffer(stream, code)];
    assert os[1..] == [] && VectorLength(ListenerFormat, os) == 1 && os[..1] == os;
    assert stream[..8] == stream;
    assert EmitVectors(ListenerFormat, [], 4 + VectorSize(ListenerFormat, 1), room, false) == Vectors([]);
    assert ItemsOf(ListenerFormat, os) == [Item(stream, code, 0)];
    assert Sent(ListenerFormat, [], 4 + VectorSize(ListenerFormat, 1), room) == [];
  }

  /** Outside the condition it fails: a listener declared with substate 0 is sent, and the receiver raises
      nothing for it. */
  lemma ListenerCanBeIgnored(stream: seq<byte>, code: int, room: int, buf: seq<byte>, p: nat, eof: int)
    returns (m: seq<byte>)
    requires |stream| == 8 && 0 <= code < 6 && 40 <= room <= MAX_FRAME_SIZE
    ensures var os := [IgnoredOffer(stream, code)];
            && WellFormedOffers(ListenerFormat, os)
            && EmitMessage(ListenerFormat, os, room, false, false) == Some(m) && m != []
            && Sent(ListenerFormat, os, 0, room) == [Item(stream, code, 0)]
    ensures Holds(buf, p, m) && p + |m| <= eof ==>
              ReadMessage(buf, p, eof, {}) == Some(Read(ListenerFormat, Scan([], Some(p + |m| - 2), false)))
  {
    hide ScanMessage, Sent, EmitVectors;
    var os := [IgnoredOffer(stream, code)];
    var x := Item(stream, code, 0);
    IgnoredIsSent(stream, code, room);
    m := EmitMessage(ListenerFormat, os, room, false, false).value;
    MessageNeeded(ListenerFormat, os, room, false, false, m, x);
    if Holds(buf, p, m) && p + |m| <= eof {
      MessageRoundTrip(ListenerFormat, os, room, false, false, m, buf, p, eof, {});
      assert Deliver(ListenerFormat, [x]) == Accept(ListenerFormat, x) + Deliver(ListenerFormat, []);
      assert LaHeard(false) + Deliver(ListenerFormat, [x]) == [];
    }
  }

  // ---------------------------------------------------------------- talkers

  /** What of a talker goes on the wire: an Advertise carries no failure information. */
  function Transmitted(fmt: Format, t: Talker): Talker {
    if fmt == FailedFormat then t else t.(bridge := NO_BRIDGE, failure := 0)
  }

  /** The offers of a list of talkers. */
  ghost predicate OffersOf(ts: seq<Talker>, os: seq<Offer>) {
    |ts| == |os| && forall i :: 0 <= i < |os| ==> os[i].mine ==> WellFormed(ts[i]) && os[i].full == TalkerBytes(ts[i])
  }

  lemma OffersWellFormed(fmt: Format, ts: seq<Talker>, os: seq<Offer>)
    requires OffersOf(ts, os) && IsTalker(fmt)
    ensures WellFormedOffers(fmt, os)
  {
    forall i | 0 <= i < |os| && os[i].mine ensures |os[i].full| == 34 {
      TalkerRoundTrip(ts[i]);
    }
  }

  lemma {:induction false} DeliverMember(fmt: Format, items: seq<Item>, x: Item)
    requires x in items && fmt != ListenerFormat
    ensures Got(x) in Deliver(fmt, items)
    decreases |items|
  {
    if x != items[0] {
      DeliverMember(fmt, items[1..], x);
    }
  }

  /** With ample room, every talker that is marked for sending reaches the receiver with its own event and all
      its transmitted fields, however it was coalesced. */
  lemma TalkersArrive(fmt: Format, ts: seq<Talker>, os: seq<Offer>, room: int, lva: bool, sendEmpty: bool,
                      m: seq<byte>, buf: seq<byte>, p: nat, eof: int, i: nat) returns (x: Item)
    requires IsTalker(fmt) && OffersOf(ts, os) && WellFormedOffers(fmt, os) && MineEncodable(os)
    requires 4 + TotalSize(fmt, os) + LeastVector(fmt) + 3 <= room <= MAX_FRAME_SIZE && (sendEmpty ==> lva)
    requires EmitMessage(fmt, os, room, lva, sendEmpty) == Some(m) && Holds(buf, p, m) && p + |m| <= eof
    requires i < |os| && os[i].mine && os[i].tx && !os[i].optional
    ensures var r := ReadMessage(buf, p, eof, {});
            r.Some? && r.value.fmt == fmt && Got(x) in r.value.scan.heard && |x.value| == FirstLen(fmt)
    ensures TalkerOf(x.value) == Transmitted(fmt, ts[i]) && x.code == os[i].code.value
  {
    hide EmitVectors, Sent, Selected, TotalSize, ScanMessage, Deliver, EmitMessage, TalkerBytes, TalkerOf, WellFormed,
      ItemOf, Transmitted, LaHeard;
    AmpleRoom(fmt, os, 0, room, lva);
    NothingLost(fmt, os, i);
    TalkerFields(fmt, ts[i], os[i]);
    x := ItemOf(fmt, os[i]);
    MessageNeeded(fmt, os, room, lva, sendEmpty, m, x);
    MessageRoundTrip(fmt, os, room, lva, sendEmpty, m, buf, p, eof, {});
    DeliverMember(fmt, Sent(fmt, os, 0, room), x);
  }

  lemma TalkerFields(fmt: Format, t: Talker, o: Offer)
    requires IsTalker(fmt) && WellFormed(t) && o.full == TalkerBytes(t) && |o.full| == 34 && Encodable(o)
    ensures |ItemOf(fmt, o).value| == FirstLen(fmt) && ItemOf(fmt, o).code == o.code.value
    ensures TalkerOf(ItemOf(fmt, o).value) == Transmitted(fmt, t)
  {
    hide TalkerBytes, TalkerOf, WellFormed;
    TalkerRoundTrip(t);
    assert o.full[..34] == o.full;
  }

  lemma MessageNeeded(fmt: Format, os: seq<Offer>, room: int, lva: bool, sendEmpty: bool, m: seq<byte>, x: Item)
    requires WellFormedOffers(fmt, os) && EmitMessage(fmt, os, room, lva, sendEmpty) == Some(m)
    requires x in Sent(fmt, os, 0, room)
    ensures m != []
  {
    hide EmitVectors, Sent, WellFormedOffers;
    var e := EmitVectors(fmt, os, 0, room, lva);
    if e == Vectors([]) {
      NothingSent(fmt, os, 0, room, lva);
    }
  }

  // ---------------------------------------------------------------- whatever a vector holds

  /** The value `m` places behind `v`. */
  function ValueBehind(fmt: Format, v: seq<byte>, m: nat): (r: seq<byte>)
    requires |v| == FirstLen(fmt)
    ensures |r| == FirstLen(fmt)
    decreases m
  {
    if m == 0 then v else ValueBehind(fmt, Advance(fmt, v), m - 1)
  }

  /** How many of the events k, k+1, ... are in bytes whose first code is in range. */
  function GoodEvents(fmt: Format, buf: seq<byte>, f: int, n: nat, k: nat): nat
    decreases n - k
  {
    if k >= n then 0
    else (if ByteAt(buf, f + FirstLen(fmt) + k / 3) < 216 then 1 else 0) + GoodEvents(fmt, buf, f, n, k + 1)
  }

  lemma {:induction false} BadByte(fmt: Format, buf: seq<byte>, f: int, n: nat, k: nat, end: nat)
    requires ByteAt(buf, f + FirstLen(fmt) + k / 3) >= 216 && k <= end <= k - k % 3 + 3
    ensures GoodEvents(fmt, buf, f, n, k) == GoodEvents(fmt, buf, f, n, end)
    decreases end - k
  {
    if k < end {
      if k + 1 < end {
        assert (k + 1) / 3 == k / 3 && k + 1 - (k + 1) % 3 == k - k % 3;
        BadByte(fmt, buf, f, n, k + 1, end);
      }
    }
  }

  /** Whatever a talker or domain vector holds, it raises one event for each place in a byte in range, and these carry
      consecutive values from the first one on: bytes out of range do not use up values. */
  lemma {:induction false} ValuesConsecutive(fmt: Format, buf: seq<byte>, f: int, n: nat, k: nat, v: seq<byte>, j: nat)
    requires fmt != ListenerFormat && |v| == FirstLen(fmt)
    ensures var hs := VectorItems(fmt, buf, f, n, k, v, j);
            && |hs| == GoodEvents(fmt, buf, f, n, k)
            && forall i :: 0 <= i < |hs| ==> hs[i].Got? && hs[i].item.value == ValueBehind(fmt, v, i)
    decreases n - k
  {
    hide Advance, CodeAt, ByteAt, SubstateAt;
    if k < n {
      FirstCode(fmt, buf, f, k);
      if CodeAt(fmt, buf, f, k - k % 3) > 5 {
        BadByte(fmt, buf, f, n, k, k - k % 3 + 3);
        ValuesConsecutive(fmt, buf, f, n, k - k % 3 + 3, v, j);
      } else {
        var w := Advance(fmt, v);
        ValuesConsecutive(fmt, buf, f, n, k + 1, w, j + 1);
        var x := Item(v, CodeAt(fmt, buf, f, k), SubstateAt(fmt, buf, f, n, j));
        OneMore(fmt, v, x, VectorItems(fmt, buf, f, n, k + 1, w, j + 1));
      }
    }
  }

  lemma OneMore(fmt: Format, v: seq<byte>, x: Item, hs: seq<Heard>)
    requires |v| == FirstLen(fmt) && x.value == v
    requires forall i :: 0 <= i < |hs| ==> hs[i].Got? && hs[i].item.value == ValueBehind(fmt, Advance(fmt, v), i)
    ensures var all := [Got(x)] + hs;
            forall i :: 0 <= i < |all| ==> all[i].Got? && all[i].item.value == ValueBehind(fmt, v, i)
  {
    hide Advance;
  }

  lemma FirstCode(fmt: Format, buf: seq<byte>, f: int, k: nat)
    ensures CodeAt(fmt, buf, f, k - k % 3) > 5 <==> ByteAt(buf, f + FirstLen(fmt) + k / 3) >= 216
  {
    var m := k - k % 3;
    assert m % 3 == 0 && m / 3 == k / 3;
  }
}
