/** Whole MSRP frames: what `msrp_txpdu` builds out of the messages for talkers, listeners and domains, what
    `msrp_recv_msg` raises for a frame, and that the one undoes the other. */
module MsrpFrames {
  import opened Mrp
  import opened Msrp
  import opened Wire
  import Eui64
  import opened StreamValues
  import opened MsrpCodec
  import opened MsrpRoundTrip
  import opened MsrpMessages

  // ---------------------------------------------------------------- sending

  /** What each emitter finds in the attribute list. */
  datatype Offers = Offers(advertise: seq<Offer>, failed: seq<Offer>, listener: seq<Offer>, domain: seq<Offer>) {
    function For(fmt: Format): seq<Offer> {
      match fmt
      case AdvertiseFormat => advertise
      case FailedFormat => failed
      case ListenerFormat => listener
      case DomainFormat => domain
    }
  }

  ghost predicate WellFormedAll(q: Offers) {
    forall fmt :: WellFormedOffers(fmt, q.For(fmt))
  }

  /** The order of the messages in a frame. */
  function Nth(n: nat): Format {
    match n case 0 => AdvertiseFormat case 1 => FailedFormat case 2 => ListenerFormat case _ => DomainFormat
  }

  const MSRP_ADDR: seq<byte> := [0x01, 0x80, 0xC2, 0x00, 0x00, 0x0E]

  const MESSAGE_START := 15

  const ROOM := MAX_FRAME_SIZE - MESSAGE_START

  /** What is left for message `n` of the frame, behind `list`. The listener emitter is not called without room for an
      endmark. */
  function NthMessage(q: Offers, lva: bool, sendEmpty: bool, n: nat, list: seq<byte>): Option<seq<byte>>
    requires WellFormedAll(q)
  {
    if n == 2 && |list| >= ROOM - 2 then None
    else EmitMessage(Nth(n), q.For(Nth(n)), ROOM - |list|, lva, sendEmpty)
  }

  /** The first `n` messages; None if an emitter reports an error. */
  function Messages(q: Offers, lva: bool, sendEmpty: bool, n: nat): Option<seq<byte>>
    requires WellFormedAll(q) && n <= 4
  {
    if n == 0 then Some([])
    else
      match Messages(q, lva, sendEmpty, n - 1)
      case None => None
      case Some(list) =>
        match NthMessage(q, lva, sendEmpty, n - 1, list)
        case None => None
        case Some(m) => Some(list + m)
  }

  /** Ethernet header, EtherType 0x22EA and protocol version 0. */
  function FrameHeader(station: seq<byte>): seq<byte> {
    MSRP_ADDR + station + [0x22, 0xEA, 0]
  }

  /** `msrp_txpdu`: the frame handed to the network, if any. */
  function BuildFrame(station: seq<byte>, q: Offers, lva: bool, sendEmpty: bool): Option<seq<byte>>
    requires WellFormedAll(q)
  {
    match Messages(q, lva, sendEmpty, 4)
    case None => None
    case Some(list) =>
      if list == [] || |list| >= ROOM - 2 then None else Some(FrameHeader(station) + list + [0, 0])
  }

  // ---------------------------------------------------------------- receiving

  function KindOf(fmt: Format): Kind {
    match fmt
    case AdvertiseFormat => TalkerAdvertise
    case FailedFormat => TalkerFailed
    case ListenerFormat => Listener
    case DomainFormat => Domain
  }

  /** The attribute a receiver fills in: what is not on the wire is zero, the neighbor's priority is the received one,
      and the direction is "registered". */
  function DeclarationOf(fmt: Format, x: Item): Declaration
    requires |x.value| == FirstLen(fmt)
  {
    var v := x.value;
    match fmt
    case AdvertiseFormat =>
      Declaration(TalkerAdvertise, Eui64.Value(v[..8]), Stream(NO_BRIDGE, 0, v[8..25]), 0, Register)
    case FailedFormat =>
      Declaration(TalkerFailed, Eui64.Value(v[..8]), Stream(v[25..33], v[33], v[8..25]), 0, Register)
    case ListenerFormat =>
      Declaration(Listener, Eui64.Value(v), Stream(NO_BRIDGE, 0, Zeroes(17)), x.substate, Register)
    case DomainFormat =>
      Declaration(Domain, v[0], Class(v[1], v[1], Word(v, 2)), 0, Register)
  }

  /** What is raised for something heard; codes that no event has are dropped. */
  function Raised(fmt: Format, h: Heard): seq<Input> {
    match h
    case LeaveAll => [RecvLeaveAll(Some(KindOf(fmt)))]
    case Got(x) =>
      if |x.value| == FirstLen(fmt) && 0 <= x.code < 6 then [On(RecvEvent(x.code), DeclarationOf(fmt, x))] else []
  }

  function RaisedAll(fmt: Format, hs: seq<Heard>): seq<Input> {
    if hs == [] then [] else Raised(fmt, hs[0]) + RaisedAll(fmt, hs[1..])
  }

  /** The message loop of `msrp_recv_msg`; `done` is what has been raised so far. */
  function ScanMessages(buf: seq<byte>, p: int, eof: int, endmarks: nat, saw: set<Format>, done: seq<Input>): seq<Input>
    requires 0 <= p
    decreases eof - p
  {
    if p >= eof - 2 then done
    else if Word(buf, p) == 0 then
      if endmarks + 1 < 2 then ScanMessages(buf, p + 2, eof, endmarks + 1, saw, done) else done
    else
      match ReadMessage(buf, p, eof, saw)
      case None => done
      case Some(Read(fmt, s)) =>
        var done := done + RaisedAll(fmt, s.heard);
        if s.next.None? then done
        else ScanMessages(buf, s.next.value, eof, 0, if s.saw then saw + {fmt} else saw, done)
  }

  /** `msrp_recv_msg`: everything it raises for a received frame, in order. */
  function Dispatch(frame: seq<byte>): seq<Input> {
    if |frame| < 17 || Word(frame, 12) != 0x22EA || frame[..6] != MSRP_ADDR then []
    else ScanMessages(frame, MESSAGE_START, |frame|, 0, {}, [])
  }

  // ---------------------------------------------------------------- every event raised is a proper one

  /** What the network can bring about: a LeaveAll for a kind, or a message for one well-formed attribute. */
  ghost predicate FromNetwork(input: Input) {
    && ValidInput(input)
    && ((input.RecvLeaveAll? && input.kind.Some?) || (input.On? && input.e in {RNew, RJoinIn, RIn, RJoinMt, RMt, RLv}))
  }

  ghost predicate ProperInputs(inputs: seq<Input>) {
    forall i :: 0 <= i < |inputs| ==> FromNetwork(inputs[i])
  }

  lemma DeclarationTyped(fmt: Format, x: Item)
    requires |x.value| == FirstLen(fmt)
    ensures WellTyped(DeclarationOf(fmt, x)) && DeclarationOf(fmt, x).kind == KindOf(fmt)
  {
    hide Eui64.Value, Eui64.Write, Eui64.Read;
    if fmt != DomainFormat {
      Eui64.WriteRead(x.value[..8]);
      Eui64.ReadIsValue(x.value[..8]);
      if fmt == ListenerFormat {
        assert x.value[..8] == x.value;
      }
    }
  }

  lemma {:induction false} RaisedValid(fmt: Format, hs: seq<Heard>)
    ensures ProperInputs(RaisedAll(fmt, hs))
    decreases |hs|
  {
    hide DeclarationOf;
    if hs != [] {
      RaisedValid(fmt, hs[1..]);
      if hs[0].Got? && |hs[0].item.value| == FirstLen(fmt) {
        DeclarationTyped(fmt, hs[0].item);
      }
    }
  }

  lemma {:induction false} ScanValid(buf: seq<byte>, p: int, eof: int, endmarks: nat, saw: set<Format>,
                                     done: seq<Input>)
    requires 0 <= p && ProperInputs(done)
    ensures ProperInputs(ScanMessages(buf, p, eof, endmarks, saw, done))
    decreases eof - p
  {
    hide ScanMessage, RaisedAll, FromNetwork, FormatOf;
    if p < eof - 2 {
      if Word(buf, p) == 0 {
        if endmarks + 1 < 2 {
          ScanValid(buf, p + 2, eof, endmarks + 1, saw, done);
        }
      } else {
        var r := ReadMessage(buf, p, eof, saw);
        if r.Some? {
          var fmt, s := r.value.fmt, r.value.scan;
          RaisedValid(fmt, s.heard);
          if s.next.Some? {
            ScanValid(buf, s.next.value, eof, 0, if s.saw then saw + {fmt} else saw, done + RaisedAll(fmt, s.heard));
          }
        }
      }
    }
  }

  lemma DispatchValid(frame: seq<byte>)
    ensures ProperInputs(Dispatch(frame))
  {
    ScanValid(frame, MESSAGE_START, |frame|, 0, {}, []);
  }

  // ---------------------------------------------------------------- the frame round trip

  /** What message `n` of a frame should raise: a LeaveAll of its kind if one is signalled, then what was sent. */
  function Part(q: Offers, lva: bool, sendEmpty: bool, n: nat): seq<Input>
    requires WellFormedAll(q) && n < 4 && Messages(q, lva, sendEmpty, n + 1).Some?
  {
    var fmt, list := Nth(n), Messages(q, lva, sendEmpty, n).value;
    if NthMessage(q, lva, sendEmpty, n, list) == Some([]) then []
    else RaisedAll(fmt, LaHeard(lva) + Deliver(fmt, Sent(fmt, q.For(fmt), 0, ROOM - |list|)))
  }

  function Parts(q: Offers, lva: bool, sendEmpty: bool, n: nat): seq<Input>
    requires WellFormedAll(q) && n <= 4 && Messages(q, lva, sendEmpty, n).Some?
  {
    if n == 0 then [] else Parts(q, lva, sendEmpty, n - 1) + Part(q, lva, sendEmpty, n - 1)
  }

  /** The kinds for which the first `n` messages signal LeaveAll. */
  function Seen(q: Offers, lva: bool, sendEmpty: bool, n: nat): (saw: set<Format>)
    requires WellFormedAll(q) && n <= 4 && Messages(q, lva, sendEmpty, n).Some?
    ensures forall j :: n <= j < 4 ==> Nth(j) !in saw
  {
    if n == 0 then {}
    else
      var saw := Seen(q, lva, sendEmpty, n - 1);
      var m := NthMessage(q, lva, sendEmpty, n - 1, Messages(q, lva, sendEmpty, n - 1).value);
      if lva && m != Some([]) then saw + {Nth(n - 1)} else saw
  }

  /** All listeners sent have a substate that two bits can hold. */
  ghost predicate ListenersFit(q: Offers, lva: bool, sendEmpty: bool)
    requires WellFormedAll(q)
  {
    var list := Messages(q, lva, sendEmpty, 2);
    list.Some? ==> Fits(ListenerFormat, Sent(ListenerFormat, q.For(ListenerFormat), 0, ROOM - |list.value|))
  }

  lemma {:induction false} MessagesPrefix(q: Offers, lva: bool, sendEmpty: bool, n: nat, m: nat)
    requires WellFormedAll(q) && n <= m <= 4 && Messages(q, lva, sendEmpty, m).Some?
    ensures Messages(q, lva, sendEmpty, n).Some?
    ensures var a, b := Messages(q, lva, sendEmpty, n).value, Messages(q, lva, sendEmpty, m).value;
            |a| <= |b| && b[..|a|] == a
    decreases m - n
  {
    hide NthMessage, WellFormedAll;
    if n < m {
      MessagesPrefix(q, lva, sendEmpty, n, m - 1);
    }
  }

  /** Message `n` stands behind the messages before it. */
  lemma MessageHeld(q: Offers, lva: bool, sendEmpty: bool, n: nat, list: seq<byte>, m: seq<byte>, buf: seq<byte>,
                    p: int)
    requires WellFormedAll(q) && n < 4 && Messages(q, lva, sendEmpty, 4).Some?
    requires Holds(buf, p, Messages(q, lva, sendEmpty, 4).value)
    requires Messages(q, lva, sendEmpty, n) == Some(list) && NthMessage(q, lva, sendEmpty, n, list) == Some(m)
    ensures Holds(buf, p + |list|, m) && |list| + |m| <= |Messages(q, lva, sendEmpty, 4).value|
  {
    hide NthMessage, WellFormedAll;
    MessagesPrefix(q, lva, sendEmpty, n + 1, 4);
    var all := Messages(q, lva, sendEmpty, 4).value;
    assert all == (list + m) + all[|list + m|..];
    HoldsSplit(buf, p, list + m, all[|list + m|..]);
    HoldsSplit(buf, p, list, m);
  }

  /** One message and its endmark, at index `p`. */
  lemma ScanOneMessage(buf: seq<byte>, p: int, eof: int, endmarks: nat, saw: set<Format>, done: seq<Input>,
                       fmt: Format, s: Scan, next: int)
    requires 0 <= p && ReadMessage(buf, p, eof, saw) == Some(Read(fmt, s)) && s.next == Some(next - 2)
    requires p < next - 2 && next <= eof - 2 && Holds(buf, next - 2, [0, 0])
    ensures ScanMessages(buf, p, eof, endmarks, saw, done)
         == ScanMessages(buf, next, eof, 1, if s.saw then saw + {fmt} else saw, done + RaisedAll(fmt, s.heard))
  {
    hide ScanMessage, RaisedAll;
    WordAt(buf, next - 2, [0, 0], 0, 0);
  }

  lemma EndsMarked(fmt: Format, os: seq<Offer>, room: int, lva: bool, sendEmpty: bool, m: seq<byte>, buf: seq<byte>,
                   p: int)
    requires WellFormedOffers(fmt, os) && EmitMessage(fmt, os, room, lva, sendEmpty) == Some(m) && m != []
    requires Holds(buf, p, m)
    ensures |m| > 2 && Holds(buf, p + |m| - 2, [0, 0])
  {
    hide EmitVectors;
    assert m == m[..|m| - 2] + [0, 0];
    HoldsSplit(buf, p, m[..|m| - 2], [0, 0]);
  }

  /** Where the message loop is after `n` messages. */
  ghost function Position(q: Offers, lva: bool, sendEmpty: bool, n: nat, buf: seq<byte>, eof: int): seq<Input>
    requires WellFormedAll(q) && n <= 4 && Messages(q, lva, sendEmpty, n).Some?
  {
    var list := Messages(q, lva, sendEmpty, n).value;
    ScanMessages(buf, MESSAGE_START + |list|, eof, if list == [] then 0 else 1, Seen(q, lva, sendEmpty, n),
                 Parts(q, lva, sendEmpty, n))
  }

  /** The loop over one more message. */
  lemma ScanNext(q: Offers, lva: bool, sendEmpty: bool, n: nat, buf: seq<byte>, eof: int)
    requires WellFormedAll(q) && n < 4 && Messages(q, lva, sendEmpty, 4).Some? && (sendEmpty ==> lva)
    requires Messages(q, lva, sendEmpty, n + 1).Some? && Messages(q, lva, sendEmpty, n).Some?
    requires ListenersFit(q, lva, sendEmpty)
    requires var all := Messages(q, lva, sendEmpty, 4).value;
             Holds(buf, MESSAGE_START, all) && MESSAGE_START + |all| + 2 <= eof
    ensures Position(q, lva, sendEmpty, n, buf, eof) == Position(q, lva, sendEmpty, n + 1, buf, eof)
  {
    hide WellFormedAll, ScanMessages, EmitMessage, ReadMessage, RaisedAll, Deliver, Sent, LaHeard, Fits;
    var list := Messages(q, lva, sendEmpty, n).value;
    var m := NthMessage(q, lva, sendEmpty, n, list).value;
    var fmt, room, p := Nth(n), ROOM - |list|, MESSAGE_START + |list|;
    if m == [] {
      assert list + m == list;
      assert Parts(q, lva, sendEmpty, n) + [] == Parts(q, lva, sendEmpty, n);
    } else {
      var os, saw := q.For(fmt), Seen(q, lva, sendEmpty, n);
      OffersFormed(q, fmt);
      MessageHeld(q, lva, sendEmpty, n, list, m, buf, MESSAGE_START);
      FitsHere(q, lva, sendEmpty, n);
      MessageRoundTrip(fmt, os, room, lva, sendEmpty, m, buf, p, eof, saw);
      EndsMarked(fmt, os, room, lva, sendEmpty, m, buf, p);
      var s := ReadMessage(buf, p, eof, saw).value.scan;
      ScanOneMessage(buf, p, eof, if list == [] then 0 else 1, saw, Parts(q, lva, sendEmpty, n), fmt, s, p + |m|);
    }
  }

  lemma OffersFormed(q: Offers, fmt: Format)
    requires WellFormedAll(q)
    ensures WellFormedOffers(fmt, q.For(fmt))
  {
  }

  lemma FitsHere(q: Offers, lva: bool, sendEmpty: bool, n: nat)
    requires WellFormedAll(q) && n < 4 && Messages(q, lva, sendEmpty, n).Some? && ListenersFit(q, lva, sendEmpty)
    ensures var fmt := Nth(n);
            Fits(fmt, Sent(fmt, q.For(fmt), 0, ROOM - |Messages(q, lva, sendEmpty, n).value|))
  {
    hide Sent, WellFormedAll, Messages;
  }

  lemma {:induction false} ScanAll(q: Offers, lva: bool, sendEmpty: bool, n: nat, buf: seq<byte>, eof: int)
    requires WellFormedAll(q) && n <= 4 && Messages(q, lva, sendEmpty, 4).Some? && (sendEmpty ==> lva)
    requires Messages(q, lva, sendEmpty, n).Some? && ListenersFit(q, lva, sendEmpty)
    requires var all := Messages(q, lva, sendEmpty, 4).value;
             Holds(buf, MESSAGE_START, all) && MESSAGE_START + |all| + 2 <= eof
    ensures ScanMessages(buf, MESSAGE_START, eof, 0, {}, []) == Position(q, lva, sendEmpty, n, buf, eof)
  {
    hide WellFormedAll, ScanMessages, NthMessage, ListenersFit;
    if n > 0 {
      hide Messages, Position;
      MessagesPrefix(q, lva, sendEmpty, n - 1, n);
      ScanAll(q, lva, sendEmpty, n - 1, buf, eof);
      ScanNext(q, lva, sendEmpty, n - 1, buf, eof);
    }
  }

  lemma FrameLayout(station: seq<byte>, list: seq<byte>, frame: seq<byte>, k: nat)
    requires |station| == 6 && frame == FrameHeader(station) + list + [0, 0]
    ensures var buf := Padded(frame, k);
            && |buf| == MESSAGE_START + |list| + 2 + k
            && Word(buf, 12) == 0x22EA && buf[..6] == MSRP_ADDR
            && Holds(buf, MESSAGE_START, list) && Holds(buf, MESSAGE_START + |list|, [0, 0])
  {
    hide Word;
    var h, buf := FrameHeader(station), Padded(frame, k);
    assert Holds(frame, 0, frame);
    HoldsSplit(frame, 0, h + list, [0, 0]);
    HoldsSplit(frame, 0, h, list);
    HoldsPadded(frame, k, 0, h);
    HoldsPadded(frame, k, MESSAGE_START, list);
    HoldsPadded(frame, k, MESSAGE_START + |list|, [0, 0]);
    WordAt(buf, 0, h, 12, 0x22EA);
    assert buf[..6] == h[..6];
  }

  /** A received frame, however padded, raises for talker advertises, failed talkers, listeners and domains, in this
      order, one LeaveAll if it was signalled and then exactly one event per attribute that was sent. */
  lemma FrameRoundTrip(station: seq<byte>, q: Offers, lva: bool, sendEmpty: bool, frame: seq<byte>, k: nat)
    requires |station| == 6 && WellFormedAll(q) && ListenersFit(q, lva, sendEmpty) && (sendEmpty ==> lva)
    requires BuildFrame(station, q, lva, sendEmpty) == Some(frame)
    ensures Messages(q, lva, sendEmpty, 4).Some?
    ensures Dispatch(Padded(frame, k)) == Parts(q, lva, sendEmpty, 4)
  {
    hide WellFormedAll, ScanMessages, Messages, ListenersFit, Parts, Seen, Word, FrameHeader, Padded;
    var list, buf := Messages(q, lva, sendEmpty, 4).value, Padded(frame, k);
    FrameLayout(station, list, frame, k);
    ScanAll(q, lva, sendEmpty, 4, buf, |buf|);
    ScanEnd(buf, MESSAGE_START + |list|, |buf|, Seen(q, lva, sendEmpty, 4), Parts(q, lva, sendEmpty, 4));
  }

  /** A frame goes out if and only if no emitter fails, there is something to send and it takes at most 1999 bytes. */
  lemma FrameGoesOutIff(station: seq<byte>, q: Offers, lva: bool, sendEmpty: bool)
    requires |station| == 6 && WellFormedAll(q)
    ensures var list, frame := Messages(q, lva, sendEmpty, 4), BuildFrame(station, q, lva, sendEmpty);
            && (frame.Some? <==> list.Some? && list.value != [] && 17 + |list.value| <= 1999)
            && (frame.Some? ==> |frame.value| == 17 + |list.value|)
  {
    hide Messages, WellFormedAll;
  }

  /** The endmarks of the last message and of the frame end the parsing, padding or not. */
  lemma ScanEnd(buf: seq<byte>, p: int, eof: int, saw: set<Format>, done: seq<Input>)
    requires 0 <= p && Holds(buf, p, [0, 0])
    ensures ScanMessages(buf, p, eof, 1, saw, done) == done
  {
    WordAt(buf, p, [0, 0], 0, 0);
  }
}
