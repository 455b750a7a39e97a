/** MVRP frames: what `mvrp_emit_vidvectors` and `mvrp_txpdu` build from the attribute list, what
    `mvrp_recv_msg` dispatches from a received frame, and that the one undoes the other. */
module MvrpCodec {
  import opened Mrp
  import opened Participant
  import opened Mvrp
  import opened Wire

  // ---------------------------------------------------------------- what is offered for sending

  /** What the emitter sees of one attribute: `code` is None where it would take its "huh?" exit. */
  datatype Offer = Offer(vid: int, tx: bool, optional: bool, code: Option<int>)

  datatype Item = Item(vid: int, code: int)

  ghost predicate OffersAscend(os: seq<Offer>) {
    && (forall i, j :: 0 <= i < j < |os| ==> os[i].vid < os[j].vid)
    && (forall i :: 0 <= i < |os| ==> 0 <= os[i].vid < 0x10000)
  }

  predicate Encodable(o: Offer) {
    o.code.Some? && 0 <= o.code.value < 6
  }

  predicate AllEncodable(os: seq<Offer>) {
    forall i :: 0 <= i < |os| ==> Encodable(os[i])
  }

  /** How many of the following offers continue the run that `vid` is in. */
  function RunLength(os: seq<Offer>, vid: int): (n: nat)
    ensures n <= |os|
  {
    if os == [] || !os[0].tx || os[0].vid != (vid + 1) % 0x10000 then 0
    else 1 + RunLength(os[1..], (vid + 1) % 0x10000)
  }

  /** The length of the vector that starts at the first offer. */
  function VectorLength(os: seq<Offer>): (n: nat)
    requires os != []
    ensures 1 <= n <= |os|
  {
    1 + RunLength(os[1..], os[0].vid)
  }

  function CodeOf(o: Offer): int {
    if Encodable(o) then o.code.value else 0
  }

  function CodesOf(os: seq<Offer>): (cs: seq<int>)
    ensures |cs| == |os| && Codes(cs)
    ensures forall i :: 0 <= i < |os| ==> cs[i] == CodeOf(os[i])
  {
    seq(|os|, i requires 0 <= i < |os| => CodeOf(os[i]))
  }

  // ---------------------------------------------------------------- the emitter

  function VectorSize(n: nat): nat { 4 + (n + 2) / 3 }

  function VectorBytes(lva: bool, first: int, cs: seq<int>): (bs: seq<byte>)
    ensures |bs| == VectorSize(|cs|)
  {
    var h := Header(|cs|, lva);
    [Hi(h), Lo(h), Hi(first), Lo(first)] + PackAll(cs)
  }

  datatype Emitted = Oops | Vectors(bytes: seq<byte>)

  /** The loop of `mvrp_emit_vidvectors`, from message offset `p`: `p` is 0 before the first vector
      (which itself starts after the two message header bytes) and `room` is the buffer size. */
  function EmitVectors(os: seq<Offer>, p: nat, room: int, lva: bool): Emitted
    decreases |os|
  {
    if os == [] || p >= room - 8 then Vectors([])
    else if !os[0].tx || os[0].optional then EmitVectors(os[1..], p, room, lva)
    else
      var n := VectorLength(os);
      var end := (if p == 0 then 2 else p) + VectorSize(n);
      if end > room - 2 || !AllEncodable(os[..n]) then Oops
      else
        var rest := EmitVectors(os[n..], end, room, false);
        if rest.Oops? then Oops
        else Vectors(VectorBytes(lva, os[0].vid, CodesOf(os[..n])) + rest.bytes)
  }

  const VID_TYPE: byte := 1

  /** A LeaveAll with NumberOfValues 0 and an all-zero FirstValue. */
  const EMPTY_LEAVEALL: seq<byte> := [0x20, 0, 0, 0]

  /** `mvrp_emit_vidvectors`: None is the error return, an empty sequence means nothing to send. */
  function EmitMessage(os: seq<Offer>, room: int, lva: bool, sendEmpty: bool): Option<seq<byte>>
  {
    if room < 6 then None
    else
      match EmitVectors(os, 0, room, lva)
      case Oops => None
      case Vectors(bs) =>
        var bs := if bs == [] && sendEmpty then EMPTY_LEAVEALL else bs;
        if bs == [] then Some([]) else Some([VID_TYPE, 2] + bs + [0, 0])
  }

  const MVRP_ADDR: seq<byte> := [0x01, 0x80, 0xC2, 0x00, 0x00, 0x21]

  /** Ethernet header, EtherType 0x88F5 and protocol version 0. */
  function FrameHeader(station: seq<byte>): seq<byte> {
    MVRP_ADDR + station + [0x88, 0xF5, 0]
  }

  const MESSAGE_START := 15

  const ROOM := MAX_FRAME_SIZE - MESSAGE_START

  /** `mvrp_txpdu`: the frame handed to the network, if any. */
  function BuildFrame(station: seq<byte>, os: seq<Offer>, lva: bool, sendEmpty: bool): Option<seq<byte>>
  {
    match EmitMessage(os, ROOM, lva, sendEmpty)
    case None => None
    case Some(m) =>
      if m == [] || |m| >= ROOM - 2 then None
      else Some(FrameHeader(station) + m + [0, 0])
  }

  // ---------------------------------------------------------------- the receiver

  /** The code of event k of the vector whose FirstValue is at index `f`. */
  function VectorCode(buf: seq<byte>, f: int, k: nat): int {
    Unpack3(ByteAt(buf, f + 2 + k / 3), k % 3)
  }

  /** What a receiver does with one decoded value: it knows only 12-bit VIDs and codes 0 to 5. */
  function Accept(vid: int, code: int): seq<Input> {
    if vid <= 0xFFF && 0 <= code < 6 then [On(RecvEvent(code), vid)] else []
  }

  /** Events k, k+1, ... of the vector whose FirstValue is at index `f`. */
  function VectorInputs(buf: seq<byte>, f: int, n: nat, k: nat): seq<Input>
    decreases n - k
  {
    if k >= n then []
    else Accept(Word(buf, f) + k, VectorCode(buf, f, k)) + VectorInputs(buf, f, n, k + 1)
  }

  /** The outcome of a parsing loop: what was dispatched, where parsing stopped (None: frame rejected)
      and whether a LeaveAll was seen. */
  datatype Scan = Scan(inputs: seq<Input>, next: Option<int>, saw: bool)

  function LaInputs(lva: bool): seq<Input> {
    if lva then [RecvLeaveAll] else []
  }

  /** The vector loop of `mvrp_recv_msg`; `done` is what has been dispatched so far. */
  function ScanVectors(buf: seq<byte>, p: int, eof: int, saw: bool, done: seq<Input>): (s: Scan)
    requires 0 <= p
    ensures s.next.Some? ==> p <= s.next.value
    decreases |buf| - p
  {
    var h := Word(buf, p);
    if h == 0 then Scan(done, Some(p), saw)
    else
      var n := NumValues(h);
      var done := done + LaInputs(HasLva(h) && !saw);
      var saw := saw || HasLva(h);
      if n == 0 || p + 2 + n / 3 >= eof then Scan(done, None, saw)
      else
        assert p < |buf| by { assert ByteAt(buf, p) != 0 || ByteAt(buf, p + 1) != 0; }
        ScanVectors(buf, p + VectorSize(n), eof, saw, done + VectorInputs(buf, p + 2, n, 0))
  }

  /** The message loop of `mvrp_recv_msg`. */
  function ScanMessages(buf: seq<byte>, p: int, eof: int, endmarks: nat, saw: bool, done: seq<Input>): seq<Input>
    requires 0 <= p
    decreases eof - p
  {
    if p >= eof - 2 then done
    else if Word(buf, p) == 0 then
      if endmarks + 1 < 2 then ScanMessages(buf, p + 2, eof, endmarks + 1, saw, done) else done
    else if ByteAt(buf, p) == VID_TYPE then
      if ByteAt(buf, p + 1) != 2 then done
      else
        var s := ScanVectors(buf, p + 2, eof, saw, done);
        if s.next.None? then s.inputs else ScanMessages(buf, s.next.value, eof, 0, s.saw, s.inputs)
    else if ByteAt(buf, MESSAGE_START - 1) == 0 then done
    else
      var n := NumValues(Word(buf, p + 2));
      ScanMessages(buf, p + 4 + ByteAt(buf, p + 1) + (n + 2) / 3, eof, 0, saw, done)
  }

  /** `mvrp_recv_msg`: every event it dispatches for a received frame, in order. */
  function Dispatch(frame: seq<byte>): seq<Input> {
    if |frame| < 17 || Word(frame, 12) != 0x88F5 || frame[..6] != MVRP_ADDR then []
    else ScanMessages(frame, MESSAGE_START, |frame|, 0, false, [])
  }
}
