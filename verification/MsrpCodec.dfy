/** MSRP messages for talkers, listeners and domains: what `msrp_emit_talkervectors`, `msrp_emit_listenvectors` and
    `msrp_emit_domainvectors` build, and what the branches of `msrp_recv_msg` make of it. */
module MsrpCodec {
  import opened Mrp
  import opened Wire
  import opened StreamValues

  // ---------------------------------------------------------------- four substates per byte

  function Pack4(w: int, x: int, y: int, z: int): byte {
    (w * 64 + x * 16 + y * 4 + z) % 256
  }

  function ValueOr0(ss: seq<int>, i: nat): int {
    if i < |ss| then ss[i] else 0
  }

  function Pack4All(ss: seq<int>): (bs: seq<byte>)
    ensures |bs| == (|ss| + 3) / 4
    decreases |ss|
  {
    if ss == [] then []
    else [Pack4(ss[0], ValueOr0(ss, 1), ValueOr0(ss, 2), ValueOr0(ss, 3))] + Pack4All(if |ss| <= 4 then [] else ss[4..])
  }

  function Unpack4(b: byte, j: int): int {
    if j == 0 then b / 64 % 4 else if j == 1 then b / 16 % 4 else if j == 2 then b / 4 % 4 else b % 4
  }

  // ---------------------------------------------------------------- formats

  datatype Format = AdvertiseFormat | FailedFormat | ListenerFormat | DomainFormat

  predicate IsTalker(fmt: Format) { fmt == AdvertiseFormat || fmt == FailedFormat }

  function TypeCode(fmt: Format): byte {
    match fmt case AdvertiseFormat => 1 case FailedFormat => 2 case ListenerFormat => 3 case DomainFormat => 4
  }

  /** AttributeLength, the size of a first value. */
  function FirstLen(fmt: Format): byte {
    match fmt case AdvertiseFormat => 25 case FailedFormat => 34 case ListenerFormat => 8 case DomainFormat => 4
  }

  /** How much of an attribute is compared when a run is extended: all of a talker, the stream ID of a listener. */
  function FullLen(fmt: Format): nat {
    match fmt case ListenerFormat => 8 case DomainFormat => 4 case _ => 34
  }

  /** The value that has to follow `v` in a vector: stream ID and destination address go up in lock-step, and so do
      class ID and priority. */
  function Advance(fmt: Format, v: seq<byte>): (r: seq<byte>)
    requires |v| == FirstLen(fmt) || |v| == FullLen(fmt)
    ensures |r| == |v|
  {
    match fmt
    case ListenerFormat => Increment(v)
    case DomainFormat => [(v[0] as int + 1) % 256, (v[1] as int + 1) % 256] + v[2..]
    case _ => Increment(v[..8]) + Increment(v[8..14]) + v[14..]
  }

  // ---------------------------------------------------------------- the emitters

  /** What an emitter sees of one attribute of the list; `mine` tells whether it is of the kind being sent.
      For listeners `tx` has been set beforehand. */
  datatype Offer = Offer(mine: bool, tx: bool, optional: bool, code: Option<int>, full: seq<byte>, substate: int)

  datatype Item = Item(value: seq<byte>, code: int, substate: int)

  ghost predicate WellFormedOffers(fmt: Format, os: seq<Offer>) {
    forall i :: 0 <= i < |os| ==> os[i].mine ==> |os[i].full| == FullLen(fmt)
  }

  predicate Mandatory(o: Offer) {
    o.mine && o.tx && !o.optional
  }

  predicate Encodable(o: Offer) {
    o.code.Some? && 0 <= o.code.value < 6
  }

  predicate AllEncodable(os: seq<Offer>) {
    forall i :: 0 <= i < |os| ==> Encodable(os[i])
  }

  /** How many of the following offers continue the run that `full` is in (`vectorize_talker`); domains are not
      coalesced. */
  function RunLength(fmt: Format, os: seq<Offer>, full: seq<byte>): (n: nat)
    requires |full| == FullLen(fmt)
    ensures n <= |os|
  {
    if fmt == DomainFormat || os == [] || !os[0].mine || !os[0].tx || os[0].full != Advance(fmt, full) then 0
    else 1 + RunLength(fmt, os[1..], os[0].full)
  }

  function VectorLength(fmt: Format, os: seq<Offer>): (n: nat)
    requires os != [] && |os[0].full| == FullLen(fmt)
    ensures 1 <= n <= |os|
  {
    1 + RunLength(fmt, os[1..], os[0].full)
  }

  function CodeOf(o: Offer): int {
    if Encodable(o) then o.code.value else 0
  }

  function CodesOf(os: seq<Offer>): (cs: seq<int>)
    ensures |cs| == |os| && Codes(cs)
    ensures forall i :: 0 <= i < |os| ==> cs[i] == CodeOf(os[i])
  {
    seq(|os|, i requires 0 <= i < |os| => CodeOf(os[i]))
  }

  function SubstatesOf(os: seq<Offer>): (ss: seq<int>)
    ensures |ss| == |os| && forall i :: 0 <= i < |os| ==> ss[i] == os[i].substate
  {
    seq(|os|, i requires 0 <= i < |os| => os[i].substate)
  }

  function EventBytes(fmt: Format, n: nat): nat {
    (n + 2) / 3 + if fmt == ListenerFormat then (n + 3) / 4 else 0
  }

  function VectorSize(fmt: Format, n: nat): nat {
    2 + FirstLen(fmt) + EventBytes(fmt, n)
  }

  function VectorBytes(fmt: Format, lva: bool, run: seq<Offer>): (bs: seq<byte>)
    requires run != [] && |run[0].full| == FullLen(fmt)
    ensures |bs| == VectorSize(fmt, |run|)
  {
    var h := Header(|run|, lva);
    [Hi(h), Lo(h)] + run[0].full[..FirstLen(fmt)] + PackAll(CodesOf(run))
    + (if fmt == ListenerFormat then Pack4All(SubstatesOf(run)) else [])
  }

  datatype Emitted = Oops | Vectors(bytes: seq<byte>)

  /** The smallest vector the emitters reckon with. */
  function LeastVector(fmt: Format): nat {
    match fmt case AdvertiseFormat => 28 case FailedFormat => 37 case ListenerFormat => 13 case DomainFormat => 5
  }

  /** A vector that ends at `end` overruns the buffer; a full last substate byte needs one byte more. */
  predicate Overruns(fmt: Format, n: nat, end: int, room: int) {
    end > room - 2 || (fmt == ListenerFormat && n % 4 == 0 && end > room - 3)
  }

  /** The emitter loops, from message offset `p`: 0 before the first vector, which itself starts after the
      four message header bytes. */
  function EmitVectors(fmt: Format, os: seq<Offer>, p: nat, room: int, lva: bool): Emitted
    requires WellFormedOffers(fmt, os)
    decreases |os|
  {
    if os == [] || p >= room - LeastVector(fmt) - 2 then Vectors([])
    else if !os[0].mine || !os[0].tx || os[0].optional then EmitVectors(fmt, os[1..], p, room, lva)
    else
      var n := VectorLength(fmt, os);
      var end := (if p == 0 then 4 else p) + VectorSize(fmt, n);
      if Overruns(fmt, n, end, room) || !AllEncodable(os[..n]) then Oops
      else
        var rest := EmitVectors(fmt, os[n..], end, room, false);
        if rest.Oops? then Oops else Vectors(VectorBytes(fmt, lva, os[..n]) + rest.bytes)
  }

  /** A message: header with the attribute list length, which counts the endmark, then the vectors. */
  function Message(fmt: Format, bs: seq<byte>): seq<byte> {
    var size := |bs| + 2;
    [TypeCode(fmt), FirstLen(fmt), Hi(size), Lo(size)] + (bs + [0, 0])
  }

  /** The three emitters: None is the error return, an empty sequence means nothing to send. */
  function EmitMessage(fmt: Format, os: seq<Offer>, room: int, lva: bool, sendEmpty: bool): Option<seq<byte>>
    requires WellFormedOffers(fmt, os)
  {
    if room < LeastVector(fmt) then None
    else
      match EmitVectors(fmt, os, 0, room, lva)
      case Oops => None
      case Vectors(bs) =>
        var bs := if bs == [] && sendEmpty then [0x20, 0] + Zeroes(FirstLen(fmt)) else bs;
        if bs == [] then Some([]) else Some(Message(fmt, bs))
  }

  // ---------------------------------------------------------------- the receiver

  /** What the receiver raises: rLA! for the kind, or an event with the regenerated value. */
  datatype Heard = LeaveAll | Got(item: Item)

  function CodeAt(fmt: Format, buf: seq<byte>, f: int, k: nat): int {
    Unpack3(ByteAt(buf, f + FirstLen(fmt) + k / 3), k % 3)
  }

  function SubstateAt(fmt: Format, buf: seq<byte>, f: int, n: nat, k: nat): int {
    if fmt == ListenerFormat then Unpack4(ByteAt(buf, f + FirstLen(fmt) + (n + 2) / 3 + k / 4), k % 4) else 0
  }

  /** A listener substate of 0 says "ignore". */
  function Accept(fmt: Format, item: Item): seq<Heard> {
    if fmt == ListenerFormat && item.substate == 0 then [] else [Got(item)]
  }

  /** Events k, k+1, ... of the vector whose first value is at index `f`. A byte whose first code is out of
      range is dropped without moving on in the values `v` or in the substates `j`. */
  function VectorItems(fmt: Format, buf: seq<byte>, f: int, n: nat, k: nat, v: seq<byte>, j: nat): seq<Heard>
    requires |v| == FirstLen(fmt)
    decreases n - k
  {
    if k >= n then []
    else if CodeAt(fmt, buf, f, k - k % 3) > 5 then VectorItems(fmt, buf, f, n, k - k % 3 + 3, v, j)
    else Accept(fmt, Item(v, CodeAt(fmt, buf, f, k), SubstateAt(fmt, buf, f, n, j)))
         + VectorItems(fmt, buf, f, n, k + 1, Advance(fmt, v), j + 1)
  }

  /** The first value at index `f`; a buffer reads as zero past its end. */
  function FirstAt(fmt: Format, buf: seq<byte>, f: int): (v: seq<byte>)
    ensures |v| == FirstLen(fmt) && forall i :: 0 <= i < |v| ==> v[i] == ByteAt(buf, f + i)
  {
    Bytes(buf, f, FirstLen(fmt))
  }

  function Bytes(buf: seq<byte>, f: int, n: nat): (v: seq<byte>)
    ensures |v| == n && forall i :: 0 <= i < n ==> v[i] == ByteAt(buf, f + i)
  {
    if n == 0 then [] else Bytes(buf, f, n - 1) + [ByteAt(buf, f + n - 1)]
  }

  datatype Scan = Scan(heard: seq<Heard>, next: Option<int>, saw: bool)

  function LaHeard(lva: bool): seq<Heard> {
    if lva then [LeaveAll] else []
  }

  /** The tests against running off the end of the frame. */
  predicate Malformed(fmt: Format, f: int, n: nat, eof: int) {
    if fmt == ListenerFormat then f + n / 3 + n / 4 >= eof || f + 8 + EventBytes(fmt, n) >= eof
    else f + n / 3 >= eof
  }

  function ScanVectors(fmt: Format, buf: seq<byte>, p: int, eof: int, saw: bool, done: seq<Heard>): (s: Scan)
    requires 0 <= p
    ensures s.next.Some? ==> p <= s.next.value
    decreases |buf| - p
  {
    var h := Word(buf, p);
    if h == 0 then Scan(done, Some(p), saw)
    else
      var n := NumValues(h);
      var done := done + LaHeard(HasLva(h) && !saw);
      var saw := saw || HasLva(h);
      assert p < |buf| by { assert ByteAt(buf, p) != 0 || ByteAt(buf, p + 1) != 0; }
      if n == 0 then ScanVectors(fmt, buf, p + 2 + FirstLen(fmt), eof, saw, done)
      else if Malformed(fmt, p + 2, n, eof) then Scan(done, None, saw)
      else
        ScanVectors(fmt, buf, p + VectorSize(fmt, n), eof, saw,
                    done + VectorItems(fmt, buf, p + 2, n, 0, FirstAt(fmt, buf, p + 2), 0))
  }

  /** `msrp_recv_msg_check_attrib_list_len`, with the length field at index `q`. */
  predicate ListLengthOk(fmt: Format, buf: seq<byte>, q: int, eof: int) {
    var size := Word(buf, q);
    size >= FirstLen(fmt) + 3 && q + size < eof && ByteAt(buf, q + size) == 0 && ByteAt(buf, q + size + 1) == 0
  }

  /** One branch of `msrp_recv_msg`, on the message at index `p`. */
  function ScanMessage(fmt: Format, buf: seq<byte>, p: int, eof: int, saw: bool): (s: Scan)
    requires 0 <= p
    ensures s.next.Some? ==> p < s.next.value
  {
    if ByteAt(buf, p + 1) != FirstLen(fmt) then Scan([], None, saw)
    else if !ListLengthOk(fmt, buf, p + 2, eof) then
      Scan([], Some(p + 4 + VectorSize(fmt, NumValues(Word(buf, p + 4)))), saw)
    else ScanVectors(fmt, buf, p + 4, eof, saw, [])
  }

  /** Which branch is taken for an AttributeType; for any other type the packet is dropped. */
  function FormatOf(t: byte): Option<Format> {
    if t == 1 then Some(AdvertiseFormat)
    else if t == 2 then Some(FailedFormat)
    else if t == 3 then Some(ListenerFormat)
    else if t == 4 then Some(DomainFormat)
    else None
  }

  datatype Read = Read(fmt: Format, scan: Scan)

  /** The `switch` of `msrp_recv_msg`, on the message at index `p`; `saw` tells for which kinds a LeaveAll was seen. */
  function ReadMessage(buf: seq<byte>, p: int, eof: int, saw: set<Format>): Option<Read>
    requires 0 <= p
  {
    match FormatOf(ByteAt(buf, p))
    case None => None
    case Some(fmt) => Some(Read(fmt, ScanMessage(fmt, buf, p, eof, fmt in saw)))
  }
}
