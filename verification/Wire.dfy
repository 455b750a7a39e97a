/** Bytes, packed events and vector headers of MRPDUs (`mrp.h`, IEEE 802.1Q-2011 section 10.8). */
module Wire {
  import opened Mrp

  type byte = x: int | 0 <= x < 256

  const MAX_FRAME_SIZE := 2000

  /** Receive buffers are cleared before a frame is read into them. */
  function ByteAt(buf: seq<byte>, i: int): byte {
    if 0 <= i < |buf| then buf[i] else 0
  }

  function Word(buf: seq<byte>, i: int): int {
    ByteAt(buf, i) * 256 + ByteAt(buf, i + 1)
  }

  lemma WordInside(buf: seq<byte>, p: nat)
    requires Word(buf, p) != 0
    ensures p < |buf|
  {
  }

  function Hi(w: int): byte { w / 256 % 256 }

  function Lo(w: int): byte { w % 256 }

  function Zeroes(n: nat): (r: seq<byte>)
    ensures |r| == n && forall i :: 0 <= i < n ==> r[i] == 0
  {
    seq(n, _ => 0)
  }

  /** A short frame arrives with zeroes behind it. */
  function Padded(frame: seq<byte>, k: nat): seq<byte> {
    frame + Zeroes(k)
  }

  // ---------------------------------------------------------------- three events per byte

  predicate Codes(cs: seq<int>) {
    forall i :: 0 <= i < |cs| ==> 0 <= cs[i] < 6
  }

  function Pack3(x: int, y: int, z: int): byte {
    ((x * 6 + y) * 6 + z) % 256
  }

  function CodeOr0(cs: seq<int>, i: nat): int {
    if i < |cs| then cs[i] else 0
  }

  /** The vector bytes of a sequence of events; the last byte is padded with zeroes. */
  function PackAll(cs: seq<int>): (bs: seq<byte>)
    ensures |bs| == (|cs| + 2) / 3
    decreases |cs|
  {
    if cs == [] then []
    else [Pack3(cs[0], CodeOr0(cs, 1), CodeOr0(cs, 2))] + PackAll(if |cs| <= 3 then [] else cs[3..])
  }

  /** Three events to a byte, the first one counting most; what is missing at the end counts as zero. */
  function Packed(cs: seq<int>): (bs: seq<byte>)
    requires Codes(cs)
    ensures |bs| == (|cs| + 2) / 3
    ensures forall i :: 0 <= i < |bs| ==>
              bs[i] == 36 * CodeOr0(cs, 3 * i) + 6 * CodeOr0(cs, 3 * i + 1) + CodeOr0(cs, 3 * i + 2)
  {
    seq((|cs| + 2) / 3, i requires 0 <= i && Codes(cs) =>
                          36 * CodeOr0(cs, 3 * i) + 6 * CodeOr0(cs, 3 * i + 1) + CodeOr0(cs, 3 * i + 2))
  }

  lemma FirstByte(cs: seq<int>)
    requires Codes(cs) && cs != []
    ensures PackAll(cs)[0] == 36 * CodeOr0(cs, 0) + 6 * CodeOr0(cs, 1) + CodeOr0(cs, 2)
  {
    var x, y, z := cs[0], CodeOr0(cs, 1), CodeOr0(cs, 2);
    assert (x * 6 + y) * 6 + z == 36 * x + 6 * y + z < 256;
  }

  lemma {:induction false} PackedByte(cs: seq<int>, i: nat)
    requires Codes(cs) && i < (|cs| + 2) / 3
    ensures PackAll(cs)[i] == 36 * CodeOr0(cs, 3 * i) + 6 * CodeOr0(cs, 3 * i + 1) + CodeOr0(cs, 3 * i + 2)
    decreases i
  {
    hide Pack3;
    if i == 0 {
      FirstByte(cs);
    } else {
      var rest, k := cs[3..], 3 * (i - 1);
      PackedByte(rest, i - 1);
      assert PackAll(cs)[i] == PackAll(rest)[i - 1] && 3 * i == k + 3;
      CodeShift(cs, k);
      CodeShift(cs, k + 1);
      CodeShift(cs, k + 2);
    }
  }

  lemma CodeShift(cs: seq<int>, k: nat)
    requires |cs| > 3
    ensures CodeOr0(cs[3..], k) == CodeOr0(cs, k + 3)
  {
  }

  /** The packed events byte by byte. */
  lemma PackedIs(cs: seq<int>)
    requires Codes(cs)
    ensures PackAll(cs) == Packed(cs)
  {
    hide PackAll, CodeOr0;
    forall i | 0 <= i < |PackAll(cs)| ensures PackAll(cs)[i] == Packed(cs)[i] {
      PackedByte(cs, i);
    }
  }

  /** The j-th event of a vector byte, as the receivers take it apart. */
  function Unpack3(b: byte, j: int): int {
    if j == 0 then b / 36
    else if j == 1 then (b - b / 36 * 36) / 6
    else b - 36 * (b / 36) - 6 * ((b - b / 36 * 36) / 6)
  }

  lemma UnpackPack3(x: int, y: int, z: int)
    requires 0 <= x < 6 && 0 <= y < 6 && 0 <= z < 6
    ensures var b := Pack3(x, y, z); Unpack3(b, 0) == x && Unpack3(b, 1) == y && Unpack3(b, 2) == z
  {
  }

  /** Taking a packed vector apart gives back every event. */
  lemma {:induction false} UnpackPackAll(cs: seq<int>, k: nat)
    requires Codes(cs) && k < |cs|
    ensures Unpack3(PackAll(cs)[k / 3], k % 3) == cs[k]
    decreases |cs|
  {
    hide Pack3, Unpack3;
    UnpackPack3(cs[0], CodeOr0(cs, 1), CodeOr0(cs, 2));
    if k >= 3 {
      UnpackPackAll(cs[3..], k - 3);
      assert (k - 3) / 3 == k / 3 - 1;
      assert (k - 3) % 3 == k % 3;
    }
  }

  // ---------------------------------------------------------------- vector headers

  const LVA_FLAG := 0x2000

  function Header(n: nat, lva: bool): (h: int)
    ensures 0 <= h < 0x4000
  {
    n % 0x2000 + (if lva then LVA_FLAG else 0)
  }

  function NumValues(h: int): nat { h % 0x2000 }

  predicate HasLva(h: int) { h / 0x2000 % 8 == 1 }

  lemma HeaderRoundTrip(n: nat, lva: bool)
    requires n < 0x2000
    ensures NumValues(Header(n, lva)) == n && (HasLva(Header(n, lva)) <==> lva)
    ensures n > 0 || lva ==> Header(n, lva) != 0
  {
  }

  /** LeaveAllEvent times 8192 plus NumberOfValues, in two bytes. */
  lemma HeaderBytes(n: nat, lva: bool)
    requires n < 0x2000
    ensures Hi(Header(n, lva)) == (if lva then 32 else 0) + n / 256 && Lo(Header(n, lva)) == n % 256
  {
    var h := Header(n, lva);
    assert h == n + (if lva then 8192 else 0);
  }

  // ---------------------------------------------------------------- messages

  /** The code a sender puts on the wire for an applicant message, given the registrar's state;
      None is the emitters' "huh?" branch. */
  function PduCode(m: SndMsg, reg: RegState): Option<int> {
    match m
    case SndIn => Some(if reg == IN then 2 else 4)
    case SndNew => Some(0)
    case SndLv => Some(5)
    case SndJoin => Some(if reg == IN then 1 else 3)
    case _ => None
  }

  /** The event a receiver raises for a code; codes above 5 are dropped. */
  function RecvEvent(c: int): Event
    requires 0 <= c < 6
  {
    if c == 0 then RNew else if c == 1 then RJoinIn else if c == 2 then RIn
    else if c == 3 then RJoinMt else if c == 4 then RMt else RLv
  }

  /** Every message an applicant can ask for arrives as the event it means; Join and In also tell whether the
      sender has the attribute registered. */
  lemma MessageMeaning(m: SndMsg, reg: RegState)
    requires Sendable(m)
    ensures PduCode(m, reg).Some? && 0 <= PduCode(m, reg).value < 6
    ensures RecvEvent(PduCode(m, reg).value) ==
            if m == SndNew then RNew
            else if m == SndLv then RLv
            else if m == SndJoin then (if reg == IN then RJoinIn else RJoinMt)
            else (if reg == IN then RIn else RMt)
  {
  }

  /** `bs` lies at index `a` of `buf`. */
  predicate Holds(buf: seq<byte>, a: int, bs: seq<byte>) {
    0 <= a && a + |bs| <= |buf| && buf[a..a + |bs|] == bs
  }

  lemma HoldsSplit(buf: seq<byte>, a: int, x: seq<byte>, y: seq<byte>)
    ensures Holds(buf, a, x + y) <==> Holds(buf, a, x) && Holds(buf, a + |x|, y)
  {
    if Holds(buf, a, x + y) {
      assert buf[a..a + |x|] == (x + y)[..|x|] == x;
      assert buf[a + |x|..a + |x| + |y|] == (x + y)[|x|..] == y;
    }
  }

  lemma HoldsPadded(frame: seq<byte>, k: nat, a: int, bs: seq<byte>)
    requires Holds(frame, a, bs)
    ensures Holds(Padded(frame, k), a, bs)
  {
    assert Padded(frame, k)[a..a + |bs|] == frame[a..a + |bs|];
  }

  /** A vector followed by others and an endmark. */
  lemma HoldsMarked(buf: seq<byte>, a: int, v: seq<byte>, rest: seq<byte>)
    requires Holds(buf, a, v + rest + [0, 0])
    ensures Holds(buf, a, v) && Holds(buf, a + |v|, rest + [0, 0])
  {
    assert v + rest + [0, 0] == v + (rest + [0, 0]);
    HoldsSplit(buf, a, v, rest + [0, 0]);
  }

  lemma WordAt(buf: seq<byte>, a: int, bs: seq<byte>, i: nat, w: int)
    requires Holds(buf, a, bs) && i + 1 < |bs| && 0 <= w < 0x10000 && bs[i] == Hi(w) && bs[i + 1] == Lo(w)
    ensures Word(buf, a + i) == w
  {
    HoldsAt(buf, a, bs, i);
    HoldsAt(buf, a, bs, i + 1);
  }

  lemma HoldsAt(buf: seq<byte>, a: int, bs: seq<byte>, i: nat)
    requires Holds(buf, a, bs) && i < |bs|
    ensures ByteAt(buf, a + i) == bs[i]
  {
    assert buf[a..a + |bs|][i] == buf[a + i];
  }
}
