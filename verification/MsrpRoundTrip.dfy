/** The MSRP receiver regenerates exactly what the emitters encoded: every talker with all its transmitted fields,
    every listener with its substate, every domain, however the attributes were coalesced into vectors. */
module MsrpRoundTrip {
  import opened Mrp
  import opened Wire
  import opened Eui64
  import opened StreamValues
  import opened MsrpCodec

  function ItemOf(fmt: Format, o: Offer): Item
    requires |o.full| == FullLen(fmt)
  {
    Item(o.full[..FirstLen(fmt)], CodeOf(o), if fmt == ListenerFormat then o.substate else 0)
  }

  ghost predicate AllMine(fmt: Format, os: seq<Offer>) {
    forall i :: 0 <= i < |os| ==> |os[i].full| == FullLen(fmt)
  }

  function ItemsOf(fmt: Format, os: seq<Offer>): (r: seq<Item>)
    requires AllMine(fmt, os)
    ensures |r| == |os| && forall i :: 0 <= i < |os| ==> r[i] == ItemOf(fmt, os[i])
  {
    seq(|os|, i requires 0 <= i < |os| => ItemOf(fmt, os[i]))
  }

  // ---------------------------------------------------------------- substates

  predicate Substates(ss: seq<int>) {
    forall i :: 0 <= i < |ss| ==> 0 <= ss[i] < 4
  }

  lemma UnpackPack4(w: int, x: int, y: int, z: int)
    requires 0 <= w < 4 && 0 <= x < 4 && 0 <= y < 4 && 0 <= z < 4
    ensures var b := Pack4(w, x, y, z);
            Unpack4(b, 0) == w && Unpack4(b, 1) == x && Unpack4(b, 2) == y && Unpack4(b, 3) == z
  {
    var b := Pack4(w, x, y, z);
    assert b == w * 64 + x * 16 + y * 4 + z;
    assert b / 4 == w * 16 + x * 4 + y;
    assert b / 16 == w * 4 + x;
    assert b / 64 == w;
  }

  lemma {:induction false} UnpackPack4All(ss: seq<int>, k: nat)
    requires Substates(ss) && k < |ss|
    ensures Unpack4(Pack4All(ss)[k / 4], k % 4) == ss[k]
    decreases |ss|
  {
    UnpackPack4(ss[0], ValueOr0(ss, 1), ValueOr0(ss, 2), ValueOr0(ss, 3));
    if k >= 4 {
      UnpackPack4All(ss[4..], k - 4);
      assert (k - 4) / 4 == k / 4 - 1;
      assert (k - 4) % 4 == k % 4;
    }
  }

  // ---------------------------------------------------------------- runs

  /** Each value is the one the receiver regenerates from the one before. */
  ghost predicate Chained(fmt: Format, items: seq<Item>) {
    && (forall i :: 0 <= i < |items| ==> |items[i].value| == FirstLen(fmt))
    && (forall i :: 0 < i < |items| ==> items[i].value == Advance(fmt, items[i - 1].value))
  }

  lemma TakeBehind(a: seq<byte>, b: seq<byte>, n: nat)
    requires |a| <= n <= |a| + |b|
    ensures (a + b)[..n] == a + b[..n - |a|]
  {
  }

  /** Cutting an attribute down to its first value commutes with advancing it. */
  lemma AdvanceCut(fmt: Format, full: seq<byte>)
    requires |full| == FullLen(fmt)
    ensures Advance(fmt, full[..FirstLen(fmt)]) == Advance(fmt, full)[..FirstLen(fmt)]
  {
    var n := FirstLen(fmt);
    if fmt == ListenerFormat {
      assert full[..8] == full;
      assert Increment(full)[..8] == Increment(full);
    } else if fmt == DomainFormat {
      assert full[..4] == full && Advance(fmt, full)[..4] == Advance(fmt, full);
    } else {
      var v := full[..n];
      assert v[..8] == full[..8] && v[8..14] == full[8..14];
      var a := Increment(full[..8]) + Increment(full[8..14]);
      TakeBehind(a, full[14..], n);
      assert v[14..] == full[14..][..n - 14];
    }
  }

  /** The next value of a vector: stream ID and destination address of a talker one up, each but for its first byte, and
      all else the same; the stream ID of a listener one up; class and priority of a domain one up. */
  lemma AdvanceFields(fmt: Format, v: seq<byte>)
    requires |v| == FirstLen(fmt) || |v| == FullLen(fmt)
    ensures var w := Advance(fmt, v);
            match fmt
            case ListenerFormat =>
              w[0] == v[0] && Value(w[1..]) == Successor(Value(v[1..]), 7)
            case DomainFormat =>
              w[0] == (if v[0] == 255 then 0 else v[0] + 1) && w[1] == (if v[1] == 255 then 0 else v[1] + 1)
              && w[2..] == v[2..]
            case _ =>
              && w[0] == v[0] && Value(w[1..8]) == Successor(Value(v[1..8]), 7)
              && w[8] == v[8] && Value(w[9..14]) == Successor(Value(v[9..14]), 5)
              && w[14..] == v[14..]
  {
    hide Increment, Value;
    var w := Advance(fmt, v);
    match fmt
    case ListenerFormat => IncrementIsSuccessor(v);
    case DomainFormat =>
    case _ =>
      var a, b := v[..8], v[8..14];
      IncrementIsSuccessor(a);
      IncrementIsSuccessor(b);
      assert w[..8] == Increment(a) && w[8..14] == Increment(b);
      assert w[1..8] == Increment(a)[1..] && w[9..14] == Increment(b)[1..];
      assert v[1..8] == a[1..] && v[9..14] == b[1..];
  }

  ghost predicate FullChain(fmt: Format, os: seq<Offer>) {
    && AllMine(fmt, os)
    && forall i :: 0 < i < |os| ==> os[i].full == Advance(fmt, os[i - 1].full)
  }

  lemma {:induction false} RunFacts(fmt: Format, os: seq<Offer>)
    requires WellFormedOffers(fmt, os) && os != [] && |os[0].full| == FullLen(fmt)
    ensures FullChain(fmt, os[..VectorLength(fmt, os)])
    decreases |os|
  {
    var n := VectorLength(fmt, os);
    if n > 1 {
      var rest := os[1..];
      assert VectorLength(fmt, rest) == n - 1;
      RunFacts(fmt, rest);
      var c := rest[..n - 1];
      assert forall i :: 0 < i < n ==> os[i] == c[i - 1];
    }
  }

  lemma RunChained(fmt: Format, run: seq<Offer>)
    requires FullChain(fmt, run)
    ensures Chained(fmt, ItemsOf(fmt, run))
  {
    var items := ItemsOf(fmt, run);
    forall i | 0 < i < |items| ensures items[i].value == Advance(fmt, items[i - 1].value) {
      AdvanceCut(fmt, run[i - 1].full);
    }
  }

  // ---------------------------------------------------------------- one vector

  function Deliver(fmt: Format, items: seq<Item>): seq<Heard> {
    if items == [] then [] else Accept(fmt, items[0]) + Deliver(fmt, items[1..])
  }

  lemma {:induction false} DeliverSplit(fmt: Format, a: seq<Item>, b: seq<Item>)
    ensures Deliver(fmt, a + b) == Deliver(fmt, a) + Deliver(fmt, b)
    decreases |a|
  {
    hide Accept;
    if a == [] {
      assert a + b == b;
    } else {
      assert (a + b)[1..] == a[1..] + b;
      DeliverSplit(fmt, a[1..], b);
    }
  }

  /** The vector with its first value at `f` spells out the codes and substates of `items`. */
  ghost predicate Spells(fmt: Format, buf: seq<byte>, f: int, items: seq<Item>) {
    forall k :: 0 <= k < |items| ==>
      && CodeAt(fmt, buf, f, k) == items[k].code && 0 <= items[k].code < 6
      && SubstateAt(fmt, buf, f, |items|, k) == items[k].substate
  }

  lemma DeliverFrom(fmt: Format, items: seq<Item>, k: nat)
    requires k < |items|
    ensures Deliver(fmt, items[k..]) == Accept(fmt, items[k]) + Deliver(fmt, items[k + 1..])
  {
    assert items[k..][1..] == items[k + 1..];
  }

  lemma SpelledStep(fmt: Format, buf: seq<byte>, f: int, items: seq<Item>, k: nat)
    requires Spells(fmt, buf, f, items) && Chained(fmt, items) && k < |items|
    ensures VectorItems(fmt, buf, f, |items|, k, items[k].value, k)
         == Accept(fmt, items[k]) + VectorItems(fmt, buf, f, |items|, k + 1, Advance(fmt, items[k].value), k + 1)
  {
    hide CodeAt, SubstateAt, Accept, Advance;
    var m := k - k % 3;
    assert CodeAt(fmt, buf, f, m) == items[m].code;
    assert items[k] == Item(items[k].value, CodeAt(fmt, buf, f, k), SubstateAt(fmt, buf, f, |items|, k));
  }

  lemma {:induction false} SpelledDecodes(fmt: Format, buf: seq<byte>, f: int, items: seq<Item>, k: nat)
    requires Spells(fmt, buf, f, items) && Chained(fmt, items) && k < |items|
    ensures VectorItems(fmt, buf, f, |items|, k, items[k].value, k) == Deliver(fmt, items[k..])
    decreases |items| - k
  {
    hide CodeAt, SubstateAt, Accept, Advance, Spells;
    SpelledStep(fmt, buf, f, items, k);
    DeliverFrom(fmt, items, k);
    if k + 1 < |items| {
      SpelledDecodes(fmt, buf, f, items, k + 1);
    }
  }

  /** How the parts of a vector lie in the buffer. */
  lemma VectorLayout(fmt: Format, lva: bool, run: seq<Offer>, buf: seq<byte>, a: int)
    requires run != [] && |run[0].full| == FullLen(fmt) && Holds(buf, a, VectorBytes(fmt, lva, run))
    ensures Word(buf, a) == Header(|run|, lva)
    ensures FirstAt(fmt, buf, a + 2) == run[0].full[..FirstLen(fmt)]
    ensures Holds(buf, a + 2 + FirstLen(fmt), PackAll(CodesOf(run)))
    ensures fmt == ListenerFormat ==> Holds(buf, a + 2 + FirstLen(fmt) + (|run| + 2) / 3, Pack4All(SubstatesOf(run)))
  {
    hide PackAll, Pack4All, Header, Word;
    var h := Header(|run|, lva);
    var first, cs := run[0].full[..FirstLen(fmt)], PackAll(CodesOf(run));
    var ss := if fmt == ListenerFormat then Pack4All(SubstatesOf(run)) else [];
    HoldsSplit(buf, a, [Hi(h), Lo(h)] + first + cs, ss);
    HoldsSplit(buf, a, [Hi(h), Lo(h)] + first, cs);
    HoldsSplit(buf, a, [Hi(h), Lo(h)], first);
    WordAt(buf, a, [Hi(h), Lo(h)], 0, h);
    forall i | 0 <= i < |first| ensures FirstAt(fmt, buf, a + 2)[i] == first[i] {
      HoldsAt(buf, a + 2, first, i);
    }
  }

  lemma RunSpells(fmt: Format, lva: bool, run: seq<Offer>, buf: seq<byte>, a: int)
    requires run != [] && AllMine(fmt, run) && Holds(buf, a, VectorBytes(fmt, lva, run))
    requires fmt == ListenerFormat ==> Substates(SubstatesOf(run))
    ensures Spells(fmt, buf, a + 2, ItemsOf(fmt, run))
  {
    hide VectorBytes, PackAll, Pack4All, Unpack3, Unpack4, Header, Word, ByteAt;
    VectorLayout(fmt, lva, run, buf, a);
    var items, cs, ss := ItemsOf(fmt, run), CodesOf(run), SubstatesOf(run);
    forall k | 0 <= k < |items|
      ensures CodeAt(fmt, buf, a + 2, k) == items[k].code
      ensures SubstateAt(fmt, buf, a + 2, |items|, k) == items[k].substate
    {
      HoldsAt(buf, a + 2 + FirstLen(fmt), PackAll(cs), k / 3);
      UnpackPackAll(cs, k);
      if fmt == ListenerFormat {
        HoldsAt(buf, a + 2 + FirstLen(fmt) + (|run| + 2) / 3, Pack4All(ss), k / 4);
        UnpackPack4All(ss, k);
      }
    }
  }

  lemma VectorDecodes(fmt: Format, lva: bool, run: seq<Offer>, buf: seq<byte>, a: int)
    requires run != [] && FullChain(fmt, run) && Holds(buf, a, VectorBytes(fmt, lva, run))
    requires fmt == ListenerFormat ==> Substates(SubstatesOf(run))
    ensures VectorItems(fmt, buf, a + 2, |run|, 0, FirstAt(fmt, buf, a + 2), 0) == Deliver(fmt, ItemsOf(fmt, run))
  {
    hide VectorBytes, VectorItems, Deliver, Spells, Chained, Header, Word, PackAll, Pack4All, Advance;
    var items := ItemsOf(fmt, run);
    VectorLayout(fmt, lva, run, buf, a);
    RunSpells(fmt, lva, run, buf, a);
    RunChained(fmt, run);
    SpelledDecodes(fmt, buf, a + 2, items, 0);
    assert items[0..] == items;
  }

  // ---------------------------------------------------------------- all vectors of a message

  /** The attributes whose events the emitter writes. */
  function Sent(fmt: Format, os: seq<Offer>, p: nat, room: int): seq<Item>
    requires WellFormedOffers(fmt, os)
    decreases |os|
  {
    if os == [] || p >= room - LeastVector(fmt) - 2 then []
    else if !os[0].mine || !os[0].tx || os[0].optional then Sent(fmt, os[1..], p, room)
    else
      var n := VectorLength(fmt, os);
      RunFacts(fmt, os);
      ItemsOf(fmt, os[..n]) + Sent(fmt, os[n..], (if p == 0 then 4 else p) + VectorSize(fmt, n), room)
  }

  /** A client may declare a listener with any 32-bit substate; the wire has two bits for it. */
  ghost predicate Fits(fmt: Format, items: seq<Item>) {
    fmt == ListenerFormat ==> forall i :: 0 <= i < |items| ==> 0 <= items[i].substate < 4
  }

  lemma ScanOne(fmt: Format, buf: seq<byte>, a: int, eof: int, saw: bool, done: seq<Heard>, n: nat, lva: bool)
    requires 0 <= a && Word(buf, a) == Header(n, lva) && 0 < n < 0x2000 && a + VectorSize(fmt, n) < eof
    ensures ScanVectors(fmt, buf, a, eof, saw, done)
         == ScanVectors(fmt, buf, a + VectorSize(fmt, n), eof, saw || lva,
              done + LaHeard(lva && !saw) + VectorItems(fmt, buf, a + 2, n, 0, FirstAt(fmt, buf, a + 2), 0))
  {
    hide VectorItems, Word, Header, Bytes;
    HeaderRoundTrip(n, lva);
  }

  lemma OneVectorScan(fmt: Format, buf: seq<byte>, a: int, b: int, eof: int, lva: bool, saw: bool, seen: bool,
                      done: seq<Heard>, done': seq<Heard>, run: seq<Offer>)
    requires run != [] && FullChain(fmt, run) && |run| < 0x2000 && b < eof
    requires fmt == ListenerFormat ==> Substates(SubstatesOf(run))
    requires Holds(buf, a, VectorBytes(fmt, lva, run)) && b == a + VectorSize(fmt, |run|)
    requires seen == (saw || lva) && done' == done + LaHeard(lva && !saw) + Deliver(fmt, ItemsOf(fmt, run))
    ensures ScanVectors(fmt, buf, a, eof, saw, done) == ScanVectors(fmt, buf, b, eof, seen, done')
  {
    hide ScanVectors, VectorItems, Deliver, Word, VectorBytes, Header, LaHeard, Advance, FirstAt;
    VectorLayout(fmt, lva, run, buf, a);
    VectorDecodes(fmt, lva, run, buf, a);
    ScanOne(fmt, buf, a, eof, saw, done, |run|, lva);
  }

  lemma RunFitsHeader(fmt: Format, n: nat, room: int)
    requires VectorSize(fmt, n) <= room - 2 && room <= MAX_FRAME_SIZE
    ensures n < 0x2000
  {
  }

  /** How the emitter and the list of sent items unfold at the head of a vector. */
  lemma EmitHead(fmt: Format, os: seq<Offer>, p: nat, room: int, lva: bool, bs: seq<byte>)
    returns (n: nat, end: nat, rest: seq<byte>)
    requires WellFormedOffers(fmt, os) && os != [] && p < room - LeastVector(fmt) - 2 && room <= MAX_FRAME_SIZE
    requires os[0].mine && os[0].tx && !os[0].optional
    requires EmitVectors(fmt, os, p, room, lva) == Vectors(bs)
    ensures n == VectorLength(fmt, os) && n < 0x2000 && FullChain(fmt, os[..n])
    ensures WellFormedOffers(fmt, os[n..]) && EmitVectors(fmt, os[n..], end, room, false) == Vectors(rest)
    ensures bs == VectorBytes(fmt, lva, os[..n]) + rest
    ensures Sent(fmt, os, p, room) == ItemsOf(fmt, os[..n]) + Sent(fmt, os[n..], end, room)
  {
    hide VectorBytes, FullChain, VectorLength;
    n := VectorLength(fmt, os);
    RunFacts(fmt, os);
    end := (if p == 0 then 4 else p) + VectorSize(fmt, n);
    RunFitsHeader(fmt, n, room);
    rest := EmitVectors(fmt, os[n..], end, room, false).bytes;
  }

  /** What the receiver should have after vectors `bs` at index `a` that carry `items`. */
  function Expected(fmt: Format, a: int, saw: bool, done: seq<Heard>, lva: bool, bs: seq<byte>,
                    items: seq<Item>): Scan {
    var la := lva && bs != [];
    Scan(done + LaHeard(la && !saw) + Deliver(fmt, items), Some(a + |bs|), saw || la)
  }

  lemma ExpectedCons(fmt: Format, a: int, b: int, saw: bool, seen: bool, done: seq<Heard>, done': seq<Heard>,
                     lva: bool, v: seq<byte>, rest: seq<byte>, run: seq<Item>, items: seq<Item>)
    requires v != [] && b == a + |v| && seen == (saw || lva)
    requires done' == done + LaHeard(lva && !saw) + Deliver(fmt, run)
    ensures Expected(fmt, b, seen, done', false, rest, items) == Expected(fmt, a, saw, done, lva, v + rest, run + items)
  {
    hide Deliver;
    DeliverSplit(fmt, run, items);
    var d := done + LaHeard(lva && !saw);
    assert d + Deliver(fmt, run) + [] + Deliver(fmt, items) == d + (Deliver(fmt, run) + Deliver(fmt, items));
  }

  lemma FitsSplit(fmt: Format, a: seq<Item>, b: seq<Item>)
    requires Fits(fmt, a + b)
    ensures Fits(fmt, a) && Fits(fmt, b)
  {
    assert forall i :: 0 <= i < |a| ==> (a + b)[i] == a[i];
    assert forall i :: 0 <= i < |b| ==> (a + b)[|a| + i] == b[i];
  }

  lemma RunFits(fmt: Format, run: seq<Offer>)
    requires AllMine(fmt, run) && Fits(fmt, ItemsOf(fmt, run))
    ensures fmt == ListenerFormat ==> Substates(SubstatesOf(run))
  {
    assert forall i :: 0 <= i < |run| ==> ItemsOf(fmt, run)[i] == ItemOf(fmt, run[i]);
  }

  lemma {:induction false} HeadDecodes(fmt: Format, os: seq<Offer>, p: nat, room: int, lva: bool, bs: seq<byte>,
                                       buf: seq<byte>, a: int, eof: int, saw: bool, done: seq<Heard>)
    requires WellFormedOffers(fmt, os) && Fits(fmt, Sent(fmt, os, p, room)) && room <= MAX_FRAME_SIZE
    requires os != [] && p < room - LeastVector(fmt) - 2 && os[0].mine && os[0].tx && !os[0].optional
    requires EmitVectors(fmt, os, p, room, lva) == Vectors(bs)
    requires Holds(buf, a, bs + [0, 0]) && a + |bs| < eof
    ensures ScanVectors(fmt, buf, a, eof, saw, done) == Expected(fmt, a, saw, done, lva, bs, Sent(fmt, os, p, room))
    decreases |os|, 0
  {
    hide ScanVectors, EmitVectors, Expected, Deliver, Sent, LaHeard, VectorBytes, FullChain, Fits,
      WellFormedOffers, VectorLength;
    var n, end, rest := EmitHead(fmt, os, p, room, lva, bs);
    ChainIsMine(fmt, os[..n]);
    var v := VectorBytes(fmt, lva, os[..n]);
    HoldsMarked(buf, a, v, rest);
    var b, seen, run := a + |v|, saw || lva, ItemsOf(fmt, os[..n]);
    FitsSplit(fmt, run, Sent(fmt, os[n..], end, room));
    RunFits(fmt, os[..n]);
    var done' := done + LaHeard(lva && !saw) + Deliver(fmt, run);
    OneVectorScan(fmt, buf, a, b, eof, lva, saw, seen, done, done', os[..n]);
    VectorsDecode(fmt, os[n..], end, room, false, rest, buf, b, eof, seen, done');
    ExpectedCons(fmt, a, b, saw, seen, done, done', lva, v, rest, run, Sent(fmt, os[n..], end, room));
  }

  lemma ChainIsMine(fmt: Format, run: seq<Offer>)
    requires FullChain(fmt, run)
    ensures AllMine(fmt, run)
  {
  }

  /** The vectors of a message decode to the sent items, once each and in order. */
  lemma {:induction false} VectorsDecode(fmt: Format, os: seq<Offer>, p: nat, room: int, lva: bool, bs: seq<byte>,
                                         buf: seq<byte>, a: int, eof: int, saw: bool, done: seq<Heard>)
    requires WellFormedOffers(fmt, os) && Fits(fmt, Sent(fmt, os, p, room)) && room <= MAX_FRAME_SIZE
    requires EmitVectors(fmt, os, p, room, lva) == Vectors(bs)
    requires Holds(buf, a, bs + [0, 0]) && a + |bs| < eof
    ensures ScanVectors(fmt, buf, a, eof, saw, done) == Expected(fmt, a, saw, done, lva, bs, Sent(fmt, os, p, room))
    decreases |os|, 1
  {
    hide VectorLength, VectorBytes, VectorItems;
    if os == [] || p >= room - LeastVector(fmt) - 2 {
      assert bs + [0, 0] == [0, 0];
      WordAt(buf, a, [0, 0], 0, 0);
      assert done + [] + [] == done;
    } else if !os[0].mine || !os[0].tx || os[0].optional {
      VectorsDecode(fmt, os[1..], p, room, lva, bs, buf, a, eof, saw, done);
    } else {
      HeadDecodes(fmt, os, p, room, lva, bs, buf, a, eof, saw, done);
    }
  }
}
