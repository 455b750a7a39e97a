/** The MVRP receiver dispatches exactly what the emitter encoded, and a frame carries everything
    it should exactly when it fits. */
module MvrpRoundTrip {
  import opened Mrp
  import opened Participant
  import opened Mvrp
  import opened Wire
  import opened MvrpCodec

  function ItemsOf(os: seq<Offer>): (r: seq<Item>)
    ensures |r| == |os| && forall i :: 0 <= i < |os| ==> r[i] == Item(os[i].vid, CodeOf(os[i]))
  {
    seq(|os|, i requires 0 <= i < |os| => Item(os[i].vid, CodeOf(os[i])))
  }

  /** The attributes whose events the emitter writes into the frame. */
  function Sent(os: seq<Offer>, p: nat, room: int): seq<Item>
    decreases |os|
  {
    if os == [] || p >= room - 8 then []
    else if !os[0].tx || os[0].optional then Sent(os[1..], p, room)
    else
      var n := VectorLength(os);
      ItemsOf(os[..n]) + Sent(os[n..], (if p == 0 then 2 else p) + VectorSize(n), room)
  }

  /** What a receiver makes of a list of items. */
  function Deliver(items: seq<Item>): seq<Input> {
    if items == [] then [] else Accept(items[0].vid, items[0].code) + Deliver(items[1..])
  }

  lemma {:induction false} DeliverSplit(a: seq<Item>, b: seq<Item>)
    ensures Deliver(a + b) == Deliver(a) + Deliver(b)
    decreases |a|
  {
    if a == [] {
      assert a + b == b;
    } else {
      assert (a + b)[1..] == a[1..] + b;
      DeliverSplit(a[1..], b);
    }
  }

  // ---------------------------------------------------------------- one vector

  ghost predicate Consecutive(os: seq<Offer>) {
    forall i :: 0 <= i < |os| ==> 0 <= os[i].vid < 0x10000 && os[i].vid == os[0].vid + i
  }

  /** A run is as long as possible and its VIDs are consecutive. */
  lemma {:induction false} RunFacts(os: seq<Offer>, vid: int)
    requires OffersAscend(os) && 0 <= vid < 0x10000 && (os != [] ==> vid < os[0].vid)
    ensures var n := RunLength(os, vid);
            && (forall i :: 0 <= i < n ==> os[i].tx && os[i].vid == vid + 1 + i)
            && (n < |os| ==> !(os[n].tx && os[n].vid == vid + 1 + n))
  {
    if os != [] && os[0].tx && os[0].vid == (vid + 1) % 0x10000 {
      RunFacts(os[1..], os[0].vid);
      assert forall j :: 1 <= j < |os| ==> os[j] == os[1..][j - 1];
    }
  }

  lemma RunConsecutive(os: seq<Offer>)
    requires OffersAscend(os) && os != []
    ensures Consecutive(os[..VectorLength(os)])
  {
    RunFacts(os[1..], os[0].vid);
    assert forall j :: 1 <= j < |os| ==> os[j] == os[1..][j - 1];
  }

  lemma VectorFields(buf: seq<byte>, a: int, lva: bool, first: int, cs: seq<int>)
    requires 0 <= first < 0x10000 && Holds(buf, a, VectorBytes(lva, first, cs))
    ensures Word(buf, a) == Header(|cs|, lva) && Word(buf, a + 2) == first
  {
    var bs := VectorBytes(lva, first, cs);
    WordAt(buf, a, bs, 0, Header(|cs|, lva));
    WordAt(buf, a, bs, 2, first);
  }

  lemma VectorEvent(buf: seq<byte>, a: int, lva: bool, first: int, cs: seq<int>, k: nat)
    requires Codes(cs) && k < |cs| && Holds(buf, a, VectorBytes(lva, first, cs))
    ensures VectorCode(buf, a + 2, k) == cs[k]
  {
    var bs := VectorBytes(lva, first, cs);
    HoldsAt(buf, a, bs, 4 + k / 3);
    UnpackPackAll(cs, k);
    assert bs[4 + k / 3] == PackAll(cs)[k / 3];
  }

  lemma DeliverFrom(items: seq<Item>, k: nat)
    requires k < |items|
    ensures Deliver(items[k..]) == Accept(items[k].vid, items[k].code) + Deliver(items[k + 1..])
  {
    assert items[k..][1..] == items[k + 1..];
  }

  /** The vector with FirstValue at `f` spells out `items`. */
  ghost predicate Spells(buf: seq<byte>, f: int, items: seq<Item>) {
    forall k :: 0 <= k < |items| ==> items[k] == Item(Word(buf, f) + k, VectorCode(buf, f, k))
  }

  lemma {:induction false} SpelledDecodes(buf: seq<byte>, f: int, items: seq<Item>, k: nat)
    requires Spells(buf, f, items) && k <= |items|
    ensures VectorInputs(buf, f, |items|, k) == Deliver(items[k..])
    decreases |items| - k
  {
    hide VectorCode, Word, Accept;
    if k < |items| {
      SpelledDecodes(buf, f, items, k + 1);
      DeliverFrom(items, k);
    }
  }

  lemma VectorDecodes(buf: seq<byte>, a: int, lva: bool, run: seq<Offer>)
    requires run != [] && Consecutive(run)
    requires Holds(buf, a, VectorBytes(lva, run[0].vid, CodesOf(run)))
    ensures VectorInputs(buf, a + 2, |run|, 0) == Deliver(ItemsOf(run))
  {
    hide VectorCode, Word, Accept, Deliver, VectorInputs;
    var items := ItemsOf(run);
    VectorFields(buf, a, lva, run[0].vid, CodesOf(run));
    forall k | 0 <= k < |items| ensures items[k] == Item(Word(buf, a + 2) + k, VectorCode(buf, a + 2, k)) {
      VectorEvent(buf, a, lva, run[0].vid, CodesOf(run), k);
    }
    SpelledDecodes(buf, a + 2, items, 0);
    assert items[0..] == items;
  }

  // ---------------------------------------------------------------- all vectors of a message

  lemma ScanOne(buf: seq<byte>, a: int, eof: int, saw: bool, done: seq<Input>, n: nat, lva: bool)
    requires 0 <= a && Word(buf, a) == Header(n, lva) && 0 < n < 0x2000 && a + 2 + n / 3 < eof
    ensures ScanVectors(buf, a, eof, saw, done)
         == ScanVectors(buf, a + VectorSize(n), eof, saw || lva,
                        done + LaInputs(lva && !saw) + VectorInputs(buf, a + 2, n, 0))
  {
    hide VectorInputs, Word, Header;
    HeaderRoundTrip(n, lva);
  }

  lemma OneVectorScan(buf: seq<byte>, a: int, b: int, eof: int, lva: bool, saw: bool, seen: bool,
                      done: seq<Input>, done': seq<Input>, run: seq<Offer>)
    requires run != [] && Consecutive(run) && |run| < 0x2000 && b < eof
    requires Holds(buf, a, VectorBytes(lva, run[0].vid, CodesOf(run))) && b == a + VectorSize(|run|)
    requires seen == (saw || lva) && done' == done + LaInputs(lva && !saw) + Deliver(ItemsOf(run))
    ensures ScanVectors(buf, a, eof, saw, done) == ScanVectors(buf, b, eof, seen, done')
  {
    hide ScanVectors, VectorInputs, Deliver, Word, VectorBytes, Header, LaInputs;
    VectorFields(buf, a, lva, run[0].vid, CodesOf(run));
    VectorDecodes(buf, a, lva, run);
    ScanOne(buf, a, eof, saw, done, |run|, lva);
  }

  /** A run that fits a frame has far fewer values than the 13-bit NumberOfValues field can count. */
  lemma RunFitsHeader(n: nat, start: nat, room: int)
    requires start + VectorSize(n) <= room - 2 && room <= MAX_FRAME_SIZE
    ensures n < 0x2000
  {
  }

  /** How the emitter and the list of sent items unfold at the head of a vector. */
  lemma EmitHead(os: seq<Offer>, p: nat, room: int, lva: bool, bs: seq<byte>)
    returns (n: nat, end: nat, rest: seq<byte>)
    requires OffersAscend(os) && os != [] && p < room - 8 && os[0].tx && !os[0].optional
    requires EmitVectors(os, p, room, lva) == Vectors(bs)
    ensures n == VectorLength(os) && VectorSize(n) <= room - 2
    ensures EmitVectors(os[n..], end, room, false) == Vectors(rest)
    ensures bs == VectorBytes(lva, os[0].vid, CodesOf(os[..n])) + rest
    ensures Sent(os, p, room) == ItemsOf(os[..n]) + Sent(os[n..], end, room)
  {
    n := VectorLength(os);
    end := (if p == 0 then 2 else p) + VectorSize(n);
    rest := EmitVectors(os[n..], end, room, false).bytes;
  }

  lemma HeadRun(os: seq<Offer>, n: nat, room: int) returns (run: seq<Offer>)
    requires OffersAscend(os) && os != [] && n == VectorLength(os)
    requires VectorSize(n) <= room - 2 && room <= MAX_FRAME_SIZE
    ensures run == os[..n] && run != [] && run[0] == os[0] && Consecutive(run) && |run| < 0x2000
  {
    run := os[..n];
    RunConsecutive(os);
    RunFitsHeader(n, 0, room);
  }

  lemma HeadFacts(os: seq<Offer>, p: nat, room: int, lva: bool, bs: seq<byte>, buf: seq<byte>, a: int)
    returns (n: nat, end: nat, v: seq<byte>, rest: seq<byte>)
    requires OffersAscend(os) && os != [] && p < room - 8 && os[0].tx && !os[0].optional
    requires room <= MAX_FRAME_SIZE && EmitVectors(os, p, room, lva) == Vectors(bs)
    requires Holds(buf, a, bs + [0, 0])
    ensures 1 <= n <= |os| && OffersAscend(os[n..]) && EmitVectors(os[n..], end, room, false) == Vectors(rest)
    ensures Consecutive(os[..n]) && n < 0x2000 && v == VectorBytes(lva, os[..n][0].vid, CodesOf(os[..n]))
    ensures bs == v + rest && Holds(buf, a, v) && Holds(buf, a + |v|, rest + [0, 0])
    ensures Sent(os, p, room) == ItemsOf(os[..n]) + Sent(os[n..], end, room)
  {
    hide EmitVectors, Sent, Header, PackAll;
    n, end, rest := EmitHead(os, p, room, lva, bs);
    var run := HeadRun(os, n, room);
    v := VectorBytes(lva, run[0].vid, CodesOf(run));
    HoldsMarked(buf, a, v, rest);
  }

  /** What the receiver should have after vectors `bs` at index `a` that carry `items`. */
  function Expected(a: int, saw: bool, done: seq<Input>, lva: bool, bs: seq<byte>, items: seq<Item>): Scan {
    var la := lva && bs != [];
    Scan(done + LaInputs(la && !saw) + Deliver(items), Some(a + |bs|), saw || la)
  }

  lemma ExpectedCons(a: int, b: int, saw: bool, seen: bool, done: seq<Input>, done': seq<Input>, lva: bool,
                     v: seq<byte>, rest: seq<byte>, run: seq<Item>, items: seq<Item>)
    requires v != [] && b == a + |v| && seen == (saw || lva)
    requires done' == done + LaInputs(lva && !saw) + Deliver(run)
    ensures Expected(b, seen, done', false, rest, items) == Expected(a, saw, done, lva, v + rest, run + items)
  {
    hide Deliver;
    DeliverSplit(run, items);
    var d := done + LaInputs(lva && !saw);
    assert d + Deliver(run) + [] + Deliver(items) == d + (Deliver(run) + Deliver(items));
  }

  lemma {:induction false} HeadDecodes(os: seq<Offer>, p: nat, room: int, lva: bool, bs: seq<byte>,
                                       buf: seq<byte>, a: int, eof: int, saw: bool, done: seq<Input>)
    requires OffersAscend(os) && os != [] && p < room - 8 && os[0].tx && !os[0].optional
    requires room <= MAX_FRAME_SIZE && EmitVectors(os, p, room, lva) == Vectors(bs)
    requires Holds(buf, a, bs + [0, 0]) && a + |bs| < eof
    ensures ScanVectors(buf, a, eof, saw, done) == Expected(a, saw, done, lva, bs, Sent(os, p, room))
    decreases |os|, 0
  {
    hide ScanVectors, EmitVectors, Expected, Deliver, Sent, LaInputs;
    var n, end, v, rest := HeadFacts(os, p, room, lva, bs, buf, a);
    var b, seen, run := a + |v|, saw || lva, ItemsOf(os[..n]);
    var done' := done + LaInputs(lva && !saw) + Deliver(run);
    var items := Sent(os[n..], end, room);
    OneVectorScan(buf, a, b, eof, lva, saw, seen, done, done', os[..n]);
    VectorsDecode(os[n..], end, room, false, rest, buf, b, eof, seen, done');
    ExpectedCons(a, b, saw, seen, done, done', lva, v, rest, run, items);
  }

  lemma {:induction false} VectorsDecode(os: seq<Offer>, p: nat, room: int, lva: bool, bs: seq<byte>,
                                         buf: seq<byte>, a: int, eof: int, saw: bool, done: seq<Input>)
    requires OffersAscend(os) && room <= MAX_FRAME_SIZE
    requires EmitVectors(os, p, room, lva) == Vectors(bs)
    requires Holds(buf, a, bs + [0, 0]) && a + |bs| < eof
    ensures ScanVectors(buf, a, eof, saw, done) == Expected(a, saw, done, lva, bs, Sent(os, p, room))
    decreases |os|, 1
  {
    if os == [] || p >= room - 8 {
      assert bs + [0, 0] == [0, 0];
      WordAt(buf, a, [0, 0], 0, 0);
      assert done + [] + [] == done;
    } else if !os[0].tx || os[0].optional {
      VectorsDecode(os[1..], p, room, lva, bs, buf, a, eof, saw, done);
    } else {
      HeadDecodes(os, p, room, lva, bs, buf, a, eof, saw, done);
    }
  }
}
