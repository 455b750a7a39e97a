/** Two MVRP stations joined by a link: what one station's frame does to the other's database. */
module Convergence {
  import opened Mrp
  import opened Participant
  import opened Mvrp
  import opened KeySets
  import opened MvrpProperties
  import opened Wire
  import opened MvrpCodec
  import opened MvrpRoundTrip
  import opened MvrpFrames

  // ---------------------------------------------------------------- what a database offers

  function OfferOf(x: Vlan, e: Event): Offer {
    var r := AppRequest(x.app, e);
    Offer(x.key, r.tx, r.optional, PduCode(r.sndmsg, RegNext(x.reg, e)))
  }

  /** The offers the emitter finds after the loop of tx! or txLA! has run over `es`. */
  function OffersAfter(es: seq<Vlan>, e: Event): (os: seq<Offer>)
    ensures |os| == |es| && forall i :: 0 <= i < |es| ==> os[i] == OfferOf(es[i], e)
  {
    seq(|es|, i requires 0 <= i < |es| => OfferOf(es[i], e))
  }

  /** The frame an input makes a station send. */
  function FrameOf(station: seq<byte>, db: Db, input: Input): Option<seq<byte>> {
    match input
    case Transmit => BuildFrame(station, OffersAfter(db.entries, Tx), db.t.laTx, false)
    case LeaveAllTimer => BuildFrame(station, OffersAfter(db.entries, TxLA), true, true)
    case _ => None
  }

  /** A station receives a frame. */
  function Receive(db: Db, frame: seq<byte>, now: nat): Db {
    Run(db, AllAt(now, Dispatch(frame)))
  }

  /** After tx! or txLA! every attribute has a message the emitter knows how to encode: its "huh?"
      exits are unreachable. */
  lemma OffersWellFormed(es: seq<Vlan>, e: Event)
    requires Ascending(es) && (forall x :: x in es ==> 0 <= x.key < 0x10000) && (e == Tx || e == TxLA)
    ensures OffersAscend(OffersAfter(es, e)) && AllEncodable(OffersAfter(es, e))
    ensures forall i :: 0 <= i < |es| ==> OffersAfter(es, e)[i].tx
  {
    forall i | 0 <= i < |es| ensures Encodable(OfferOf(es[i], e)) && OfferOf(es[i], e).tx {
      assert Sendable(AppRequest(es[i].app, e).sndmsg);
    }
  }

  // ---------------------------------------------------------------- what a list of items does

  function JoinedBy(items: seq<Item>): set<int> {
    set x | x in items && x.vid <= 0xFFF && x.code in {0, 1, 3} :: x.vid
  }

  function LeftBy(items: seq<Item>): set<int> {
    set x | x in items && x.vid <= 0xFFF && x.code == 5 :: x.vid
  }

  ghost predicate ItemsAscend(items: seq<Item>) {
    forall i, j :: 0 <= i < j < |items| ==> items[i].vid < items[j].vid
  }

  lemma AllAtCons(now: nat, x: Input, rest: seq<Input>)
    ensures AllAt(now, [x] + rest)[0] == Stamped(now, x)
    ensures AllAt(now, [x] + rest)[1..] == AllAt(now, rest)
  {
  }

  lemma AcceptedOne(r: set<int>, vid: int, code: int, rest: seq<Input>, now: nat)
    ensures RegisteredReplay(r, AllAt(now, Accept(vid, code) + rest))
         == RegisteredReplay(if vid <= 0xFFF && code in {0, 1, 3} then r + {vid}
                             else if vid <= 0xFFF && code == 5 then r - {vid} else r, AllAt(now, rest))
  {
    if vid <= 0xFFF && 0 <= code < 6 {
      AllAtCons(now, On(RecvEvent(code), vid), rest);
    } else {
      assert Accept(vid, code) + rest == rest;
    }
  }

  lemma SetsCons(items: seq<Item>)
    requires items != []
    ensures var x := items[0];
            && JoinedBy(items) == JoinedBy(items[1..]) + (if x.vid <= 0xFFF && x.code in {0, 1, 3} then {x.vid} else {})
            && LeftBy(items) == LeftBy(items[1..]) + (if x.vid <= 0xFFF && x.code == 5 then {x.vid} else {})
  {
    assert items == [items[0]] + items[1..];
  }

  /** Delivering items registers what they join and drops what they leave, and touches nothing else. */
  lemma {:induction false} DeliveryRegisters(r: set<int>, items: seq<Item>, now: nat)
    requires ItemsAscend(items)
    ensures RegisteredReplay(r, AllAt(now, Deliver(items))) == (r + JoinedBy(items)) - LeftBy(items)
    decreases |items|
  {
    hide RegisteredReplay, Accept;
    if items == [] {
      ReplayNothing(r, now);
    } else {
      var x := items[0];
      var r' := if x.vid <= 0xFFF && x.code in {0, 1, 3} then r + {x.vid}
                else if x.vid <= 0xFFF && x.code == 5 then r - {x.vid} else r;
      AcceptedOne(r, x.vid, x.code, Deliver(items[1..]), now);
      DeliveryRegisters(r', items[1..], now);
      SetsCons(items);
      assert x.vid !in JoinedBy(items[1..]) && x.vid !in LeftBy(items[1..]);
    }
  }

  lemma ReplayNothing(r: set<int>, now: nat)
    ensures RegisteredReplay(r, AllAt(now, [])) == r
  {
  }

  // ---------------------------------------------------------------- reception

  /** Inputs that come from the network. */
  ghost predicate FromNetwork(inputs: seq<Input>) {
    forall i :: 0 <= i < |inputs| ==>
      inputs[i].RecvLeaveAll?
      || (inputs[i].On? && 0 <= inputs[i].vid <= 0xFFF && inputs[i].e in {RNew, RJoinIn, RIn, RJoinMt, RMt, RLv})
  }

  lemma {:induction false} VectorFromNetwork(buf: seq<byte>, f: int, n: nat, k: nat)
    ensures FromNetwork(VectorInputs(buf, f, n, k))
    decreases n - k
  {
    if k < n {
      VectorFromNetwork(buf, f, n, k + 1);
    }
  }

  lemma {:induction false} VectorsFromNetwork(buf: seq<byte>, p: int, eof: int, saw: bool, done: seq<Input>)
    requires 0 <= p && FromNetwork(done)
    ensures FromNetwork(ScanVectors(buf, p, eof, saw, done).inputs)
    decreases |buf| - p
  {
    hide VectorInputs, Word;
    var h := Word(buf, p);
    if h != 0 && NumValues(h) != 0 && p + 2 + NumValues(h) / 3 < eof {
      var n := NumValues(h);
      var d := done + LaInputs(HasLva(h) && !saw);
      VectorFromNetwork(buf, p + 2, n, 0);
      WordInside(buf, p);
      VectorsFromNetwork(buf, p + VectorSize(n), eof, saw || HasLva(h), d + VectorInputs(buf, p + 2, n, 0));
    }
  }

  lemma {:induction false} MessagesFromNetwork(buf: seq<byte>, p: int, eof: int, marks: nat, saw: bool,
                                               done: seq<Input>)
    requires 0 <= p && FromNetwork(done)
    ensures FromNetwork(ScanMessages(buf, p, eof, marks, saw, done))
    decreases eof - p
  {
    hide ScanVectors;
    if p < eof - 2 {
      if Word(buf, p) == 0 {
        if marks + 1 < 2 { MessagesFromNetwork(buf, p + 2, eof, marks + 1, saw, done); }
      } else if ByteAt(buf, p) == VID_TYPE {
        if ByteAt(buf, p + 1) == 2 {
          var s := ScanVectors(buf, p + 2, eof, saw, done);
          VectorsFromNetwork(buf, p + 2, eof, saw, done);
          if s.next.Some? { MessagesFromNetwork(buf, s.next.value, eof, 0, s.saw, s.inputs); }
        }
      } else if ByteAt(buf, MESSAGE_START - 1) != 0 {
        var n := NumValues(Word(buf, p + 2));
        MessagesFromNetwork(buf, p + 4 + ByteAt(buf, p + 1) + (n + 2) / 3, eof, 0, saw, done);
      }
    }
  }

  lemma {:induction false} NetworkKeepsDeclared(d: set<int>, inputs: seq<Input>, now: nat)
    requires FromNetwork(inputs)
    ensures DeclaredReplay(d, AllAt(now, inputs)) == d
    decreases |inputs|
  {
    if inputs != [] {
      AllAtCons(now, inputs[0], inputs[1..]);
      assert inputs == [inputs[0]] + inputs[1..];
      NetworkKeepsDeclared(d, inputs[1..], now);
    }
  }

  lemma DispatchFromNetwork(frame: seq<byte>, now: nat)
    ensures FromNetwork(Dispatch(frame)) && ValidRun(AllAt(now, Dispatch(frame)))
  {
    hide ScanMessages, Word;
    if Dispatch(frame) != [] {
      MessagesFromNetwork(frame, MESSAGE_START, |frame|, 0, false, []);
    }
  }

  /** No frame whatsoever, well-formed or not, changes what a station declares. */
  lemma ReceiveKeepsDeclared(db: Db, frame: seq<byte>, now: nat)
    requires Valid(db)
    ensures Valid(Receive(db, frame, now))
    ensures Declared(Receive(db, frame, now).entries) == Declared(db.entries)
  {
    hide Dispatch, Declared;
    var run := AllAt(now, Dispatch(frame));
    DispatchFromNetwork(frame, now);
    RunValid(db, run);
    DeclaredRefines(db, run);
    NetworkKeepsDeclared(Declared(db.entries), Dispatch(frame), now);
  }

  // ---------------------------------------------------------------- transmission

  ghost predicate Offered(os: seq<Offer>, x: Item) {
    exists i :: 0 <= i < |os| && x == Item(os[i].vid, CodeOf(os[i]))
  }

  /** Everything sent comes from the offers, in their order. */
  lemma {:induction false} SentAscends(os: seq<Offer>, p: nat, room: int)
    requires OffersAscend(os)
    ensures ItemsAscend(Sent(os, p, room))
    ensures forall x :: x in Sent(os, p, room) ==> Offered(os, x)
    decreases |os|
  {
    hide RunLength, CodeOf, Offered;
    if os != [] && p < room - 8 {
      if !os[0].tx || os[0].optional {
        SentAscends(os[1..], p, room);
        SentStep(os, 1, Sent(os[1..], p, room));
      } else {
        var n := VectorLength(os);
        var end := (if p == 0 then 2 else p) + VectorSize(n);
        SentAscends(os[n..], end, room);
        SentStep(os, n, Sent(os[n..], end, room));
      }
    }
  }

  lemma SentStep(os: seq<Offer>, n: nat, rest: seq<Item>)
    requires OffersAscend(os) && n <= |os| && ItemsAscend(rest)
    requires forall x :: x in rest ==> Offered(os[n..], x)
    ensures ItemsAscend(ItemsOf(os[..n]) + rest)
    ensures forall x :: x in ItemsOf(os[..n]) + rest ==> Offered(os, x)
    ensures forall x :: x in rest ==> Offered(os, x)
  {
    var head := ItemsOf(os[..n]);
    forall x | x in rest ensures exists i :: n <= i < |os| && x == Item(os[i].vid, CodeOf(os[i])) {
      var i :| 0 <= i < |os[n..]| && x == Item(os[n..][i].vid, CodeOf(os[n..][i]));
      assert os[n..][i] == os[n + i];
    }
    forall x | x in head ensures Offered(os, x) {
      var i :| 0 <= i < |head| && head[i] == x;
      assert os[..n][i] == os[i];
    }
    forall i, j | 0 <= i < j < |head + rest| ensures (head + rest)[i].vid < (head + rest)[j].vid {
      if j >= |head| { assert rest[j - |head|] in rest; }
      if i < |head| { assert head[i].vid == os[i].vid; }
    }
  }

  /** The effect of one station's frame on another station: registrations gained, registrations
      dropped, and nothing declared or undeclared. */
  lemma FrameEffect(station: seq<byte>, a: Db, input: Input, b: Db, now: nat, os: seq<Offer>, lva: bool, k: nat)
    requires |station| == 6 && Valid(a) && Valid(b) && FrameOf(station, a, input).Some?
    requires os == OffersAfter(a.entries, if input.Transmit? then Tx else TxLA)
    requires lva == (input.LeaveAllTimer? || a.t.laTx)
    ensures var b', items := Receive(b, Padded(FrameOf(station, a, input).value, k), now), Sent(os, 0, ROOM);
            && Declared(b'.entries) == Declared(b.entries)
            && Registered(b'.entries)
               == ((if lva then {} else Registered(b.entries)) + JoinedBy(items)) - LeftBy(items)
  {
    hide BuildFrame, Dispatch, Deliver, Sent, RegisteredReplay, Registered, Declared, JoinedBy, LeftBy, Padded;
    var sent := FrameOf(station, a, input).value;
    var frame := Padded(sent, k);
    var items := Sent(os, 0, ROOM);
    ReceiveKeepsDeclared(b, frame, now);
    DispatchFromNetwork(frame, now);
    OffersWellFormed(a.entries, if input.Transmit? then Tx else TxLA);
    FrameRoundTrip(station, os, lva, input.LeaveAllTimer?, sent, k);
    RegisteredRefines(b, AllAt(now, Dispatch(frame)));
    LeaveAllThenItems(Registered(b.entries), lva, Deliver(items), now);
    SentAscends(os, 0, ROOM);
    DeliveryRegisters(if lva then {} else Registered(b.entries), items, now);
  }

  lemma LeaveAllThenItems(r: set<int>, lva: bool, rest: seq<Input>, now: nat)
    ensures RegisteredReplay(r, AllAt(now, LaInputs(lva) + rest))
         == RegisteredReplay(if lva then {} else r, AllAt(now, rest))
  {
    if lva {
      AllAtCons(now, RecvLeaveAll, rest);
    } else {
      assert LaInputs(lva) + rest == rest;
    }
  }

  // ---------------------------------------------------------------- convergence

  /** The 12-bit VIDs a station declares, and those it is about to announce as left. */
  function Declared12(es: seq<Vlan>): set<int> {
    set x | x in es && x.key <= 0xFFF && Declares(x.app) :: x.key
  }

  function Withdrawn12(es: seq<Vlan>): set<int> {
    set x | x in es && x.key <= 0xFFF && x.app == LA :: x.key
  }

  /** After periodic!, tx! announces every declaration and every withdrawal, and nothing else with an effect. */
  lemma PeriodicOffer(x: Vlan, p2p: bool)
    ensures var o := OfferOf(Both(x, Periodic, p2p), Tx);
            && o.vid == x.key
            && (CodeOf(o) in {0, 1, 3} <==> Declares(x.app)) && (CodeOf(o) == 5 <==> x.app == LA)
            && (Declares(x.app) || x.app == LA ==> o.tx && !o.optional)
  {
  }

  lemma AnnouncedSets(a: Db, os: seq<Offer>, items: seq<Item>)
    requires Valid(a) && os == OffersAfter(PeriodicStep(a).entries, Tx) && OffersAscend(os)
    requires forall x :: x in items ==> Offered(os, x)
    requires forall i :: 0 <= i < |os| && os[i].tx && !os[i].optional ==> Item(os[i].vid, CodeOf(os[i])) in items
    ensures JoinedBy(items) == Declared12(a.entries) && LeftBy(items) == Withdrawn12(a.entries)
  {
    hide CodeOf, OfferOf;
    assert |os| == |a.entries|;
    forall i | 0 <= i < |os|
      ensures os[i].vid == a.entries[i].key
      ensures CodeOf(os[i]) in {0, 1, 3} <==> Declares(a.entries[i].app)
      ensures CodeOf(os[i]) == 5 <==> a.entries[i].app == LA
      ensures Declares(a.entries[i].app) || a.entries[i].app == LA ==> os[i].tx && !os[i].optional
    {
      PeriodicOffer(a.entries[i], a.p2p);
      assert EveryVid(a.entries[i].key);
    }
    forall x | x in items ensures exists i :: 0 <= i < |a.entries| && x == Item(a.entries[i].key, CodeOf(os[i])) {
      var i :| 0 <= i < |os| && x == Item(os[i].vid, CodeOf(os[i]));
    }
    forall y | y in a.entries && (Declares(y.app) || y.app == LA)
      ensures exists i :: 0 <= i < |os| && y == a.entries[i] && Item(y.key, CodeOf(os[i])) in items
    {
      var i :| 0 <= i < |a.entries| && a.entries[i] == y;
      assert Item(os[i].vid, CodeOf(os[i])) in items;
    }
  }

  lemma MandatorySelected(os: seq<Offer>)
    requires OffersAscend(os)
    ensures forall i :: 0 <= i < |os| && os[i].tx && !os[i].optional ==> Item(os[i].vid, CodeOf(os[i])) in Selected(os)
  {
    forall i | 0 <= i < |os| && os[i].tx && !os[i].optional ensures Item(os[i].vid, CodeOf(os[i])) in Selected(os) {
      assert Reaches(os, i, i);
      SelectedExactly(os, i);
    }
  }

  /** From any two databases in any machine states: after periodic! and tx! at A, delivering A's frame, padded or not,
      leaves B's declarations alone and B's registrations exactly what they were (or nothing, if A
      signalled LeaveAll) plus A's declarations minus A's withdrawals. A itself still declares the same. */
  lemma Converges(station: seq<byte>, a: Db, b: Db, at: nat, now: nat, k: nat)
    requires |station| == 6 && Valid(a) && Valid(b)
    requires TotalSize(OffersAfter(PeriodicStep(a).entries, Tx)) <= CAPACITY
    ensures var a1 := PeriodicStep(a);
            var frame := FrameOf(station, a1, Transmit);
            && Declared(TransmitStep(a1).entries) == Declared(a.entries)
            && (frame.None? ==> Declared12(a.entries) == {} == Withdrawn12(a.entries))
            && (frame.Some? ==>
                  var b', before := Receive(b, Padded(frame.value, k), now), Registered(b.entries);
                  && Declared(b'.entries) == Declared(b.entries)
                  && Registered(b'.entries)
                     == ((if a.t.laTx then {} else before) + Declared12(a.entries)) - Withdrawn12(a.entries)
                  && Declared12(a.entries) <= Registered(b'.entries))
  {
    hide BuildFrame, Dispatch, Sent, Selected, Registered, Declared, TotalSize, Padded;
    var a1 := PeriodicStep(a);
    var os := OffersAfter(a1.entries, Tx);
    StepValid(a, Stamped(at, PeriodicTimer));
    StepSets(a, Stamped(at, PeriodicTimer));
    StepSets(a1, Stamped(at, Transmit));
    OffersWellFormed(a1.entries, Tx);
    MandatorySelected(os);
    SmallIsSentWhole(os, 0, ROOM);
    SentAscends(os, 0, ROOM);
    AnnouncedSets(a, os, Selected(os));
    DisjointSets(a);
    if FrameOf(station, a1, Transmit).Some? {
      FrameEffect(station, a1, Transmit, b, now, os, a.t.laTx, k);
    } else {
      NoFrameNothingSelected(station, os, a.t.laTx);
      assert JoinedBy([]) == {} == LeftBy([]);
    }
  }

  lemma NoFrameNothingSelected(station: seq<byte>, os: seq<Offer>, lva: bool)
    requires AllEncodable(os) && TotalSize(os) <= CAPACITY && BuildFrame(station, os, lva, false).None?
    ensures Selected(os) == []
  {
    if Selected(os) != [] {
      FrameCarriesAllIff(station, os, lva, false);
    }
  }

  lemma DisjointSets(a: Db)
    requires Valid(a)
    ensures Declared12(a.entries) !! Withdrawn12(a.entries)
  {
    forall x, y | x in a.entries && y in a.entries && Declares(x.app) && y.app == LA ensures x.key != y.key {
      var i :| 0 <= i < |a.entries| && a.entries[i] == x;
      var j :| 0 <= j < |a.entries| && a.entries[j] == y;
      assert i < j ==> a.entries[i].key < a.entries[j].key;
      assert j < i ==> a.entries[j].key < a.entries[i].key;
    }
  }
}
