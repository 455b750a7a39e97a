/** What an MVRP station's frames signal, seen from the receiver: LeaveAll comes from leavealltimer! alone, and
    a VID that is declared New arrives as New twice, as long as the frames have room for it. */
module MvrpSignals {
  import opened Mrp
  import opened Participant
  import opened Mvrp
  import opened KeySets
  import opened MvrpProperties
  import opened MvrpTransmission
  import opened Wire
  import opened MvrpCodec
  import opened MvrpRoundTrip
  import opened MvrpFrames
  import opened MvrpCapacity
  import opened Convergence
  import Applicant

  lemma {:induction false} NoLeaveAllDelivered(items: seq<Item>)
    ensures RecvLeaveAll !in Deliver(items)
    decreases |items|
  {
    if items != [] {
      NoLeaveAllDelivered(items[1..]);
    }
  }

  /** In every reachable state, a frame raises rLA! at its receiver if and only if it was leavealltimer! that
      built it. */
  lemma LeaveAllFromTimerOnly(station: seq<byte>, db: Db, run: seq<Stamped>, input: Input, frame: seq<byte>,
                              k: nat)
    requires |station| == 6 && Valid(db) && ValidRun(run) && LeaveAllQuiet(db.t)
    requires FrameOf(station, Run(db, run), input) == Some(frame)
    ensures RecvLeaveAll in Dispatch(Padded(frame, k)) <==> input.LeaveAllTimer?
  {
    hide Run, Dispatch, BuildFrame, Deliver, Sent, Valid, ValidRun, Padded;
    RunValid(db, run);
    LeaveAllAlwaysQuiet(db, run);
    var now := Run(db, run);
    var e := if input.Transmit? then Tx else TxLA;
    var os := OffersAfter(now.entries, e);
    ValidParts(now);
    OffersWellFormed(now.entries, e);
    FrameRoundTrip(station, os, input.LeaveAllTimer?, input.LeaveAllTimer?, frame, k);
    NoLeaveAllDelivered(Sent(os, 0, ROOM));
  }

  lemma ValidParts(db: Db)
    requires Valid(db)
    ensures Ascending(db.entries) && forall x :: x in db.entries ==> 0 <= x.key < 0x10000
  {
  }

  // ---------------------------------------------------------------- New, on the wire

  /** A delivered rNew! comes from an item with the code of New, and the other way round. */
  lemma {:induction false} NewDeliveredIff(items: seq<Item>, v: int)
    requires v <= 0xFFF
    ensures On(RNew, v) in Deliver(items) <==> Item(v, 0) in items
    decreases |items|
  {
    if items != [] {
      NewDeliveredIff(items[1..], v);
      assert items == [items[0]] + items[1..];
    }
  }

  lemma NewOffer(x: Vlan, e: Event)
    requires (e == Tx || e == TxLA) && AppRequest(x.app, e).sndmsg == SndNew
    ensures var o := OfferOf(x, e); o.vid == x.key && Mandatory(o) && CodeOf(o) == 0
  {
  }

  /** What a transmitting input offers to the emitter. */
  function OffersOn(db: Db, input: Input): seq<Offer> {
    OffersAfter(db.entries, if input.Transmit? then Tx else TxLA)
  }

  /** The input makes the station send a frame, padded with `k` zeroes on its way, that says New for `v`. */
  predicate Announces(station: seq<byte>, db: Db, input: Input, v: int, k: nat) {
    var f := FrameOf(station, db, input);
    f.Some? && On(RNew, v) in Dispatch(Padded(f.value, k))
  }

  /** The frame goes out, and there is room in it before the vector of `v`. */
  predicate HasRoom(db: Db, input: Input, v: int) {
    var os := OffersOn(db, input);
    Attempted(os, 0) <= CAPACITY && Before(os, v) < START_LIMIT
  }

  lemma MarkedOffer(db: Db, input: Input, v: int) returns (i: nat)
    requires Valid(db) && MarksNew(db, input, v)
    ensures var os := OffersOn(db, input);
            i < |os| && OffersAscend(os) && AllEncodable(os) && Mandatory(os[i]) && os[i].vid == v && CodeOf(os[i]) == 0
  {
    hide OfferOf, CodeOf, Mandatory;
    i := Lookup(db.entries, v);
    var e := if input.Transmit? then Tx else TxLA;
    NewOffer(db.entries[i], e);
    OffersWellFormed(db.entries, e);
  }

  lemma AttemptedSome(os: seq<Offer>, i: nat)
    requires OffersAscend(os) && i < |os| && Mandatory(os[i])
    ensures Attempted(os, 0) > 0
    decreases |os|
  {
    if !Mandatory(os[0]) {
      AttemptedSome(os[1..], i - 1);
    }
  }

  /** A 12-bit VID that an input marks New is announced as New if and only if the vectors begun take at most
      1978 bytes and fewer than 1975 bytes of vectors come before the one it is in. */
  lemma AnnouncedIff(station: seq<byte>, db: Db, input: Input, v: int, k: nat)
    requires |station| == 6 && Valid(db) && MarksNew(db, input, v) && v <= 0xFFF
    ensures Announces(station, db, input, v, k) <==> HasRoom(db, input, v)
  {
    hide Dispatch, BuildFrame, Deliver, Sent, Attempted, Before, Mandatory, CodeOf, Valid, Padded, OfferOf;
    var os := OffersOn(db, input);
    var lva, empty := if input.Transmit? then db.t.laTx else true, input.LeaveAllTimer?;
    var i := MarkedOffer(db, input, v);
    AttemptedSome(os, i);
    FrameGoesOutIff(station, os, lva, empty);
    SentIff(os, 0, i);
    var f := FrameOf(station, db, input);
    if f.Some? {
      FrameRoundTrip(station, os, lva, empty, f.value, k);
      NewDeliveredIff(Sent(os, 0, ROOM), v);
    }
  }

  /** There is room for every VID if all vectors together take at most 1978 bytes. */
  lemma SmallHasRoom(db: Db, input: Input, v: int)
    requires Valid(db) && MarksNew(db, input, v) && TotalSize(OffersOn(db, input)) <= CAPACITY
    ensures HasRoom(db, input, v)
  {
    hide Attempted, Before, TotalSize, CodeOf, Valid;
    var os := OffersOn(db, input);
    var i := MarkedOffer(db, input, v);
    AttemptedAtMost(os, 0);
    BeforeAtMost(os, i);
  }

  /** How many inputs of a run make the station announce `v` as New. */
  function NewsAnnounced(station: seq<byte>, db: Db, run: seq<Stamped>, v: int, k: nat): nat
    decreases |run|
  {
    if run == [] then 0
    else (if Announces(station, db, run[0].input, v, k) then 1 else 0)
         + NewsAnnounced(station, Step(db, run[0]), run[1..], v, k)
  }

  /** Whenever an input marks `v` New, there is room for it. */
  ghost predicate RoomThroughout(db: Db, run: seq<Stamped>, v: int)
    decreases |run|
  {
    run == [] || ((MarksNew(db, run[0].input, v) ==> HasRoom(db, run[0].input, v))
                  && RoomThroughout(Step(db, run[0]), run[1..], v))
  }

  lemma {:induction false} MarkedIsAnnounced(station: seq<byte>, db: Db, run: seq<Stamped>, v: int, k: nat)
    requires |station| == 6 && Valid(db) && ValidRun(run) && v <= 0xFFF && RoomThroughout(db, run, v)
    ensures NewsAnnounced(station, db, run, v, k) >= NewsMarked(db, run, v)
    decreases |run|
  {
    hide Step, Valid, MarksNew, HasRoom, Announces;
    if run != [] {
      StepValid(db, run[0]);
      MarkedIsAnnounced(station, Step(db, run[0]), run[1..], v, k);
      if MarksNew(db, run[0].input, v) {
        AnnouncedIff(station, db, run[0].input, v, k);
      }
    }
  }

  /** After New! put the applicant of a 12-bit VID in VN, and unless its client leaves, the applicant is out of VN
      and AN only once at least two frames have announced New for it, provided the frames that should had room:
      whatever LeaveAlls, messages and timers come in between. */
  lemma NewHeardTwice(station: seq<byte>, db: Db, run: seq<Stamped>, v: int, k: nat)
    requires |station| == 6 && Valid(db) && ValidRun(run) && v <= 0xFFF && RoomThroughout(db, run, v)
    requires Get(db.entries, v).Some? && Get(db.entries, v).value.app == VN
    requires forall i :: 0 <= i < |run| ==> run[i].input != On(Lv, v)
    requires var o := Get(Run(db, run).entries, v); o.None? || o.value.app !in {VN, AN}
    ensures NewsAnnounced(station, db, run, v, k) >= 2
  {
    NewMarkedTwice(db, run, v);
    MarkedIsAnnounced(station, db, run, v, k);
  }

  /** The same from totals: every transmitting input of the run finds vectors of at most 1978 bytes. */
  ghost predicate SmallThroughout(db: Db, run: seq<Stamped>)
    decreases |run|
  {
    run == [] || ((run[0].input.Transmit? || run[0].input.LeaveAllTimer? ==>
                     TotalSize(OffersOn(db, run[0].input)) <= CAPACITY)
                  && SmallThroughout(Step(db, run[0]), run[1..]))
  }

  lemma {:induction false} SmallIsRoomThroughout(db: Db, run: seq<Stamped>, v: int)
    requires Valid(db) && ValidRun(run) && SmallThroughout(db, run)
    ensures RoomThroughout(db, run, v)
    decreases |run|
  {
    hide Step, Valid, HasRoom, TotalSize;
    if run != [] {
      StepValid(db, run[0]);
      SmallIsRoomThroughout(Step(db, run[0]), run[1..], v);
      if MarksNew(db, run[0].input, v) {
        SmallHasRoom(db, run[0].input, v);
      }
    }
  }

  // ---------------------------------------------------------------- a New that is never announced

  function EvenEntries(n: nat, s: AppState): (es: seq<Vlan>)
    ensures |es| == n && forall i :: 0 <= i < n ==> es[i] == Entry(2 * i, s, MT)
  {
    seq(n, i requires 0 <= i < n => Entry(2 * i, s, MT))
  }

  function EvenNews(n: nat): (run: seq<Stamped>)
    ensures |run| == n && forall i :: 0 <= i < n ==> run[i] == Stamped(0, On(New, 2 * i))
  {
    seq(n, i requires 0 <= i < n => Stamped(0, On(New, 2 * i)))
  }

  lemma EvenNewStep(n: nat, t: Timers, p2p: bool)
    ensures OnStep(Db(EvenEntries(n, VN), t, p2p), New, 2 * n, 0)
         == Db(EvenEntries(n + 1, VN), t.(join := true), p2p)
  {
    hide AppNext, RegNext;
    var es := EvenEntries(n, VN);
    var placed := InsertAt(es, n, Fresh(2 * n));
    assert Lookup(es, 2 * n) == n && InsertPos(es, 2 * n) == n;
    NewOnFresh(2 * n, p2p);
    assert placed[n] == Fresh(2 * n);
    assert placed[n := Entry(2 * n, VN, MT)] == EvenEntries(n + 1, VN);
  }

  lemma NewOnFresh(v: int, p2p: bool)
    ensures One(Fresh(v), New, p2p) == Entry(v, VN, MT) && !StartsLeaveTimer(MT, Remap(New, MT))
  {
  }

  /** Clients can bring a station to declare any number of even VIDs as New. */
  lemma {:induction false} EvenNewsReach(n: nat, p2p: bool)
    ensures Run(Db([], INITIAL_TIMERS, p2p), EvenNews(n))
         == Db(EvenEntries(n, VN), if n == 0 then INITIAL_TIMERS else INITIAL_TIMERS.(join := true), p2p)
  {
    hide OnStep;
    if n > 0 {
      EvenNewsReach(n - 1, p2p);
      var start, last := Db([], INITIAL_TIMERS, p2p), Stamped(0, On(New, 2 * (n - 1)));
      assert EvenNews(n) == EvenNews(n - 1) + [last];
      RunSplit(start, EvenNews(n - 1), [last]);
      var mid := Run(start, EvenNews(n - 1));
      assert Run(mid, [last]) == Run(Step(mid, last), []);
      EvenNewStep(n - 1, mid.t, p2p);
    }
  }

  lemma EvenTransmit(n: nat, s: AppState, s': AppState, t: Timers, p2p: bool)
    requires (s == VN && s' == AN) || (s == AN && s' == AA)
    ensures TransmitStep(Db(EvenEntries(n, s), t, p2p)).entries == EvenEntries(n, s')
    ensures OffersAfter(EvenEntries(n, s), Tx) == EvenOffers(0, n)
  {
    var es := EvenEntries(n, s);
    assert forall i :: 0 <= i < n ==> EveryVid(es[i].key);
  }

  lemma EvenMarked(s: AppState, t: Timers, p2p: bool)
    requires s == VN || s == AN
    ensures var db := Db(EvenEntries(396, s), t, p2p); Valid(db) && MarksNew(db, Transmit, 790)
  {
    var db := Db(EvenEntries(396, s), t, p2p);
    assert db.entries[395].key == 790;
    AscendingIsDistinct(db.entries);
    GetAt(db.entries, 395);
  }

  lemma EvenNotAnnounced(station: seq<byte>, s: AppState, t: Timers, p2p: bool, k: nat)
    requires |station| == 6 && (s == VN || s == AN)
    ensures var db := Db(EvenEntries(396, s), t, p2p);
            && Valid(db) && MarksNew(db, Transmit, 790)
            && FrameOf(station, db, Transmit).Some? && !Announces(station, db, Transmit, 790, k)
  {
    hide Attempted, Before, BuildFrame, Dispatch, Sent, TotalSize, Selected, Announces, VectorLength, Valid, MarksNew,
      OfferOf, CodeOf, AllEncodable, OffersAscend;
    var db := Db(EvenEntries(396, s), t, p2p);
    EvenMarked(s, t, p2p);
    EvenTransmit(396, s, if s == VN then AN else AA, t, p2p);
    EvenSizes(0, 396, 0);
    EvenBefore(0, 396, 395);
    FrameCanLoseVid(station, t.laTx, false);
    AnnouncedIff(station, db, Transmit, 790, k);
  }

  /** Without room it can happen that a New is never announced: after 396 clients declared the even VIDs up to 790
      as New, two transmissions pay off what is owed for VID 790, both frames go out, and neither says New for
      it. */
  lemma NewCanGoUnannounced(station: seq<byte>, p2p: bool, at: nat, k: nat)
    requires |station| == 6
    ensures var run := EvenNews(396);
            var db0 := Run(Db([], INITIAL_TIMERS, p2p), run);
            var db1 := TransmitStep(db0);
            var db2 := TransmitStep(db1);
            && MarksNew(db0, Transmit, 790) && MarksNew(db1, Transmit, 790) && Owed(Get(db2.entries, 790)) == 0
            && FrameOf(station, db0, Transmit).Some? && FrameOf(station, db1, Transmit).Some?
            && !Announces(station, db0, Transmit, 790, k) && !Announces(station, db1, Transmit, 790, k)
  {
    hide Announces, FrameOf, Run, MarksNew, TransmitStep;
    EvenNewsReach(396, p2p);
    var db0 := Run(Db([], INITIAL_TIMERS, p2p), EvenNews(396));
    EvenTransmit(396, VN, AN, db0.t, p2p);
    var db1 := TransmitStep(db0);
    TransmitKeepsLink(db0);
    EvenTransmit(396, AN, AA, db1.t, p2p);
    EvenNotAnnounced(station, VN, db0.t, p2p, k);
    EvenNotAnnounced(station, AN, db1.t, p2p, k);
    NothingOwed(TransmitStep(db1).entries);
  }

  lemma TransmitKeepsLink(db: Db)
    ensures TransmitStep(db).p2p == db.p2p
  {
  }

  lemma NothingOwed(es: seq<Vlan>)
    requires forall i :: 0 <= i < |es| ==> es[i].app == AA
    ensures forall v :: Owed(Get(es, v)) == 0
  {
    forall v ensures Owed(Get(es, v)) == 0 {
      var o := Get(es, v);
      if o.Some? {
        var i :| 0 <= i < |es| && es[i] == o.value;
      }
    }
  }

  // ---------------------------------------------------------------- what a LeaveAll leaves behind

  /** The 12-bit VIDs a station declares other than as a very anxious passive member. */
  function Reclaimed12(es: seq<Vlan>): set<int> {
    set x | x in es && x.key <= 0xFFF && Declares(x.app) && x.app != VP :: x.key
  }

  lemma LeaveAllOffer(x: Vlan)
    ensures var o := OfferOf(x, TxLA);
            && o.vid == x.key
            && (CodeOf(o) in {0, 1, 3} <==> Declares(x.app) && x.app != VP) && CodeOf(o) != 5
            && (Declares(x.app) && x.app != VP ==> o.tx && !o.optional)
  {
    hide AppRequest, Declares, RegNext;
    Applicant.LeaveAllSays(x.app);
  }

  lemma LeaveAllSets(a: Db, os: seq<Offer>, items: seq<Item>)
    requires os == OffersAfter(a.entries, TxLA)
    requires forall x :: x in items ==> Offered(os, x)
    requires forall i :: 0 <= i < |os| && os[i].tx && !os[i].optional ==> Item(os[i].vid, CodeOf(os[i])) in items
    ensures JoinedBy(items) == Reclaimed12(a.entries) && LeftBy(items) == {}
  {
    hide CodeOf, OfferOf, Declares;
    forall i | 0 <= i < |os|
      ensures os[i].vid == a.entries[i].key && CodeOf(os[i]) != 5
      ensures CodeOf(os[i]) in {0, 1, 3} <==> Declares(a.entries[i].app) && a.entries[i].app != VP
      ensures Declares(a.entries[i].app) && a.entries[i].app != VP ==> os[i].tx && !os[i].optional
    {
      LeaveAllOffer(a.entries[i]);
    }
    forall x | x in items ensures exists i :: 0 <= i < |a.entries| && x == Item(a.entries[i].key, CodeOf(os[i])) {
      var i :| 0 <= i < |os| && x == Item(os[i].vid, CodeOf(os[i]));
    }
    forall y | y in a.entries && Declares(y.app) && y.app != VP
      ensures exists i :: 0 <= i < |os| && y == a.entries[i] && Item(y.key, CodeOf(os[i])) in items
    {
      var i :| 0 <= i < |a.entries| && a.entries[i] == y;
      assert Item(os[i].vid, CodeOf(os[i])) in items;
    }
  }

  /** The frame of leavealltimer! makes its receiver drop every registration except those the same frame
      re-declares: exactly the sender's declared 12-bit VIDs that are not in VP. The sender announces its VP
      members only with its next tx!, which leavealltimer! does not schedule (`LeaveAllCanLoseWakeup`). */
  lemma LeaveAllEffect(station: seq<byte>, a: Db, b: Db, now: nat, frame: seq<byte>, k: nat)
    requires |station| == 6 && Valid(a) && Valid(b) && FrameOf(station, a, LeaveAllTimer) == Some(frame)
    requires TotalSize(OffersAfter(a.entries, TxLA)) <= CAPACITY
    ensures Registered(Receive(b, Padded(frame, k), now).entries) == Reclaimed12(a.entries)
    ensures Declared(Receive(b, Padded(frame, k), now).entries) == Declared(b.entries)
  {
    hide BuildFrame, Dispatch, Sent, Selected, Registered, Declared, TotalSize, Reclaimed12, JoinedBy, LeftBy, Valid,
      Padded;
    var os := OffersAfter(a.entries, TxLA);
    ValidParts(a);
    OffersWellFormed(a.entries, TxLA);
    MandatorySelected(os);
    SmallIsSentWhole(os, 0, ROOM);
    SentAscends(os, 0, ROOM);
    LeaveAllSets(a, os, Sent(os, 0, ROOM));
    FrameEffect(station, a, LeaveAllTimer, b, now, os, true, k);
    assert {} + JoinedBy(Sent(os, 0, ROOM)) - {} == JoinedBy(Sent(os, 0, ROOM));
  }
}
