/** `mvrp.c` as it works: a database object whose linked attribute list, timers and LeaveAll state the
    event handlers update in place. Every method is proved to do what `Mvrp.Step` says. */
module MvrpDatabase {
  import opened Mrp
  import opened Participant
  import opened Mvrp
  import opened Wire
  import opened MvrpCodec
  import opened AttributeList
  import opened MvrpEmitter
  import opened MvrpTransmitter
  import opened Convergence

  // ---------------------------------------------------------------- the loops, on stored attributes

  /** `mvrp_alloc` */
  function NewAttr(vid: int): Attr {
    Attr(vid, FRESH_APPLICANT, MT)
  }

  function Applied(a: Attr, e: Event, p2p: bool): Attr {
    Attr(a.vid, ApplicantFsm(a.app, e, a.reg == IN, p2p), RegNext(a.reg, e))
  }

  /** The list when the loop for event `e` has come to position `i`. */
  function Partly(s: seq<Attr>, e: Event, p2p: bool, i: nat): (r: seq<Attr>)
    ensures |r| == |s| && forall j :: 0 <= j < |s| ==> r[j] == if j < i then Applied(s[j], e, p2p) else s[j]
  {
    seq(|s|, j requires 0 <= j < |s| => if j < i then Applied(s[j], e, p2p) else s[j])
  }

  ghost predicate StartsBefore(s: seq<Attr>, e: Event, i: nat) {
    exists j :: 0 <= j < i && j < |s| && StartsLeaveTimer(s[j].reg, e)
  }

  ghost predicate AgainBefore(s: seq<Attr>, p2p: bool, i: nat) {
    exists j :: 0 <= j < i && j < |s| && WantsAnotherTx(Abs(s[j]), p2p)
  }

  lemma StartsStep(s: seq<Attr>, e: Event, i: nat)
    requires i < |s|
    ensures StartsBefore(s, e, i + 1) <==> StartsBefore(s, e, i) || StartsLeaveTimer(s[i].reg, e)
  {
    hide StartsLeaveTimer;
  }

  /** The loop for event `e`, started on `s`, is at position `i`. */
  ghost predicate LoopAt(list: List<Attr>, s: seq<Attr>, e: Event, p2p: bool, i: nat)
    reads list, list.nodes
  {
    list.Valid() && i <= |s| && list.Contents() == Partly(s, e, p2p, i)
  }

  lemma LoopStarts(list: List<Attr>, s: seq<Attr>, e: Event, p2p: bool)
    requires list.Valid() && s == list.Contents()
    ensures LoopAt(list, s, e, p2p, 0) && list.head == At(list.nodes, 0) && !StartsBefore(s, e, 0)
  {
    hide Linked, NoRepeat;
    assert Partly(s, e, p2p, 0) == s;
  }

  lemma LoopHere(list: List<Attr>, s: seq<Attr>, e: Event, p2p: bool, i: nat)
    requires LoopAt(list, s, e, p2p, i)
    ensures |list.nodes| == |s| && (i < |s| ==> list.nodes[i].attr == s[i])
    ensures i == |s| ==> list.Valid() && list.Contents() == Partly(s, e, p2p, |s|)
  {
    hide Linked, NoRepeat, Applied;
    assert i < |s| ==> list.Contents()[i] == s[i];
  }

  method ApplyAt(list: List<Attr>, x: Node<Attr>, ghost s: seq<Attr>, e: Event, p2p: bool, ghost i: nat)
    returns (n: Node?<Attr>)
    requires LoopAt(list, s, e, p2p, i) && i < |s| == |list.nodes| && list.nodes[i] == x && x.attr == s[i]
    modifies x`attr
    ensures LoopAt(list, s, e, p2p, i + 1) && n == At(list.nodes, i + 1)
  {
    hide Linked, NoRepeat, Applied;
    assert Partly(s, e, p2p, i)[i := Applied(s[i], e, p2p)] == Partly(s, e, p2p, i + 1);
    list.SetAttr(x, i, Applied(x.attr, e, p2p));
    LinksAt(list.nodes, i);
    n := x.next;
  }

  lemma AgainStarts(s: seq<Attr>, p2p: bool)
    ensures !AgainBefore(s, p2p, 0)
  {
  }

  lemma AgainStep(s: seq<Attr>, p2p: bool, i: nat)
    requires i < |s|
    ensures AgainBefore(s, p2p, i + 1) <==>
            AgainBefore(s, p2p, i) || TransitionImpliesTx(Applied(s[i], Tx, p2p).app)
  {
    assert WantsAnotherTx(Abs(s[i]), p2p) == TransitionImpliesTx(Applied(s[i], Tx, p2p).app);
  }

  lemma AppliedAbs(a: Attr, e: Event, p2p: bool)
    ensures Abs(Applied(a, e, p2p)) == Both(Abs(a), e, p2p)
    ensures e == Tx || e == TxLA ==> OfferOfAttr(Applied(a, e, p2p)) == OfferOf(Abs(a), e)
  {
  }

  lemma LoopAbs(s: seq<Attr>, e: Event, p2p: bool)
    ensures AbsAll(Partly(s, e, p2p, |s|)) == All(AbsAll(s), e, p2p, EveryVid)
    ensures StartsBefore(s, e, |s|) <==> AnyStarts(AbsAll(s), e, EveryVid)
    ensures e == Tx || e == TxLA ==> OffersOf(Partly(s, e, p2p, |s|)) == OffersAfter(AbsAll(s), e)
  {
    hide Applied, Both, OfferOf, OfferOfAttr, StartsLeaveTimer;
    forall i | 0 <= i < |s|
      ensures Abs(Applied(s[i], e, p2p)) == Both(Abs(s[i]), e, p2p)
      ensures e == Tx || e == TxLA ==> OfferOfAttr(Applied(s[i], e, p2p)) == OfferOf(Abs(s[i]), e)
    {
      AppliedAbs(s[i], e, p2p);
    }
    if StartsBefore(s, e, |s|) {
      var j :| 0 <= j < |s| && StartsLeaveTimer(s[j].reg, e);
      assert EveryVid(AbsAll(s)[j].key) && StartsLeaveTimer(AbsAll(s)[j].reg, e);
    }
    if AnyStarts(AbsAll(s), e, EveryVid) {
      var j :| 0 <= j < |s| && StartsLeaveTimer(AbsAll(s)[j].reg, e);
      assert StartsLeaveTimer(s[j].reg, e);
    }
  }

  function Expired(a: Attr, expire: bool): Attr {
    if expire then a.(reg := RegNext(a.reg, LvTimer)) else a
  }

  /** What a reclaiming loop leaves of `s`; with `expire` it runs leavetimer! on each attribute first. */
  function Left(s: seq<Attr>, expire: bool): seq<Vlan> {
    if s == [] then []
    else
      var y := Abs(Expired(s[0], expire));
      (if Reclaimable(y) then [] else [y]) + Left(s[1..], expire)
  }

  lemma {:induction false} LeftIsPurge(s: seq<Attr>, p2p: bool)
    ensures Left(s, false) == Purge(AbsAll(s))
    ensures Left(s, true) == Purge(All(AbsAll(s), LvTimer, p2p, EveryVid))
    decreases |s|
  {
    if s != [] {
      LeftIsPurge(s[1..], p2p);
      assert AbsAll(s)[1..] == AbsAll(s[1..]);
      assert All(AbsAll(s), LvTimer, p2p, EveryVid)[1..] == All(AbsAll(s[1..]), LvTimer, p2p, EveryVid);
    }
  }

  /** `c` is the list when the loop that started on `s` has come to position `i`. */
  ghost predicate Sweeping(s: seq<Attr>, expire: bool, c: seq<Attr>, i: nat) {
    i <= |c| && Left(s, expire) == AbsAll(c[..i]) + Left(c[i..], expire)
  }

  lemma SweepKeeps(s: seq<Attr>, expire: bool, c: seq<Attr>, i: nat)
    requires Sweeping(s, expire, c, i) && i < |c| && !Reclaimable(Abs(Expired(c[i], expire)))
    ensures Sweeping(s, expire, c[i := Expired(c[i], expire)], i + 1)
  {
    hide Expired, Reclaimable;
    var c' := c[i := Expired(c[i], expire)];
    assert c[i..][1..] == c[i + 1..] == c'[i + 1..];
    assert AbsAll(c'[..i + 1]) == AbsAll(c[..i]) + [Abs(c'[i])];
    assert AbsAll(c[..i]) + ([Abs(c'[i])] + Left(c[i + 1..], expire)) == AbsAll(c'[..i + 1]) + Left(c[i + 1..], expire);
  }

  lemma SweepDrops(s: seq<Attr>, expire: bool, c: seq<Attr>, i: nat)
    requires Sweeping(s, expire, c, i) && i < |c| && Reclaimable(Abs(Expired(c[i], expire)))
    ensures Sweeping(s, expire, RemoveAt(c[i := Expired(c[i], expire)], i), i)
  {
    hide Expired, Reclaimable;
    var c' := RemoveAt(c[i := Expired(c[i], expire)], i);
    assert c[i..][1..] == c[i + 1..] == c'[i..];
    assert c'[..i] == c[..i];
    assert [] + Left(c[i + 1..], expire) == Left(c[i + 1..], expire);
  }

  // ---------------------------------------------------------------- the database

  class Database {
    const list: List<Attr>
    var t: Timers
    var sendEmpty: bool
    const p2p: bool
    const station: seq<byte>

    ghost function Model(): Db
      reads this, list, list.nodes
    {
      Db(AbsAll(list.Contents()), t, p2p)
    }

    /** Well formed: the list is linked both ways, and ascending by VID. */
    ghost predicate Valid()
      reads this, list, list.nodes
    {
      list.Valid() && |station| == 6 && Mvrp.Valid(Model())
    }

    constructor (station: seq<byte>, p2p: bool)
      requires |station| == 6
      ensures Valid() && fresh(list) && list.nodes == [] && !sendEmpty
      ensures Model() == Db([], INITIAL_TIMERS, p2p)
    {
      list := new List();
      t := INITIAL_TIMERS;
      sendEmpty := false;
      this.p2p, this.station := p2p, station;
    }

    // -------------------------------------------------------------- the list

    /** `mvrp_lookup` */
    method Find(vid: int) returns (x: Node?<Attr>, ghost i: nat)
      requires list.Valid()
      ensures i == Lookup(AbsAll(list.Contents()), vid) && x == At(list.nodes, i)
    {
      hide Linked, NoRepeat;
      x, i := list.head, 0;
      while x != null
        invariant i <= |list.nodes| && x == At(list.nodes, i)
        invariant forall j :: 0 <= j < i ==> AbsAll(list.Contents())[j].key != vid
        decreases |list.nodes| - i
      {
        if x.attr.vid == vid {
          return;
        }
        LinksAt(list.nodes, i);
        x, i := x.next, i + 1;
      }
    }

    /** `mvrp_add` */
    method Add(vid: int) returns (x: Node<Attr>, ghost i: nat)
      requires list.Valid()
      modifies list, list.nodes
      ensures list.Valid() && fresh(x) && i == InsertPos(AbsAll(old(list.Contents())), vid)
      ensures list.nodes == InsertAt(old(list.nodes), i, x)
      ensures list.Contents() == InsertAt(old(list.Contents()), i, NewAttr(vid))
    {
      hide Linked, NoRepeat;
      x := new Node(NewAttr(vid));
      i := 0;
      var n := list.head;
      if n == null {
        list.InsertOnly(x);
        return;
      }
      while n.attr.vid < vid && n.next != null
        invariant i < |list.nodes| && list.nodes[i] == n && x !in list.nodes
        invariant forall j :: 0 <= j < i ==> AbsAll(list.Contents())[j].key < vid
        modifies {}
        decreases |list.nodes| - i
      {
        LinksAt(list.nodes, i);
        n, i := n.next, i + 1;
      }
      LinksAt(list.nodes, i);
      InsertPosIs(AbsAll(list.Contents()), vid, if n.attr.vid < vid then i + 1 else i);
      if n.attr.vid < vid {
        list.InsertAfter(x, n, i);
        i := i + 1;
      } else {
        list.InsertBefore(x, n, i);
      }
    }

    /** `mvrp_conditional_reclaim`: returns the attribute to go on with. */
    method ConditionalReclaim(x: Node<Attr>, ghost i: nat) returns (n: Node?<Attr>)
      requires list.Valid() && i < |list.nodes| && list.nodes[i] == x
      modifies list, list.nodes
      ensures list.Valid()
      ensures if Reclaimable(old(Abs(x.attr)))
              then list.nodes == RemoveAt(old(list.nodes), i) && n == At(list.nodes, i)
                   && list.Contents() == RemoveAt(old(list.Contents()), i)
              else list.nodes == old(list.nodes) && n == At(list.nodes, i + 1)
                   && list.Contents() == old(list.Contents())
    {
      hide Linked, NoRepeat;
      LinksAt(list.nodes, i);
      n := x.next;
      if x.attr.reg == MT && x.attr.app.state in {VO, AO, QO} {
        ghost var s := list.nodes;
        list.Unlink(x, i);
        RemoveIndex(s, i);
      }
    }

    /** One turn of a reclaiming loop. */
    method SweepOne(x: Node<Attr>, ghost i: nat, expire: bool) returns (n: Node?<Attr>, ghost i': nat)
      requires list.Valid() && i < |list.nodes| && list.nodes[i] == x
      modifies list, list.nodes
      ensures list.Valid() && i' <= |list.nodes| && n == At(list.nodes, i')
      ensures var c := old(list.Contents());
              var c' := c[i := Expired(c[i], expire)];
              if Reclaimable(Abs(c'[i])) then i' == i && list.Contents() == RemoveAt(c', i)
              else i' == i + 1 && list.Contents() == c'
      ensures |list.nodes| - i' < old(|list.nodes|) - i
      ensures forall k :: 0 <= k < |list.nodes| ==> list.nodes[k] in old(list.nodes)
    {
      hide Linked, NoRepeat, Reclaimable;
      if expire {
        list.SetAttr(x, i, Expired(x.attr, expire));
      }
      i' := if Reclaimable(Abs(x.attr)) then i else i + 1;
      n := ConditionalReclaim(x, i);
    }

    /** The loops of leavetimer! (with `expire`) and `mvrp_reclaim`, unlinking as they go. */
    method Sweep(expire: bool)
      requires list.Valid()
      modifies list, list.nodes
      ensures list.Valid() && AbsAll(list.Contents()) == Left(old(list.Contents()), expire)
      ensures forall k :: 0 <= k < |list.nodes| ==> list.nodes[k] in old(list.nodes)
    {
      hide Linked, NoRepeat, Expired, Reclaimable, Left, Sweeping;
      ghost var s := list.Contents();
      ghost var i: nat := 0;
      var x := list.head;
      SweepStarts(s, expire);
      while x != null
        invariant list.Valid() && i <= |list.nodes| && x == At(list.nodes, i)
        invariant Sweeping(s, expire, list.Contents(), i)
        invariant forall k :: 0 <= k < |list.nodes| ==> list.nodes[k] in old(list.nodes)
        decreases |list.nodes| - i
      {
        SweepStep(s, expire, list.Contents(), i);
        x, i := SweepOne(x, i, expire);
      }
      SweepEnds(s, expire, list.Contents());
    }

    /** The loops of leavealltimer! and rLA!: both machines of every attribute. */
    method BothMachines(e: Event, now: nat)
      requires list.Valid()
      modifies this`t, list.nodes
      ensures list.Valid() && list.Contents() == Partly(old(list.Contents()), e, p2p, |old(list.Contents())|)
      ensures t == Restart(old(t), StartsBefore(old(list.Contents()), e, |old(list.Contents())|), now)
    {
      hide LoopAt, StartsLeaveTimer, StartsBefore;
      ghost var s := list.Contents();
      ghost var i: nat := 0;
      LoopStarts(list, s, e, p2p);
      var x := list.head;
      while x != null
        invariant LoopAt(list, s, e, p2p, i) && i <= |s| && x == At(list.nodes, i)
        invariant t == Restart(old(t), StartsBefore(s, e, i), now)
        decreases |s| - i
      {
        LoopHere(list, s, e, p2p, i);
        StartsStep(s, e, i);
        if StartsLeaveTimer(x.attr.reg, e) {
          t := LvStart(t, now);
        }
        x := ApplyAt(list, x, s, e, p2p, i);
        i := i + 1;
      }
      LoopHere(list, s, e, p2p, i);
    }

    /** The loops of tx! and periodic!: applicants only. `again` tells whether one asks for another tx!. */
    method Applicants(e: Event) returns (again: bool)
      requires list.Valid() && (e == Tx || e == Periodic)
      modifies list.nodes
      ensures list.Valid() && list.Contents() == Partly(old(list.Contents()), e, p2p, |old(list.Contents())|)
      ensures e == Tx ==> (again <==> AgainBefore(old(list.Contents()), p2p, |old(list.Contents())|))
    {
      hide LoopAt, ApplicantFsm, TransitionImpliesTx, AgainBefore;
      ghost var s := list.Contents();
      ghost var i: nat := 0;
      LoopStarts(list, s, e, p2p);
      AgainStarts(s, p2p);
      var x := list.head;
      again := false;
      while x != null
        invariant LoopAt(list, s, e, p2p, i) && i <= |s| && x == At(list.nodes, i)
        invariant e == Tx ==> (again <==> AgainBefore(s, p2p, i))
        decreases |s| - i
      {
        LoopHere(list, s, e, p2p, i);
        AgainStep(s, p2p, i);
        var app := ApplicantFsm(x.attr.app, e, x.attr.reg == IN, p2p);
        again := again || TransitionImpliesTx(app);
        x := ApplyAt(list, x, s, e, p2p, i);
        i := i + 1;
      }
      LoopHere(list, s, e, p2p, i);
    }

    /** `mvrp_txpdu`, which consumes the LeaveAll mark. */
    method Send() returns (frame: Option<seq<byte>>)
      requires list.Valid() && InRange(list.Contents()) && |station| == 6
      modifies this`t, list.nodes
      ensures list.Valid() && AbsAll(list.Contents()) == old(AbsAll(list.Contents()))
      ensures t == old(t).(laTx := false)
      ensures frame == BuildFrame(station, OffersOf(old(list.Contents())), old(t).laTx, sendEmpty)
    {
      hide Linked, NoRepeat, BuildFrame, AbsAll, OffersOf, InRange, Attrs;
      var lva := t.laTx;
      frame := TxPdu(list, station, lva, sendEmpty);
      if lva {
        t := t.(laTx := false);
      }
    }

    method LeaveAllLoop(now: nat)
      requires list.Valid() && Mvrp.Valid(Model())
      modifies this`t, list.nodes
      ensures list.Valid() && InRange(list.Contents())
      ensures AbsAll(list.Contents()) == All(old(Model()).entries, TxLA, p2p, EveryVid)
      ensures OffersOf(list.Contents()) == OffersAfter(old(Model()).entries, TxLA)
      ensures t == Restart(old(t).(lva := false, join := false),
                           AnyStarts(old(Model()).entries, TxLA, EveryVid), now)
    {
      hide Linked, NoRepeat, Mvrp.Valid, AnyStarts, StartsBefore, AbsAll, All, Partly, OffersOf, OffersAfter,
        Restart, InRange, Attrs;
      ghost var s := list.Contents();
      LoopAbs(s, TxLA, p2p);
      PartlyRange(s, TxLA, t, p2p);
      t := t.(lva := false, join := false);
      BothMachines(TxLA, now);
    }

    /** leavealltimer! */
    method LeaveAllTimerEvent(now: nat) returns (frame: Option<seq<byte>>)
      requires Valid()
      modifies this, list.nodes
      ensures Valid() && !sendEmpty && Model() == LeaveAllStep(old(Model()), now)
      ensures frame == FrameOf(station, old(Model()), LeaveAllTimer)
    {
      hide Linked, NoRepeat, BuildFrame, Mvrp.Valid, AnyStarts, AbsAll, All, OffersOf, OffersAfter, Restart, Attrs,
        InRange, LeaveAllFsm, RecvLeaveAllStep, TransmitStep, PeriodicStep, LeaveTimerStep;
      EventsValid(Model(), now);
      LeaveAllLoop(now);
      LeaveAllMarks(t);
      t, sendEmpty := LeaveAllFsm(LeaveAllFsm(t, LvaTimer), Tx), true;
      frame := Send();
      sendEmpty := false;
    }

    /** rLA! */
    method RecvLeaveAllEvent(now: nat)
      requires Valid()
      modifies this`t, list.nodes
      ensures Valid() && Model() == RecvLeaveAllStep(old(Model()), now)
    {
      hide Linked, NoRepeat, Mvrp.Valid, AnyStarts, StartsBefore, AbsAll, All, Partly, OffersOf, OffersAfter, Restart,
        Attrs, LeaveAllFsm, LeaveAllStep, TransmitStep, PeriodicStep, LeaveTimerStep;
      LoopAbs(list.Contents(), RLA, p2p);
      EventsValid(Model(), now);
      t := t.(join := true);
      BothMachines(RLA, now);
      t := LeaveAllFsm(t, RLA);
    }

    method TransmitLoop() returns (again: bool)
      requires list.Valid() && Mvrp.Valid(Model())
      modifies this`t, list.nodes
      ensures list.Valid() && InRange(list.Contents()) && t == old(t).(join := false)
      ensures AbsAll(list.Contents()) == All(old(Model()).entries, Tx, p2p, EveryVid)
      ensures OffersOf(list.Contents()) == OffersAfter(old(Model()).entries, Tx)
      ensures again == TransmitStep(old(Model())).t.join
    {
      hide Linked, NoRepeat, Mvrp.Valid, AgainBefore, WantsAnotherTx, AbsAll, All, Partly, OffersOf, OffersAfter,
        InRange, Attrs;
      ghost var s := list.Contents();
      LoopAbs(s, Tx, p2p);
      AgainAbs(s, p2p);
      PartlyRange(s, Tx, t, p2p);
      t := t.(join := false);
      again := Applicants(Tx);
    }

    /** tx! */
    method TransmitEvent() returns (frame: Option<seq<byte>>)
      requires Valid() && !sendEmpty
      modifies this`t, list.nodes
      ensures Valid() && Model() == TransmitStep(old(Model()))
      ensures frame == FrameOf(station, old(Model()), Transmit)
    {
      hide Linked, NoRepeat, BuildFrame, Mvrp.Valid, WantsAnotherTx, AbsAll, All, OffersOf, OffersAfter, Attrs, InRange,
        RecvLeaveAllStep, LeaveAllStep, PeriodicStep, LeaveTimerStep, TransmitStep;
      EventsValid(Model(), 0);
      TransmitParts(Model());
      var again := TransmitLoop();
      frame := Send();
      if again {
        t := t.(join := true);
      }
    }

    /** periodic! */
    method PeriodicEvent()
      requires Valid()
      modifies this`t, list.nodes
      ensures Valid() && Model() == PeriodicStep(old(Model()))
    {
      hide Linked, NoRepeat, Mvrp.Valid, AbsAll, All, Partly, OffersOf, OffersAfter, Attrs,
        LeaveAllStep, RecvLeaveAllStep, TransmitStep, LeaveTimerStep;
      LoopAbs(list.Contents(), Periodic, p2p);
      EventsValid(Model(), 0);
      if list.head != null {
        t := t.(join := true);
      }
      var _ := Applicants(Periodic);
    }

    /** leavetimer! */
    method LeaveTimerEvent()
      requires Valid()
      modifies this`t, list, list.nodes
      ensures Valid() && Model() == LeaveTimerStep(old(Model()))
      ensures forall k :: 0 <= k < |list.nodes| ==> list.nodes[k] in old(list.nodes)
    {
      hide Linked, NoRepeat, Mvrp.Valid, AbsAll, All, Left, Purge, Attrs,
        LeaveAllStep, RecvLeaveAllStep, TransmitStep, PeriodicStep;
      EventsValid(Model(), 0);
      LeftIsPurge(list.Contents(), p2p);
      t := t.(lv := false);
      Sweep(true);
    }

    /** `mvrp_reclaim` */
    method Reclaim()
      requires Valid()
      modifies list, list.nodes
      ensures Valid() && Model() == old(Model()).(entries := Purge(old(Model()).entries))
      ensures forall k :: 0 <= k < |list.nodes| ==> list.nodes[k] in old(list.nodes)
    {
      hide Linked, NoRepeat, Mvrp.Valid, AbsAll, All, Left, Purge, Attrs;
      CollectValid(Model());
      LeftIsPurge(list.Contents(), p2p);
      Sweep(false);
    }

    /** Find the attribute of `vid`, adding it unless the event is rMt!. */
    method Locate(e: Event, vid: int) returns (x: Node?<Attr>, ghost i: nat)
      requires list.Valid()
      modifies list, list.nodes
      ensures list.Valid() && i <= |list.nodes| && x == At(list.nodes, i)
      ensures var es := old(AbsAll(list.Contents()));
              if Lookup(es, vid) == |es| && e == RMt then x == null && AbsAll(list.Contents()) == es
              else x != null && AbsAll(list.Contents()) == Placed(es, vid) && i == PlacedAt(es, vid)
      ensures forall k :: 0 <= k < |list.nodes| ==> list.nodes[k] in old(list.nodes) || fresh(list.nodes[k])
    {
      hide Linked, NoRepeat;
      x, i := Find(vid);
      if x == null && e != RMt {
        ghost var c := list.Contents();
        x, i := Add(vid);
        PlacedAbs(c, i, vid);
      }
    }

    /** Run an attribute event on `x`, and reclaim it if nothing is left of it. */
    method Update(x: Node<Attr>, ghost i: nat, e: Event, now: nat)
      requires list.Valid() && i < |list.nodes| && list.nodes[i] == x
      modifies this`t, list, list.nodes
      ensures list.Valid()
      ensures var es := old(AbsAll(list.Contents()));
              && AbsAll(list.Contents()) == Settle(es, i, One(es[i], e, p2p))
              && t == Restart(old(t), StartsLeaveTimer(es[i].reg, Remap(e, es[i].reg)), now)
      ensures forall k :: 0 <= k < |list.nodes| ==> list.nodes[k] in old(list.nodes)
    {
      hide Linked, NoRepeat, ApplicantFsm, RegNext, Reclaimable, Remap, StartsLeaveTimer, One, Settle, AbsAll;
      var a := x.attr;
      var r := Remap(e, a.reg);
      var y := Attr(a.vid, ApplicantFsm(a.app, e, a.reg == IN, p2p), RegNext(a.reg, r));
      UpdatedAbs(a, e, p2p);
      SettleAbs(list.Contents(), i, y);
      if StartsLeaveTimer(a.reg, r) {
        t := LvStart(t, now);
      }
      list.SetAttr(x, i, y);
      var _ := ConditionalReclaim(x, i);
    }

    /** An attribute event, from a client or from the network. */
    method AttributeEvent(e: Event, vid: int, now: nat)
      requires Valid() && IsAttributeEvent(e) && 0 <= vid < 0x10000
      modifies this`t, list, list.nodes
      ensures Valid() && Model() == OnStep(old(Model()), e, vid, now)
      ensures forall k :: 0 <= k < |list.nodes| ==> list.nodes[k] in old(list.nodes) || fresh(list.nodes[k])
    {
      hide Linked, NoRepeat, Mvrp.Valid, AbsAll, Attrs, Placed, PlacedAt, Settle, One, Remap, StartsLeaveTimer;
      OnStepValid(Model(), e, vid, now);
      t := t.(join := true);
      var x, i := Locate(e, vid);
      if x != null {
        Update(x, i, e, now);
      }
    }

    /** `mvrp_event` and `mvrp_reclaim`: every input does what the transition system says, and sends
        the frame it says. */
    method Handle(input: Input, now: nat) returns (frame: Option<seq<byte>>)
      requires Valid() && !sendEmpty && ValidInput(input)
      modifies this, list, list.nodes
      ensures Valid() && !sendEmpty && Model() == Step(old(Model()), Stamped(now, input))
      ensures frame == FrameOf(station, old(Model()), input)
      ensures forall k :: 0 <= k < |list.nodes| ==> list.nodes[k] in old(list.nodes) || fresh(list.nodes[k])
    {
      hide Linked, NoRepeat, Mvrp.Valid, AbsAll, Attrs, Purge, BuildFrame, OffersAfter,
        LeaveAllStep, RecvLeaveAllStep, TransmitStep, PeriodicStep, LeaveTimerStep, OnStep;
      frame := None;
      match input
      case LeaveAllTimer => frame := LeaveAllTimerEvent(now);
      case RecvLeaveAll => RecvLeaveAllEvent(now);
      case Transmit => frame := TransmitEvent();
      case LeaveTimer => LeaveTimerEvent();
      case PeriodicTimer => PeriodicEvent();
      case On(e, vid) => if IsAttributeEvent(e) { AttributeEvent(e, vid, now); }
      case Collect => Reclaim();
    }

    // -------------------------------------------------------------- receiving

    /** The inputs `done` have been handled, all at time `now`, since the state was `m`. */
    ghost predicate Handled(m: Db, done: seq<Input>, now: nat)
      reads this, list, list.nodes
    {
      Valid() && !sendEmpty && Model() == Run(m, AllAt(now, done))
    }

    method Deliver(input: Input, now: nat, ghost m: Db, ghost done: seq<Input>)
      requires Handled(m, done, now) && ValidInput(input) && input != Transmit && input != LeaveAllTimer
      modifies this, list, list.nodes
      ensures Handled(m, done + [input], now)
      ensures forall k :: 0 <= k < |list.nodes| ==> list.nodes[k] in old(list.nodes) || fresh(list.nodes[k])
    {
      hide Step, Run, Mvrp.Valid, Linked, NoRepeat, AbsAll, Attrs, FrameOf;
      RunOne(m, done, input, now);
      var _ := Handle(input, now);
    }

    /** One decoded value: codes above 5 are dropped, and so are VIDs above 12 bits. */
    method RecvValue(vid: int, code: int, now: nat, ghost m: Db, ghost done: seq<Input>)
      requires Handled(m, done, now) && 0 <= vid && 0 <= code
      modifies this, list, list.nodes
      ensures Handled(m, done + Accept(vid, code), now)
      ensures forall k :: 0 <= k < |list.nodes| ==> list.nodes[k] in old(list.nodes) || fresh(list.nodes[k])
    {
      hide Handled, RecvEvent;
      if vid <= 0xFFF && code < 6 {
        Deliver(On(RecvEvent(code), vid), now, m, done);
      } else {
        assert done + [] == done;
      }
    }

    /** The events of one vector whose FirstValue is at index `f`. */
    method RecvVector(frame: seq<byte>, f: nat, n: nat, now: nat, ghost m: Db, ghost done: seq<Input>)
      requires Handled(m, done, now)
      modifies this, list, list.nodes
      ensures Handled(m, done + VectorInputs(frame, f, n, 0), now)
      ensures forall k :: 0 <= k < |list.nodes| ==> list.nodes[k] in old(list.nodes) || fresh(list.nodes[k])
    {
      hide Handled, VectorInputs, Accept, Unpack3, ByteAt;
      var first := Word(frame, f);
      var vid, left, idx := first, n, 2;
      ghost var k, seen := 0, done;
      while idx <= (n + 2) / 3 + 2
        invariant 2 <= idx && k == n - left && (k == 3 * (idx - 2) || (left == 0 && k < 3 * (idx - 2)))
        invariant vid == first + k || (vid > 0xFFF && first + k > 0xFFF)
        invariant seen + VectorInputs(frame, f, n, k) == done + VectorInputs(frame, f, n, 0)
        invariant Handled(m, seen, now)
        invariant forall k :: 0 <= k < |list.nodes| ==> list.nodes[k] in old(list.nodes) || fresh(list.nodes[k])
      {
        var b := ByteAt(frame, f + idx);
        var count := if left > 3 then 3 else left;
        var j := 0;
        while j < count
          invariant 0 <= j <= count <= left && k == n - left + j && (j < count ==> n - left == 3 * (idx - 2))
          invariant vid == first + k || (vid > 0xFFF && first + k > 0xFFF)
          invariant seen + VectorInputs(frame, f, n, k) == done + VectorInputs(frame, f, n, 0)
          invariant Handled(m, seen, now)
          invariant forall k :: 0 <= k < |list.nodes| ==> list.nodes[k] in old(list.nodes) || fresh(list.nodes[k])
        {
          var code := Unpack3(b, j);
          ValueTaken(frame, f, n, k, vid, seen);
          assert k / 3 == idx - 2 && k % 3 == j;
          RecvValue(vid, code, now, m, seen);
          seen := seen + Accept(vid, code);
          if vid <= 0xFFF {
            vid := vid + 1;
          }
          k, j := k + 1, j + 1;
        }
        left, idx := left - count, idx + 1;
      }
      VectorOver(frame, f, n, seen);
    }

    /** The vectors of one message, from index `p0` on; None is the "out" exit for a malformed frame. */
    method RecvVectors(frame: seq<byte>, p0: nat, saw0: bool, now: nat, ghost m: Db, ghost done: seq<Input>)
      returns (next: Option<int>, saw: bool, ghost seen: seq<Input>)
      requires Handled(m, done, now)
      modifies this, list, list.nodes
      ensures Scan(seen, next, saw) == ScanVectors(frame, p0, |frame|, saw0, done)
      ensures Handled(m, seen, now)
      ensures forall k :: 0 <= k < |list.nodes| ==> list.nodes[k] in old(list.nodes) || fresh(list.nodes[k])
    {
      hide Handled, VectorInputs, Word, VectorSize;
      var p: nat := p0;
      saw, seen := saw0, done;
      while Word(frame, p) != 0
        invariant ScanVectors(frame, p, |frame|, saw, seen) == ScanVectors(frame, p0, |frame|, saw0, done)
        invariant Handled(m, seen, now)
        invariant forall k :: 0 <= k < |list.nodes| ==> list.nodes[k] in old(list.nodes) || fresh(list.nodes[k])
        decreases |frame| - p
      {
        var h := Word(frame, p);
        var n := NumValues(h);
        WordInside(frame, p);
        ghost var saw', seen' := saw || HasLva(h), seen + LaInputs(HasLva(h) && !saw);
        VectorStep(frame, p, saw, seen);
        if HasLva(h) && !saw {
          saw := true;
          Deliver(RecvLeaveAll, now, m, seen);
          seen := seen + [RecvLeaveAll];
        }
        assert saw == saw' && seen == seen';
        if n == 0 || p + 2 + n / 3 >= |frame| {
          return None, saw, seen;
        }
        RecvVector(frame, p + 2, n, now, m, seen);
        seen := seen + VectorInputs(frame, p + 2, n, 0);
        SizePositive(n);
        p := p + VectorSize(n);
      }
      next := Some(p);
    }

    /** The message loop of `mvrp_recv_msg`. */
    method RecvMessages(frame: seq<byte>, now: nat, ghost m: Db) returns (ghost seen: seq<Input>)
      requires Handled(m, [], now) && |frame| >= 17
      modifies this, list, list.nodes
      ensures seen == ScanMessages(frame, MESSAGE_START, |frame|, 0, false, [])
      ensures Handled(m, seen, now)
      ensures forall k :: 0 <= k < |list.nodes| ==> list.nodes[k] in old(list.nodes) || fresh(list.nodes[k])
    {
      hide Handled, ScanVectors, Word, ByteAt, NumValues;
      var p: nat, endmarks, saw := MESSAGE_START, 0, false;
      seen := [];
      while p < |frame| - 2
        invariant ScanMessages(frame, p, |frame|, endmarks, saw, seen) ==
                  ScanMessages(frame, MESSAGE_START, |frame|, 0, false, [])
        invariant Handled(m, seen, now)
        invariant forall k :: 0 <= k < |list.nodes| ==> list.nodes[k] in old(list.nodes) || fresh(list.nodes[k])
        decreases |frame| - p
      {
        var size, kind := ByteAt(frame, p + 1), ByteAt(frame, p);
        if Word(frame, p) == 0 {
          if endmarks + 1 >= 2 {
            return;
          }
          p, endmarks := p + 2, endmarks + 1;
        } else if kind == VID_TYPE {
          if size != 2 {
            return;
          }
          var next;
          next, saw, seen := RecvVectors(frame, p + 2, saw, now, m, seen);
          if next.None? {
            return;
          }
          p, endmarks := next.value, 0;
        } else {
          if ByteAt(frame, MESSAGE_START - 1) == 0 {
            return;
          }
          p, endmarks := p + 4 + size + (NumValues(Word(frame, p + 2)) + 2) / 3, 0;
        }
      }
    }

    /** `mvrp_recv_msg`: the database ends up where handling every dispatched input takes it. */
    method RecvMsg(frame: seq<byte>, now: nat)
      requires Valid() && !sendEmpty
      modifies this, list, list.nodes
      ensures Valid() && !sendEmpty && Model() == Receive(old(Model()), frame, now)
      ensures forall k :: 0 <= k < |list.nodes| ==> list.nodes[k] in old(list.nodes) || fresh(list.nodes[k])
    {
      hide ScanMessages, ScanVectors, Word, ByteAt, Run, Mvrp.Valid, AbsAll, Attrs, Linked, NoRepeat;
      ghost var m := Model();
      HandledNothing(m, now);
      if |frame| < 17 || Word(frame, 12) != 0x88F5 || frame[..6] != MVRP_ADDR {
        return;
      }
      var _ := RecvMessages(frame, now, m);
    }
  }

  lemma SweepStep(s: seq<Attr>, expire: bool, c: seq<Attr>, i: nat)
    requires Sweeping(s, expire, c, i) && i < |c|
    ensures var c' := c[i := Expired(c[i], expire)];
            if Reclaimable(Abs(c'[i])) then Sweeping(s, expire, RemoveAt(c', i), i)
            else Sweeping(s, expire, c', i + 1)
  {
    hide Sweeping, Expired, Reclaimable;
    if Reclaimable(Abs(Expired(c[i], expire))) {
      SweepDrops(s, expire, c, i);
    } else {
      SweepKeeps(s, expire, c, i);
    }
  }

  lemma SweepStarts(s: seq<Attr>, expire: bool)
    ensures Sweeping(s, expire, s, 0)
  {
    assert s[0..] == s;
    assert [] + Left(s, expire) == Left(s, expire);
  }

  lemma SweepEnds(s: seq<Attr>, expire: bool, c: seq<Attr>)
    requires Sweeping(s, expire, c, |c|)
    ensures AbsAll(c) == Left(s, expire)
  {
    assert c[..|c|] == c;
    assert AbsAll(c) + [] == AbsAll(c);
  }

  lemma CollectValid(db: Db)
    requires Mvrp.Valid(db)
    ensures Mvrp.Valid(db.(entries := Purge(db.entries)))
  {
    hide Mvrp.Valid;
    StepValid(db, Stamped(0, Collect));
  }

  lemma PlacedAbs(c: seq<Attr>, i: nat, vid: int)
    requires Lookup(AbsAll(c), vid) == |c| && i == InsertPos(AbsAll(c), vid)
    ensures AbsAll(InsertAt(c, i, NewAttr(vid))) == Placed(AbsAll(c), vid) && i == PlacedAt(AbsAll(c), vid)
  {
    InsertIndex(c, i, NewAttr(vid));
    InsertIndex(AbsAll(c), i, Fresh(vid));
  }

  lemma UpdatedAbs(a: Attr, e: Event, p2p: bool)
    ensures Abs(Attr(a.vid, ApplicantFsm(a.app, e, a.reg == IN, p2p), RegNext(a.reg, Remap(e, a.reg))))
         == One(Abs(a), e, p2p)
  {
  }

  lemma SettleAbs(c: seq<Attr>, i: nat, y: Attr)
    requires i < |c|
    ensures AbsAll(if Reclaimable(Abs(y)) then RemoveAt(c[i := y], i) else c[i := y]) == Settle(AbsAll(c), i, Abs(y))
  {
    hide Reclaimable;
    RemoveIndex(c[i := y], i);
    RemoveIndex(AbsAll(c), i);
  }

  lemma InsertPosIs(es: seq<Vlan>, v: int, p: nat)
    requires p <= |es| && (forall j :: 0 <= j < p ==> es[j].key < v) && (p < |es| ==> v <= es[p].key)
    ensures p == InsertPos(es, v)
  {
  }

  lemma TransmitParts(db: Db)
    ensures TransmitStep(db) == db.(entries := All(db.entries, Tx, db.p2p, EveryVid),
                                    t := db.t.(join := TransmitStep(db).t.join, laTx := false))
  {
  }

  lemma LeaveAllMarks(t: Timers)
    ensures LeaveAllFsm(LeaveAllFsm(t, LvaTimer), Tx).laTx
  {
  }

  lemma EventsValid(db: Db, now: nat)
    requires Mvrp.Valid(db)
    ensures Mvrp.Valid(LeaveAllStep(db, now)) && Mvrp.Valid(RecvLeaveAllStep(db, now))
    ensures Mvrp.Valid(TransmitStep(db)) && Mvrp.Valid(PeriodicStep(db)) && Mvrp.Valid(LeaveTimerStep(db))
  {
    hide Mvrp.Valid, LeaveAllStep, RecvLeaveAllStep, TransmitStep, PeriodicStep, LeaveTimerStep;
    StepValid(db, Stamped(now, LeaveAllTimer));
    StepValid(db, Stamped(now, RecvLeaveAll));
    StepValid(db, Stamped(now, Transmit));
    StepValid(db, Stamped(now, PeriodicTimer));
    StepValid(db, Stamped(now, LeaveTimer));
  }

  lemma PartlyRange(s: seq<Attr>, e: Event, t: Timers, p2p: bool)
    requires Mvrp.Valid(Db(AbsAll(s), t, p2p))
    ensures InRange(Partly(s, e, p2p, |s|))
  {
    forall i | 0 <= i < |s| ensures 0 <= s[i].vid < 0x10000 {
      assert AbsAll(s)[i] in AbsAll(s);
    }
  }

  lemma AgainAbs(s: seq<Attr>, p2p: bool)
    ensures AgainBefore(s, p2p, |s|) <==>
            exists i :: 0 <= i < |AbsAll(s)| && WantsAnotherTx(AbsAll(s)[i], p2p)
  {
    hide WantsAnotherTx;
    if AgainBefore(s, p2p, |s|) {
      var j :| 0 <= j < |s| && WantsAnotherTx(Abs(s[j]), p2p);
      assert WantsAnotherTx(AbsAll(s)[j], p2p);
    }
  }

  lemma RunOne(m: Db, done: seq<Input>, input: Input, now: nat)
    ensures Run(m, AllAt(now, done + [input])) == Step(Run(m, AllAt(now, done)), Stamped(now, input))
  {
    hide Step;
    assert AllAt(now, done + [input]) == AllAt(now, done) + [Stamped(now, input)];
    RunSplit(m, AllAt(now, done), [Stamped(now, input)]);
  }

  lemma ValueTaken(frame: seq<byte>, f: int, n: nat, k: nat, vid: int, seen: seq<Input>)
    requires k < n && (vid == Word(frame, f) + k || (vid > 0xFFF && Word(frame, f) + k > 0xFFF))
    ensures var c := Unpack3(ByteAt(frame, f + 2 + k / 3), k % 3);
            && seen + VectorInputs(frame, f, n, k) == (seen + Accept(vid, c)) + VectorInputs(frame, f, n, k + 1)
            && 0 <= c
  {
    hide RecvEvent, Word, ByteAt;
    var c := VectorCode(frame, f, k);
    assert Accept(vid, c) == Accept(Word(frame, f) + k, c);
    assert seen + (Accept(vid, c) + VectorInputs(frame, f, n, k + 1)) ==
           (seen + Accept(vid, c)) + VectorInputs(frame, f, n, k + 1);
  }

  lemma VectorOver(frame: seq<byte>, f: int, n: nat, seen: seq<Input>)
    ensures seen + VectorInputs(frame, f, n, n) == seen
  {
  }

  lemma HandledNothing(m: Db, now: nat)
    ensures Run(m, AllAt(now, [])) == m
  {
  }

  lemma VectorStep(frame: seq<byte>, p: nat, saw: bool, seen: seq<Input>)
    requires Word(frame, p) != 0
    ensures var h := Word(frame, p);
            var n := NumValues(h);
            var saw', seen' := saw || HasLva(h), seen + LaInputs(HasLva(h) && !saw);
            ScanVectors(frame, p, |frame|, saw, seen) ==
              if n == 0 || p + 2 + n / 3 >= |frame| then Scan(seen', None, saw')
              else ScanVectors(frame, p + VectorSize(n), |frame|, saw', seen' + VectorInputs(frame, p + 2, n, 0))
  {
  }
}
