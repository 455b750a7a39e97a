/** `mmrp.c` as it works: the two-block attribute list relinked in place, and the event handlers that walk it.
    Every method is proved to do what `Mmrp.Step` says. */
module MmrpDatabase {
  import opened Mrp
  import opened Participant
  import opened Mmrp
  import opened AttributeList
  import opened EntryList

  // ---------------------------------------------------------------- the database

  class Database {
    const list: List<Attribute>
    var t: Timers
    const p2p: bool

    ghost function Model(): Db
      reads this, list, list.nodes
    {
      Db(list.Contents(), t, p2p)
    }

    /** Well formed: linked both ways, in at most two blocks, each ascending. */
    ghost predicate Valid()
      reads this, list, list.nodes
    {
      list.Valid() && Mmrp.Valid(Model())
    }

    constructor (p2p: bool)
      ensures Valid() && fresh(list) && list.nodes == [] && Model() == Db([], INITIAL_TIMERS, p2p)
    {
      list := new List();
      t := INITIAL_TIMERS;
      this.p2p := p2p;
    }

    /** `mmrp_lookup` */
    method Find(k: Key) returns (x: Node?<Attribute>, ghost i: nat)
      requires list.Valid()
      ensures i == Lookup(list.Contents(), k) && x == At(list.nodes, i)
    {
      hide Linked, NoRepeat;
      x, i := list.head, 0;
      while x != null
        invariant i <= |list.nodes| && x == At(list.nodes, i)
        invariant forall j :: 0 <= j < i ==> list.Contents()[j].key != k
        decreases |list.nodes| - i
      {
        if x.attr.key == k {
          return;
        }
        LinksAt(list.nodes, i);
        x, i := x.next, i + 1;
      }
    }

    /** Find the attribute of `k`, adding it unless the event is rMt!. */
    method Locate(e: Event, k: Key) returns (x: Node?<Attribute>, ghost i: nat)
      requires list.Valid()
      modifies list, list.nodes
      ensures list.Valid() && i <= |list.nodes| && x == At(list.nodes, i)
      ensures var es := old(list.Contents());
              if Lookup(es, k) == |es| && e == RMt then x == null && list.Contents() == es
              else x != null && list.Contents() == Placed(es, k) && i == PlacedAt(es, k)
      ensures forall j :: 0 <= j < |list.nodes| ==> list.nodes[j] in old(list.nodes) || fresh(list.nodes[j])
    {
      hide Linked, NoRepeat, BlockPos;
      x, i := Find(k);
      if x == null && e != RMt {
        x, i := Add(list, k, AlikeTo(k), Below(k));
      }
    }

    /** An attribute event, from a client or from the network. */
    method AttributeEvent(e: Event, k: Key, now: nat)
      requires Valid() && IsAttributeEvent(e)
      modifies this`t, list, list.nodes
      ensures Valid() && Model() == OnStep(old(Model()), e, k, now)
    {
      hide Linked, NoRepeat, Mmrp.Valid, One, Remap, StartsLeaveTimer, Placed, PlacedAt, Attrs, Restart;
      OnStepValid(Model(), e, k, now);
      t := t.(join := true);
      var x, i := Locate(e, k);
      if x != null {
        var u := Update(list, x, i, t, e, p2p, now);
        t := u;
      }
    }

    method LeaveAllTimerEvent(now: nat)
      requires Valid()
      modifies this`t, list.nodes
      ensures list.Valid() && Model() == LeaveAllStep(old(Model()), now)
    {
      hide Linked, NoRepeat, Mmrp.Valid, All, AnyStarts, LeaveAllFsm, Restart, Attrs;
      var u := ForEach(list, t.(lva := false, join := false), TxLA, p2p, AnyKind, now);
      t := LeaveAllFsm(LeaveAllFsm(u, LvaTimer), Tx).(laTx := false);
    }

    method RecvLeaveAllEvent(kind: Option<Kind>, now: nat)
      requires Valid()
      modifies this`t, list.nodes
      ensures list.Valid() && Model() == RecvLeaveAllStep(old(Model()), kind, now)
    {
      hide Linked, NoRepeat, Mmrp.Valid, All, AnyStarts, LeaveAllFsm, Restart, Attrs;
      t := t.(join := true);
      if kind.Some? {
        var u := ForEach(list, t, RLA, p2p, OfKind(kind.value), now);
        t := LeaveAllFsm(u, RLA);
      }
    }

    method TransmitEvent()
      requires Valid()
      modifies this`t, list.nodes
      ensures list.Valid() && Model() == TransmitStep(old(Model()))
    {
      hide Linked, NoRepeat, Mmrp.Valid, All, Attrs, AnyAgain;
      var again := TransmitLoop(list, p2p, AnyKind);
      t := t.(join := again, laTx := false);
    }

    method TimerEvent(e: Event, now: nat)
      requires Valid() && (e == LvTimer || e == Periodic)
      modifies this`t, list.nodes
      ensures list.Valid()
      ensures Model() == if e == LvTimer then LeaveTimerStep(old(Model())) else PeriodicStep(old(Model()))
    {
      hide Linked, NoRepeat, Mmrp.Valid, All, AnyStarts, Attrs;
      QuietTimer(list.Contents(), e);
      if e == LvTimer {
        t := t.(lv := false);
      } else if list.head != null {
        t := t.(join := true);
      }
      var u := ForEach(list, t, e, p2p, AnyKind, now);
      t := u;
    }

    /** `mmrp_event` and `mmrp_reclaim`: every input does what the transition system says. */
    method Handle(input: Input, now: nat)
      requires Valid()
      modifies this`t, list, list.nodes
      ensures Valid() && Model() == Step(old(Model()), Stamped(now, input))
    {
      hide Linked, NoRepeat, Mmrp.Valid, Purge, Attrs,
        LeaveAllStep, RecvLeaveAllStep, TransmitStep, LeaveTimerStep, PeriodicStep, OnStep;
      StepValid(Model(), Stamped(now, input));
      match input
      case LeaveAllTimer => LeaveAllTimerEvent(now);
      case RecvLeaveAll(kind) => RecvLeaveAllEvent(kind, now);
      case Transmit => TransmitEvent();
      case LeaveTimer => TimerEvent(LvTimer, now);
      case PeriodicTimer => TimerEvent(Periodic, now);
      case On(e, k) => if IsAttributeEvent(e) { AttributeEvent(e, k, now); }
      case Collect =>
        ExpiredAllIs(list.Contents(), p2p, AnyKind);
        Sweep(list, false);
    }
  }

  lemma QuietTimer(s: seq<Attribute>, e: Event)
    requires e == LvTimer || e == Periodic
    ensures !AnyStarts(s, e, AnyKind)
  {
  }
}
