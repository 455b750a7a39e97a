/** `msrp.c` as it works: the attribute list, merged into and relinked in place. Every method is proved to do
    what `Msrp.Step` says. */
module MsrpDatabase {
  import opened Mrp
  import opened Participant
  import opened Msrp
  import opened AttributeList
  import opened EntryList

  class Database {
    const list: List<Attribute>
    var t: Timers
    const p2p: bool

    ghost function Model(): Db
      reads this, list, list.nodes
    {
      Db(list.Contents(), t, p2p)
    }

    /** Well formed: linked both ways, and no two attributes for the same talker, listener or class. */
    ghost predicate Valid()
      reads this, list, list.nodes
    {
      list.Valid() && Msrp.Valid(Model())
    }

    constructor (p2p: bool)
      ensures Valid() && fresh(list) && list.nodes == [] && Model() == Db([], INITIAL_TIMERS, p2p)
    {
      list := new List();
      t := INITIAL_TIMERS;
      this.p2p := p2p;
    }

    /** `msrp_lookup` */
    method Search(id: Id) returns (x: Node?<Attribute>, ghost i: nat)
      requires list.Valid()
      ensures i == Find(list.Contents(), id) && x == At(list.nodes, i)
    {
      hide Linked, NoRepeat, IdOf;
      x, i := list.head, 0;
      while x != null
        invariant i <= |list.nodes| && x == At(list.nodes, i)
        invariant forall j :: 0 <= j < i ==> IdOf(list.Contents()[j].key) != id
        decreases |list.nodes| - i
      {
        if IdOf(x.attr.key) == id {
          return;
        }
        LinksAt(list.nodes, i);
        x, i := x.next, i + 1;
      }
    }

    /** `msrp_merge` on the attribute `x` that `r` refers to. */
    method MergeInto(x: Node<Attribute>, ghost i: nat, r: Declaration)
      requires list.Valid() && i < |list.nodes| && list.nodes[i] == x
      requires IdOf(x.attr.key) == IdOf(r) && WellTyped(x.attr.key) && WellTyped(r)
      modifies x`attr
      ensures list.Valid()
      ensures var es := old(list.Contents()); list.Contents() == es[i := Merge(es[i], r, TalkerKnown(es, r))]
    {
      hide Linked, NoRepeat, Find;
      var k := x.attr.key;
      match k.kind {
        case TalkerAdvertise => list.SetAttr(x, i, MergeTalker(x.attr, r));
        case TalkerFailed => list.SetAttr(x, i, MergeTalker(x.attr, r));
        case Listener =>
          if k.substate != r.substate {
            var missing := false;
            if k.substate == ASKING_FAILED {
              var talker, _ := Search(TalkerId(k.number));
              missing := talker == null;
            }
            if !missing {
              var k' := if k.operation == r.operation then k.(substate := r.substate) else k;
              list.SetAttr(x, i, x.attr.(key := k', reg := MT));
            }
          }
        case Domain =>
          if k.body.priority != r.body.priority || k.body.vid != r.body.vid {
            var body := k.body.(neighbor := r.body.priority, vid := r.body.vid);
            list.SetAttr(x, i, x.attr.(key := k.(body := body), reg := MT));
          }
      }
    }

    /** Find what `r` refers to and merge, or add it unless the event is rMt!. */
    method Locate(e: Event, r: Declaration) returns (x: Node?<Attribute>, ghost i: nat)
      requires Valid() && WellTyped(r)
      modifies list, list.nodes
      ensures list.Valid() && i <= |list.nodes| && x == At(list.nodes, i)
      ensures var es := old(list.Contents());
              if Find(es, IdOf(r)) == |es| && e == RMt then x == null && list.Contents() == es
              else x != null && list.Contents() == Placed(es, r) && i == PlacedAt(es, r)
      ensures forall j :: 0 <= j < |list.nodes| ==> list.nodes[j] in old(list.nodes) || fresh(list.nodes[j])
    {
      hide Linked, NoRepeat, BlockPos, IdOf, Merge, Unique, WellTyped;
      x, i := Search(IdOf(r));
      if x == null {
        if e != RMt {
          x, i := Add(list, r, SameKind(r), Below(r));
        }
      } else {
        assert list.Contents()[i] in list.Contents();
        MergeInto(x, i, r);
      }
    }

    /** An attribute event on `x`, then `msrp_conditional_reclaim`. */
    method Finish(x: Node<Attribute>, ghost i: nat, e: Event, now: nat)
      requires list.Valid() && i < |list.nodes| && list.nodes[i] == x
      modifies this`t, list, list.nodes
      ensures list.Valid()
      ensures var es := old(list.Contents());
              && list.Contents() == Settle(es, i, One(es[i], e, p2p))
              && t == Restart(old(t), StartsLeaveTimer(es[i].reg, Remap(e, es[i].reg)), now)
    {
      hide Linked, NoRepeat, One, Remap, StartsLeaveTimer, Reclaimable, Restart;
      ghost var es := list.Contents();
      var u := Update(list, x, i, t, e, p2p, now);
      t := u;
      var n, _ := ReclaimOne(list, x, i);
      RemoveUpdated(es, i, One(es[i], e, p2p));
    }

    /** An attribute event, from a client or from the network. */
    method AttributeEvent(e: Event, r: Declaration, now: nat)
      requires Valid() && IsAttributeEvent(e) && WellTyped(r)
      modifies this`t, list, list.nodes
      ensures Valid() && Model() == OnStep(old(Model()), e, r, now)
    {
      hide Linked, NoRepeat, One, Remap, StartsLeaveTimer, Settle, Placed, PlacedAt, Attrs, Restart, Unique,
        WellTyped, IdOf;
      OnStepValid(Model(), e, r, now);
      t := t.(join := true);
      var x, i := Locate(e, r);
      if x != null {
        Finish(x, i, e, now);
      }
    }

    method LeaveAllTimerEvent(now: nat)
      requires Valid()
      modifies this`t, list.nodes
      ensures list.Valid() && Model() == LeaveAllStep(old(Model()), now)
    {
      hide Linked, NoRepeat, Msrp.Valid, All, AnyStarts, LeaveAllFsm, Restart, Attrs;
      var u := ForEach(list, t.(lva := false, join := false), TxLA, p2p, Everything, now);
      t := LeaveAllFsm(LeaveAllFsm(u, LvaTimer), Tx).(laTx := false);
    }

    method RecvLeaveAllEvent(kind: Option<Kind>, now: nat)
      requires Valid()
      modifies this`t, list.nodes
      ensures list.Valid() && Model() == RecvLeaveAllStep(old(Model()), kind, now)
    {
      hide Linked, NoRepeat, Msrp.Valid, All, AnyStarts, LeaveAllFsm, Restart, Attrs, OfKind;
      t := t.(join := true);
      if kind.Some? {
        var u := ForEach(list, t, RLA, p2p, OfKind(kind.value), now);
        t := LeaveAllFsm(u, RLA);
      }
    }

    method TransmitEvent()
      requires Valid()
      modifies this`t, list.nodes
      ensures list.Valid() && Model() == TransmitStep(old(Model()))
    {
      hide Linked, NoRepeat, Msrp.Valid, All, Attrs, AnyAgain;
      var again := TransmitLoop(list, p2p, Everything);
      t := t.(join := again, laTx := false);
    }

    /** leavetimer!: expire and reclaim attribute by attribute. */
    method LeaveTimerEvent(now: nat)
      requires Valid()
      modifies this`t, list, list.nodes
      ensures list.Valid() && Model() == LeaveTimerStep(old(Model()))
    {
      hide Linked, NoRepeat, Msrp.Valid, Attrs, All, Purge;
      t := t.(lv := false);
      ExpiredAllIs(list.Contents(), p2p, Everything);
      Sweep(list, true);
    }

    /** `msrp_event` and `msrp_reclaim`: every input does what the transition system says. */
    method Handle(input: Input, now: nat)
      requires Valid() && ValidInput(input)
      modifies this`t, list, list.nodes
      ensures Valid() && Model() == Step(old(Model()), Stamped(now, input))
    {
      hide Linked, NoRepeat, Unique, WellTyped, Purge, Attrs,
        LeaveAllStep, RecvLeaveAllStep, TransmitStep, LeaveTimerStep, OnStep;
      StepValid(Model(), Stamped(now, input));
      match input
      case LeaveAllTimer => LeaveAllTimerEvent(now);
      case RecvLeaveAll(kind) => RecvLeaveAllEvent(kind, now);
      case Transmit => TransmitEvent();
      case LeaveTimer => LeaveTimerEvent(now);
      case PeriodicTimer =>
      case On(e, r) => if IsAttributeEvent(e) { AttributeEvent(e, r, now); }
      case Collect =>
        ExpiredAllIs(list.Contents(), p2p, Everything);
        Sweep(list, false);
    }
  }

  lemma RemoveUpdated(es: seq<Attribute>, i: nat, y: Attribute)
    requires i < |es|
    ensures RemoveAt(es[i := y], i) == RemoveAt(es, i)
  {
  }
}
