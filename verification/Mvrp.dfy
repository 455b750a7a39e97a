/** The MVRP participant of `mvrp.c` as a pure transition system over its attribute list
    (ascending by VID) and its timers. `MvrpDatabase` refines it on a heap-allocated list. */
module Mvrp {
  import opened Mrp
  import opened Participant

  type Vlan = Entry<int>

  datatype Db = Db(entries: seq<Vlan>, t: Timers, p2p: bool)

  /** Everything that reaches `mvrp_event` or `mvrp_reclaim`. */
  datatype Input =
    | LeaveAllTimer
    | RecvLeaveAll
    | Transmit
    | LeaveTimer
    | PeriodicTimer
    | On(e: Event, vid: int)
    | Collect

  datatype Stamped = Stamped(at: nat, input: Input)

  ghost predicate Ascending(es: seq<Vlan>) {
    forall i, j :: 0 <= i < j < |es| ==> es[i].key < es[j].key
  }

  ghost predicate Valid(db: Db) {
    Ascending(db.entries) && forall x :: x in db.entries ==> 0 <= x.key < 0x10000
  }

  ghost predicate ValidInput(input: Input) {
    input.On? ==> 0 <= input.vid < 0x10000
  }

  function EveryVid(k: int): bool { true }

  /** Where `mvrp_add` stitches in a VID: before the first entry that is not smaller. */
  function InsertPos(es: seq<Vlan>, v: int): (p: nat)
    ensures p <= |es|
    ensures forall j :: 0 <= j < p ==> es[j].key < v
    ensures p < |es| ==> v <= es[p].key
  {
    if es == [] || v <= es[0].key then 0 else
    assert forall j :: 1 <= j < |es| ==> es[j] == es[1..][j - 1];
    1 + InsertPos(es[1..], v)
  }

  // ---------------------------------------------------------------- the events

  function LeaveAllStep(db: Db, now: nat): Db {
    var t := Restart(db.t.(lva := false, join := false), AnyStarts(db.entries, TxLA, EveryVid), now);
    var t := LeaveAllFsm(LeaveAllFsm(t, LvaTimer), Tx);
    db.(entries := All(db.entries, TxLA, db.p2p, EveryVid), t := t.(laTx := false))
  }

  function RecvLeaveAllStep(db: Db, now: nat): Db {
    var t := Restart(db.t.(join := true), AnyStarts(db.entries, RLA, EveryVid), now);
    db.(entries := All(db.entries, RLA, db.p2p, EveryVid), t := LeaveAllFsm(t, RLA))
  }

  function TransmitStep(db: Db): Db {
    db.(entries := All(db.entries, Tx, db.p2p, EveryVid),
        t := db.t.(join := AnyAgain(db.entries, db.p2p), laTx := false))
  }

  function LeaveTimerStep(db: Db): Db {
    db.(entries := Purge(All(db.entries, LvTimer, db.p2p, EveryVid)), t := db.t.(lv := false))
  }

  function PeriodicStep(db: Db): Db {
    db.(entries := All(db.entries, Periodic, db.p2p, EveryVid),
        t := db.t.(join := db.t.join || db.entries != []))
  }

  /** The list once VID `v` is in it, and where it is. */
  function Placed(es: seq<Vlan>, v: int): seq<Vlan> {
    if Lookup(es, v) < |es| then es else InsertAt(es, InsertPos(es, v), Fresh(v))
  }

  function PlacedAt(es: seq<Vlan>, v: int): (i: nat)
    ensures i < |Placed(es, v)| && Placed(es, v)[i].key == v
  {
    if Lookup(es, v) < |es| then Lookup(es, v) else InsertPos(es, v)
  }

  function OnStep(db: Db, e: Event, v: int, now: nat): Db {
    var t := db.t.(join := true);
    if Lookup(db.entries, v) == |db.entries| && e == RMt then db.(t := t)
    else
      var es, i := Placed(db.entries, v), PlacedAt(db.entries, v);
      var y := One(es[i], e, db.p2p);
      db.(entries := Settle(es, i, y),
          t := Restart(t, StartsLeaveTimer(es[i].reg, Remap(e, es[i].reg)), now))
  }

  function Step(db: Db, s: Stamped): Db {
    match s.input
    case LeaveAllTimer => LeaveAllStep(db, s.at)
    case RecvLeaveAll => RecvLeaveAllStep(db, s.at)
    case Transmit => TransmitStep(db)
    case LeaveTimer => LeaveTimerStep(db)
    case PeriodicTimer => PeriodicStep(db)
    case On(e, v) => if IsAttributeEvent(e) then OnStep(db, e, v, s.at) else db
    case Collect => db.(entries := Purge(db.entries))
  }

  function Run(db: Db, run: seq<Stamped>): Db
    decreases |run|
  {
    if run == [] then db else Run(Step(db, run[0]), run[1..])
  }

  /** A received frame is handled within one instant: all its events carry the same time. */
  function AllAt(now: nat, inputs: seq<Input>): (r: seq<Stamped>)
    ensures |r| == |inputs|
    ensures forall i :: 0 <= i < |inputs| ==> r[i] == Stamped(now, inputs[i])
  {
    seq(|inputs|, i requires 0 <= i < |inputs| => Stamped(now, inputs[i]))
  }

  lemma {:induction false} RunSplit(db: Db, a: seq<Stamped>, b: seq<Stamped>)
    ensures Run(db, a + b) == Run(Run(db, a), b)
    decreases |a|
  {
    if a == [] {
      assert a + b == b;
    } else {
      assert (a + b)[1..] == a[1..] + b;
      RunSplit(Step(db, a[0]), a[1..], b);
    }
  }

  // ---------------------------------------------------------------- the list stays ascending

  lemma AscendingIsDistinct(es: seq<Vlan>)
    requires Ascending(es)
    ensures Distinct(es)
  {
    forall i, j | 0 <= i < j < |es| ensures es[i].key != es[j].key {
      assert es[i].key < es[j].key;
    }
  }

  lemma InsertAscending(es: seq<Vlan>, x: Vlan)
    requires Ascending(es) && Get(es, x.key).None?
    ensures Ascending(InsertAt(es, InsertPos(es, x.key), x))
    ensures forall y :: y in InsertAt(es, InsertPos(es, x.key), x) ==> y in es || y == x
  {
    var p := InsertPos(es, x.key);
    var r := InsertAt(es, p, x);
    InsertIndex(es, p, x);
    assert forall j :: p <= j < |es| ==> x.key < es[j].key;
    forall i, j | 0 <= i < j < |r| ensures r[i].key < r[j].key { }
  }

  lemma SettleAscending(es: seq<Vlan>, i: nat, y: Vlan)
    requires Ascending(es) && i < |es| && y.key == es[i].key
    ensures Ascending(Settle(es, i, y))
    ensures forall x :: x in Settle(es, i, y) ==> x in es || x == y
  {
    RemoveIndex(es, i);
  }

  lemma {:induction false} PurgeAscending(es: seq<Vlan>)
    requires Ascending(es)
    ensures Ascending(Purge(es))
  {
    if es != [] {
      PurgeAscending(es[1..]);
      PurgeExact(es[1..]);
      assert forall x :: x in es[1..] ==> es[0].key < x.key;
    }
  }

  lemma OnStepValid(db: Db, e: Event, v: int, now: nat)
    requires Valid(db) && 0 <= v < 0x10000
    ensures Valid(OnStep(db, e, v, now))
  {
    if Lookup(db.entries, v) == |db.entries| {
      InsertAscending(db.entries, Fresh(v));
    }
    var es, i := Placed(db.entries, v), PlacedAt(db.entries, v);
    SettleAscending(es, i, One(es[i], e, db.p2p));
  }

  /** Every input keeps the list strictly ascending and its VIDs within 16 bits. */
  lemma StepValid(db: Db, s: Stamped)
    requires Valid(db) && ValidInput(s.input)
    ensures Valid(Step(db, s))
  {
    match s.input
    case On(e, v) => OnStepValid(db, e, v, s.at);
    case LeaveTimer =>
      var es := All(db.entries, LvTimer, db.p2p, EveryVid);
      PurgeAscending(es);
      PurgeExact(es);
    case Collect =>
      PurgeAscending(db.entries);
      PurgeExact(db.entries);
    case _ =>
  }

  // ---------------------------------------------------------------- one machine per VID

  /** What one input does to the attribute of one VID, on its own. */
  function KeyStep(o: Option<Vlan>, v: int, input: Input, p2p: bool): Option<Vlan> {
    match input
    case LeaveAllTimer => KeyAll(o, TxLA, p2p, EveryVid)
    case RecvLeaveAll => KeyAll(o, RLA, p2p, EveryVid)
    case Transmit => KeyAll(o, Tx, p2p, EveryVid)
    case LeaveTimer => KeyPurge(KeyAll(o, LvTimer, p2p, EveryVid))
    case PeriodicTimer => KeyAll(o, Periodic, p2p, EveryVid)
    case On(e, u) =>
      if u != v || !IsAttributeEvent(e) || (o.None? && e == RMt) then o
      else KeyPurge(Some(One(if o.Some? then o.value else Fresh(v), e, p2p)))
    case Collect => KeyPurge(o)
  }

  lemma GetPlaced(es: seq<Vlan>, u: int, v: int)
    requires Ascending(es)
    ensures Distinct(Placed(es, u))
    ensures Get(Placed(es, u), v) == if v == u && Get(es, u).None? then Some(Fresh(u)) else Get(es, v)
    ensures Get(Placed(es, u), u) == Some(Placed(es, u)[PlacedAt(es, u)])
  {
    AscendingIsDistinct(es);
    if Lookup(es, u) == |es| {
      GetInsert(es, InsertPos(es, u), Fresh(u), v);
    }
    GetAt(Placed(es, u), PlacedAt(es, u));
  }

  lemma GetOnStep(db: Db, e: Event, u: int, now: nat, v: int)
    requires Valid(db) && IsAttributeEvent(e)
    ensures Get(OnStep(db, e, u, now).entries, v) == KeyStep(Get(db.entries, v), v, On(e, u), db.p2p)
  {
    GetPlaced(db.entries, u, v);
    var es, i := Placed(db.entries, u), PlacedAt(db.entries, u);
    GetSettle(es, i, One(es[i], e, db.p2p), v);
  }

  /** The database is the product of independent per-VID machines. */
  lemma GetStep(db: Db, s: Stamped, v: int)
    requires Valid(db)
    ensures Get(Step(db, s).entries, v) == KeyStep(Get(db.entries, v), v, s.input, db.p2p)
  {
    AscendingIsDistinct(db.entries);
    match s.input
    case LeaveAllTimer => GetAll(db.entries, TxLA, db.p2p, EveryVid, v);
    case RecvLeaveAll => GetAll(db.entries, RLA, db.p2p, EveryVid, v);
    case Transmit => GetAll(db.entries, Tx, db.p2p, EveryVid, v);
    case LeaveTimer =>
      GetAll(db.entries, LvTimer, db.p2p, EveryVid, v);
      GetPurge(All(db.entries, LvTimer, db.p2p, EveryVid), v);
    case PeriodicTimer => GetAll(db.entries, Periodic, db.p2p, EveryVid, v);
    case On(e, u) => if IsAttributeEvent(e) { GetOnStep(db, e, u, s.at, v); }
    case Collect => GetPurge(db.entries, v);
  }
}
