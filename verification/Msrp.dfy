/** The MSRP participant of `msrp.c`, with pruning of uninteresting streams off: what it stores about
    talkers, listeners and domains, and how an incoming declaration is merged with a stored one. */
module Msrp {
  import opened Mrp
  import opened Participant
  import opened Wire
  import Eui64

  datatype Kind = TalkerAdvertise | TalkerFailed | Listener | Domain

  datatype Operation = Register | Declare

  /** The FirstValue fields that `msrp_merge` can change; the others are in `rest`. */
  datatype Body =
    | Stream(bridge: seq<byte>, failure: byte, rest: seq<byte>)
    | Class(priority: int, neighbor: int, vid: int)

  /** An attribute as declared: `number` is the stream ID or, for a domain, the SR class ID. */
  datatype Declaration = Declaration(kind: Kind, number: int, body: Body, substate: int, operation: Operation)

  type Attribute = Entry<Declaration>

  datatype Db = Db(entries: seq<Attribute>, t: Timers, p2p: bool)

  /** What two attributes must not share. Both kinds of talker declaration identify the same talker. */
  datatype Id = TalkerId(stream: int) | ListenerId(stream: int) | DomainId(class_: int)

  function IdOf(r: Declaration): Id {
    match r.kind
    case TalkerAdvertise => TalkerId(r.number)
    case TalkerFailed => TalkerId(r.number)
    case Listener => ListenerId(r.number)
    case Domain => DomainId(r.number)
  }

  /** The fields are those of the kind, and have their sizes. */
  predicate WellTyped(r: Declaration) {
    if r.kind == Domain then
      && r.body.Class? && 0 <= r.number < 0x100 && 0 <= r.body.priority < 0x100 && 0 <= r.body.neighbor < 0x100
      && 0 <= r.body.vid < 0x1_0000
    else r.body.Stream? && 0 <= r.number < Eui64.LIMIT && |r.body.bridge| == 8 && |r.body.rest| == 17
  }

  datatype Input =
    | LeaveAllTimer
    | RecvLeaveAll(kind: Option<Kind>)
    | Transmit
    | LeaveTimer
    | PeriodicTimer
    | On(e: Event, r: Declaration)
    | Collect

  datatype Stamped = Stamped(at: nat, input: Input)

  ghost predicate Unique(es: seq<Attribute>) {
    forall i, j :: 0 <= i < j < |es| ==> IdOf(es[i].key) != IdOf(es[j].key)
  }

  ghost predicate Valid(db: Db) {
    Unique(db.entries) && forall x :: x in db.entries ==> WellTyped(x.key)
  }

  ghost predicate ValidInput(input: Input) {
    input.On? ==> WellTyped(input.r)
  }

  // ---------------------------------------------------------------- lookup, add, merge

  /** `msrp_lookup`: the position of the first entry that `r` refers to, or the length of the list. */
  function Find(es: seq<Attribute>, id: Id): (i: nat)
    ensures i <= |es|
    ensures i < |es| ==> IdOf(es[i].key) == id
    ensures forall j :: 0 <= j < i ==> IdOf(es[j].key) != id
  {
    if es == [] || IdOf(es[0].key) == id then 0 else
    assert forall j :: 1 <= j < |es| ==> es[j] == es[1..][j - 1];
    1 + Find(es[1..], id)
  }

  function SameKind(r: Declaration): Declaration -> bool {
    (x: Declaration) => x.kind == r.kind
  }

  function Below(r: Declaration): Declaration -> bool {
    (x: Declaration) => x.number < r.number
  }

  /** `msrp_add`: into the first run of entries of exactly the same kind, or at the tail. */
  function AddPos(es: seq<Attribute>, r: Declaration): (p: nat)
    ensures p <= |es|
  {
    BlockPos(es, SameKind(r), Below(r))
  }

  /** So a new attribute is added behind the smaller stream or class IDs of the first run of its own kind, and in front
      of the others; or at the tail if there is none of its kind. */
  lemma AddedInRun(es: seq<Attribute>, r: Declaration) returns (a: nat, b: nat)
    ensures var p := AddPos(es, r);
            && a <= p <= b <= |es|
            && (forall i :: 0 <= i < a ==> es[i].key.kind != r.kind)
            && (forall i :: a <= i < b ==> es[i].key.kind == r.kind)
            && (b < |es| ==> a < b && es[b].key.kind != r.kind)
            && (forall i :: a <= i < p ==> es[i].key.number < r.number)
            && (p < b ==> r.number <= es[p].key.number)
  {
    a, b := BlockPosExact(es, SameKind(r), Below(r));
  }

  const ASKING_FAILED := 1

  /** Talkers: a change of kind rewrites the stored attribute in place. */
  function MergeTalker(x: Attribute, r: Declaration): Attribute
    requires x.key.body.Stream? && r.body.Stream?
  {
    var k := x.key;
    if k.operation != r.operation then x
    else
      var k' := k.(body := k.body.(bridge := r.body.bridge, failure := r.body.failure));
      if k.kind == r.kind then x.(key := k') else x.(key := k'.(kind := r.kind), reg := MT)
  }

  /** Is there a talker for the stream that `r` is about? */
  predicate TalkerKnown(es: seq<Attribute>, r: Declaration) {
    Find(es, TalkerId(r.number)) < |es|
  }

  /** `msrp_merge`: what becomes of the stored attribute `x` when `r` is declared for it. A change that
      clients must hear of resets the registrar. */
  function Merge(x: Attribute, r: Declaration, talkerKnown: bool): Attribute
    requires IdOf(x.key) == IdOf(r) && WellTyped(x.key) && WellTyped(r)
  {
    var k := x.key;
    match k.kind
    case Listener =>
      if k.substate == r.substate then x
      else if k.substate == ASKING_FAILED && !talkerKnown then x
      else x.(key := if k.operation == r.operation then k.(substate := r.substate) else k, reg := MT)
    case Domain =>
      if k.body.priority == r.body.priority && k.body.vid == r.body.vid then x
      else x.(key := k.(body := k.body.(neighbor := r.body.priority, vid := r.body.vid)), reg := MT)
    case _ => MergeTalker(x, r)
  }

  /** Does `r` bring news about the stored declaration `k`? A talker changed between Advertise and Failed, in the same
      direction; a listener changed its substate, unless it was asking and failed and no talker is known; or the
      priority or VID of a class differ. */
  predicate News(k: Declaration, r: Declaration, talkerKnown: bool)
    requires IdOf(k) == IdOf(r) && WellTyped(k) && WellTyped(r)
  {
    match k.kind
    case Listener => k.substate != r.substate && (k.substate != 1 || talkerKnown)
    case Domain => k.body.priority != r.body.priority || k.body.vid != r.body.vid
    case _ => k.operation == r.operation && k.kind != r.kind
  }

  /** What is stored after `r`, field by field: a talker takes over kind and failure information if the directions
      agree; a listener its substate if they agree and it is news; a class takes the other station's priority as its
      neighbor's, and the VID. All else stays. */
  ghost predicate Follows(k: Declaration, k': Declaration, r: Declaration, talkerKnown: bool)
    requires IdOf(k) == IdOf(r) && WellTyped(k) && WellTyped(r)
  {
    var same, news := k.operation == r.operation, News(k, r, talkerKnown);
    && k'.number == k.number && k'.operation == k.operation
    && k'.substate == (if k.kind == Listener && same && news then r.substate else k.substate)
    && k'.kind == (if k.kind in {TalkerAdvertise, TalkerFailed} && same then r.kind else k.kind)
    && (k.kind == Domain ==>
          && k'.body.Class? && k'.body.priority == k.body.priority
          && k'.body.neighbor == (if news then r.body.priority else k.body.neighbor)
          && k'.body.vid == (if news then r.body.vid else k.body.vid))
    && (k.kind == Listener ==> k'.body == k.body)
    && (k.kind in {TalkerAdvertise, TalkerFailed} ==>
          && k'.body.Stream? && k'.body.rest == k.body.rest
          && k'.body.bridge == (if same then r.body.bridge else k.body.bridge)
          && k'.body.failure == (if same then r.body.failure else k.body.failure))
  }

  /** Merging updates exactly these fields, resets the registrar exactly on news, and never changes whose attribute
      it is. */
  lemma MergeFollows(x: Attribute, r: Declaration, talkerKnown: bool)
    requires IdOf(x.key) == IdOf(r) && WellTyped(x.key) && WellTyped(r)
    ensures var y := Merge(x, r, talkerKnown);
            && Follows(x.key, y.key, r, talkerKnown) && y.app == x.app
            && y.reg == (if News(x.key, r, talkerKnown) then MT else x.reg)
            && IdOf(y.key) == IdOf(x.key) && WellTyped(y.key)
  {
  }

  // ---------------------------------------------------------------- the events

  function Everything(r: Declaration): bool { true }

  function OfKind(kind: Kind): Declaration -> bool {
    (r: Declaration) => r.kind == kind
  }

  function LeaveAllStep(db: Db, now: nat): Db {
    var t := Restart(db.t.(lva := false, join := false), AnyStarts(db.entries, TxLA, Everything), now);
    var t := LeaveAllFsm(LeaveAllFsm(t, LvaTimer), Tx);
    db.(entries := All(db.entries, TxLA, db.p2p, Everything), t := t.(laTx := false))
  }

  /** Only attributes of exactly the named kind take part. */
  function RecvLeaveAllStep(db: Db, kind: Option<Kind>, now: nat): Db {
    var t := db.t.(join := true);
    if kind.None? then db.(t := t)
    else
      var t := Restart(t, AnyStarts(db.entries, RLA, OfKind(kind.value)), now);
      db.(entries := All(db.entries, RLA, db.p2p, OfKind(kind.value)), t := LeaveAllFsm(t, RLA))
  }

  function TransmitStep(db: Db): Db {
    db.(entries := All(db.entries, Tx, db.p2p, Everything),
        t := db.t.(join := AnyAgain(db.entries, db.p2p), laTx := false))
  }

  function LeaveTimerStep(db: Db): Db {
    db.(entries := Purge(All(db.entries, LvTimer, db.p2p, Everything)), t := db.t.(lv := false))
  }

  /** The list once `r` is in it or merged into it, and where. */
  function Placed(es: seq<Attribute>, r: Declaration): seq<Attribute>
    requires WellTyped(r) && forall x :: x in es ==> WellTyped(x.key)
  {
    var i := Find(es, IdOf(r));
    if i < |es| then es[i := Merge(es[i], r, TalkerKnown(es, r))] else InsertAt(es, AddPos(es, r), Fresh(r))
  }

  function PlacedAt(es: seq<Attribute>, r: Declaration): (i: nat)
    requires WellTyped(r) && forall x :: x in es ==> WellTyped(x.key)
    ensures i < |Placed(es, r)|
  {
    var i := Find(es, IdOf(r));
    if i < |es| then i else AddPos(es, r)
  }

  function OnStep(db: Db, e: Event, r: Declaration, now: nat): Db
    requires Valid(db) && WellTyped(r)
  {
    var t := db.t.(join := true);
    if Find(db.entries, IdOf(r)) == |db.entries| && e == RMt then db.(t := t)
    else
      var es, i := Placed(db.entries, r), PlacedAt(db.entries, r);
      db.(entries := Settle(es, i, One(es[i], e, db.p2p)),
          t := Restart(t, StartsLeaveTimer(es[i].reg, Remap(e, es[i].reg)), now))
  }

  /** MSRP has no periodic machine: periodic! does nothing. */
  function Step(db: Db, s: Stamped): Db
    requires Valid(db) && ValidInput(s.input)
  {
    match s.input
    case LeaveAllTimer => LeaveAllStep(db, s.at)
    case RecvLeaveAll(kind) => RecvLeaveAllStep(db, kind, s.at)
    case Transmit => TransmitStep(db)
    case LeaveTimer => LeaveTimerStep(db)
    case PeriodicTimer => db
    case On(e, r) => if IsAttributeEvent(e) then OnStep(db, e, r, s.at) else db
    case Collect => db.(entries := Purge(db.entries))
  }

  // ---------------------------------------------------------------- one attribute per talker, listener, class

  lemma AllValid(es: seq<Attribute>, e: Event, p2p: bool, selected: Declaration -> bool)
    requires Unique(es) && forall x :: x in es ==> WellTyped(x.key)
    ensures Unique(All(es, e, p2p, selected)) && forall x :: x in All(es, e, p2p, selected) ==> WellTyped(x.key)
  {
    var r := All(es, e, p2p, selected);
    forall i | 0 <= i < |r| ensures r[i].key == es[i].key && WellTyped(r[i].key) {
      assert es[i] in es;
    }
  }

  lemma {:induction false} PurgeValid(es: seq<Attribute>)
    requires Unique(es) && forall x :: x in es ==> WellTyped(x.key)
    ensures Unique(Purge(es)) && forall x :: x in Purge(es) ==> WellTyped(x.key)
    decreases |es|
  {
    hide IdOf, WellTyped, Reclaimable;
    if es != [] {
      var rest := es[1..];
      PurgeValid(rest);
      PurgeExact(rest);
      assert forall x :: x in rest ==> IdOf(x.key) != IdOf(es[0].key);
    }
  }

  lemma PlacedValid(es: seq<Attribute>, r: Declaration)
    requires Unique(es) && WellTyped(r) && forall x :: x in es ==> WellTyped(x.key)
    ensures Unique(Placed(es, r)) && forall x :: x in Placed(es, r) ==> WellTyped(x.key)
    ensures IdOf(Placed(es, r)[PlacedAt(es, r)].key) == IdOf(r)
  {
    hide IdOf, WellTyped, Merge, AddPos;
    var i := Find(es, IdOf(r));
    if i < |es| {
      MergeFollows(es[i], r, TalkerKnown(es, r));
    } else {
      InsertIndex(es, AddPos(es, r), Fresh(r));
    }
  }

  lemma SettleValid(es: seq<Attribute>, i: nat, y: Attribute)
    requires Unique(es) && i < |es| && y.key == es[i].key && forall x :: x in es ==> WellTyped(x.key)
    ensures Unique(Settle(es, i, y)) && forall x :: x in Settle(es, i, y) ==> WellTyped(x.key)
  {
    hide IdOf, WellTyped, Reclaimable;
    RemoveIndex(es, i);
    assert es[i] in es;
  }

  lemma OnStepValid(db: Db, e: Event, r: Declaration, now: nat)
    requires Valid(db) && WellTyped(r)
    ensures Valid(OnStep(db, e, r, now))
  {
    hide IdOf, WellTyped, Placed, PlacedAt, Settle, Unique;
    PlacedValid(db.entries, r);
    var es, i := Placed(db.entries, r), PlacedAt(db.entries, r);
    SettleValid(es, i, One(es[i], e, db.p2p));
  }

  /** Every input keeps at most one attribute per domain class, one per listener, and one per talker,
      counting Advertise and Failed together. */
  lemma StepValid(db: Db, s: Stamped)
    requires Valid(db) && ValidInput(s.input)
    ensures Valid(Step(db, s))
  {
    hide Unique, WellTyped, OnStep;
    match s.input
    case LeaveAllTimer => AllValid(db.entries, TxLA, db.p2p, Everything);
    case RecvLeaveAll(kind) => if kind.Some? { AllValid(db.entries, RLA, db.p2p, OfKind(kind.value)); }
    case Transmit => AllValid(db.entries, Tx, db.p2p, Everything);
    case LeaveTimer =>
      AllValid(db.entries, LvTimer, db.p2p, Everything);
      PurgeValid(All(db.entries, LvTimer, db.p2p, Everything));
    case PeriodicTimer =>
    case On(e, r) => if IsAttributeEvent(e) { OnStepValid(db, e, r, s.at); }
    case Collect => PurgeValid(db.entries);
  }
}
