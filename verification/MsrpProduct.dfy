/** The MSRP database seen as one machine per identity: what every input does to what is stored for one talker,
    listener or class, told by the rules of the two machines and by the fields of what was declared. */
module MsrpProduct {
  import opened Mrp
  import opened Participant
  import opened Msrp
  import opened Lives
  import Applicant

  // ---------------------------------------------------------------- what is stored for an identity

  function At(es: seq<Attribute>, id: Id): Option<Attribute> {
    var i := Find(es, id);
    if i < |es| then Some(es[i]) else None
  }

  lemma AtSome(es: seq<Attribute>, id: Id)
    requires At(es, id).Some?
    ensures At(es, id).value in es && IdOf(At(es, id).value.key) == id
  {
  }

  lemma AtNone(es: seq<Attribute>, id: Id)
    requires forall i :: 0 <= i < |es| ==> IdOf(es[i].key) != id
    ensures At(es, id).None?
  {
  }

  lemma AtIndex(es: seq<Attribute>, i: nat)
    requires Unique(es) && i < |es|
    ensures At(es, IdOf(es[i].key)) == Some(es[i])
  {
    hide IdOf;
    var j := Find(es, IdOf(es[i].key));
    assert j < |es|;
  }

  lemma AtUpdate(es: seq<Attribute>, i: nat, y: Attribute, id: Id)
    requires Unique(es) && i < |es| && IdOf(y.key) == IdOf(es[i].key)
    ensures Unique(es[i := y])
    ensures At(es[i := y], id) == if id == IdOf(y.key) then Some(y) else At(es, id)
  {
    hide IdOf;
    var r := es[i := y];
    AtIndex(r, i);
    var j := Find(es, id);
    if j < |es| && j != i {
      AtIndex(r, j);
    }
  }

  lemma InsertUnique(es: seq<Attribute>, p: nat, x: Attribute)
    requires Unique(es) && p <= |es| && At(es, IdOf(x.key)).None?
    ensures Unique(InsertAt(es, p, x))
  {
    hide IdOf;
    var r := InsertAt(es, p, x);
    InsertIndex(es, p, x);
    assert forall k :: 0 <= k < |r| && k != p ==> IdOf(r[k].key) != IdOf(x.key);
  }

  lemma AtInsert(es: seq<Attribute>, p: nat, x: Attribute, id: Id)
    requires Unique(es) && p <= |es| && At(es, IdOf(x.key)).None?
    ensures Unique(InsertAt(es, p, x))
    ensures At(InsertAt(es, p, x), id) == if id == IdOf(x.key) then Some(x) else At(es, id)
  {
    hide IdOf, Unique, Find;
    var r := InsertAt(es, p, x);
    InsertIndex(es, p, x);
    InsertUnique(es, p, x);
    AtIndex(r, p);
    var j := Find(es, id);
    if j < |es| {
      AtIndex(r, if j < p then j else j + 1);
    }
  }

  lemma RemoveUnique(es: seq<Attribute>, i: nat)
    requires Unique(es) && i < |es|
    ensures Unique(RemoveAt(es, i)) && At(RemoveAt(es, i), IdOf(es[i].key)).None?
  {
    hide IdOf;
    RemoveIndex(es, i);
  }

  lemma AtRemove(es: seq<Attribute>, i: nat, id: Id)
    requires Unique(es) && i < |es|
    ensures At(RemoveAt(es, i), id) == if id == IdOf(es[i].key) then None else At(es, id)
  {
    hide IdOf, Unique, At;
    var r, j := RemoveAt(es, i), Find(es, id);
    RemoveIndex(es, i);
    RemoveUnique(es, i);
    if id != IdOf(es[i].key) {
      if j < |es| {
        AtIndex(es, j);
        AtIndex(r, if j < i then j else j - 1);
      } else {
        AtNone(es, id);
        AtNone(r, id);
      }
    }
  }

  lemma AtSettle(es: seq<Attribute>, i: nat, y: Attribute, id: Id)
    requires Unique(es) && i < |es| && y.key == es[i].key
    ensures At(Settle(es, i, y), id) == if id == IdOf(y.key) then KeyPurge(Some(y)) else At(es, id)
  {
    hide IdOf, Unique, At, Reclaimable;
    if Reclaimable(y) {
      AtRemove(es, i, id);
    } else {
      AtUpdate(es, i, y, id);
    }
  }

  lemma KeysUnique(es: seq<Attribute>, r: seq<Attribute>)
    requires Unique(es) && |r| == |es| && forall i :: 0 <= i < |es| ==> r[i].key == es[i].key
    ensures Unique(r)
  {
    hide IdOf;
  }

  lemma AtAll(es: seq<Attribute>, e: Event, p2p: bool, selected: Declaration -> bool, id: Id)
    requires Unique(es)
    ensures At(All(es, e, p2p, selected), id) == KeyAll(At(es, id), e, p2p, selected)
  {
    hide IdOf, AppNext, RegNext, Unique, At;
    var r, j := All(es, e, p2p, selected), Find(es, id);
    KeysUnique(es, r);
    if j < |es| {
      AtIndex(es, j);
      AtIndex(r, j);
    } else {
      AtNone(es, id);
      AtNone(r, id);
    }
  }

  lemma AtPurge(es: seq<Attribute>, id: Id)
    requires Unique(es) && Unique(Purge(es))
    ensures At(Purge(es), id) == KeyPurge(At(es, id))
  {
    hide IdOf, Reclaimable, Purge;
    PurgeExact(es);
    var r, o := Purge(es), At(es, id);
    if o.Some? && !Reclaimable(o.value) {
      var i :| 0 <= i < |r| && r[i] == o.value;
      AtIndex(r, i);
    }
    if At(r, id).Some? {
      AtSome(r, id);
      var x := At(r, id).value;
      var j :| 0 <= j < |es| && es[j] == x;
      AtIndex(es, j);
    }
  }

  /** The attribute an event is for, before the machines see it: new, or what was stored merged with `r`. */
  function Before(es: seq<Attribute>, r: Declaration): Attribute
    requires WellTyped(r) && forall x :: x in es ==> WellTyped(x.key)
  {
    var o := At(es, IdOf(r));
    if o.None? then Fresh(r) else Merge(o.value, r, TalkerKnown(es, r))
  }

  lemma AtPlaced(es: seq<Attribute>, r: Declaration, id: Id)
    requires Unique(es) && WellTyped(r) && forall x :: x in es ==> WellTyped(x.key)
    ensures At(Placed(es, r), id) == if id != IdOf(r) then At(es, id) else Some(Before(es, r))
    ensures Placed(es, r)[PlacedAt(es, r)] == Before(es, r)
  {
    hide IdOf, WellTyped, Merge, AddPos, Unique, TalkerKnown;
    var i := Find(es, IdOf(r));
    if i < |es| {
      assert es[i] in es;
      MergeFollows(es[i], r, TalkerKnown(es, r));
      AtUpdate(es, i, Merge(es[i], r, TalkerKnown(es, r)), id);
    } else {
      AtInsert(es, AddPos(es, r), Fresh(r), id);
    }
  }

  // ---------------------------------------------------------------- one input, one identity

  lemma AtOnStep(db: Db, e: Event, r: Declaration, now: nat, id: Id)
    requires Valid(db) && WellTyped(r) && IsAttributeEvent(e)
    ensures At(OnStep(db, e, r, now).entries, id) ==
            if id != IdOf(r) || (At(db.entries, id).None? && e == RMt) then At(db.entries, id)
            else KeyPurge(Some(One(Before(db.entries, r), e, db.p2p)))
  {
    hide IdOf, WellTyped, Merge, Placed, PlacedAt, Settle, AppNext, RegNext, Find, Unique, Reclaimable, TalkerKnown;
    if !(Find(db.entries, IdOf(r)) == |db.entries| && e == RMt) {
      PlacedValid(db.entries, r);
      AtPlaced(db.entries, r, id);
      var es, i := Placed(db.entries, r), PlacedAt(db.entries, r);
      AtSettle(es, i, One(es[i], e, db.p2p), id);
    }
  }

  /** Does `r` bring news about what is stored for it? */
  predicate NewsFor(es: seq<Attribute>, r: Declaration)
    requires WellTyped(r) && forall x :: x in es ==> WellTyped(x.key)
  {
    var o := At(es, IdOf(r));
    o.Some? && News(o.value.key, r, TalkerKnown(es, r))
  }

  function Forgotten(life: Life): Life {
    if life.Known? then life.(reg := MT) else life
  }

  /** The life of one identity through one input: news make the station forget the registration first, a LeaveAll
      concerns the attributes of exactly the kind it names, and periodic! is ignored. */
  function LifeAfter(es: seq<Attribute>, id: Id, input: Input, p2p: bool): Life
    requires ValidInput(input) && forall x :: x in es ==> WellTyped(x.key)
  {
    var o := At(es, id);
    var life := LifeOf(o);
    match input
    case LeaveAllTimer => Swept(life, TxLA, p2p)
    case RecvLeaveAll(kind) => if o.Some? && kind == Some(o.value.key.kind) then Swept(life, RLA, p2p) else life
    case Transmit => Swept(life, Tx, p2p)
    case LeaveTimer => Reclaimed(Swept(life, LvTimer, p2p))
    case PeriodicTimer => life
    case On(e, r) =>
      if IdOf(r) != id || !IsAttributeEvent(e) then life
      else Reclaimed(Touched(if NewsFor(es, r) then Forgotten(life) else life, e, p2p))
    case Collect => Reclaimed(life)
  }

  lemma OnStepLife(db: Db, e: Event, r: Declaration, now: nat, id: Id)
    requires Valid(db) && WellTyped(r) && IsAttributeEvent(e)
    ensures LifeOf(At(OnStep(db, e, r, now).entries, id)) == LifeAfter(db.entries, id, On(e, r), db.p2p)
  {
    hide IdOf, WellTyped, Merge, OnStep, One, Find, Unique, TalkerKnown, KeyPurge, Applicant.NameOf, Applicant.Moved,
      RegMoved, News, Follows;
    AtOnStep(db, e, r, now, id);
    if id == IdOf(r) {
      var o := At(db.entries, id);
      if o.None? {
        TouchMoves(o, r, e, db.p2p);
        PurgeMoves(Some(One(Fresh(r), e, db.p2p)));
      } else {
        MergeFollows(o.value, r, TalkerKnown(db.entries, r));
        var y := Before(db.entries, r);
        TouchMoves(Some(y), r, e, db.p2p);
        PurgeMoves(Some(One(y, e, db.p2p)));
      }
    }
  }

  /** Every input moves every identity by the rules. */
  lemma StepLife(db: Db, s: Stamped, id: Id)
    requires Valid(db) && ValidInput(s.input)
    ensures LifeOf(At(Step(db, s).entries, id)) == LifeAfter(db.entries, id, s.input, db.p2p)
  {
    hide Valid, WellTyped, IdOf, OnStep, All, Purge, AnyStarts, AnyAgain, KeyAll, KeyPurge, Touched, NewsFor,
      Applicant.NameOf, Applicant.Moved, RegMoved;
    var es, o, p2p := db.entries, At(db.entries, id), db.p2p;
    assert Unique(es) by { UniqueOf(db); }
    match s.input
    case LeaveAllTimer =>
      AtAll(es, TxLA, p2p, Everything, id);
      SweepMoves(o, TxLA, p2p, Everything);
    case RecvLeaveAll(kind) =>
      if kind.Some? {
        AtAll(es, RLA, p2p, OfKind(kind.value), id);
        SweepMoves(o, RLA, p2p, OfKind(kind.value));
      }
    case Transmit =>
      AtAll(es, Tx, p2p, Everything, id);
      SweepMoves(o, Tx, p2p, Everything);
    case LeaveTimer =>
      AllUnique(db, LvTimer);
      AtAll(es, LvTimer, p2p, Everything, id);
      SweepMoves(o, LvTimer, p2p, Everything);
      AtPurge(All(es, LvTimer, p2p, Everything), id);
      PurgeMoves(KeyAll(o, LvTimer, p2p, Everything));
    case PeriodicTimer =>
    case On(e, r) => if IsAttributeEvent(e) { OnStepLife(db, e, r, s.at, id); }
    case Collect =>
      PurgeUnique(db);
      AtPurge(es, id);
      PurgeMoves(o);
  }

  lemma UniqueOf(db: Db)
    requires Valid(db)
    ensures Unique(db.entries) && forall x :: x in db.entries ==> WellTyped(x.key)
  {
  }

  lemma AllUnique(db: Db, e: Event)
    requires Valid(db)
    ensures var es := All(db.entries, e, db.p2p, Everything); Unique(es) && Unique(Purge(es))
  {
    AllValid(db.entries, e, db.p2p, Everything);
    PurgeValid(All(db.entries, e, db.p2p, Everything));
  }

  lemma PurgeUnique(db: Db)
    requires Valid(db)
    ensures Unique(Purge(db.entries))
  {
    PurgeValid(db.entries);
  }

  // ---------------------------------------------------------------- the data

  lemma OnStepData(db: Db, e: Event, r: Declaration, now: nat, id: Id)
    requires Valid(db) && WellTyped(r) && IsAttributeEvent(e)
    ensures var o, o' := At(db.entries, id), At(OnStep(db, e, r, now).entries, id);
            o'.Some? ==>
              if id != IdOf(r) then o == o'
              else if o.None? then o'.value.key == r
              else Follows(o.value.key, o'.value.key, r, TalkerKnown(db.entries, r))
  {
    hide IdOf, WellTyped, Merge, OnStep, Find, Unique, TalkerKnown, AppNext, RegNext, News, Follows;
    AtOnStep(db, e, r, now, id);
    var o := At(db.entries, id);
    if id == IdOf(r) && o.Some? {
      MergeFollows(o.value, r, TalkerKnown(db.entries, r));
    }
  }

  /** Nothing new, and what remains has the data it had. */
  ghost predicate Kept(o: Option<Attribute>, o': Option<Attribute>) {
    o'.Some? ==> o.Some? && o'.value.key == o.value.key
  }

  lemma SweepKeeps(o: Option<Attribute>, e: Event, p2p: bool, selected: Declaration -> bool)
    ensures Kept(o, KeyAll(o, e, p2p, selected)) && Kept(o, KeyPurge(o))
    ensures Kept(o, KeyPurge(KeyAll(o, e, p2p, selected)))
  {
    hide AppNext, RegNext, Reclaimable;
  }

  lemma StepKeeps(db: Db, s: Stamped, id: Id)
    requires Valid(db) && ValidInput(s.input) && !s.input.On?
    ensures Kept(At(db.entries, id), At(Step(db, s).entries, id))
  {
    hide Valid, WellTyped, IdOf, OnStep, All, Purge, AnyStarts, AnyAgain, KeyAll, KeyPurge;
    var es, o, p2p := db.entries, At(db.entries, id), db.p2p;
    UniqueOf(db);
    match s.input
    case LeaveAllTimer =>
      AtAll(es, TxLA, p2p, Everything, id);
      SweepKeeps(o, TxLA, p2p, Everything);
    case RecvLeaveAll(kind) =>
      if kind.Some? {
        AtAll(es, RLA, p2p, OfKind(kind.value), id);
        SweepKeeps(o, RLA, p2p, OfKind(kind.value));
      }
    case Transmit =>
      AtAll(es, Tx, p2p, Everything, id);
      SweepKeeps(o, Tx, p2p, Everything);
    case LeaveTimer =>
      AllUnique(db, LvTimer);
      AtAll(es, LvTimer, p2p, Everything, id);
      AtPurge(All(es, LvTimer, p2p, Everything), id);
      SweepKeeps(o, LvTimer, p2p, Everything);
    case PeriodicTimer =>
    case Collect =>
      PurgeUnique(db);
      AtPurge(es, id);
      SweepKeeps(o, Flush, p2p, Everything);
  }

  /** What is stored for an identity changes only through events for it: unknown, it is stored as declared; known, it
      follows the declaration field by field. */
  lemma StepData(db: Db, s: Stamped, id: Id)
    requires Valid(db) && ValidInput(s.input)
    ensures var o, o' := At(db.entries, id), At(Step(db, s).entries, id);
            o'.Some? ==>
              if s.input.On? && IsAttributeEvent(s.input.e) && IdOf(s.input.r) == id then
                if o.None? then o'.value.key == s.input.r
                else Follows(o.value.key, o'.value.key, s.input.r, TalkerKnown(db.entries, s.input.r))
              else o.Some? && o'.value.key == o.value.key
  {
    hide WellTyped, IdOf, OnStep, Follows, TalkerKnown, At, Unique, LeaveAllStep, RecvLeaveAllStep, TransmitStep,
      LeaveTimerStep, Purge;
    if s.input.On? {
      if IsAttributeEvent(s.input.e) {
        OnStepData(db, s.input.e, s.input.r, s.at, id);
      }
    } else {
      StepKeeps(db, s, id);
    }
  }
}
