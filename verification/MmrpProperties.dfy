/** Whole-run properties of the MMRP participant. */
module MmrpProperties {
  import opened Mrp
  import opened Participant
  import opened Mmrp
  import opened KeySets
  import opened Lives
  import opened Transmission
  import opened LeaveTimer
  import Applicant

  // ---------------------------------------------------------------- the life of an attribute

  function LifeAfter(life: Life, k: Key, input: Input, p2p: bool): Life {
    match input
    case LeaveAllTimer => Swept(life, TxLA, p2p)
    case RecvLeaveAll(kind) => if kind == Some(KindOf(k)) then Swept(life, RLA, p2p) else life
    case Transmit => Swept(life, Tx, p2p)
    case LeaveTimer => Swept(life, LvTimer, p2p)
    case PeriodicTimer => Swept(life, Periodic, p2p)
    case On(e, j) => if j == k && IsAttributeEvent(e) then Touched(life, e, p2p) else life
    case Collect => Reclaimed(life)
  }

  function LifeReplay(life: Life, k: Key, run: seq<Stamped>, p2p: bool): Life
    decreases |run|
  {
    if run == [] then life else LifeReplay(LifeAfter(life, k, run[0].input, p2p), k, run[1..], p2p)
  }

  lemma StepLife(db: Db, s: Stamped, k: Key)
    requires Valid(db)
    ensures LifeOf(Get(Step(db, s).entries, k)) == LifeAfter(LifeOf(Get(db.entries, k)), k, s.input, db.p2p)
  {
    hide Step, Valid, Touched, KeyAll, KeyPurge, One, Applicant.NameOf, Applicant.Moved, RegMoved;
    var o, p2p := Get(db.entries, k), db.p2p;
    GetStep(db, s, k);
    match s.input
    case LeaveAllTimer => SweepMoves(o, TxLA, p2p, AnyKind);
    case RecvLeaveAll(kind) => if kind.Some? { SweepMoves(o, RLA, p2p, OfKind(kind.value)); }
    case Transmit => SweepMoves(o, Tx, p2p, AnyKind);
    case LeaveTimer => SweepMoves(o, LvTimer, p2p, AnyKind);
    case PeriodicTimer => SweepMoves(o, Periodic, p2p, AnyKind);
    case On(e, j) => if j == k && IsAttributeEvent(e) { TouchMoves(o, k, e, p2p); }
    case Collect => PurgeMoves(o);
  }

  /** Over every run each key lives a life of its own, that the rules of the two machines tell from the inputs that
      concern it; only a LeaveAll for its kind does, and only reclaiming ends it. */
  lemma {:induction false} LivesRefine(db: Db, run: seq<Stamped>, k: Key)
    requires Valid(db)
    ensures LifeOf(Get(Run(db, run).entries, k)) == LifeReplay(LifeOf(Get(db.entries, k)), k, run, db.p2p)
    decreases |run|
  {
    hide LifeAfter, LifeOf, Step, Valid;
    if run != [] {
      StepLife(db, run[0], k);
      StepValid(db, run[0]);
      StepKeepsP2p(db, run[0]);
      LivesRefine(Step(db, run[0]), run[1..], k);
    }
  }

  lemma StepKeepsP2p(db: Db, s: Stamped)
    ensures Step(db, s).p2p == db.p2p
  {
    hide All, Purge, Placed, PlacedAt, AnyStarts, AnyAgain, Lookup, Restart, LeaveAllFsm;
  }

  // ---------------------------------------------------------------- declared, registered and leaving sets

  /** The keys a station declares, replayed from its own clients' requests alone. */
  function DeclaredAfter(d: set<Key>, input: Input): set<Key> {
    match input
    case On(e, k) => if e == New || e == Join then d + {k} else if e == Lv then d - {k} else d
    case _ => d
  }

  /** The keys a station has registered; a received LeaveAll concerns one kind. */
  function RegisteredAfter(r: set<Key>, input: Input): set<Key> {
    match input
    case On(e, k) =>
      if e in {RNew, RJoinIn, RJoinMt, Join} then r + {k}
      else if e in {RLv, Lv, New} then r - {k}
      else r
    case LeaveAllTimer => {}
    case RecvLeaveAll(kind) => set k | k in r && kind != Some(KindOf(k))
    case _ => r
  }

  /** The keys in their leave period, given what is registered. */
  function LeavingAfter(r: set<Key>, l: set<Key>, input: Input): set<Key> {
    match input
    case On(e, k) =>
      if e in {RLv, Lv} then (if k in r then l + {k} else l)
      else if e in {RNew, RJoinIn, RJoinMt, Join, New} then l - {k}
      else l
    case LeaveAllTimer => l + r
    case RecvLeaveAll(kind) => l + set k | k in r && kind == Some(KindOf(k))
    case LeaveTimer => {}
    case _ => l
  }

  function DeclaredReplay(d: set<Key>, run: seq<Stamped>): set<Key>
    decreases |run|
  {
    if run == [] then d else DeclaredReplay(DeclaredAfter(d, run[0].input), run[1..])
  }

  function RegisteredReplay(r: set<Key>, run: seq<Stamped>): set<Key>
    decreases |run|
  {
    if run == [] then r else RegisteredReplay(RegisteredAfter(r, run[0].input), run[1..])
  }

  function LeavingReplay(r: set<Key>, l: set<Key>, run: seq<Stamped>): set<Key>
    decreases |run|
  {
    if run == [] then l
    else LeavingReplay(RegisteredAfter(r, run[0].input), LeavingAfter(r, l, run[0].input), run[1..])
  }

  /** The part of a set that concerns `k`. */
  function Only(k: Key, member: bool): set<Key> {
    if member then {k} else {}
  }

  lemma KeyStepDeclared(o: Option<Attribute>, k: Key, input: Input, p2p: bool)
    requires o.Some? ==> o.value.key == k
    ensures KeyDeclared(KeyStep(o, k, input, p2p)) <==> k in DeclaredAfter(Only(k, KeyDeclared(o)), input)
  {
    hide RegNext, AppNext, Declares;
    var x := if o.Some? then o.value else Fresh(k);
    var e := match input
      case LeaveAllTimer => TxLA
      case RecvLeaveAll(_) => RLA
      case Transmit => Tx
      case LeaveTimer => LvTimer
      case PeriodicTimer => Periodic
      case On(e, _) => e
      case Collect => Flush;
    Applicant.DeclaresAfter(x.app, e, x.reg == IN, p2p);
    ObserversDeclareNothing();
  }

  lemma ObserversDeclareNothing()
    ensures !Declares(VO) && !Declares(AO) && !Declares(QO)
  {
  }

  lemma KeyStepRegistered(o: Option<Attribute>, k: Key, input: Input, p2p: bool)
    requires o.Some? ==> o.value.key == k
    ensures KeyRegistered(KeyStep(o, k, input, p2p)) <==> k in RegisteredAfter(Only(k, KeyRegistered(o)), input)
    ensures KeyLeaving(KeyStep(o, k, input, p2p)) <==>
            k in LeavingAfter(Only(k, KeyRegistered(o)), Only(k, KeyLeaving(o)), input)
  {
    hide AppNext;
  }

  /** Membership of one key after an input depends on membership of that key before it. */
  lemma AfterIsPointwise(d: set<Key>, l: set<Key>, k: Key, input: Input)
    ensures k in DeclaredAfter(d, input) <==> k in DeclaredAfter(Only(k, k in d), input)
    ensures k in RegisteredAfter(d, input) <==> k in RegisteredAfter(Only(k, k in d), input)
    ensures k in LeavingAfter(d, l, input) <==> k in LeavingAfter(Only(k, k in d), Only(k, k in l), input)
  {
  }

  lemma StepSetsAt(db: Db, s: Stamped, k: Key)
    requires Valid(db) && Valid(Step(db, s))
    ensures var es, es' := db.entries, Step(db, s).entries;
            && (k in Declared(es') <==> k in DeclaredAfter(Declared(es), s.input))
            && (k in Registered(es') <==> k in RegisteredAfter(Registered(es), s.input))
            && (k in Leaving(es') <==> k in LeavingAfter(Registered(es), Leaving(es), s.input))
  {
    hide Step, KeyStep, Declared, Registered, Leaving, DeclaredAfter, RegisteredAfter, LeavingAfter, KeyDeclared,
      KeyRegistered, KeyLeaving, Distinct;
    var es, es', o := db.entries, Step(db, s).entries, Get(db.entries, k);
    AscendingIsDistinct(es);
    AscendingIsDistinct(es');
    InSets(es, k);
    InSets(es', k);
    GetStep(db, s, k);
    KeyStepDeclared(o, k, s.input, db.p2p);
    KeyStepRegistered(o, k, s.input, db.p2p);
    AfterIsPointwise(Declared(es), {}, k, s.input);
    AfterIsPointwise(Registered(es), Leaving(es), k, s.input);
  }

  lemma StepSets(db: Db, s: Stamped)
    requires Valid(db)
    ensures var es, es' := db.entries, Step(db, s).entries;
            && Declared(es') == DeclaredAfter(Declared(es), s.input)
            && Registered(es') == RegisteredAfter(Registered(es), s.input)
            && Leaving(es') == LeavingAfter(Registered(es), Leaving(es), s.input)
  {
    hide Step, Valid, Declared, Registered, Leaving, DeclaredAfter, RegisteredAfter, LeavingAfter;
    StepValid(db, s);
    forall k { StepSetsAt(db, s, k); }
  }

  /** Over every run the declared keys are exactly what replaying local New, Join and Lv gives. */
  lemma {:induction false} DeclaredRefines(db: Db, run: seq<Stamped>)
    requires Valid(db)
    ensures Declared(Run(db, run).entries) == DeclaredReplay(Declared(db.entries), run)
    decreases |run|
  {
    hide Step, Valid, Declared, DeclaredAfter;
    if run != [] {
      StepSets(db, run[0]);
      StepValid(db, run[0]);
      DeclaredRefines(Step(db, run[0]), run[1..]);
    }
  }

  /** Over every run the registered keys are exactly what replaying the registering, leaving and LeaveAll inputs
      gives; transmissions, timers, rIn, rMt and reclaims change nothing. */
  lemma {:induction false} RegisteredRefines(db: Db, run: seq<Stamped>)
    requires Valid(db)
    ensures Registered(Run(db, run).entries) == RegisteredReplay(Registered(db.entries), run)
    decreases |run|
  {
    hide Step, Valid, Registered, RegisteredAfter;
    if run != [] {
      StepSets(db, run[0]);
      StepValid(db, run[0]);
      RegisteredRefines(Step(db, run[0]), run[1..]);
    }
  }

  /** Over every run the keys in their leave period are exactly what the replay gives. */
  lemma {:induction false} LeavingRefines(db: Db, run: seq<Stamped>)
    requires Valid(db)
    ensures Leaving(Run(db, run).entries) == LeavingReplay(Registered(db.entries), Leaving(db.entries), run)
    decreases |run|
  {
    hide Step, Valid, Registered, Leaving, RegisteredAfter, LeavingAfter;
    if run != [] {
      StepSets(db, run[0]);
      StepValid(db, run[0]);
      LeavingRefines(Step(db, run[0]), run[1..]);
    }
  }

  // ---------------------------------------------------------------- the join timer and LeaveAll

  /** An applicant with something to send has a transmit opportunity coming. */
  ghost predicate Awake(db: Db) {
    SomePending(db.entries) ==> db.t.join
  }

  /** The join timer runs after an input exactly in these cases. */
  lemma JoinTimerExact(db: Db, s: Stamped)
    ensures var db' := Step(db, s);
            db'.t.join <==>
              match s.input
              case LeaveAllTimer => false
              case RecvLeaveAll(_) => true
              case Transmit => SomePending(db'.entries)
              case LeaveTimer => db.t.join
              case PeriodicTimer => db.t.join || db.entries != []
              case On(e, _) => db.t.join || IsAttributeEvent(e)
              case Collect => db.t.join
  {
    hide SomePending, All, AnyStarts, AnyAgain, Purge, Placed, PlacedAt, Lookup;
    RearmedIff(db.entries, db.p2p, AnyKind);
  }

  /** Every input but leavealltimer! keeps every pending applicant covered by the join timer. */
  lemma NoLostWakeup(db: Db, s: Stamped)
    requires !s.input.LeaveAllTimer? && Awake(db)
    ensures Awake(Step(db, s))
  {
    hide All, AnyStarts, AnyAgain, Purge, Placed, PlacedAt, Lookup;
    JoinTimerExact(db, s);
    match s.input
    case LeaveTimer =>
      var es := All(db.entries, LvTimer, db.p2p, AnyKind);
      ExpiryKeepsApplicants(db.entries, db.p2p, AnyKind);
      StillPending(db.entries, es, es);
    case Collect =>
      PurgeExact(db.entries);
      StillPending(db.entries, db.entries, Purge(db.entries));
    case _ =>
  }

  /** leavealltimer! keeps the guarantee exactly if its frame re-announces every attribute completely. */
  lemma LeaveAllKeepsAwakeIff(db: Db, now: nat)
    ensures Awake(LeaveAllStep(db, now)) <==>
            forall i :: 0 <= i < |db.entries| ==> db.entries[i].app in {AN, QP, AP, AA, QA}
  {
    LeaveAllPending(db.entries, db.p2p, AnyKind);
  }

  /** A station that has just been asked to join a group forgets to finish announcing it. */
  lemma LeaveAllCanLoseWakeup(k: Key, p2p: bool, now: nat)
    ensures var db := Step(Db([], INITIAL_TIMERS, p2p), Stamped(now, On(Join, k)));
            Awake(db) && !Awake(Step(db, Stamped(now, LeaveAllTimer)))
  {
    var start := Db([], INITIAL_TIMERS, p2p);
    var db := Step(start, Stamped(now, On(Join, k)));
    assert Placed(start.entries, k) == [Fresh(k)];
    assert db.entries == [Entry(k, VP, IN)];
    LeaveAllKeepsAwakeIff(db, now);
    assert db.entries[0].app == VP;
  }

  /** Between events the LeaveAll machine is passive, its mark clear and its timer running. */
  lemma {:induction false} LeaveAllAlwaysQuiet(db: Db, run: seq<Stamped>)
    requires LeaveAllQuiet(db.t)
    ensures LeaveAllQuiet(Run(db, run).t)
    decreases |run|
  {
    hide Step;
    if run != [] {
      StepQuiet(db, run[0]);
      LeaveAllAlwaysQuiet(Step(db, run[0]), run[1..]);
    }
  }

  lemma StepQuiet(db: Db, s: Stamped)
    requires LeaveAllQuiet(db.t)
    ensures LeaveAllQuiet(Step(db, s).t)
  {
    hide All, Purge, Placed, PlacedAt, AnyStarts, AnyAgain, Lookup;
  }

  // ---------------------------------------------------------------- the shared leave timer

  function ViewOf(db: Db): View<Key> {
    View(Leaving(db.entries), db.t.lv, db.t.lvExpiry)
  }

  /** An attribute that is registered is not leaving. */
  lemma SetsDisjoint(db: Db)
    requires Valid(db)
    ensures Registered(db.entries) !! Leaving(db.entries)
  {
    hide Registered, Leaving;
    AscendingIsDistinct(db.entries);
    forall k | k in Registered(db.entries) ensures k !in Leaving(db.entries) {
      InSets(db.entries, k);
    }
  }

  /** Does the input begin a leave period? */
  predicate Rearms(r: set<Key>, input: Input) {
    match input
    case On(e, k) => e in {RLv, Lv} && k in r
    case LeaveAllTimer => r != {}
    case RecvLeaveAll(kind) => exists k :: k in r && kind == Some(KindOf(k))
    case _ => false
  }

  lemma OnRearms(db: Db, e: Event, k: Key, now: nat)
    requires Valid(db) && IsAttributeEvent(e)
    ensures var t, t' := db.t, OnStep(db, e, k, now).t;
            if Rearms(Registered(db.entries), On(e, k)) then t'.lv && t'.lvExpiry == now + 1000
            else t'.lv == t.lv && t'.lvExpiry == t.lvExpiry
  {
    hide Registered, Placed, PlacedAt, AppNext;
    AscendingIsDistinct(db.entries);
    InSets(db.entries, k);
    GetPlaced(db.entries, k, k);
  }

  lemma KindStarts(es: seq<Attribute>, kind: Kind)
    ensures AnyStarts(es, RLA, OfKind(kind)) <==> exists k :: k in Registered(es) && Some(kind) == Some(KindOf(k))
  {
    hide AnyStarts, Registered;
    StartsIff(es, RLA, OfKind(kind));
    assert forall k :: OfKind(kind)(k) <==> kind == KindOf(k);
  }

  lemma StepRearms(db: Db, s: Stamped)
    requires Valid(db)
    ensures var t, t' := db.t, Step(db, s).t;
            if s.input.LeaveTimer? then !t'.lv
            else if Rearms(Registered(db.entries), s.input) then t'.lv && t'.lvExpiry == s.at + 1000
            else t'.lv == t.lv && t'.lvExpiry == t.lvExpiry
  {
    hide Registered, AnyStarts, OnStep, All, Purge, AnyAgain, Valid;
    match s.input
    case LeaveAllTimer => AllStartIff(db.entries, TxLA, AnyKind);
    case RecvLeaveAll(kind) => if kind.Some? { KindStarts(db.entries, kind.value); }
    case On(e, k) => if IsAttributeEvent(e) { OnRearms(db, e, k, s.at); }
    case _ =>
  }

  /** The input that starts a leave period re-arms the timer for 1000 ms; nothing else but leavetimer! touches it. */
  lemma StepView(db: Db, s: Stamped)
    requires Valid(db)
    ensures ViewStep(ViewOf(db), ViewOf(Step(db, s)), s.at, s.input.LeaveTimer?)
  {
    hide Step, Valid, Registered, Leaving;
    StepSets(db, s);
    StepRearms(db, s);
    SetsDisjoint(db);
  }

  /** The states a run goes through, the first one included. */
  function States(db: Db, run: seq<Stamped>): (r: seq<Db>)
    ensures |r| == |run| + 1 && r[0] == db
    decreases |run|
  {
    if run == [] then [db] else [db] + States(Step(db, run[0]), run[1..])
  }

  lemma {:induction false} StatesStep(db: Db, run: seq<Stamped>, i: nat)
    requires i < |run|
    ensures States(db, run)[i + 1] == Step(States(db, run)[i], run[i])
    decreases |run|
  {
    hide Step;
    if i > 0 {
      StatesStep(Step(db, run[0]), run[1..], i - 1);
    }
  }

  lemma {:induction false} StatesValid(db: Db, run: seq<Stamped>, i: nat)
    requires Valid(db) && i <= |run|
    ensures Valid(States(db, run)[i])
    decreases |run|
  {
    hide Step, Valid;
    if i > 0 {
      StepValid(db, run[0]);
      StatesValid(Step(db, run[0]), run[1..], i - 1);
    }
  }

  lemma {:induction false} StatesEnd(db: Db, run: seq<Stamped>)
    ensures States(db, run)[|run|] == Run(db, run)
    decreases |run|
  {
    hide Step;
    if run != [] {
      StatesEnd(Step(db, run[0]), run[1..]);
    }
  }

  /** Time does not run backwards, and leavetimer! is raised only once the running timer has expired. */
  ghost predicate TimersKeepTime(db: Db, run: seq<Stamped>) {
    && (forall i, j :: 0 <= i < j < |run| ==> run[i].at <= run[j].at)
    && (forall i :: 0 <= i < |run| && run[i].input.LeaveTimer? ==>
          States(db, run)[i].t.lv && States(db, run)[i].t.lvExpiry <= run[i].at)
  }

  function Views(dbs: seq<Db>): (vs: seq<View<Key>>)
    ensures |vs| == |dbs| && forall i :: 0 <= i < |dbs| ==> vs[i] == ViewOf(dbs[i])
  {
    seq(|dbs|, i requires 0 <= i < |dbs| => ViewOf(dbs[i]))
  }

  function TimeOf(s: Stamped): nat { s.at }

  function Fires(s: Stamped): bool { s.input.LeaveTimer? }

  lemma RunIsTimed(db: Db, run: seq<Stamped>)
    requires Valid(db) && TimersKeepTime(db, run)
    ensures TimedRun(Views(States(db, run)), Mapped(run, TimeOf), Mapped(run, Fires))
  {
    hide Step, ViewOf, ViewStep, States;
    var vs := Views(States(db, run));
    forall i | 0 <= i < |run| ensures ViewStep(vs[i], vs[i + 1], run[i].at, run[i].input.LeaveTimer?) {
      StatesStep(db, run, i);
      StatesValid(db, run, i);
      StepView(States(db, run)[i], run[i]);
    }
    forall i | 0 <= i < |run| && run[i].input.LeaveTimer? ensures vs[i].running && vs[i].expiry <= run[i].at {
      ViewTimer(States(db, run)[i]);
    }
  }

  lemma ViewTimer(db: Db)
    ensures ViewOf(db).running == db.t.lv && ViewOf(db).expiry == db.t.lvExpiry
    ensures ViewOf(db).leaving == Leaving(db.entries)
  {
  }

  /** In every timed run the leave timer is running whenever some attribute is in LV. */
  lemma LeaveTimerRuns(db: Db, run: seq<Stamped>, m: nat)
    requires Valid(db) && (Leaving(db.entries) == {} || db.t.lv) && TimersKeepTime(db, run) && m <= |run|
    ensures Leaving(States(db, run)[m].entries) == {} || States(db, run)[m].t.lv
  {
    RunIsTimed(db, run);
    AlwaysCovered(Views(States(db, run)), Mapped(run, TimeOf), Mapped(run, Fires), m);
  }

  /** An attribute that enters LV at input `i` and is still there when leavetimer! comes at input `j` has
      had its full leave period. */
  lemma LeaveTimerNeverEarly(db: Db, run: seq<Stamped>, k: Key, i: nat, j: nat)
    requires Valid(db) && TimersKeepTime(db, run) && i < j < |run| && run[j].input.LeaveTimer?
    requires k !in Leaving(States(db, run)[i].entries)
    requires forall n :: i < n <= j ==> k in Leaving(States(db, run)[n].entries)
    ensures run[i].at + 1000 <= run[j].at
  {
    hide States, Step;
    RunIsTimed(db, run);
    var vs := Views(States(db, run));
    assert forall n :: i < n <= j ==> k in vs[n].leaving;
    NeverEarly(vs, Mapped(run, TimeOf), Mapped(run, Fires), k, i, j);
  }
}
