/** Whole-run properties of the MVRP participant. */
module MvrpProperties {
  import opened Mrp
  import opened Participant
  import opened Mvrp
  import opened KeySets
  import opened Lives
  import opened LeaveTimer
  import Applicant

  ghost predicate ValidRun(run: seq<Stamped>) {
    forall i :: 0 <= i < |run| ==> ValidInput(run[i].input)
  }

  lemma {:induction false} RunValid(db: Db, run: seq<Stamped>)
    requires Valid(db) && ValidRun(run)
    ensures Valid(Run(db, run))
    decreases |run|
  {
    if run != [] {
      StepValid(db, run[0]);
      RunValid(Step(db, run[0]), run[1..]);
    }
  }

  // ---------------------------------------------------------------- the life of a VID

  function LifeAfter(life: Life, v: int, input: Input, p2p: bool): Life {
    match input
    case LeaveAllTimer => Swept(life, TxLA, p2p)
    case RecvLeaveAll => Swept(life, RLA, p2p)
    case Transmit => Swept(life, Tx, p2p)
    case LeaveTimer => Reclaimed(Swept(life, LvTimer, p2p))
    case PeriodicTimer => Swept(life, Periodic, p2p)
    case On(e, u) => if u == v && IsAttributeEvent(e) then Reclaimed(Touched(life, e, p2p)) else life
    case Collect => Reclaimed(life)
  }

  function LifeReplay(life: Life, v: int, run: seq<Stamped>, p2p: bool): Life
    decreases |run|
  {
    if run == [] then life else LifeReplay(LifeAfter(life, v, run[0].input, p2p), v, run[1..], p2p)
  }

  lemma StepLife(db: Db, s: Stamped, v: int)
    requires Valid(db)
    ensures LifeOf(Get(Step(db, s).entries, v)) == LifeAfter(LifeOf(Get(db.entries, v)), v, s.input, db.p2p)
  {
    hide Step, Touched, Swept, KeyAll, KeyPurge, One, Applicant.NameOf;
    var o, p2p := Get(db.entries, v), db.p2p;
    GetStep(db, s, v);
    match s.input
    case LeaveAllTimer => SweepMoves(o, TxLA, p2p, EveryVid);
    case RecvLeaveAll => SweepMoves(o, RLA, p2p, EveryVid);
    case Transmit => SweepMoves(o, Tx, p2p, EveryVid);
    case LeaveTimer =>
      SweepMoves(o, LvTimer, p2p, EveryVid);
      PurgeMoves(KeyAll(o, LvTimer, p2p, EveryVid));
    case PeriodicTimer => SweepMoves(o, Periodic, p2p, EveryVid);
    case On(e, u) =>
      if u == v && IsAttributeEvent(e) {
        TouchMoves(o, v, e, p2p);
        PurgeMoves(Some(One(if o.Some? then o.value else Fresh(v), e, p2p)));
      }
    case Collect => PurgeMoves(o);
  }

  /** Over every run each VID lives a life of its own, that the rules of the two machines tell from the inputs that
      concern it; the other VIDs have no influence on it. */
  lemma {:induction false} LivesRefine(db: Db, run: seq<Stamped>, v: int)
    requires Valid(db) && ValidRun(run)
    ensures LifeOf(Get(Run(db, run).entries, v)) == LifeReplay(LifeOf(Get(db.entries, v)), v, run, db.p2p)
    decreases |run|
  {
    hide LifeAfter, LifeOf, Step, Valid;
    if run != [] {
      StepLife(db, run[0], v);
      StepValid(db, run[0]);
      StepKeepsP2p(db, run[0]);
      LivesRefine(Step(db, run[0]), run[1..], v);
    }
  }

  lemma StepKeepsP2p(db: Db, s: Stamped)
    ensures Step(db, s).p2p == db.p2p
  {
    hide All, Purge, Placed, PlacedAt, Settle, AnyStarts, AnyAgain, Lookup, Restart, LeaveAllFsm;
  }

  // ---------------------------------------------------------------- declared and registered sets

  /** The set a station declares, replayed from its own clients' requests alone. */
  function DeclaredAfter(d: set<int>, input: Input): set<int> {
    match input
    case On(e, v) => if e == New || e == Join then d + {v} else if e == Lv then d - {v} else d
    case _ => d
  }

  /** The set a station has registered, replayed from the messages and requests alone. */
  function RegisteredAfter(r: set<int>, input: Input): set<int> {
    match input
    case On(e, v) =>
      if e in {RNew, RJoinIn, RJoinMt, Join} then r + {v}
      else if e in {RLv, Lv, New} then r - {v}
      else r
    case LeaveAllTimer => {}
    case RecvLeaveAll => {}
    case _ => r
  }

  /** The VIDs in their leave period, replayed the same way, given what is registered: a leave or a LeaveAll puts what
      was registered there, a new registration or a New takes it out, and leavetimer! ends the period for all. */
  function LeavingAfter(r: set<int>, l: set<int>, input: Input): set<int> {
    match input
    case On(e, v) =>
      if e in {RLv, Lv} then (if v in r then l + {v} else l)
      else if e in {RNew, RJoinIn, RJoinMt, Join, New} then l - {v}
      else l
    case LeaveAllTimer => l + r
    case RecvLeaveAll => l + r
    case LeaveTimer => {}
    case _ => l
  }

  function DeclaredReplay(d: set<int>, run: seq<Stamped>): set<int>
    decreases |run|
  {
    if run == [] then d else DeclaredReplay(DeclaredAfter(d, run[0].input), run[1..])
  }

  function RegisteredReplay(r: set<int>, run: seq<Stamped>): set<int>
    decreases |run|
  {
    if run == [] then r else RegisteredReplay(RegisteredAfter(r, run[0].input), run[1..])
  }

  function LeavingReplay(r: set<int>, l: set<int>, run: seq<Stamped>): set<int>
    decreases |run|
  {
    if run == [] then l
    else LeavingReplay(RegisteredAfter(r, run[0].input), LeavingAfter(r, l, run[0].input), run[1..])
  }

  /** The part of `d` that concerns `v`. */
  function Only(v: int, member: bool): set<int> {
    if member then {v} else {}
  }

  lemma KeyStepDeclared(o: Option<Vlan>, v: int, input: Input, p2p: bool)
    requires o.Some? ==> o.value.key == v
    ensures KeyDeclared(KeyStep(o, v, input, p2p)) <==>
            v in DeclaredAfter(Only(v, KeyDeclared(o)), input)
  {
    hide RegNext, AppNext, Declares;
    ReclaimableUndeclared();
    var x := if o.Some? then o.value else Fresh(v);
    var e := match input
      case LeaveAllTimer => TxLA
      case RecvLeaveAll => RLA
      case Transmit => Tx
      case LeaveTimer => LvTimer
      case PeriodicTimer => Periodic
      case On(e, _) => e
      case Collect => Flush;
    Applicant.DeclaresAfter(x.app, e, x.reg == IN, p2p);
  }

  /** What is reclaimed is not declared, nor is what is fresh. */
  lemma ReclaimableUndeclared()
    ensures !Declares(VO) && !Declares(AO) && !Declares(QO)
  {
  }

  lemma KeyStepRegistered(o: Option<Vlan>, v: int, input: Input, p2p: bool)
    requires o.Some? ==> o.value.key == v
    ensures KeyRegistered(KeyStep(o, v, input, p2p)) <==> v in RegisteredAfter(Only(v, KeyRegistered(o)), input)
    ensures KeyLeaving(KeyStep(o, v, input, p2p)) <==>
            v in LeavingAfter(Only(v, KeyRegistered(o)), Only(v, KeyLeaving(o)), input)
  {
    hide AppNext;
  }

  /** Membership of one VID after an input depends on membership of that VID before it. */
  lemma AfterIsPointwise(d: set<int>, l: set<int>, v: int, input: Input)
    ensures v in DeclaredAfter(d, input) <==> v in DeclaredAfter(Only(v, v in d), input)
    ensures v in RegisteredAfter(d, input) <==> v in RegisteredAfter(Only(v, v in d), input)
    ensures v in LeavingAfter(d, l, input) <==> v in LeavingAfter(Only(v, v in d), Only(v, v in l), input)
  {
  }

  lemma StepSetsAt(db: Db, s: Stamped, v: int)
    requires Valid(db) && Valid(Step(db, s))
    ensures var es, es' := db.entries, Step(db, s).entries;
            && (v in Declared(es') <==> v in DeclaredAfter(Declared(es), s.input))
            && (v in Registered(es') <==> v in RegisteredAfter(Registered(es), s.input))
            && (v in Leaving(es') <==> v in LeavingAfter(Registered(es), Leaving(es), s.input))
  {
    hide Step, KeyStep, Declared, Registered, Leaving, DeclaredAfter, RegisteredAfter, LeavingAfter, KeyDeclared,
      KeyRegistered, KeyLeaving, Distinct;
    var es, es', o := db.entries, Step(db, s).entries, Get(db.entries, v);
    AscendingIsDistinct(es);
    AscendingIsDistinct(es');
    InSets(es, v);
    InSets(es', v);
    GetStep(db, s, v);
    KeyStepDeclared(o, v, s.input, db.p2p);
    KeyStepRegistered(o, v, s.input, db.p2p);
    AfterIsPointwise(Declared(es), {}, v, s.input);
    AfterIsPointwise(Registered(es), Leaving(es), v, s.input);
  }

  lemma StepSets(db: Db, s: Stamped)
    requires Valid(db) && ValidInput(s.input)
    ensures var es, es' := db.entries, Step(db, s).entries;
            && Declared(es') == DeclaredAfter(Declared(es), s.input)
            && Registered(es') == RegisteredAfter(Registered(es), s.input)
            && Leaving(es') == LeavingAfter(Registered(es), Leaving(es), s.input)
  {
    hide Step, Valid, Declared, Registered, Leaving, DeclaredAfter, RegisteredAfter, LeavingAfter;
    StepValid(db, s);
    forall v { StepSetsAt(db, s, v); }
  }

  /** Over every run the declared VIDs are exactly what replaying local New, Join and Lv gives. */
  lemma {:induction false} DeclaredRefines(db: Db, run: seq<Stamped>)
    requires Valid(db) && ValidRun(run)
    ensures Declared(Run(db, run).entries) == DeclaredReplay(Declared(db.entries), run)
    decreases |run|
  {
    if run != [] {
      StepSets(db, run[0]);
      StepValid(db, run[0]);
      DeclaredRefines(Step(db, run[0]), run[1..]);
    }
  }

  /** Over every run the registered VIDs are exactly what replaying the registering, leaving and
      LeaveAll inputs gives; transmissions, timers, rIn, rMt and reclaims change nothing. */
  lemma {:induction false} RegisteredRefines(db: Db, run: seq<Stamped>)
    requires Valid(db) && ValidRun(run)
    ensures Registered(Run(db, run).entries) == RegisteredReplay(Registered(db.entries), run)
    decreases |run|
  {
    if run != [] {
      StepSets(db, run[0]);
      StepValid(db, run[0]);
      RegisteredRefines(Step(db, run[0]), run[1..]);
    }
  }

  /** Over every run the VIDs in their leave period are exactly what the replay gives: nothing but a leave or a
      LeaveAll starts the period of a registered VID, and nothing but a registration, a New or leavetimer! ends it. */
  lemma {:induction false} LeavingRefines(db: Db, run: seq<Stamped>)
    requires Valid(db) && ValidRun(run)
    ensures Leaving(Run(db, run).entries) == LeavingReplay(Registered(db.entries), Leaving(db.entries), run)
    decreases |run|
  {
    hide Step, Valid, Registered, Leaving, RegisteredAfter, LeavingAfter;
    if run != [] {
      StepSets(db, run[0]);
      StepValid(db, run[0]);
      LeavingRefines(Step(db, run[0]), run[1..]);
    }
  }

  // ---------------------------------------------------------------- the shared leave timer

  function ViewOf(db: Db): View<int> {
    View(Leaving(db.entries), db.t.lv, db.t.lvExpiry)
  }

  /** An attribute that is registered is not leaving. */
  lemma SetsDisjoint(db: Db)
    requires Valid(db)
    ensures Registered(db.entries) !! Leaving(db.entries)
  {
    hide Registered, Leaving;
    AscendingIsDistinct(db.entries);
    forall v | v in Registered(db.entries) ensures v !in Leaving(db.entries) {
      InSets(db.entries, v);
    }
  }

  /** What the input asks the leave timer to do, in terms of the sets. */
  predicate Rearms(r: set<int>, input: Input) {
    match input
    case On(e, v) => e in {RLv, Lv} && v in r
    case LeaveAllTimer => r != {}
    case RecvLeaveAll => r != {}
    case _ => false
  }

  lemma OnRearms(db: Db, e: Event, v: int, now: nat)
    requires Valid(db) && IsAttributeEvent(e)
    ensures var t, t' := db.t, OnStep(db, e, v, now).t;
            if Rearms(Registered(db.entries), On(e, v)) then t'.lv && t'.lvExpiry == now + 1000
            else t'.lv == t.lv && t'.lvExpiry == t.lvExpiry
  {
    hide Registered, Settle, Placed, PlacedAt, AppNext;
    AscendingIsDistinct(db.entries);
    InSets(db.entries, v);
    GetPlaced(db.entries, v, v);
  }

  lemma StepRearms(db: Db, s: Stamped)
    requires Valid(db)
    ensures var t, t' := db.t, Step(db, s).t;
            if s.input.LeaveTimer? then !t'.lv
            else if Rearms(Registered(db.entries), s.input) then t'.lv && t'.lvExpiry == s.at + 1000
            else t'.lv == t.lv && t'.lvExpiry == t.lvExpiry
  {
    hide Registered, AnyStarts, OnStep, All, Purge, AnyAgain, Valid;
    match s.input
    case LeaveAllTimer => AllStartIff(db.entries, TxLA, EveryVid);
    case RecvLeaveAll => AllStartIff(db.entries, RLA, EveryVid);
    case On(e, v) => if IsAttributeEvent(e) { OnRearms(db, e, v, s.at); }
    case _ =>
  }

  /** The input that starts a leave period re-arms the timer for 1000 ms; nothing else but leavetimer! touches it. */
  lemma StepView(db: Db, s: Stamped)
    requires Valid(db) && ValidInput(s.input)
    ensures ViewStep(ViewOf(db), ViewOf(Step(db, s)), s.at, s.input.LeaveTimer?)
  {
    hide Step, Valid, Registered, Leaving;
    StepSets(db, s);
    StepRearms(db, s);
    SetsDisjoint(db);
  }

  /** The state after the first `i` inputs. */
  function After(db: Db, run: seq<Stamped>, i: nat): Db
    requires i <= |run|
  {
    Run(db, run[..i])
  }

  lemma AfterStep(db: Db, run: seq<Stamped>, i: nat)
    requires i < |run|
    ensures After(db, run, i + 1) == Step(After(db, run, i), run[i])
  {
    assert run[..i + 1] == run[..i] + [run[i]];
    RunSplit(db, run[..i], [run[i]]);
    assert Run(After(db, run, i), [run[i]]) == Run(Step(After(db, run, i), run[i]), []);
  }

  /** Time does not run backwards, and `leavetimer!` is raised only once the running timer has expired. */
  ghost predicate TimersKeepTime(db: Db, run: seq<Stamped>) {
    && (forall i, j :: 0 <= i < j < |run| ==> run[i].at <= run[j].at)
    && (forall i :: 0 <= i < |run| && run[i].input.LeaveTimer? ==>
          After(db, run, i).t.lv && After(db, run, i).t.lvExpiry <= run[i].at)
  }

  function Views(db: Db, run: seq<Stamped>): (vs: seq<View<int>>)
    ensures |vs| == |run| + 1
    ensures forall i :: 0 <= i <= |run| ==> vs[i] == ViewOf(After(db, run, i))
  {
    seq(|run| + 1, i requires 0 <= i <= |run| => ViewOf(After(db, run, i)))
  }

  function TimeOf(s: Stamped): nat { s.at }

  function Fires(s: Stamped): bool { s.input.LeaveTimer? }

  lemma RunIsTimed(db: Db, run: seq<Stamped>)
    requires Valid(db) && ValidRun(run) && TimersKeepTime(db, run)
    ensures TimedRun(Views(db, run), Mapped(run, TimeOf), Mapped(run, Fires))
  {
    var vs := Views(db, run);
    forall i | 0 <= i < |run| ensures ViewStep(vs[i], vs[i + 1], run[i].at, run[i].input.LeaveTimer?) {
      AfterStep(db, run, i);
      RunValid(db, run[..i]);
      StepView(After(db, run, i), run[i]);
    }
  }

  /** In every timed run the leave timer is running whenever some VID is in LV, and a VID that enters
      LV at input `i` and is still there when `leavetimer!` moves it on has had its full leave period. */
  lemma LeaveTimerSound(db: Db, run: seq<Stamped>)
    requires Valid(db) && ValidRun(run) && (Leaving(db.entries) == {} || db.t.lv)
    requires TimersKeepTime(db, run)
    ensures forall m :: 0 <= m <= |run| ==> Leaving(After(db, run, m).entries) == {} || After(db, run, m).t.lv
    ensures forall v, i, j ::
      0 <= i < j < |run| && run[j].input.LeaveTimer?
      && v !in Leaving(After(db, run, i).entries)
      && (forall n :: i < n <= j ==> v in Leaving(After(db, run, n).entries))
      ==> run[i].at + 1000 <= run[j].at
  {
    RunIsTimed(db, run);
    var vs, at, fired := Views(db, run), Mapped(run, TimeOf), Mapped(run, Fires);
    assert run[..0] == [];
    forall m | 0 <= m <= |run| ensures Leaving(After(db, run, m).entries) == {} || After(db, run, m).t.lv {
      AlwaysCovered(vs, at, fired, m);
    }
    forall v, i, j | 0 <= i < j < |run| && run[j].input.LeaveTimer?
      && v !in Leaving(After(db, run, i).entries)
      && (forall n :: i < n <= j ==> v in Leaving(After(db, run, n).entries))
      ensures run[i].at + 1000 <= run[j].at
    {
      assert forall n :: i < n <= j ==> v in vs[n].leaving;
      NeverEarly(vs, at, fired, v, i, j);
    }
  }
}
