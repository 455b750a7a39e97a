/** When the MVRP participant transmits, when it falls silent, and what it never forgets to send. */
module MvrpTransmission {
  import opened Mrp
  import opened Participant
  import opened Mvrp
  import opened KeySets
  import opened Transmission
  import MvrpProperties
  import Applicant

  // ---------------------------------------------------------------- transmission quiesces

  /** tx! re-arms the join timer if and only if some applicant still has something to send. */
  lemma RearmedIffPending(db: Db)
    ensures TransmitStep(db).t.join <==> SomePending(TransmitStep(db).entries)
  {
    RearmedIff(db.entries, db.p2p, EveryVid);
  }

  ghost predicate RanksAtMost(es: seq<Vlan>, n: nat) {
    forall i :: 0 <= i < |es| ==> Rank(es[i].app) <= n
  }

  function Transmits(at: seq<nat>): seq<Stamped> {
    seq(|at|, i requires 0 <= i < |at| => Stamped(at[i], Transmit))
  }

  lemma {:induction false} RanksFall(db: Db, at: seq<nat>, n: nat)
    requires RanksAtMost(db.entries, n) && |at| <= n
    ensures RanksAtMost(Run(db, Transmits(at)).entries, n - |at|)
    decreases |at|
  {
    if at != [] {
      var db' := TransmitStep(db);
      forall i | 0 <= i < |db.entries| ensures Rank(db'.entries[i].app) <= n - 1 {
        TxLowersRank(db.entries[i], db.p2p);
      }
      RanksFall(db', at[1..], n - 1);
      assert Transmits(at)[1..] == Transmits(at[1..]);
    }
  }

  /** From any state, three transmit opportunities in a row with no other input leave every applicant
      silent and the join timer off. */
  lemma ThreeTransmitsQuiesce(db: Db, at: seq<nat>)
    requires |at| == 3
    ensures var db' := Run(db, Transmits(at));
            RanksAtMost(db'.entries, 0) && !db'.t.join
  {
    RanksFall(db, at, 3);
    var all := Transmits(at);
    var before := Run(db, all[..2]);
    MvrpProperties.AfterStep(db, all, 2);
    assert all[..3] == all;
    assert Run(db, all) == TransmitStep(before);
    RearmedIffPending(before);
  }

  // ---------------------------------------------------------------- no lost wakeup

  /** An applicant with something to send has a transmit opportunity coming. */
  ghost predicate Awake(db: Db) {
    SomePending(db.entries) ==> db.t.join
  }

  /** The join timer runs after an input exactly in these cases. */
  lemma JoinTimerExact(db: Db, s: Stamped)
    ensures var db' := Step(db, s);
            db'.t.join <==>
              match s.input
              case LeaveAllTimer => false
              case RecvLeaveAll => true
              case Transmit => SomePending(db'.entries)
              case LeaveTimer => db.t.join
              case PeriodicTimer => db.t.join || db.entries != []
              case On(e, _) => db.t.join || IsAttributeEvent(e)
              case Collect => db.t.join
  {
    hide SomePending, All, AnyStarts, AnyAgain, Purge, Placed, PlacedAt, Settle, Lookup;
    RearmedIffPending(db);
  }

  /** Every input but leavealltimer! keeps every pending applicant covered by the join timer. */
  lemma NoLostWakeup(db: Db, s: Stamped)
    requires !s.input.LeaveAllTimer? && Awake(db)
    ensures Awake(Step(db, s))
  {
    hide All, AnyStarts, AnyAgain, Purge, Placed, PlacedAt, Settle, Lookup;
    JoinTimerExact(db, s);
    match s.input
    case LeaveTimer =>
      var es := All(db.entries, LvTimer, db.p2p, EveryVid);
      PurgeExact(es);
      ExpiryKeepsApplicants(db.entries, db.p2p, EveryVid);
      StillPending(db.entries, es, Purge(es));
    case Collect =>
      PurgeExact(db.entries);
      StillPending(db.entries, db.entries, Purge(db.entries));
    case _ =>
  }

  /** periodic! restores the join timer from any state whatsoever. */
  lemma PeriodicWakes(db: Db)
    ensures Awake(PeriodicStep(db))
  {
  }

  /** leavealltimer! keeps the guarantee in exactly one situation: every attribute is one that the
      LeaveAll frame itself re-announces completely. */
  lemma LeaveAllKeepsAwakeIff(db: Db, now: nat)
    ensures Awake(LeaveAllStep(db, now)) <==>
            forall i :: 0 <= i < |db.entries| ==> db.entries[i].app in {AN, QP, AP, AA, QA}
  {
    LeaveAllPending(db.entries, db.p2p, EveryVid);
  }

  /** A station that has just been asked to join VID 2 forgets to finish announcing it. */
  lemma LeaveAllCanLoseWakeup()
    ensures var db := Step(Db([], INITIAL_TIMERS, true), Stamped(0, On(Join, 2)));
            Awake(db) && !Awake(Step(db, Stamped(0, LeaveAllTimer)))
  {
    var start := Db([], INITIAL_TIMERS, true);
    var db := Step(start, Stamped(0, On(Join, 2)));
    assert Placed(start.entries, 2) == [Fresh(2)];
    assert db.entries == [Entry(2, VP, IN)];
    LeaveAllKeepsAwakeIff(db, 0);
    assert db.entries[0].app == VP;
  }

  ghost predicate NoLeaveAll(run: seq<Stamped>) {
    forall i :: 0 <= i < |run| ==> !run[i].input.LeaveAllTimer?
  }

  lemma {:induction false} StaysAwake(db: Db, run: seq<Stamped>)
    requires Awake(db) && NoLeaveAll(run)
    ensures Awake(Run(db, run))
    decreases |run|
  {
    if run != [] {
      NoLostWakeup(db, run[0]);
      StaysAwake(Step(db, run[0]), run[1..]);
    }
  }

  /** So a lost wakeup lasts until the next periodic! and never reappears before the next leavealltimer!. */
  lemma AwakeSincePeriodic(db: Db, before: seq<Stamped>, at: nat, since: seq<Stamped>)
    requires NoLeaveAll(since)
    ensures Awake(Run(db, before + [Stamped(at, PeriodicTimer)] + since))
  {
    var mid := Run(db, before);
    RunSplit(db, before, [Stamped(at, PeriodicTimer)]);
    RunSplit(db, before + [Stamped(at, PeriodicTimer)], since);
    PeriodicWakes(mid);
    assert Run(mid, [Stamped(at, PeriodicTimer)]) == Run(PeriodicStep(mid), []);
    StaysAwake(PeriodicStep(mid), since);
  }

  // ---------------------------------------------------------------- reclaim

  /** After leavetimer! no attribute is leaving and none is left that nobody declares or registers. */
  lemma AfterLeaveTimer(db: Db, x: Vlan)
    ensures x in LeaveTimerStep(db).entries ==> x.reg != LV && !Reclaimable(x)
    ensures x in LeaveTimerStep(db).entries <==>
            exists y :: y in db.entries && x == Both(y, LvTimer, db.p2p) && !Reclaimable(x)
  {
    var es := All(db.entries, LvTimer, db.p2p, EveryVid);
    PurgeExact(es);
    if x in es {
      var i :| 0 <= i < |es| && es[i] == x;
      assert db.entries[i] in db.entries && EveryVid(db.entries[i].key);
    }
    forall y | y in db.entries && x == Both(y, LvTimer, db.p2p) ensures x in es {
      var i :| 0 <= i < |db.entries| && db.entries[i] == y;
      assert EveryVid(db.entries[i].key) && es[i] == x;
    }
  }

  /** Reclaiming never forgets a declaration or a registration. */
  lemma CollectKeepsSets(db: Db, now: nat)
    requires Valid(db)
    ensures var es := Step(db, Stamped(now, Collect)).entries;
            && Declared(es) == Declared(db.entries)
            && Registered(es) == Registered(db.entries)
  {
    MvrpProperties.StepSets(db, Stamped(now, Collect));
  }

  // ---------------------------------------------------------------- the LeaveAll machine

  /** Between events the LeaveAll machine is always at rest. */
  lemma {:induction false} LeaveAllAlwaysQuiet(db: Db, run: seq<Stamped>)
    requires LeaveAllQuiet(db.t)
    ensures LeaveAllQuiet(Run(db, run).t)
    decreases |run|
  {
    hide Step;
    if run != [] {
      StepQuiet(db, run[0]);
      LeaveAllAlwaysQuiet(Step(db, run[0]), run[1..]);
    }
  }

  lemma StepQuiet(db: Db, s: Stamped)
    requires LeaveAllQuiet(db.t)
    ensures LeaveAllQuiet(Step(db, s).t)
  {
    hide All, Purge, Placed, PlacedAt, Settle, AnyStarts, AnyAgain, Lookup;
  }

  /** That includes every state a station reaches after its initialization. */
  lemma QuietFromStart(p2p: bool, run: seq<Stamped>)
    ensures LeaveAllQuiet(Run(Db([], INITIAL_TIMERS, p2p), run).t)
  {
    LeaveAllAlwaysQuiet(Db([], INITIAL_TIMERS, p2p), run);
  }

  // ---------------------------------------------------------------- New is marked at least twice

  /** Does this input make VID `v` transmit NEW? */
  predicate MarksNew(db: Db, input: Input, v: int) {
    var o := Get(db.entries, v);
    o.Some? && SaysNew(o.value.app, input)
  }

  function NewsMarked(db: Db, run: seq<Stamped>, v: int): nat
    decreases |run|
  {
    if run == [] then 0
    else (if MarksNew(db, run[0].input, v) then 1 else 0) + NewsMarked(Step(db, run[0]), run[1..], v)
  }

  /** How many NEWs an attribute still owes the network. */
  function Owed(o: Option<Vlan>): nat {
    if o.Some? && o.value.app == VN then 2 else if o.Some? && o.value.app == AN then 1 else 0
  }

  /** Does this input make an applicant in state `s` transmit NEW? */
  predicate SaysNew(s: AppState, input: Input) {
    || (input.Transmit? && AppRequest(s, Tx).sndmsg == SndNew)
    || (input.LeaveAllTimer? && AppRequest(s, TxLA).sndmsg == SndNew)
  }

  /** What the input asks of the applicant of VID `v`, if anything. */
  function EventFor(input: Input, v: int): Event {
    match input
    case LeaveAllTimer => TxLA
    case RecvLeaveAll => RLA
    case Transmit => Tx
    case LeaveTimer => LvTimer
    case PeriodicTimer => Periodic
    case On(e, u) => if u == v && IsAttributeEvent(e) then e else LvTimer
    case Collect => LvTimer
  }

  lemma OwedStep(o: Option<Vlan>, v: int, input: Input, p2p: bool)
    requires o.Some? && o.value.key == v
    requires input != On(Lv, v)
    requires Owed(o) > 0
    ensures Owed(o) <= Owed(KeyStep(o, v, input, p2p)) + (if SaysNew(o.value.app, input) then 1 else 0)
  {
    hide AppNext, AppRequest, RegNext, Remap;
    var s, e := o.value.app, EventFor(input, v);
    var t := AppNext(s, e, o.value.reg == IN, p2p);
    Applicant.NewStays(s, e, o.value.reg == IN, p2p);
    NewNames(t);
    Untouched(s, o.value.reg == IN, p2p);
  }

  lemma Untouched(s: AppState, registrarIn: bool, p2p: bool)
    ensures AppNext(s, LvTimer, registrarIn, p2p) == s
  {
  }

  lemma NewNames(t: AppState)
    ensures Applicant.NameOf(t).role == Applicant.NewMember <==> t == VN || t == AN
    ensures Applicant.NameOf(t) == Applicant.Name(Applicant.VeryAnxious, Applicant.NewMember) <==> t == VN
  {
  }

  /** Unless the client leaves, the NEWs owed at the start are sent or still owed at the end. */
  lemma {:induction false} NewsArePaid(db: Db, run: seq<Stamped>, v: int)
    requires Valid(db) && MvrpProperties.ValidRun(run)
    requires forall i :: 0 <= i < |run| ==> run[i].input != On(Lv, v)
    ensures Owed(Get(db.entries, v)) <= Owed(Get(Run(db, run).entries, v)) + NewsMarked(db, run, v)
    decreases |run|
  {
    if run != [] {
      var db' := Step(db, run[0]);
      GetStep(db, run[0], v);
      StepValid(db, run[0]);
      if Owed(Get(db.entries, v)) > 0 {
        OwedStep(Get(db.entries, v), v, run[0].input, db.p2p);
      }
      NewsArePaid(db', run[1..], v);
    }
  }

  /** After New! put an applicant in VN, it leaves {VN, AN} only once at least two NEWs were marked,
      whatever LeaveAlls, messages and timers come in between. What the frames make of the marks is in
      `MvrpSignals.NewHeardTwice`. */
  lemma NewMarkedTwice(db: Db, run: seq<Stamped>, v: int)
    requires Valid(db) && MvrpProperties.ValidRun(run)
    requires Get(db.entries, v).Some? && Get(db.entries, v).value.app == VN
    requires forall i :: 0 <= i < |run| ==> run[i].input != On(Lv, v)
    requires var o := Get(Run(db, run).entries, v); o.None? || o.value.app !in {VN, AN}
    ensures NewsMarked(db, run, v) >= 2
  {
    NewsArePaid(db, run, v);
  }
}
