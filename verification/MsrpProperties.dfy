/** What holds of an MSRP participant over every run. */
module MsrpProperties {
  import opened Mrp
  import opened Participant
  import opened Msrp
  import opened MsrpProduct
  import opened Lives
  import opened Transmission
  import opened LeaveTimer
  import Applicant

  ghost predicate ValidRun(run: seq<Stamped>) {
    forall i :: 0 <= i < |run| ==> ValidInput(run[i].input)
  }

  function Run(db: Db, run: seq<Stamped>): (r: Db)
    requires Valid(db) && ValidRun(run)
    ensures Valid(r)
    decreases |run|
  {
    if run == [] then db
    else
      StepValid(db, run[0]);
      Run(Step(db, run[0]), run[1..])
  }

  /** In every run there is at most one attribute per domain class, one per listener and one per talker,
      Advertise and Failed counted together: lookup finds each stored attribute, and nothing else. */
  lemma LookupExact(db: Db, run: seq<Stamped>, i: nat)
    requires Valid(db) && ValidRun(run) && i < |Run(db, run).entries|
    ensures Find(Run(db, run).entries, IdOf(Run(db, run).entries[i].key)) == i
  {
    hide IdOf, Run, WellTyped;
    var es := Run(db, run).entries;
    var j := Find(es, IdOf(es[i].key));
    assert IdOf(es[j].key) == IdOf(es[i].key);
    assert Unique(es);
  }

  // ---------------------------------------------------------------- LeaveAll

  /** Between events the LeaveAll machine is passive, its mark clear and its timer running. */
  lemma {:induction false} LeaveAllAlwaysQuiet(db: Db, run: seq<Stamped>)
    requires Valid(db) && ValidRun(run) && LeaveAllQuiet(db.t)
    ensures LeaveAllQuiet(Run(db, run).t)
    decreases |run|
  {
    hide Step, Valid;
    if run != [] {
      StepValid(db, run[0]);
      StepQuiet(db, run[0]);
      LeaveAllAlwaysQuiet(Step(db, run[0]), run[1..]);
    }
  }

  /** That includes every state a station reaches after its initialization. */
  lemma QuietFromStart(p2p: bool, run: seq<Stamped>)
    requires ValidRun(run)
    ensures LeaveAllQuiet(Run(Db([], INITIAL_TIMERS, p2p), run).t)
  {
    LeaveAllAlwaysQuiet(Db([], INITIAL_TIMERS, p2p), run);
  }

  lemma StepQuiet(db: Db, s: Stamped)
    requires Valid(db) && ValidInput(s.input) && LeaveAllQuiet(db.t)
    ensures LeaveAllQuiet(Step(db, s).t)
  {
    hide Valid, All, Purge, Placed, PlacedAt, Settle, AnyStarts, AnyAgain;
  }

  // ---------------------------------------------------------------- the join timer

  /** An applicant with something to send has a transmit opportunity coming. */
  ghost predicate Awake(db: Db) {
    SomePending(db.entries) ==> db.t.join
  }

  /** The join timer runs after an input exactly in these cases. */
  lemma JoinTimerExact(db: Db, s: Stamped)
    requires Valid(db) && ValidInput(s.input)
    ensures var db' := Step(db, s);
            db'.t.join <==>
              match s.input
              case LeaveAllTimer => false
              case RecvLeaveAll(_) => true
              case Transmit => SomePending(db'.entries)
              case LeaveTimer => db.t.join
              case PeriodicTimer => db.t.join
              case On(e, _) => db.t.join || IsAttributeEvent(e)
              case Collect => db.t.join
  {
    hide Valid, SomePending, All, AnyStarts, AnyAgain, Purge, Placed, PlacedAt, Settle, Find;
    RearmedIff(db.entries, db.p2p, Everything);
  }

  /** Every input but leavealltimer! keeps every pending applicant covered by the join timer. */
  lemma NoLostWakeup(db: Db, s: Stamped)
    requires Valid(db) && ValidInput(s.input) && !s.input.LeaveAllTimer? && Awake(db)
    ensures Awake(Step(db, s))
  {
    hide Valid, All, AnyStarts, AnyAgain, Purge, Placed, PlacedAt, Settle, Find;
    JoinTimerExact(db, s);
    match s.input
    case LeaveTimer =>
      var es := All(db.entries, LvTimer, db.p2p, Everything);
      PurgeExact(es);
      ExpiryKeepsApplicants(db.entries, db.p2p, Everything);
      StillPending(db.entries, es, Purge(es));
    case Collect =>
      PurgeExact(db.entries);
      StillPending(db.entries, db.entries, Purge(db.entries));
    case _ =>
  }

  /** leavealltimer! keeps the guarantee exactly if its frame re-announces every attribute completely; there is no
      periodic! to restore it. */
  lemma LeaveAllKeepsAwakeIff(db: Db, now: nat)
    ensures Awake(LeaveAllStep(db, now)) <==>
            forall i :: 0 <= i < |db.entries| ==> db.entries[i].app in {AN, QP, AP, AA, QA}
  {
    LeaveAllPending(db.entries, db.p2p, Everything);
  }

  /** A station that has just been asked to declare an attribute forgets to finish announcing it. */
  lemma LeaveAllCanLoseWakeup(r: Declaration, p2p: bool, now: nat)
    requires WellTyped(r)
    ensures var db := Step(Db([], INITIAL_TIMERS, p2p), Stamped(now, On(Join, r)));
            Valid(db) && Awake(db) && !Awake(Step(db, Stamped(now, LeaveAllTimer)))
  {
    hide WellTyped, OnStep, Awake, LeaveAllStep, Unique;
    var start, s := Db([], INITIAL_TIMERS, p2p), Stamped(now, On(Join, r));
    assert Unique([]) by { NothingUnique(); }
    StepValid(start, s);
    var db := Step(start, s);
    FirstJoin(start, r, now);
    assert Awake(db) by { JoinTimerExact(start, s); RunningIsAwake(db); }
    LeaveAllKeepsAwakeIff(db, now);
    assert db.entries[0].app == VP;
  }

  lemma NothingUnique()
    ensures Unique([])
  {
  }

  lemma RunningIsAwake(db: Db)
    requires db.t.join
    ensures Awake(db)
  {
  }

  lemma FirstJoin(db: Db, r: Declaration, now: nat)
    requires Valid(db) && WellTyped(r) && db.entries == []
    ensures OnStep(db, Join, r, now).entries == [Entry(r, VP, IN)]
  {
    hide WellTyped;
    assert Placed([], r) == [Fresh(r)];
  }

  // ---------------------------------------------------------------- declared, registered and leaving sets

  function Declared(es: seq<Attribute>): set<Id> {
    set x | x in es && Declares(x.app) :: IdOf(x.key)
  }

  function Registered(es: seq<Attribute>): set<Id> {
    set x | x in es && x.reg == IN :: IdOf(x.key)
  }

  function Leaving(es: seq<Attribute>): set<Id> {
    set x | x in es && x.reg == LV :: IdOf(x.key)
  }

  /** The identities a station declares, replayed from its own clients' requests alone. */
  function DeclaredAfter(d: set<Id>, input: Input): set<Id> {
    if !input.On? then d
    else if input.e == New || input.e == Join then d + {IdOf(input.r)}
    else if input.e == Lv then d - {IdOf(input.r)}
    else d
  }

  /** Is `id` stored with the kind that a LeaveAll names? */
  predicate Named(es: seq<Attribute>, id: Id, kind: Option<Kind>) {
    var o := At(es, id);
    o.Some? && kind == Some(o.value.key.kind)
  }

  /** The identities a station has registered, given the data it stores: joins add, leaves and a local New remove, and
      rIn and rMt remove exactly if they bring news about the stored data. */
  function RegisteredAfter(es: seq<Attribute>, r: set<Id>, input: Input): set<Id>
    requires ValidInput(input) && forall x :: x in es ==> WellTyped(x.key)
  {
    match input
    case On(e, d) =>
      if e in {RNew, RJoinIn, RJoinMt, Join} then r + {IdOf(d)}
      else if e in {RLv, Lv, New} then r - {IdOf(d)}
      else if e in {RIn, RMt} && NewsFor(es, d) then r - {IdOf(d)}
      else r
    case LeaveAllTimer => {}
    case RecvLeaveAll(kind) => set id | id in r && !Named(es, id, kind)
    case _ => r
  }

  /** The identities in their leave period. A leave that brings news about the stored data ends the registration at
      once, without one. */
  function LeavingAfter(es: seq<Attribute>, r: set<Id>, l: set<Id>, input: Input): set<Id>
    requires ValidInput(input) && forall x :: x in es ==> WellTyped(x.key)
  {
    match input
    case On(e, d) =>
      if e in {RNew, RJoinIn, RJoinMt, Join, New} then l - {IdOf(d)}
      else if e in {RLv, Lv, RIn, RMt} && NewsFor(es, d) then l - {IdOf(d)}
      else if e in {RLv, Lv} && IdOf(d) in r then l + {IdOf(d)}
      else l
    case LeaveAllTimer => l + r
    case RecvLeaveAll(kind) => l + set id | id in r && Named(es, id, kind)
    case LeaveTimer => {}
    case _ => l
  }

  function DeclaredReplay(d: set<Id>, run: seq<Stamped>): set<Id>
    decreases |run|
  {
    if run == [] then d else DeclaredReplay(DeclaredAfter(d, run[0].input), run[1..])
  }

  function RegisteredReplay(db: Db, r: set<Id>, run: seq<Stamped>): set<Id>
    requires Valid(db) && ValidRun(run)
    decreases |run|
  {
    if run == [] then r
    else
      StepValid(db, run[0]);
      RegisteredReplay(Step(db, run[0]), RegisteredAfter(db.entries, r, run[0].input), run[1..])
  }

  function LeavingReplay(db: Db, r: set<Id>, l: set<Id>, run: seq<Stamped>): set<Id>
    requires Valid(db) && ValidRun(run)
    decreases |run|
  {
    if run == [] then l
    else
      StepValid(db, run[0]);
      LeavingReplay(Step(db, run[0]), RegisteredAfter(db.entries, r, run[0].input),
                    LeavingAfter(db.entries, r, l, run[0].input), run[1..])
  }

  // ---------------------------------------------------------------- one identity

  predicate Declaring(life: Life) { life.Known? && Applicant.Member(life.name) }

  predicate IsIn(life: Life) { life.Known? && life.reg == IN }

  predicate IsLeaving(life: Life) { life.Known? && life.reg == LV }

  lemma InSets(es: seq<Attribute>, id: Id)
    requires Unique(es)
    ensures id in Declared(es) <==> Declaring(LifeOf(At(es, id)))
    ensures id in Registered(es) <==> IsIn(LifeOf(At(es, id)))
    ensures id in Leaving(es) <==> IsLeaving(LifeOf(At(es, id)))
  {
    hide IdOf, At, Unique, Declares, Applicant.NameOf, Applicant.Member;
    var o := At(es, id);
    if o.Some? {
      AtSome(es, id);
      Applicant.MembersDeclare(o.value.app);
    }
    forall x | x in es ensures At(es, IdOf(x.key)) == Some(x) {
      var i :| 0 <= i < |es| && es[i] == x;
      AtIndex(es, i);
    }
  }

  /** The part of a set that concerns `id`. */
  function Only(id: Id, member: bool): set<Id> {
    if member then {id} else {}
  }

  lemma LifeDeclared(es: seq<Attribute>, id: Id, input: Input, p2p: bool)
    requires ValidInput(input) && forall x :: x in es ==> WellTyped(x.key)
    ensures Declaring(LifeAfter(es, id, input, p2p)) <==>
            id in DeclaredAfter(Only(id, Declaring(LifeOf(At(es, id)))), input)
  {
    hide At, WellTyped, IdOf, NewsFor, RegMoved, Applicant.Moved, Applicant.NameOf, Applicant.Member;
    var o := At(es, id);
    var e := match input
      case LeaveAllTimer => TxLA
      case RecvLeaveAll(_) => RLA
      case Transmit => Tx
      case LeaveTimer => LvTimer
      case PeriodicTimer => LvTimer
      case On(e, _) => e
      case Collect => LvTimer;
    var s := if o.Some? then o.value.app else VO;
    Members(s, e, true, p2p);
    Members(s, e, false, p2p);
  }

  lemma Members(s: AppState, e: Event, registered: bool, p2p: bool)
    ensures Applicant.Member(Applicant.Moved(Applicant.NameOf(s), e, registered, p2p)) <==>
            if e == New || e == Join then true else if e == Lv || e == Begin then false
            else Applicant.Member(Applicant.NameOf(s))
    ensures Applicant.NameOf(VO) == Applicant.Name(Applicant.VeryAnxious, Applicant.Observer)
    ensures forall n: Applicant.Name :: n.role == Applicant.Observer ==> !Applicant.Member(n)
  {
    hide AppNext, Applicant.Moved, Declares;
    Applicant.DeclaresAfter(s, e, registered, p2p);
    Applicant.TableFollowsRules(s, e, registered, p2p);
    Applicant.MembersDeclare(s);
    Applicant.MembersDeclare(AppNext(s, e, registered, p2p));
  }

  lemma LifeRegistered(es: seq<Attribute>, id: Id, input: Input, p2p: bool)
    requires ValidInput(input) && forall x :: x in es ==> WellTyped(x.key)
    ensures var life := LifeOf(At(es, id));
            && (IsIn(LifeAfter(es, id, input, p2p)) <==> id in RegisteredAfter(es, Only(id, IsIn(life)), input))
            && (IsLeaving(LifeAfter(es, id, input, p2p)) <==>
                  id in LeavingAfter(es, Only(id, IsIn(life)), Only(id, IsLeaving(life)), input))
  {
    hide At, WellTyped, IdOf, NewsFor, Applicant.Moved, Applicant.NameOf;
  }

  /** Membership of one identity after an input depends on membership of that identity before it. */
  lemma AfterIsPointwise(es: seq<Attribute>, d: set<Id>, l: set<Id>, id: Id, input: Input)
    requires ValidInput(input) && forall x :: x in es ==> WellTyped(x.key)
    ensures id in DeclaredAfter(d, input) <==> id in DeclaredAfter(Only(id, id in d), input)
    ensures id in RegisteredAfter(es, d, input) <==> id in RegisteredAfter(es, Only(id, id in d), input)
    ensures id in LeavingAfter(es, d, l, input) <==>
            id in LeavingAfter(es, Only(id, id in d), Only(id, id in l), input)
  {
    hide WellTyped, IdOf, NewsFor, Named;
  }

  lemma StepSetsAt(db: Db, s: Stamped, id: Id)
    requires Valid(db) && ValidInput(s.input) && Valid(Step(db, s))
    ensures var es, es' := db.entries, Step(db, s).entries;
            && (id in Declared(es') <==> id in DeclaredAfter(Declared(es), s.input))
            && (id in Registered(es') <==> id in RegisteredAfter(es, Registered(es), s.input))
            && (id in Leaving(es') <==> id in LeavingAfter(es, Registered(es), Leaving(es), s.input))
  {
    hide Step, Unique, WellTyped, Declared, Registered, Leaving, DeclaredAfter, RegisteredAfter, LeavingAfter, At,
      LifeAfter, LifeOf, Declaring, IsIn, IsLeaving, Only;
    var es, es' := db.entries, Step(db, s).entries;
    InSets(es, id);
    InSets(es', id);
    StepLife(db, s, id);
    LifeDeclared(es, id, s.input, db.p2p);
    LifeRegistered(es, id, s.input, db.p2p);
    AfterIsPointwise(es, Declared(es), {}, id, s.input);
    AfterIsPointwise(es, Registered(es), Leaving(es), id, s.input);
  }

  lemma StepSets(db: Db, s: Stamped)
    requires Valid(db) && ValidInput(s.input)
    ensures var es, es' := db.entries, Step(db, s).entries;
            && Declared(es') == DeclaredAfter(Declared(es), s.input)
            && Registered(es') == RegisteredAfter(es, Registered(es), s.input)
            && Leaving(es') == LeavingAfter(es, Registered(es), Leaving(es), s.input)
  {
    hide Step, Unique, WellTyped, Declared, Registered, Leaving, DeclaredAfter, RegisteredAfter, LeavingAfter;
    StepValid(db, s);
    forall id { StepSetsAt(db, s, id); }
  }

  /** Over every run the talkers, listeners and classes this station declares are exactly what replaying
      local New, Join and Lv gives, whatever is received, merged, timed out or reclaimed in between. */
  lemma {:induction false} DeclaredRefines(db: Db, run: seq<Stamped>)
    requires Valid(db) && ValidRun(run)
    ensures Declared(Run(db, run).entries) == DeclaredReplay(Declared(db.entries), run)
    decreases |run|
  {
    hide Step, Valid, Declared, DeclaredAfter;
    if run != [] {
      StepSets(db, run[0]);
      StepValid(db, run[0]);
      DeclaredRefines(Step(db, run[0]), run[1..]);
    }
  }

  /** Over every run the registered talkers, listeners and classes are exactly what replaying the joins, the leaves,
      the LeaveAlls and the news about stored data gives; transmissions, timers and reclaims change nothing. */
  lemma {:induction false} RegisteredRefines(db: Db, run: seq<Stamped>)
    requires Valid(db) && ValidRun(run)
    ensures Registered(Run(db, run).entries) == RegisteredReplay(db, Registered(db.entries), run)
    decreases |run|
  {
    hide Step, Valid, Registered, RegisteredAfter;
    if run != [] {
      StepSets(db, run[0]);
      StepValid(db, run[0]);
      RegisteredRefines(Step(db, run[0]), run[1..]);
    }
  }

  /** Over every run the identities in their leave period are exactly what the replay gives. */
  lemma {:induction false} LeavingRefines(db: Db, run: seq<Stamped>)
    requires Valid(db) && ValidRun(run)
    ensures Leaving(Run(db, run).entries) == LeavingReplay(db, Registered(db.entries), Leaving(db.entries), run)
    decreases |run|
  {
    hide Step, Valid, Registered, Leaving, RegisteredAfter, LeavingAfter;
    if run != [] {
      StepSets(db, run[0]);
      StepValid(db, run[0]);
      LeavingRefines(Step(db, run[0]), run[1..]);
    }
  }

  // ---------------------------------------------------------------- the shared leave timer

  function ViewOf(db: Db): View<Id> {
    View(Leaving(db.entries), db.t.lv, db.t.lvExpiry)
  }

  lemma SetsDisjoint(db: Db)
    requires Valid(db)
    ensures Registered(db.entries) !! Leaving(db.entries)
  {
    hide Registered, Leaving, At;
    forall id | id in Registered(db.entries) ensures id !in Leaving(db.entries) {
      InSets(db.entries, id);
    }
  }

  /** Does the input begin a leave period? */
  predicate Rearms(es: seq<Attribute>, r: set<Id>, input: Input)
    requires ValidInput(input) && forall x :: x in es ==> WellTyped(x.key)
  {
    match input
    case On(e, d) => e in {RLv, Lv} && IdOf(d) in r && !NewsFor(es, d)
    case LeaveAllTimer => r != {}
    case RecvLeaveAll(kind) => exists id :: id in r && Named(es, id, kind)
    case _ => false
  }

  lemma OnRearms(db: Db, e: Event, d: Declaration, now: nat)
    requires Valid(db) && WellTyped(d) && IsAttributeEvent(e)
    ensures var t, t' := db.t, OnStep(db, e, d, now).t;
            if Rearms(db.entries, Registered(db.entries), On(e, d)) then t'.lv && t'.lvExpiry == now + 1000
            else t'.lv == t.lv && t'.lvExpiry == t.lvExpiry
  {
    hide Registered, Placed, PlacedAt, Settle, AppNext, Unique, WellTyped, IdOf, Merge, Follows, News, TalkerKnown,
      Find;
    var es, id := db.entries, IdOf(d);
    InSets(es, id);
    PlacedValid(es, d);
    AtPlaced(es, d, id);
    FoundAt(es, id);
    if At(es, id).Some? {
      AtSome(es, id);
      MergeFollows(At(es, id).value, d, TalkerKnown(es, d));
    }
  }

  lemma FoundAt(es: seq<Attribute>, id: Id)
    ensures Find(es, id) == |es| <==> At(es, id).None?
  {
  }

  /** A loop over one kind, or over all of them, starts the timer if and only if it finds something registered. */
  lemma KindStarts(es: seq<Attribute>, kind: Kind)
    requires Unique(es)
    ensures AnyStarts(es, RLA, OfKind(kind)) <==> exists id :: id in Registered(es) && Named(es, id, Some(kind))
  {
    hide IdOf, At, Unique;
    forall i | 0 <= i < |es| ensures At(es, IdOf(es[i].key)) == Some(es[i]) {
      AtIndex(es, i);
    }
    if AnyStarts(es, RLA, OfKind(kind)) {
      var i :| 0 <= i < |es| && OfKind(kind)(es[i].key) && StartsLeaveTimer(es[i].reg, RLA);
      assert es[i] in es;
      assert Named(es, IdOf(es[i].key), Some(kind));
    }
    if id :| id in Registered(es) && Named(es, id, Some(kind)) {
      var x :| x in es && x.reg == IN && IdOf(x.key) == id;
      var i :| 0 <= i < |es| && es[i] == x;
      assert OfKind(kind)(es[i].key) && StartsLeaveTimer(es[i].reg, RLA);
    }
  }

  lemma AllStart(es: seq<Attribute>)
    ensures AnyStarts(es, TxLA, Everything) <==> Registered(es) != {}
  {
    hide IdOf;
    if i :| 0 <= i < |es| && Everything(es[i].key) && StartsLeaveTimer(es[i].reg, TxLA) {
      assert es[i] in es;
      assert IdOf(es[i].key) in Registered(es);
    }
    if Registered(es) != {} {
      var id :| id in Registered(es);
      var x :| x in es && x.reg == IN && IdOf(x.key) == id;
      var i :| 0 <= i < |es| && es[i] == x;
      assert Everything(es[i].key) && StartsLeaveTimer(es[i].reg, TxLA);
    }
  }

  lemma StepRearms(db: Db, s: Stamped)
    requires Valid(db) && ValidInput(s.input)
    ensures var t, t' := db.t, Step(db, s).t;
            if s.input.LeaveTimer? then !t'.lv
            else if Rearms(db.entries, Registered(db.entries), s.input) then t'.lv && t'.lvExpiry == s.at + 1000
            else t'.lv == t.lv && t'.lvExpiry == t.lvExpiry
  {
    hide Registered, AnyStarts, OnStep, All, Purge, AnyAgain, Unique, WellTyped, IdOf, NewsFor, At;
    match s.input
    case LeaveAllTimer => AllStart(db.entries);
    case RecvLeaveAll(kind) => if kind.Some? { KindStarts(db.entries, kind.value); }
    case On(e, d) => if IsAttributeEvent(e) { OnRearms(db, e, d, s.at); }
    case _ =>
  }

  /** The input that starts a leave period re-arms the timer for 1000 ms; nothing else but leavetimer! touches it. */
  lemma StepView(db: Db, s: Stamped)
    requires Valid(db) && ValidInput(s.input)
    ensures ViewStep(ViewOf(db), ViewOf(Step(db, s)), s.at, s.input.LeaveTimer?)
  {
    hide Step, Unique, WellTyped, Registered, Leaving, IdOf, NewsFor, At;
    StepSets(db, s);
    StepRearms(db, s);
    SetsDisjoint(db);
  }

  /** The states a run goes through, the first one included. */
  function States(db: Db, run: seq<Stamped>): (r: seq<Db>)
    requires Valid(db) && ValidRun(run)
    ensures |r| == |run| + 1 && r[0] == db
    decreases |run|
  {
    if run == [] then [db]
    else
      StepValid(db, run[0]);
      [db] + States(Step(db, run[0]), run[1..])
  }

  lemma {:induction false} StatesStep(db: Db, run: seq<Stamped>, i: nat)
    requires Valid(db) && ValidRun(run) && i < |run|
    ensures var dbs := States(db, run); Valid(dbs[i]) && dbs[i + 1] == Step(dbs[i], run[i])
    decreases |run|
  {
    hide Step, Valid, ValidInput;
    StepValid(db, run[0]);
    if i > 0 {
      StatesStep(Step(db, run[0]), run[1..], i - 1);
    }
  }

  /** Time does not run backwards, and leavetimer! is raised only once the running timer has expired. */
  ghost predicate TimersKeepTime(db: Db, run: seq<Stamped>)
    requires Valid(db) && ValidRun(run)
  {
    && (forall i, j :: 0 <= i < j < |run| ==> run[i].at <= run[j].at)
    && (forall i :: 0 <= i < |run| && run[i].input.LeaveTimer? ==>
          States(db, run)[i].t.lv && States(db, run)[i].t.lvExpiry <= run[i].at)
  }

  function Views(dbs: seq<Db>): (vs: seq<View<Id>>)
    ensures |vs| == |dbs| && forall i :: 0 <= i < |dbs| ==> vs[i] == ViewOf(dbs[i])
  {
    seq(|dbs|, i requires 0 <= i < |dbs| => ViewOf(dbs[i]))
  }

  function TimeOf(s: Stamped): nat { s.at }

  function Fires(s: Stamped): bool { s.input.LeaveTimer? }

  lemma RunIsTimed(db: Db, run: seq<Stamped>)
    requires Valid(db) && ValidRun(run) && TimersKeepTime(db, run)
    ensures TimedRun(Views(States(db, run)), Mapped(run, TimeOf), Mapped(run, Fires))
  {
    hide Step, Valid, ViewOf, ViewStep, States, ValidInput;
    var vs := Views(States(db, run));
    forall i | 0 <= i < |run| ensures ViewStep(vs[i], vs[i + 1], run[i].at, run[i].input.LeaveTimer?) {
      StatesStep(db, run, i);
      StepView(States(db, run)[i], run[i]);
    }
    forall i | 0 <= i < |run| && run[i].input.LeaveTimer? ensures vs[i].running && vs[i].expiry <= run[i].at {
      ViewTimer(States(db, run)[i]);
    }
  }

  lemma ViewTimer(db: Db)
    ensures ViewOf(db).running == db.t.lv && ViewOf(db).expiry == db.t.lvExpiry
    ensures ViewOf(db).leaving == Leaving(db.entries)
  {
  }

  /** In every timed run the leave timer is running whenever some attribute is in LV. */
  lemma LeaveTimerRuns(db: Db, run: seq<Stamped>, m: nat)
    requires Valid(db) && ValidRun(run) && TimersKeepTime(db, run) && m <= |run|
    requires Leaving(db.entries) == {} || db.t.lv
    ensures Leaving(States(db, run)[m].entries) == {} || States(db, run)[m].t.lv
  {
    hide Step, Valid, Leaving, States, TimersKeepTime;
    RunIsTimed(db, run);
    AlwaysCovered(Views(States(db, run)), Mapped(run, TimeOf), Mapped(run, Fires), m);
  }

  /** An attribute that enters LV at input `i` and is still there when leavetimer! comes at input `j` has
      had its full leave period. */
  lemma LeaveTimerNeverEarly(db: Db, run: seq<Stamped>, id: Id, i: nat, j: nat)
    requires Valid(db) && ValidRun(run) && TimersKeepTime(db, run) && i < j < |run| && run[j].input.LeaveTimer?
    requires id !in Leaving(States(db, run)[i].entries)
    requires forall n :: i < n <= j ==> id in Leaving(States(db, run)[n].entries)
    ensures run[i].at + 1000 <= run[j].at
  {
    hide States, Step, Valid, Leaving, TimersKeepTime;
    RunIsTimed(db, run);
    var vs := Views(States(db, run));
    assert forall n :: i < n <= j ==> id in vs[n].leaving;
    NeverEarly(vs, Mapped(run, TimeOf), Mapped(run, Fires), id, i, j);
  }
}
