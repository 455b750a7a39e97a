/** The MRP protocol machines of `mrp.c`: the applicant, registrar and LeaveAll tables of
    IEEE 802.1Q-2011 section 10.7, the three per-database timers, and the facts about single
    transitions that the whole-run theorems are built from. */
module Mrp {

  datatype Option<+T> = None | Some(value: T)

  /** Applicant states, in the numbering order of `mrp.h`. */
  datatype AppState = VO | VP | VN | AN | AA | QA | LA | AO | QO | AP | QP | LO

  datatype RegState = IN | LV | MT

  datatype Event =
    | Begin | New | Join | Lv | Tx | TxLA | TxLAF
    | RNew | RJoinIn | RIn | RJoinMt | RMt | RLv | RLA
    | Flush | Redeclare | Periodic | PeriodicEnable | PeriodicDisable | LvTimer | LvaTimer

  /** The events that concern a single attribute. */
  predicate IsAttributeEvent(e: Event) {
    e in {New, Join, RNew, RJoinIn, RJoinMt, Lv, RIn, RMt, RLv}
  }

  datatype SndMsg = SndNew | SndJoin | SndIn | SndLv | SndLva | SndNull | SndNone

  // ---------------------------------------------------------------- applicant

  /** The stored applicant record: besides the state it carries what the last event asked to be sent. */
  datatype Applicant = Applicant(state: AppState, tx: bool, sndmsg: SndMsg, optional: bool,
                                 previous: Option<AppState>)

  /** What one event asks the transmitter to do. */
  datatype Request = Request(tx: bool, sndmsg: SndMsg, optional: bool)

  predicate ApplicantHandles(e: Event) {
    !(e in {Flush, PeriodicEnable, PeriodicDisable, LvTimer, LvaTimer})
  }

  /** Applicant table, next state. `p2p` is operPointToPointMAC. */
  function AppNext(s: AppState, e: Event, registrarIn: bool, p2p: bool): AppState {
    match e
    case Begin => VO
    case New => if s == VN || s == AN then s else VN
    case Join =>
      (match s
       case LO => VP case VO => VP case LA => AA case AO => AP case QO => QP
       case _ => s)
    case Lv =>
      (match s
       case VN => LA case AN => LA case AA => LA case QA => LA
       case VP => VO case AP => AO case QP => QO
       case _ => s)
    case TxLA =>
      (match s
       case VO => LO case VP => AA case VN => AN case AN => QA
       case QP => QA case AP => QA case AA => QA case QA => QA
       case LA => LO case AO => LO case QO => LO case LO => LO)
    case TxLAF =>
      (match s
       case VO => LO case AN => VN
       case QP => VP case AP => VP case AA => VP case QA => VP
       case QO => LO case AO => LO case LA => LO
       case _ => s)
    case Tx =>
      (match s
       case VP => AA case VN => AN
       case AN => if registrarIn then QA else AA
       case AP => QA case AA => QA case LA => VO case LO => VO
       case _ => s)
    case RJoinIn =>
      (match s
       case VO => if p2p then VO else AO
       case VP => if p2p then VP else AP
       case AA => QA case AO => QO case AP => QP
       case _ => s)
    case RIn => if s == AA && p2p then QA else s
    case RJoinMt => AppNextEmpty(s)
    case RMt => AppNextEmpty(s)
    case RLv => AppNextLeave(s)
    case RLA => AppNextLeave(s)
    case Redeclare => AppNextLeave(s)
    case Periodic =>
      (match s
       case QA => AA case QP => AP
       case _ => s)
    case _ => s
  }

  function AppNextEmpty(s: AppState): AppState {
    match s
    case QA => AA case QO => AO case QP => AP case LO => VO
    case _ => s
  }

  function AppNextLeave(s: AppState): AppState {
    match s
    case VO => LO case AN => VN case QA => VP case AA => VP
    case AO => LO case QO => LO case AP => VP case QP => VP
    case _ => s
  }

  /** Applicant table, what is to be sent; only the two transmit events send. */
  function AppRequest(s: AppState, e: Event): Request {
    match e
    case Tx =>
      (match s
       case VO => Request(true, SndIn, true)
       case VP => Request(true, SndJoin, false)
       case VN => Request(true, SndNew, false)
       case AN => Request(true, SndNew, false)
       case AP => Request(true, SndJoin, false)
       case AA => Request(true, SndJoin, false)
       case QA => Request(true, SndJoin, true)
       case LA => Request(true, SndLv, false)
       case AO => Request(true, SndIn, true)
       case QO => Request(true, SndIn, true)
       case QP => Request(true, SndIn, true)
       case LO => Request(true, SndIn, false))
    case TxLA =>
      (match s
       case VP => Request(true, SndIn, false)
       case VN => Request(true, SndNew, false)
       case AN => Request(true, SndNew, false)
       case QP => Request(true, SndJoin, false)
       case AP => Request(true, SndJoin, false)
       case AA => Request(true, SndJoin, false)
       case QA => Request(true, SndJoin, false)
       case _ => Request(true, SndIn, true))
    case _ => Request(false, SndNull, false)
  }

  /** `mrp_applicant_fsm`: an event the table does not know leaves the record alone. */
  function ApplicantFsm(a: Applicant, e: Event, registrarIn: bool, p2p: bool): Applicant {
    if !ApplicantHandles(e) then a
    else
      var r := AppRequest(a.state, e);
      Applicant(AppNext(a.state, e, registrarIn, p2p), r.tx, r.sndmsg, r.optional, Some(a.state))
  }

  /** `mrp_applicant_state_transition_implies_tx`. */
  predicate TransitionImpliesTx(a: Applicant) {
    a.previous != Some(a.state) && a.state in {VP, VN, AN, AA, LA}
  }

  const FRESH_APPLICANT := Applicant(VO, false, SndNull, true, None)

  // ---------------------------------------------------------------- registrar

  function RegNext(s: RegState, e: Event): RegState {
    match e
    case Begin => MT
    case RLv => RegLeave(s)
    case TxLA => RegLeave(s)
    case RLA => RegLeave(s)
    case Redeclare => RegLeave(s)
    case RNew => IN
    case RJoinIn => IN
    case RJoinMt => IN
    case LvTimer => if s == LV then MT else s
    case Flush => MT
    case _ => s
  }

  function RegLeave(s: RegState): RegState {
    if s == IN then LV else s
  }

  /** The registrar (re)starts the shared leave timer exactly when it moves an attribute from IN to LV. */
  predicate StartsLeaveTimer(s: RegState, e: Event) {
    s == IN && RegNext(s, e) == LV
  }

  /** Local requests are remapped before they reach the registrar (`mvrp_event`, `mmrp_event`, `msrp_event`). */
  function Remap(e: Event, s: RegState): Event {
    match e
    case New => Begin
    case Join => if s == IN then RJoinIn else RJoinMt
    case Lv => RLv
    case _ => e
  }

  // ---------------------------------------------------------------- timers and LeaveAll

  const LVTIMER_VAL: nat := 1000

  datatype LaState = Passive | Active

  /** The timer part of `struct mrp_database`. Only the leave timer's expiry time is kept. */
  datatype Timers = Timers(join: bool, lv: bool, lvExpiry: nat, lva: bool,
                           laState: LaState, laTx: bool, laSnd: SndMsg)

  function LvStart(t: Timers, now: nat): Timers {
    t.(lv := true, lvExpiry := now + LVTIMER_VAL)
  }

  /** `mrp_lvatimer_fsm`; stopping and starting the leaveall timer leaves it running. */
  function LeaveAllFsm(t: Timers, e: Event): Timers {
    match e
    case Begin => t.(laState := Passive, laTx := false, laSnd := SndNone, lva := true)
    case Tx =>
      if t.laState == Active then t.(laState := Passive, laTx := true, laSnd := SndLva)
      else t.(laTx := false, laSnd := SndNone)
    case RLA => t.(laState := Passive, laTx := false, laSnd := SndNone, lva := true)
    case LvaTimer => t.(laState := Active, laTx := false, laSnd := SndNone, lva := true)
    case _ => t
  }

  /** Timers right after `mrpd_init_timers` and `mrp_lvatimer_fsm(BEGIN)`. */
  const INITIAL_TIMERS := LeaveAllFsm(Timers(false, false, 0, false, Passive, false, SndNone), Begin)

  // ---------------------------------------------------------------- vocabulary of the properties

  /** The applicant states in which this station declares the attribute. */
  predicate Declares(s: AppState) {
    s in {VP, VN, AN, AA, QA, AP, QP}
  }

  /** The applicant states with something left to send. */
  predicate Pending(s: AppState) {
    s in {VP, VN, AN, AA, AP, LA, LO}
  }

  /** How many transmit opportunities an applicant still needs before it falls silent. */
  function Rank(s: AppState): nat {
    match s
    case VN => 3
    case AN => 2 case VP => 2
    case AA => 1 case AP => 1 case LA => 1 case LO => 1
    case _ => 0
  }

  predicate Sendable(m: SndMsg) {
    m in {SndNew, SndJoin, SndIn, SndLv}
  }

  /** The LeaveAll machine is at rest: passive, nothing to announce, timer running. */
  predicate LeaveAllQuiet(t: Timers) {
    t.laState == Passive && !t.laTx && t.lva
  }
}
