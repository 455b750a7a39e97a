/** The applicant table read the way its state names are built: how anxious the applicant is, and which part it
    plays. The transitions of `mrp_applicant_fsm` move these two coordinates by a few rules. The rules determine
    the table, and what the other modules need of the table is derived from the rules. */
module Applicant {
  import opened Mrp

  /** First letter of a state name: V, A, Q or L. */
  datatype Anxiety = VeryAnxious | Anxious | Quiet | Leaving

  /** Second letter: active member, passive member, observer, or member with a New to announce. */
  datatype Role = ActiveMember | PassiveMember | Observer | NewMember

  datatype Name = Name(anxiety: Anxiety, role: Role)

  function NameOf(s: AppState): Name {
    match s
    case VO => Name(VeryAnxious, Observer)
    case VP => Name(VeryAnxious, PassiveMember)
    case VN => Name(VeryAnxious, NewMember)
    case AN => Name(Anxious, NewMember)
    case AA => Name(Anxious, ActiveMember)
    case QA => Name(Quiet, ActiveMember)
    case LA => Name(Leaving, ActiveMember)
    case AO => Name(Anxious, Observer)
    case QO => Name(Quiet, Observer)
    case AP => Name(Anxious, PassiveMember)
    case QP => Name(Quiet, PassiveMember)
    case LO => Name(Leaving, Observer)
  }

  /** Only those that have spoken and observers leave, and a new member is never quiet. */
  predicate Possible(n: Name) {
    && (n.anxiety == Leaving ==> n.role == ActiveMember || n.role == Observer)
    && (n.role == NewMember ==> n.anxiety != Quiet)
    && (n.role == ActiveMember ==> n.anxiety != VeryAnxious)
  }

  predicate Member(n: Name) {
    n.role != Observer && n.anxiety != Leaving
  }

  predicate Unsettled(n: Name) {
    n.anxiety == Leaving || (Member(n) && n.anxiety != Quiet)
  }

  function Calmer(a: Anxiety): Anxiety {
    if a == VeryAnxious then Anxious else if a == Anxious then Quiet else a
  }

  // ---------------------------------------------------------------- the rules

  /** Join turns an observer into a passive member with the anxiety it has; one that was leaving starts over. */
  function Joined(n: Name): Name {
    if n == Name(Leaving, Observer) then Name(VeryAnxious, PassiveMember)
    else if n.anxiety == Leaving then Name(Anxious, ActiveMember)
    else n.(role := if n.role == Observer then PassiveMember else n.role)
  }

  /** Lv turns a passive member back into an observer; a member that has spoken has to say that it leaves. */
  function Left(n: Name): Name {
    if !Member(n) then n else if n.role == PassiveMember then n.(role := Observer) else Name(Leaving, ActiveMember)
  }

  /** A JoinIn calms by one level, but not a new member, and a very anxious one only on a shared medium. */
  function Reassured(n: Name, p2p: bool): Name {
    if n.role == NewMember || (p2p && n.anxiety == VeryAnxious) then n else n.(anxiety := Calmer(n.anxiety))
  }

  /** Empty messages make the quiet anxious, and an observer stops leaving. */
  function Worried(n: Name): Name {
    if n.anxiety == Quiet then n.(anxiety := Anxious)
    else if n == Name(Leaving, Observer) then n.(anxiety := VeryAnxious)
    else n
  }

  /** A leave makes members start over, as if they had not spoken, and observers leave. */
  function StartedOver(n: Name): Name {
    if n == Name(Leaving, ActiveMember) then n
    else if n.role == Observer then n.(anxiety := Leaving)
    else Name(VeryAnxious, if n.role == NewMember then NewMember else PassiveMember)
  }

  /** A member that speaks is active and calmer; a new one stays new until its second New, after which it may have
      to speak once more. */
  function Spoken(n: Name, onceMore: bool): Name {
    if n.anxiety == VeryAnxious then Name(Anxious, if n.role == NewMember then NewMember else ActiveMember)
    else Name(if n.role == NewMember && onceMore then Anxious else Quiet, ActiveMember)
  }

  /** What each event does. */
  function Moved(n: Name, e: Event, registrarIn: bool, p2p: bool): Name {
    match e
    case Begin => Name(VeryAnxious, Observer)
    case New => if n.role == NewMember then n else Name(VeryAnxious, NewMember)
    case Join => Joined(n)
    case Lv => Left(n)
    // whoever has something to send speaks; who said that it leaves is done
    case Tx =>
      if n.anxiety == Leaving then Name(VeryAnxious, Observer)
      else if Unsettled(n) then Spoken(n, !registrarIn)
      else n
    // with a LeaveAll every member speaks and everyone else goes on to leave
    case TxLA => if Member(n) then Spoken(n, false) else Name(Leaving, Observer)
    // a LeaveAll that leaves no room counts as heard
    case TxLAF => if n == Name(Leaving, ActiveMember) then Name(Leaving, Observer) else StartedOver(n)
    case RJoinIn => Reassured(n, p2p)
    // an In calms an anxious active member on a point-to-point link
    case RIn => if p2p && n == Name(Anxious, ActiveMember) then Name(Quiet, ActiveMember) else n
    case RJoinMt => Worried(n)
    case RMt => Worried(n)
    case RLv => StartedOver(n)
    case RLA => StartedOver(n)
    case Redeclare => StartedOver(n)
    case Periodic => if Member(n) && n.anxiety == Quiet then n.(anxiety := Anxious) else n
    case _ => n
  }

  /** What is said. A new member says New, one that left says so, a member says Join if it has something to send or is
      active, and otherwise the applicant says only whether the attribute is registered; with nothing to send it
      may leave that out. With a LeaveAll every member has to speak, and a very anxious passive one says only In. */
  function Said(n: Name, e: Event): Request {
    if e == Tx then
      Request(true, if n.role == NewMember then SndNew
                    else if n == Name(Leaving, ActiveMember) then SndLv
                    else if Member(n) && (Unsettled(n) || n.role == ActiveMember) then SndJoin
                    else SndIn, !Unsettled(n))
    else if e == TxLA then
      Request(true, if n.role == NewMember then SndNew
                    else if Member(n) && n != Name(VeryAnxious, PassiveMember) then SndJoin
                    else SndIn, !Member(n))
    else Request(false, SndNull, false)
  }

  // ---------------------------------------------------------------- the rules determine the table

  /** Every state has a possible name, and no two have the same. */
  lemma NamesAreUnique(s: AppState, t: AppState)
    ensures Possible(NameOf(s)) && (NameOf(s) == NameOf(t) <==> s == t)
  {
  }

  /** The table and the rules agree. */
  lemma TableFollowsRules(s: AppState, e: Event, registrarIn: bool, p2p: bool)
    ensures NameOf(AppNext(s, e, registrarIn, p2p)) == Moved(NameOf(s), e, registrarIn, p2p)
    ensures AppRequest(s, e) == Said(NameOf(s), e)
  {
  }

  /** So the rules determine the table: a table of next states that follows them is this one. */
  lemma RulesDecide(next: (AppState, Event, bool, bool) -> AppState,
                    s: AppState, e: Event, registrarIn: bool, p2p: bool)
    requires NameOf(next(s, e, registrarIn, p2p)) == Moved(NameOf(s), e, registrarIn, p2p)
    ensures next(s, e, registrarIn, p2p) == AppNext(s, e, registrarIn, p2p)
  {
    hide AppNext, Moved, NameOf;
    TableFollowsRules(s, e, registrarIn, p2p);
    NamesAreUnique(next(s, e, registrarIn, p2p), AppNext(s, e, registrarIn, p2p));
  }

  // ---------------------------------------------------------------- what follows from the rules

  lemma MembersDeclare(s: AppState)
    ensures Member(NameOf(s)) <==> Declares(s)
    ensures Unsettled(NameOf(s)) <==> Pending(s)
  {
  }

  /** Only the client's requests and a restart of the machine change whether an applicant declares. */
  lemma DeclaresAfter(s: AppState, e: Event, registrarIn: bool, p2p: bool)
    ensures Declares(AppNext(s, e, registrarIn, p2p)) <==>
            if e == New || e == Join then true else if e == Lv || e == Begin then false else Declares(s)
  {
    hide AppNext, AppRequest, Declares, NameOf, Pending;
    NamesAreUnique(s, s);
    TableFollowsRules(s, e, registrarIn, p2p);
    MembersDeclare(s);
    MembersDeclare(AppNext(s, e, registrarIn, p2p));
  }

  /** A new member stays one, or says New, unless its client leaves or the machine restarts; after its first New it
      is still a new member. */
  lemma NewStays(s: AppState, e: Event, registrarIn: bool, p2p: bool)
    requires NameOf(s).role == NewMember && e != Lv && e != Begin
    ensures var n, m := NameOf(s), NameOf(AppNext(s, e, registrarIn, p2p));
            if e == Tx || e == TxLA then
              AppRequest(s, e).sndmsg == SndNew && (n.anxiety == VeryAnxious ==> m == Name(Anxious, NewMember))
            else m.role == NewMember && (n.anxiety == VeryAnxious ==> m.anxiety == VeryAnxious)
  {
    hide AppNext, AppRequest, NameOf;
    NamesAreUnique(s, s);
    TableFollowsRules(s, e, registrarIn, p2p);
  }

  /** With a LeaveAll a station re-declares what it declares, except as a very anxious passive member. */
  lemma LeaveAllSays(s: AppState)
    ensures var r := AppRequest(s, TxLA);
            && r.tx && (Declares(s) ==> !r.optional) && r.sndmsg in {SndNew, SndJoin, SndIn}
            && (r.sndmsg != SndIn <==> Declares(s) && s != VP)
  {
    hide AppRequest, AppNext, Declares;
    TableFollowsRules(s, TxLA, false, false);
    MembersDeclare(s);
    NamesAreUnique(s, VP);
  }
}
