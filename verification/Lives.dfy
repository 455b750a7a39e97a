/** The life of one attribute, told by the rules of the applicant and of the registrar instead of by their tables, and
    by what a client or a message asks for instead of by the events the registrar is handed. */
module Lives {
  import opened Mrp
  import opened Participant
  import opened Applicant

  /** What a station knows of an attribute: nothing, or the part it plays in declaring it and whether it is
      registered, in its leave period, or neither. */
  datatype Life = Unknown | Known(name: Name, reg: RegState)

  function LifeOf<K>(o: Option<Entry<K>>): Life {
    if o.None? then Unknown else Known(NameOf(o.value.app), o.value.reg)
  }

  /** Joins and News from the network and a client's Join register; a client's New starts over; leaves begin the leave
      period of what is registered, and leavetimer! ends it. */
  function RegMoved(reg: RegState, e: Event): RegState {
    match e
    case New => MT
    case Join => IN
    case RNew => IN
    case RJoinIn => IN
    case RJoinMt => IN
    case Lv => if reg == IN then LV else reg
    case RLv => if reg == IN then LV else reg
    case RLA => if reg == IN then LV else reg
    case TxLA => if reg == IN then LV else reg
    case Redeclare => if reg == IN then LV else reg
    case LvTimer => if reg == LV then MT else reg
    case Begin => MT
    case Flush => MT
    case _ => reg
  }

  /** The registrar table follows these rules, a client's requests by way of the events they are remapped to. */
  lemma RegistrarFollowsRules(reg: RegState, e: Event)
    ensures RegNext(reg, Remap(e, reg)) == RegMoved(reg, e)
    ensures StartsLeaveTimer(reg, Remap(e, reg)) <==> reg == IN && RegMoved(reg, e) == LV
  {
  }

  const BORN := Known(Name(VeryAnxious, Observer), MT)

  function Moves(life: Life, e: Event, p2p: bool): Life
    requires life.Known?
  {
    Known(Moved(life.name, e, life.reg == IN, p2p), RegMoved(life.reg, e))
  }

  /** An event for this attribute makes it known, unless it says that nobody declares it. */
  function Touched(life: Life, e: Event, p2p: bool): Life {
    if life.Unknown? && e == RMt then Unknown else Moves(if life.Unknown? then BORN else life, e, p2p)
  }

  /** An event for all attributes. */
  function Swept(life: Life, e: Event, p2p: bool): Life {
    if life.Unknown? then Unknown else Moves(life, e, p2p)
  }

  /** What is neither declared nor registered, with nothing left to say about it, can be forgotten. */
  function Reclaimed(life: Life): Life {
    if life.Known? && life.reg == MT && life.name.role == Observer && life.name.anxiety != Leaving then Unknown
    else life
  }

  // ---------------------------------------------------------------- the tables tell the same lives

  lemma OneMoves<K>(x: Entry<K>, e: Event, p2p: bool)
    requires IsAttributeEvent(e)
    ensures LifeOf(Some(One(x, e, p2p))) == Moves(LifeOf(Some(x)), e, p2p)
  {
    hide AppNext, AppRequest, NameOf, Moved;
    TableFollowsRules(x.app, e, x.reg == IN, p2p);
  }

  lemma BothMoves<K>(x: Entry<K>, e: Event, p2p: bool)
    requires e in {TxLA, RLA, Tx, LvTimer, Periodic}
    ensures LifeOf(Some(Both(x, e, p2p))) == Moves(LifeOf(Some(x)), e, p2p)
  {
    hide AppNext, AppRequest, NameOf, Moved;
    TableFollowsRules(x.app, e, x.reg == IN, p2p);
  }

  lemma SweepMoves<K>(o: Option<Entry<K>>, e: Event, p2p: bool, selected: K -> bool)
    requires e in {TxLA, RLA, Tx, LvTimer, Periodic}
    ensures LifeOf(KeyAll(o, e, p2p, selected)) ==
            if o.Some? && !selected(o.value.key) then LifeOf(o) else Swept(LifeOf(o), e, p2p)
  {
    hide Both, Moved, NameOf, RegMoved;
    if o.Some? {
      BothMoves(o.value, e, p2p);
    }
  }

  lemma TouchMoves<K>(o: Option<Entry<K>>, k: K, e: Event, p2p: bool)
    requires IsAttributeEvent(e)
    ensures o.None? && e == RMt ==> Touched(LifeOf(o), e, p2p) == Unknown
    ensures !(o.None? && e == RMt) ==>
              LifeOf(Some(One(if o.Some? then o.value else Fresh(k), e, p2p))) == Touched(LifeOf(o), e, p2p)
  {
    hide One, Moved, RegMoved;
    OneMoves(if o.Some? then o.value else Fresh(k), e, p2p);
  }

  lemma PurgeMoves<K>(o: Option<Entry<K>>)
    ensures LifeOf(KeyPurge(o)) == Reclaimed(LifeOf(o))
  {
  }
}
