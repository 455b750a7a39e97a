/** The MMRP participant of `mmrp.c`: one list for two kinds of attributes, kept as at most two blocks,
    each ascending. */
module Mmrp {
  import opened Mrp
  import opened Participant

  datatype Kind = Services | Macs

  /** A MAC address is the number its six bytes spell; `memcmp` orders addresses as numbers
      (`Eui64.OrderAgrees`). */
  datatype Key = Service(req: int) | Mac(addr: int)

  type Attribute = Entry<Key>

  datatype Db = Db(entries: seq<Attribute>, t: Timers, p2p: bool)

  function KindOf(k: Key): Kind {
    if k.Service? then Services else Macs
  }

  function Number(k: Key): int {
    match k
    case Service(n) => n
    case Mac(n) => n
  }

  /** Everything that reaches `mmrp_event` or `mmrp_reclaim`; an rLA! without an attribute is refused. */
  datatype Input =
    | LeaveAllTimer
    | RecvLeaveAll(kind: Option<Kind>)
    | Transmit
    | LeaveTimer
    | PeriodicTimer
    | On(e: Event, key: Key)
    | Collect

  datatype Stamped = Stamped(at: nat, input: Input)

  predicate Alike(x: Attribute, y: Attribute) {
    KindOf(x.key) == KindOf(y.key)
  }

  ghost predicate Ascending(es: seq<Attribute>) {
    forall i, j :: 0 <= i < j < |es| && Alike(es[i], es[j]) ==> Number(es[i].key) < Number(es[j].key)
  }

  ghost predicate Contiguous(es: seq<Attribute>) {
    forall i, j, k :: 0 <= i < j < k < |es| && Alike(es[i], es[k]) ==> Alike(es[i], es[j])
  }

  /** At most two contiguous blocks, one per kind, each strictly ascending. */
  ghost predicate Valid(db: Db) {
    Ascending(db.entries) && Contiguous(db.entries)
  }

  // ---------------------------------------------------------------- where an attribute goes

  function AlikeTo(k: Key): Key -> bool {
    (x: Key) => KindOf(x) == KindOf(k)
  }

  function Below(k: Key): Key -> bool {
    (x: Key) => Number(x) < Number(k)
  }

  /** Where `mmrp_add` stitches in an attribute: into the block of its kind, or at the tail if there is none. */
  function AddPos(es: seq<Attribute>, k: Key): (p: nat)
    ensures p <= |es|
  {
    BlockPos(es, AlikeTo(k), Below(k))
  }

  /** `p` splits the block of `k`'s kind: smaller keys before it, the others from it on, and `p` is at
      an edge of or inside the block. */
  ghost predicate Splits(es: seq<Attribute>, k: Key, p: nat) {
    && p <= |es|
    && (forall j :: 0 <= j < p && KindOf(es[j].key) == KindOf(k) ==> Number(es[j].key) < Number(k))
    && (forall j :: p <= j < |es| && KindOf(es[j].key) == KindOf(k) ==> Number(k) <= Number(es[j].key))
    && ((p == |es| && forall j :: 0 <= j < |es| ==> KindOf(es[j].key) != KindOf(k))
        || (p > 0 && KindOf(es[p - 1].key) == KindOf(k))
        || (p < |es| && KindOf(es[p].key) == KindOf(k)))
  }

  lemma TailValid(es: seq<Attribute>)
    requires es != [] && Ascending(es) && Contiguous(es)
    ensures Ascending(es[1..]) && Contiguous(es[1..])
  {
    var r := es[1..];
    assert forall i :: 0 <= i < |r| ==> r[i] == es[i + 1];
    forall i, j, k | 0 <= i < j < k < |r| && Alike(r[i], r[k]) ensures Alike(r[i], r[j]) {
      assert Alike(es[i + 1], es[k + 1]) && Alike(es[i + 1], es[j + 1]);
    }
    forall i, j | 0 <= i < j < |r| && Alike(r[i], r[j]) ensures Number(r[i].key) < Number(r[j].key) {
      assert Alike(es[i + 1], es[j + 1]);
    }
  }

  lemma SplitsHere(es: seq<Attribute>, k: Key)
    requires Ascending(es) && es != [] && KindOf(es[0].key) == KindOf(k) && Number(es[0].key) >= Number(k)
    ensures Splits(es, k, 0)
  {
    forall j | 0 < j < |es| && KindOf(es[j].key) == KindOf(k) ensures Number(k) <= Number(es[j].key) {
      assert Alike(es[0], es[j]);
    }
  }

  lemma SplitsAfterFirst(es: seq<Attribute>, k: Key)
    requires Contiguous(es) && es != [] && KindOf(es[0].key) == KindOf(k) && Number(es[0].key) < Number(k)
    requires |es| > 1 ==> KindOf(es[1].key) != KindOf(k)
    ensures Splits(es, k, 1)
  {
    forall j | 1 <= j < |es| ensures KindOf(es[j].key) != KindOf(k) {
      assert j > 1 && Alike(es[0], es[j]) ==> Alike(es[0], es[1]);
    }
  }

  lemma SplitsFurther(es: seq<Attribute>, k: Key, p: nat)
    requires es != [] && Splits(es[1..], k, p)
    requires KindOf(es[0].key) == KindOf(k) ==>
               Number(es[0].key) < Number(k) && |es| > 1 && KindOf(es[1].key) == KindOf(k)
    ensures Splits(es, k, p + 1)
  {
    var r := es[1..];
    assert forall i :: 0 <= i < |r| ==> r[i] == es[i + 1];
    assert forall j :: 1 <= j < |es| ==> es[j] == r[j - 1];
  }

  lemma {:induction false} AddPosSplits(es: seq<Attribute>, k: Key)
    requires Ascending(es) && Contiguous(es)
    ensures Splits(es, k, AddPos(es, k))
    decreases |es|
  {
    hide Splits, Ascending, Contiguous;
    if es == [] {
      SplitsNothing(k);
    } else {
      TailValid(es);
      if KindOf(es[0].key) != KindOf(k) {
        AddPosSplits(es[1..], k);
        SplitsFurther(es, k, AddPos(es[1..], k));
      } else if Number(es[0].key) >= Number(k) {
        SplitsHere(es, k);
      } else if |es| > 1 && KindOf(es[1].key) == KindOf(k) {
        AddPosSplits(es[1..], k);
        SplitsFurther(es, k, AddPos(es[1..], k));
      } else {
        SplitsAfterFirst(es, k);
      }
    }
  }

  lemma SplitsNothing(k: Key)
    ensures Splits([], k, 0)
  {
  }

  lemma InsertValid(es: seq<Attribute>, x: Attribute)
    requires Ascending(es) && Contiguous(es) && Get(es, x.key).None?
    ensures Ascending(InsertAt(es, AddPos(es, x.key), x)) && Contiguous(InsertAt(es, AddPos(es, x.key), x))
  {
    var p := AddPos(es, x.key);
    AddPosSplits(es, x.key);
    InsertAscending(es, x, p);
    InsertContiguous(es, x, p);
  }

  lemma InsertAscending(es: seq<Attribute>, x: Attribute, p: nat)
    requires Ascending(es) && Get(es, x.key).None? && Splits(es, x.key, p)
    ensures Ascending(InsertAt(es, p, x))
  {
    var r := InsertAt(es, p, x);
    InsertIndex(es, p, x);
    forall i, j | 0 <= i < j < |r| && Alike(r[i], r[j]) ensures Number(r[i].key) < Number(r[j].key) {
      if i == p {
        assert es[j - 1].key != x.key;
      }
    }
  }

  lemma InsertContiguous(es: seq<Attribute>, x: Attribute, p: nat)
    requires Contiguous(es) && Splits(es, x.key, p)
    ensures Contiguous(InsertAt(es, p, x))
  {
    var r := InsertAt(es, p, x);
    InsertIndex(es, p, x);
    forall i, j, k | 0 <= i < j < k < |r| && Alike(r[i], r[k]) ensures Alike(r[i], r[j]) {
      InsertBetween(es, x, p, i, j, k);
    }
  }

  lemma InsertBetween(es: seq<Attribute>, x: Attribute, p: nat, i: nat, j: nat, k: nat)
    requires Contiguous(es) && Splits(es, x.key, p) && i < j < k <= |es|
    requires var r := InsertAt(es, p, x); Alike(r[i], r[k])
    ensures var r := InsertAt(es, p, x); Alike(r[i], r[j])
  {
    InsertIndex(es, p, x);
    var i', j', k' := if i < p then i else i - 1, if j < p then j else j - 1, if k < p then k else k - 1;
    var after := p > 0 && KindOf(es[p - 1].key) == KindOf(x.key);
    if i == p {
      if after {
        assert Alike(es[p - 1], es[k - 1]) && Alike(es[p - 1], es[j - 1]);
      } else if p < j - 1 {
        assert Alike(es[p], es[k - 1]) && Alike(es[p], es[j - 1]);
      }
    } else if k == p {
      if p < |es| && KindOf(es[p].key) == KindOf(x.key) {
        assert Alike(es[i], es[p]) && Alike(es[i], es[j]);
      } else if j < p - 1 {
        assert Alike(es[i], es[p - 1]) && Alike(es[i], es[j]);
      }
    } else if j == p {
      assert Alike(es[i], es[k - 1]);
      assert i < p - 1 ==> Alike(es[i], es[p - 1]);
      assert p < k - 1 ==> Alike(es[i], es[p]);
    } else {
      assert Alike(es[i'], es[k']) && Alike(es[i'], es[j']);
    }
  }

  // ---------------------------------------------------------------- the events

  function AnyKind(k: Key): bool { true }

  function IsMac(k: Key): bool { k.Mac? }

  function IsService(k: Key): bool { k.Service? }

  function OfKind(kind: Kind): Key -> bool {
    match kind
    case Services => IsService
    case Macs => IsMac
  }

  function LeaveAllStep(db: Db, now: nat): Db {
    var t := Restart(db.t.(lva := false, join := false), AnyStarts(db.entries, TxLA, AnyKind), now);
    var t := LeaveAllFsm(LeaveAllFsm(t, LvaTimer), Tx);
    db.(entries := All(db.entries, TxLA, db.p2p, AnyKind), t := t.(laTx := false))
  }

  /** Only the attributes of the kind that the LeaveAll names take part. */
  function RecvLeaveAllStep(db: Db, kind: Option<Kind>, now: nat): Db {
    var t := db.t.(join := true);
    if kind.None? then db.(t := t)
    else
      var t := Restart(t, AnyStarts(db.entries, RLA, OfKind(kind.value)), now);
      db.(entries := All(db.entries, RLA, db.p2p, OfKind(kind.value)), t := LeaveAllFsm(t, RLA))
  }

  function TransmitStep(db: Db): Db {
    db.(entries := All(db.entries, Tx, db.p2p, AnyKind),
        t := db.t.(join := AnyAgain(db.entries, db.p2p), laTx := false))
  }

  /** Unlike MVRP, leavetimer! does not reclaim. */
  function LeaveTimerStep(db: Db): Db {
    db.(entries := All(db.entries, LvTimer, db.p2p, AnyKind), t := db.t.(lv := false))
  }

  function PeriodicStep(db: Db): Db {
    db.(entries := All(db.entries, Periodic, db.p2p, AnyKind), t := db.t.(join := db.t.join || db.entries != []))
  }

  function Placed(es: seq<Attribute>, k: Key): seq<Attribute> {
    if Lookup(es, k) < |es| then es else InsertAt(es, AddPos(es, k), Fresh(k))
  }

  function PlacedAt(es: seq<Attribute>, k: Key): (i: nat)
    ensures i < |Placed(es, k)| && Placed(es, k)[i].key == k
  {
    if Lookup(es, k) < |es| then Lookup(es, k) else AddPos(es, k)
  }

  /** Nor do attribute events. */
  function OnStep(db: Db, e: Event, k: Key, now: nat): Db {
    var t := db.t.(join := true);
    if Lookup(db.entries, k) == |db.entries| && e == RMt then db.(t := t)
    else
      var es, i := Placed(db.entries, k), PlacedAt(db.entries, k);
      db.(entries := es[i := One(es[i], e, db.p2p)],
          t := Restart(t, StartsLeaveTimer(es[i].reg, Remap(e, es[i].reg)), now))
  }

  function Step(db: Db, s: Stamped): Db {
    match s.input
    case LeaveAllTimer => LeaveAllStep(db, s.at)
    case RecvLeaveAll(kind) => RecvLeaveAllStep(db, kind, s.at)
    case Transmit => TransmitStep(db)
    case LeaveTimer => LeaveTimerStep(db)
    case PeriodicTimer => PeriodicStep(db)
    case On(e, k) => if IsAttributeEvent(e) then OnStep(db, e, k, s.at) else db
    case Collect => db.(entries := Purge(db.entries))
  }

  function Run(db: Db, run: seq<Stamped>): Db
    decreases |run|
  {
    if run == [] then db else Run(Step(db, run[0]), run[1..])
  }

  // ---------------------------------------------------------------- the blocks stay blocks

  /** Both parts of `Valid` depend on the keys alone. */
  lemma SameKeys(es: seq<Attribute>, fs: seq<Attribute>)
    requires |es| == |fs| && forall i :: 0 <= i < |es| ==> es[i].key == fs[i].key
    requires Ascending(es) && Contiguous(es)
    ensures Ascending(fs) && Contiguous(fs)
  {
    forall i, j, k | 0 <= i < j < k < |fs| && Alike(fs[i], fs[k]) ensures Alike(fs[i], fs[j]) {
      assert Alike(es[i], es[k]) && Alike(es[i], es[j]);
    }
    forall i, j | 0 <= i < j < |fs| && Alike(fs[i], fs[j]) ensures Number(fs[i].key) < Number(fs[j].key) {
      assert Alike(es[i], es[j]);
    }
  }

  lemma AllValid(es: seq<Attribute>, e: Event, p2p: bool, selected: Key -> bool)
    requires Ascending(es) && Contiguous(es)
    ensures Ascending(All(es, e, p2p, selected)) && Contiguous(All(es, e, p2p, selected))
  {
    SameKeys(es, All(es, e, p2p, selected));
  }

  /** The entries of `x`'s kind come first. */
  ghost predicate Leads(es: seq<Attribute>, x: Attribute) {
    forall i, j :: 0 <= i < j < |es| && Alike(x, es[j]) ==> Alike(x, es[i])
  }

  lemma {:induction false} PurgeLeads(es: seq<Attribute>, x: Attribute)
    requires Leads(es, x)
    ensures Leads(Purge(es), x)
    decreases |es|
  {
    hide Reclaimable;
    if es != [] {
      var rest, p := es[1..], Purge(es[1..]);
      assert forall i :: 0 <= i < |rest| ==> rest[i] == es[i + 1];
      PurgeLeads(rest, x);
      PurgeExact(rest);
      assert forall j :: 0 <= j < |p| ==> p[j] in rest;
    }
  }

  lemma ConsValid(x: Attribute, es: seq<Attribute>, r: seq<Attribute>)
    requires var s := [x] + es; Ascending(s) && Contiguous(s)
    requires Ascending(r) && Contiguous(r)
    requires forall i :: 0 <= i < |r| ==> r[i] in es
    requires Leads(r, x)
    ensures Ascending([x] + r) && Contiguous([x] + r)
  {
    var s, t := [x] + es, [x] + r;
    forall i, j | 0 <= i < j < |t| && Alike(t[i], t[j]) ensures Number(t[i].key) < Number(t[j].key) {
      if i == 0 {
        var m :| 0 <= m < |es| && es[m] == r[j - 1];
        assert s[m + 1] == es[m] && Alike(s[0], s[m + 1]);
      } else {
        assert Alike(r[i - 1], r[j - 1]);
      }
    }
    forall i, j, k | 0 <= i < j < k < |t| && Alike(t[i], t[k]) ensures Alike(t[i], t[j]) {
      if i == 0 {
        assert Alike(x, r[k - 1]);
        assert Alike(x, r[0]);
        if j > 1 { assert Alike(r[0], r[k - 1]) && Alike(r[0], r[j - 1]); }
      } else {
        assert Alike(r[i - 1], r[k - 1]) && Alike(r[i - 1], r[j - 1]);
      }
    }
  }

  lemma {:induction false} PurgeValid(es: seq<Attribute>)
    requires Ascending(es) && Contiguous(es)
    ensures Ascending(Purge(es)) && Contiguous(Purge(es))
    decreases |es|
  {
    hide Reclaimable, Ascending, Contiguous, Leads;
    if es == [] {
    } else {
      var rest := es[1..];
      TailValid(es);
      PurgeValid(rest);
      RestLeads(es);
      PurgeLeads(rest, es[0]);
      PurgeExact(rest);
      assert es == [es[0]] + rest;
      ConsValid(es[0], rest, Purge(rest));
      assert [] + Purge(rest) == Purge(rest);
    }
  }

  lemma RestLeads(es: seq<Attribute>)
    requires es != [] && Contiguous(es)
    ensures Leads(es[1..], es[0])
  {
    var r := es[1..];
    forall i, j | 0 <= i < j < |r| && Alike(es[0], r[j]) ensures Alike(es[0], r[i]) {
      assert r[i] == es[i + 1] && r[j] == es[j + 1];
    }
  }

  lemma OnStepValid(db: Db, e: Event, k: Key, now: nat)
    requires Valid(db)
    ensures Valid(OnStep(db, e, k, now))
  {
    hide Ascending, Contiguous;
    if Lookup(db.entries, k) == |db.entries| {
      InsertValid(db.entries, Fresh(k));
    }
    var es, i := Placed(db.entries, k), PlacedAt(db.entries, k);
    SameKeys(es, es[i := One(es[i], e, db.p2p)]);
  }

  /** Every input keeps the list in at most two contiguous blocks, each strictly ascending. */
  lemma StepValid(db: Db, s: Stamped)
    requires Valid(db)
    ensures Valid(Step(db, s))
  {
    hide Ascending, Contiguous, OnStep;
    match s.input
    case On(e, k) => OnStepValid(db, e, k, s.at);
    case Collect => PurgeValid(db.entries);
    case LeaveAllTimer => AllValid(db.entries, TxLA, db.p2p, AnyKind);
    case RecvLeaveAll(kind) => if kind.Some? { AllValid(db.entries, RLA, db.p2p, OfKind(kind.value)); }
    case Transmit => AllValid(db.entries, Tx, db.p2p, AnyKind);
    case LeaveTimer => AllValid(db.entries, LvTimer, db.p2p, AnyKind);
    case PeriodicTimer => AllValid(db.entries, Periodic, db.p2p, AnyKind);
  }

  lemma {:induction false} RunValid(db: Db, run: seq<Stamped>)
    requires Valid(db)
    ensures Valid(Run(db, run))
    decreases |run|
  {
    hide Valid, Step;
    if run != [] {
      StepValid(db, run[0]);
      RunValid(Step(db, run[0]), run[1..]);
    }
  }

  lemma AscendingIsDistinct(es: seq<Attribute>)
    requires Ascending(es)
    ensures Distinct(es)
  {
    forall i, j | 0 <= i < j < |es| ensures es[i].key != es[j].key {
      assert Alike(es[i], es[j]) ==> Number(es[i].key) < Number(es[j].key);
    }
  }

  /** So no key is ever there twice, and lookup finds a key exactly when it is there. */
  lemma LookupExact(db: Db, run: seq<Stamped>, i: nat)
    requires Valid(db) && i < |Run(db, run).entries|
    ensures Lookup(Run(db, run).entries, Run(db, run).entries[i].key) == i
  {
    hide Run, Ascending, Contiguous;
    RunValid(db, run);
    AscendingIsDistinct(Run(db, run).entries);
  }

  // ---------------------------------------------------------------- one machine per key

  /** What one input does to the attribute of one key, on its own. */
  function KeyStep(o: Option<Attribute>, k: Key, input: Input, p2p: bool): Option<Attribute> {
    match input
    case LeaveAllTimer => KeyAll(o, TxLA, p2p, AnyKind)
    case RecvLeaveAll(kind) => if kind.None? then o else KeyAll(o, RLA, p2p, OfKind(kind.value))
    case Transmit => KeyAll(o, Tx, p2p, AnyKind)
    case LeaveTimer => KeyAll(o, LvTimer, p2p, AnyKind)
    case PeriodicTimer => KeyAll(o, Periodic, p2p, AnyKind)
    case On(e, j) =>
      if j != k || !IsAttributeEvent(e) || (o.None? && e == RMt) then o
      else Some(One(if o.Some? then o.value else Fresh(k), e, p2p))
    case Collect => KeyPurge(o)
  }

  lemma GetPlaced(es: seq<Attribute>, j: Key, k: Key)
    requires Distinct(es)
    ensures Distinct(Placed(es, j))
    ensures Get(Placed(es, j), k) == if k == j && Get(es, j).None? then Some(Fresh(j)) else Get(es, k)
    ensures Get(Placed(es, j), j) == Some(Placed(es, j)[PlacedAt(es, j)])
  {
    hide Distinct, AddPos;
    if Lookup(es, j) == |es| {
      GetInsert(es, AddPos(es, j), Fresh(j), k);
    }
    GetAt(Placed(es, j), PlacedAt(es, j));
  }

  lemma GetOnStep(db: Db, e: Event, j: Key, now: nat, k: Key)
    requires Distinct(db.entries) && IsAttributeEvent(e)
    ensures Get(OnStep(db, e, j, now).entries, k) == KeyStep(Get(db.entries, k), k, On(e, j), db.p2p)
  {
    hide Distinct, Placed, PlacedAt;
    GetPlaced(db.entries, j, k);
    var es, i := Placed(db.entries, j), PlacedAt(db.entries, j);
    GetUpdate(es, i, One(es[i], e, db.p2p), k);
  }

  /** The database is the product of independent machines, one per key. */
  lemma GetStep(db: Db, s: Stamped, k: Key)
    requires Valid(db)
    ensures Get(Step(db, s).entries, k) == KeyStep(Get(db.entries, k), k, s.input, db.p2p)
  {
    hide Ascending, Contiguous, Distinct, OnStep, All, Purge, KeyAll, KeyPurge, AnyStarts, AnyAgain;
    AscendingIsDistinct(db.entries);
    match s.input
    case LeaveAllTimer => GetAll(db.entries, TxLA, db.p2p, AnyKind, k);
    case RecvLeaveAll(kind) => if kind.Some? { GetAll(db.entries, RLA, db.p2p, OfKind(kind.value), k); }
    case Transmit => GetAll(db.entries, Tx, db.p2p, AnyKind, k);
    case LeaveTimer => GetAll(db.entries, LvTimer, db.p2p, AnyKind, k);
    case PeriodicTimer => GetAll(db.entries, Periodic, db.p2p, AnyKind, k);
    case On(e, j) => if IsAttributeEvent(e) { GetOnStep(db, e, j, s.at, k); }
    case Collect => GetPurge(db.entries, k);
  }
}
