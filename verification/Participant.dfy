/** What the three MRP applications share: an attribute database seen as a sequence of entries,
    the event loops over it, and the proof that such a database behaves as one independent
    machine per key. */
module Participant {
  import opened Mrp

  datatype Entry<K> = Entry(key: K, app: AppState, reg: RegState)

  /** `*_alloc` followed by filling in the key. */
  function Fresh<K>(k: K): Entry<K> {
    Entry(k, VO, MT)
  }

  predicate Reclaimable<K>(x: Entry<K>) {
    x.reg == MT && x.app in {VO, AO, QO}
  }

  ghost predicate Distinct<K>(es: seq<Entry<K>>) {
    forall i, j :: 0 <= i < j < |es| ==> es[i].key != es[j].key
  }

  /** The position of the first entry with key `k`, or `|es|`. */
  function Lookup<K(==)>(es: seq<Entry<K>>, k: K): (i: nat)
    ensures i <= |es|
    ensures i < |es| ==> es[i].key == k
    ensures forall j :: 0 <= j < i ==> es[j].key != k
  {
    if es == [] || es[0].key == k then 0 else
    assert forall j :: 1 <= j < |es| ==> es[j] == es[1..][j - 1];
    1 + Lookup(es[1..], k)
  }

  /** What the database holds for `k`. */
  function Get<K(==)>(es: seq<Entry<K>>, k: K): (o: Option<Entry<K>>)
    ensures o.Some? ==> o.value.key == k && o.value in es
    ensures o.None? <==> forall j :: 0 <= j < |es| ==> es[j].key != k
  {
    var i := Lookup(es, k);
    if i < |es| then Some(es[i]) else None
  }

  // ---------------------------------------------------------------- list edits

  function InsertAt<T>(es: seq<T>, i: nat, x: T): seq<T>
    requires i <= |es|
  {
    es[..i] + [x] + es[i..]
  }

  function RemoveAt<T>(es: seq<T>, i: nat): seq<T>
    requires i < |es|
  {
    es[..i] + es[i + 1..]
  }

  lemma InsertIndex<T>(es: seq<T>, i: nat, x: T)
    requires i <= |es|
    ensures forall j :: 0 <= j <= |es| ==>
      InsertAt(es, i, x)[j] == if j < i then es[j] else if j == i then x else es[j - 1]
  {
    var r := InsertAt(es, i, x);
    forall j | 0 <= j <= |es| ensures r[j] == if j < i then es[j] else if j == i then x else es[j - 1] { }
  }

  lemma RemoveIndex<T>(es: seq<T>, i: nat)
    requires i < |es|
    ensures forall j :: 0 <= j < |es| - 1 ==> RemoveAt(es, i)[j] == if j < i then es[j] else es[j + 1]
  {
    var r := RemoveAt(es, i);
    forall j | 0 <= j < |es| - 1 ensures r[j] == if j < i then es[j] else es[j + 1] { }
  }

  /** Where `mmrp_add` and `msrp_add` stitch in a key: into the first run of keys that are `alike`, behind
      those that are `below` it, or at the tail if there is no such run. */
  function BlockPos<K>(es: seq<Entry<K>>, alike: K -> bool, below: K -> bool): (p: nat)
    ensures p <= |es|
  {
    if es == [] then 0
    else if !alike(es[0].key) then 1 + BlockPos(es[1..], alike, below)
    else if !below(es[0].key) then 0
    else if |es| > 1 && alike(es[1].key) then 1 + BlockPos(es[1..], alike, below)
    else 1
  }

  /** `p` lies in or at the end of the first run of keys that are alike, [a, b): behind those that are below, and in
      front of one that is not; or at the tail, if no key is alike. */
  ghost predicate InFirstRun<K>(es: seq<Entry<K>>, alike: K -> bool, below: K -> bool, p: nat, a: nat, b: nat) {
    && a <= p <= b <= |es|
    && (forall i :: 0 <= i < a ==> !alike(es[i].key))
    && (forall i :: a <= i < b ==> alike(es[i].key))
    && (b < |es| && a < b ==> !alike(es[b].key))
    && (a == b ==> b == |es|)
    && (forall i :: a <= i < p ==> below(es[i].key))
    && (p < b ==> !below(es[p].key))
  }

  lemma {:induction false} BlockPosExact<K>(es: seq<Entry<K>>, alike: K -> bool, below: K -> bool)
    returns (a: nat, b: nat)
    ensures InFirstRun(es, alike, below, BlockPos(es, alike, below), a, b)
    decreases |es|
  {
    if es == [] {
      a, b := 0, 0;
    } else {
      var rest := es[1..];
      assert forall i :: 0 < i < |es| ==> es[i] == rest[i - 1];
      if !alike(es[0].key) {
        a, b := BlockPosExact(rest, alike, below);
        a, b := a + 1, b + 1;
      } else if |es| > 1 && alike(es[1].key) {
        a, b := BlockPosExact(rest, alike, below);
        a, b := 0, b + 1;
      } else {
        a, b := 0, 1;
      }
    }
  }

  /** Write back the changed entry, or unlink it (`*_conditional_reclaim`). */
  function Settle<K>(es: seq<Entry<K>>, i: nat, y: Entry<K>): seq<Entry<K>>
    requires i < |es|
  {
    if Reclaimable(y) then RemoveAt(es, i) else es[i := y]
  }

  /** Drop every entry nobody declares and nobody registers (`*_reclaim`). */
  function Purge<K>(es: seq<Entry<K>>): seq<Entry<K>> {
    if es == [] then []
    else (if Reclaimable(es[0]) then [] else [es[0]]) + Purge(es[1..])
  }

  // ---------------------------------------------------------------- events on entries

  /** Both machines of one attribute take the same event (the loops of `*_event`). */
  function Both<K>(x: Entry<K>, e: Event, p2p: bool): Entry<K> {
    Entry(x.key, AppNext(x.app, e, x.reg == IN, p2p), RegNext(x.reg, e))
  }

  /** An attribute event: the registrar gets the remapped event. */
  function One<K>(x: Entry<K>, e: Event, p2p: bool): Entry<K> {
    Entry(x.key, AppNext(x.app, e, x.reg == IN, p2p), RegNext(x.reg, Remap(e, x.reg)))
  }

  function All<K>(es: seq<Entry<K>>, e: Event, p2p: bool, selected: K -> bool): (r: seq<Entry<K>>)
    ensures |r| == |es|
    ensures forall i :: 0 <= i < |es| ==> r[i] == if selected(es[i].key) then Both(es[i], e, p2p) else es[i]
  {
    seq(|es|, i requires 0 <= i < |es| => if selected(es[i].key) then Both(es[i], e, p2p) else es[i])
  }

  /** Does a loop over the selected entries start the leave timer? */
  predicate AnyStarts<K>(es: seq<Entry<K>>, e: Event, selected: K -> bool) {
    exists i :: 0 <= i < |es| && selected(es[i].key) && StartsLeaveTimer(es[i].reg, e)
  }

  /** One tx! on one attribute, as the loops run it: the record it leaves decides about re-arming. */
  predicate WantsAnotherTx<K>(x: Entry<K>, p2p: bool) {
    TransitionImpliesTx(ApplicantFsm(FRESH_APPLICANT.(state := x.app), Tx, x.reg == IN, p2p))
  }

  predicate AnyAgain<K>(es: seq<Entry<K>>, p2p: bool) {
    exists i :: 0 <= i < |es| && WantsAnotherTx(es[i], p2p)
  }

  function Restart(t: Timers, started: bool, now: nat): Timers {
    if started then LvStart(t, now) else t
  }

  // ---------------------------------------------------------------- one machine per key

  function KeyAll<K>(o: Option<Entry<K>>, e: Event, p2p: bool, selected: K -> bool): Option<Entry<K>> {
    if o.Some? && selected(o.value.key) then Some(Both(o.value, e, p2p)) else o
  }

  function KeyPurge<K>(o: Option<Entry<K>>): Option<Entry<K>> {
    if o.Some? && Reclaimable(o.value) then None else o
  }

  lemma GetAt<K>(es: seq<Entry<K>>, i: nat)
    requires Distinct(es) && i < |es|
    ensures Get(es, es[i].key) == Some(es[i])
  {
    var j := Lookup(es, es[i].key);
  }

  lemma GetAll<K>(es: seq<Entry<K>>, e: Event, p2p: bool, selected: K -> bool, k: K)
    requires Distinct(es)
    ensures Distinct(All(es, e, p2p, selected))
    ensures Get(All(es, e, p2p, selected), k) == KeyAll(Get(es, k), e, p2p, selected)
  {
    hide AppNext, RegNext;
    var r := All(es, e, p2p, selected);
    assert forall j :: 0 <= j < |es| ==> r[j].key == es[j].key;
    assert Distinct(r);
    var i := Lookup(es, k);
    if i < |es| {
      GetAt(r, i);
    }
  }

  lemma GetInsert<K>(es: seq<Entry<K>>, i: nat, x: Entry<K>, k: K)
    requires Distinct(es) && i <= |es| && Get(es, x.key).None?
    ensures Distinct(InsertAt(es, i, x))
    ensures Get(InsertAt(es, i, x), k) == if k == x.key then Some(x) else Get(es, k)
  {
    var r := InsertAt(es, i, x);
    InsertIndex(es, i, x);
    assert Distinct(r);
    if k == x.key {
      GetAt(r, i);
    } else {
      var j := Lookup(es, k);
      if j < |es| {
        GetAt(r, if j < i then j else j + 1);
      }
    }
  }

  lemma GetUpdate<K>(es: seq<Entry<K>>, i: nat, x: Entry<K>, k: K)
    requires Distinct(es) && i < |es| && x.key == es[i].key
    ensures Distinct(es[i := x])
    ensures Get(es[i := x], k) == if k == x.key then Some(x) else Get(es, k)
  {
    var j := Lookup(es, k);
    if j < |es| {
      GetAt(es[i := x], j);
    }
  }

  lemma DistinctRemove<K>(es: seq<Entry<K>>, i: nat)
    requires Distinct(es) && i < |es|
    ensures Distinct(RemoveAt(es, i))
  {
    RemoveIndex(es, i);
  }

  lemma RemovedAbsent<K>(es: seq<Entry<K>>, i: nat)
    requires Distinct(es) && i < |es|
    ensures Get(RemoveAt(es, i), es[i].key).None?
  {
    RemoveIndex(es, i);
  }

  lemma GetRemove<K>(es: seq<Entry<K>>, i: nat, k: K)
    requires Distinct(es) && i < |es|
    ensures Distinct(RemoveAt(es, i))
    ensures Get(RemoveAt(es, i), k) == if k == es[i].key then None else Get(es, k)
  {
    var r := RemoveAt(es, i);
    DistinctRemove(es, i);
    hide Distinct;
    if k != es[i].key {
      RemoveIndex(es, i);
      var j := Lookup(es, k);
      if j < |es| {
        GetAt(r, if j < i then j else j - 1);
      }
    } else {
      RemovedAbsent(es, i);
    }
  }

  lemma GetSettle<K>(es: seq<Entry<K>>, i: nat, y: Entry<K>, k: K)
    requires Distinct(es) && i < |es| && y.key == es[i].key
    ensures Distinct(Settle(es, i, y))
    ensures Get(Settle(es, i, y), k) == if k == y.key then KeyPurge(Some(y)) else Get(es, k)
  {
    if Reclaimable(y) {
      GetRemove(es, i, k);
    } else {
      GetUpdate(es, i, y, k);
    }
  }

  /** Reclaiming keeps exactly the entries that are not reclaimable, in their order. */
  lemma {:induction false} PurgeExact<K(!new)>(es: seq<Entry<K>>)
    ensures forall x :: x in Purge(es) <==> x in es && !Reclaimable(x)
    ensures |Purge(es)| <= |es|
  {
    if es != [] {
      PurgeExact(es[1..]);
      assert es == [es[0]] + es[1..];
    }
  }

  lemma {:induction false} PurgeDistinct<K(!new)>(es: seq<Entry<K>>)
    requires Distinct(es)
    ensures Distinct(Purge(es))
  {
    if es != [] {
      PurgeDistinct(es[1..]);
      PurgeExact(es[1..]);
      assert forall x :: x in es[1..] ==> x.key != es[0].key;
    }
  }

  lemma GetPurge<K(!new)>(es: seq<Entry<K>>, k: K)
    requires Distinct(es)
    ensures Distinct(Purge(es))
    ensures Get(Purge(es), k) == KeyPurge(Get(es, k))
  {
    PurgeDistinct(es);
    PurgeExact(es);
    var o, r := Get(es, k), Get(Purge(es), k);
    if r.Some? {
      var i :| 0 <= i < |es| && es[i] == r.value;
      GetAt(es, i);
    }
  }
}
