/** The single leave timer that all attributes of a database share, seen through what matters
    about it: which keys are leaving, and whether and until when the timer runs. */
module LeaveTimer {
  import opened Mrp

  datatype View<K> = View(leaving: set<K>, running: bool, expiry: nat)

  /** Whatever is leaving has a timer running for it. */
  ghost predicate Covered<K>(v: View<K>) {
    v.leaving != {} ==> v.running
  }

  /** One event of a database: expiry empties LV and stops the timer; an event that adds to LV re-arms the timer for
      the full 1000 ms; any other event leaves the timer as it is. */
  ghost predicate ViewStep<K>(v: View<K>, w: View<K>, now: nat, fired: bool) {
    if fired then w.leaving == {} && !w.running
    else if w.leaving <= v.leaving then w.running == v.running && w.expiry == v.expiry
    else w.running && w.expiry == now + 1000
  }

  /** What `f` reads off each input of a run. */
  function Mapped<S, T>(run: seq<S>, f: S -> T): (r: seq<T>)
    ensures |r| == |run| && forall i :: 0 <= i < |run| ==> r[i] == f(run[i])
  {
    seq(|run|, i requires 0 <= i < |run| => f(run[i]))
  }

  /** A run in real time: clock readings never go back and the timer never fires early. */
  ghost predicate TimedRun<K>(vs: seq<View<K>>, at: seq<nat>, fired: seq<bool>) {
    && |vs| == |at| + 1 && |fired| == |at|
    && (forall i :: 0 <= i < |at| ==> ViewStep(vs[i], vs[i + 1], at[i], fired[i]))
    && (forall i, j :: 0 <= i < j < |at| ==> at[i] <= at[j])
    && (forall i :: 0 <= i < |at| && fired[i] ==> vs[i].running && vs[i].expiry <= at[i])
  }

  lemma {:induction false} AlwaysCovered<K>(vs: seq<View<K>>, at: seq<nat>, fired: seq<bool>, m: nat)
    requires TimedRun(vs, at, fired) && Covered(vs[0]) && m <= |at|
    ensures Covered(vs[m])
  {
    if m > 0 {
      AlwaysCovered(vs, at, fired, m - 1);
      assert ViewStep(vs[m - 1], vs[m], at[m - 1], fired[m - 1]);
    }
  }

  /** While `k` stays in LV the timer runs until a full period after `k` entered LV. */
  lemma {:induction false} ExpiryHolds<K>(vs: seq<View<K>>, at: seq<nat>, fired: seq<bool>, k: K, i: nat, m: nat)
    requires TimedRun(vs, at, fired) && i < m <= |at|
    requires k !in vs[i].leaving && forall n :: i < n <= m ==> k in vs[n].leaving
    ensures vs[m].running && vs[m].expiry >= at[i] + 1000
  {
    assert ViewStep(vs[m - 1], vs[m], at[m - 1], fired[m - 1]);
    assert k in vs[m].leaving;
    if m > i + 1 {
      ExpiryHolds(vs, at, fired, k, i, m - 1);
      assert at[i] <= at[m - 1];
    }
  }

  /** A key that began leaving at step `i` and is still leaving when the timer fires at step `j`
      has been leaving for at least a full leave period. */
  lemma NeverEarly<K>(vs: seq<View<K>>, at: seq<nat>, fired: seq<bool>, k: K, i: nat, j: nat)
    requires TimedRun(vs, at, fired) && i < j < |at|
    requires k !in vs[i].leaving && forall n :: i < n <= j ==> k in vs[n].leaving
    requires fired[j]
    ensures at[j] >= at[i] + 1000
  {
    ExpiryHolds(vs, at, fired, k, i, j);
  }
}
