/** The keys that a station declares, has registered, or has in their leave period; and which loops over the
    attributes start the shared leave timer. */
module KeySets {
  import opened Mrp
  import opened Participant

  function Declared<K(!new)>(es: seq<Entry<K>>): set<K> {
    set x | x in es && Declares(x.app) :: x.key
  }

  function Registered<K(!new)>(es: seq<Entry<K>>): set<K> {
    set x | x in es && x.reg == IN :: x.key
  }

  function Leaving<K(!new)>(es: seq<Entry<K>>): set<K> {
    set x | x in es && x.reg == LV :: x.key
  }

  predicate KeyDeclared<K>(o: Option<Entry<K>>) { o.Some? && Declares(o.value.app) }

  predicate KeyRegistered<K>(o: Option<Entry<K>>) { o.Some? && o.value.reg == IN }

  predicate KeyLeaving<K>(o: Option<Entry<K>>) { o.Some? && o.value.reg == LV }

  /** Membership in each set can be read off the attribute of the key. */
  lemma InSets<K(!new)>(es: seq<Entry<K>>, k: K)
    requires Distinct(es)
    ensures k in Declared(es) <==> KeyDeclared(Get(es, k))
    ensures k in Registered(es) <==> KeyRegistered(Get(es, k))
    ensures k in Leaving(es) <==> KeyLeaving(Get(es, k))
  {
    hide Declares;
    forall x | x in es ensures Get(es, x.key) == Some(x) {
      var i :| 0 <= i < |es| && es[i] == x;
      GetAt(es, i);
    }
  }

  /** A loop starts the leave timer if and only if it is one of a LeaveAll and finds something registered. */
  lemma StartsIff<K(!new)>(es: seq<Entry<K>>, e: Event, selected: K -> bool)
    requires e in {TxLA, RLA, Tx, Periodic, LvTimer}
    ensures AnyStarts(es, e, selected) <==>
            (e == TxLA || e == RLA) && exists k :: k in Registered(es) && selected(k)
  {
    if AnyStarts(es, e, selected) {
      var i :| 0 <= i < |es| && selected(es[i].key) && StartsLeaveTimer(es[i].reg, e);
      assert es[i] in es;
      assert es[i].key in Registered(es);
    }
    if k :| k in Registered(es) && selected(k) {
      var x :| x in es && x.reg == IN && x.key == k;
      var i :| 0 <= i < |es| && es[i] == x;
      assert StartsLeaveTimer(es[i].reg, e) <==> e == TxLA || e == RLA;
    }
  }

  lemma AllStartIff<K(!new)>(es: seq<Entry<K>>, e: Event, selected: K -> bool)
    requires (e == TxLA || e == RLA) && forall k :: selected(k)
    ensures AnyStarts(es, e, selected) <==> Registered(es) != {}
  {
    hide AnyStarts, Registered;
    StartsIff(es, e, selected);
    if Registered(es) != {} {
      var k :| k in Registered(es);
      assert selected(k);
    }
  }
}
