/** What a transmit opportunity does to the applicants of any of the three applications, and when one is needed. */
module Transmission {
  import opened Mrp
  import opened Participant

  /** One tx! strictly lowers a positive rank, leaves a silent applicant alone, and asks for another
      opportunity exactly if the rank is still positive. */
  lemma TxLowersRank<K>(x: Entry<K>, p2p: bool)
    ensures var y := Both(x, Tx, p2p);
            && (if Rank(x.app) > 0 then Rank(y.app) < Rank(x.app) else y.app == x.app)
            && (WantsAnotherTx(x, p2p) <==> Rank(y.app) > 0)
  {
  }

  ghost predicate SomePending<K>(es: seq<Entry<K>>) {
    exists i :: 0 <= i < |es| && Pending(es[i].app)
  }

  lemma PendingIsRank(s: AppState)
    ensures Pending(s) <==> Rank(s) > 0
  {
  }

  /** The loop of tx! asks for another opportunity if and only if it leaves something to send. */
  lemma RearmedIff<K(!new)>(es: seq<Entry<K>>, p2p: bool, selected: K -> bool)
    requires forall k :: selected(k)
    ensures AnyAgain(es, p2p) <==> SomePending(All(es, Tx, p2p, selected))
  {
    hide WantsAnotherTx, Both, Pending, Rank;
    var r := All(es, Tx, p2p, selected);
    forall i | 0 <= i < |es| ensures WantsAnotherTx(es[i], p2p) <==> Pending(r[i].app) {
      TxLowersRank(es[i], p2p);
      PendingIsRank(r[i].app);
    }
  }

  /** Dropping attributes, or changing nothing but registrations, leaves nothing new to send. */
  lemma StillPending<K(!new)>(es: seq<Entry<K>>, mid: seq<Entry<K>>, es': seq<Entry<K>>)
    requires |mid| == |es| && forall i :: 0 <= i < |es| ==> mid[i].app == es[i].app
    requires forall x :: x in es' ==> x in mid
    ensures SomePending(es') ==> SomePending(es)
  {
    hide Pending;
    if i :| 0 <= i < |es'| && Pending(es'[i].app) {
      assert es'[i] in mid;
      var j :| 0 <= j < |mid| && mid[j] == es'[i];
      assert Pending(es[j].app);
    }
  }

  /** The loop of leavetimer! moves no applicant. */
  lemma ExpiryKeepsApplicants<K>(es: seq<Entry<K>>, p2p: bool, selected: K -> bool)
    ensures var r := All(es, LvTimer, p2p, selected);
            forall i :: 0 <= i < |es| ==> r[i].app == es[i].app
  {
    hide RegNext;
  }

  /** The loop of leavealltimer! leaves an applicant with something to send unless its LeaveAll frame re-announces it
      completely. */
  lemma LeaveAllPending<K(!new)>(es: seq<Entry<K>>, p2p: bool, selected: K -> bool)
    requires forall k :: selected(k)
    ensures SomePending(All(es, TxLA, p2p, selected)) <==>
            exists i :: 0 <= i < |es| && es[i].app !in {AN, QP, AP, AA, QA}
  {
    hide RegNext;
    var r := All(es, TxLA, p2p, selected);
    forall i | 0 <= i < |es| ensures Pending(r[i].app) <==> es[i].app !in {AN, QP, AP, AA, QA} {
      assert r[i] == Both(es[i], TxLA, p2p);
    }
  }
}
