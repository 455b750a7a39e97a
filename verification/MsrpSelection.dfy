/** Which attributes an MSRP station selects for a message, and that a station with nothing to say says nothing. */
module MsrpSelection {
  import opened Mrp
  import Applicant
  import opened Participant
  import opened Msrp
  import opened Transmission
  import opened Wire
  import opened MsrpCodec
  import opened MsrpRoundTrip
  import opened MsrpMessages
  import opened MsrpFrames
  import opened MsrpStations
  import opened MsrpSender

  /** `y` can follow `x` in a vector; domains never do. */
  predicate Continues(fmt: Format, x: Offer, y: Offer) {
    fmt != DomainFormat && |x.full| == FullLen(fmt) && y.mine && y.tx && y.full == Advance(fmt, x.full)
  }

  /** From the mandatory attribute `j` a run leads to `i`. */
  ghost predicate Reaches(fmt: Format, os: seq<Offer>, j: int, i: int) {
    0 <= j <= i < |os| && Mandatory(os[j]) && forall k :: j < k <= i ==> Continues(fmt, os[k - 1], os[k])
  }

  ghost predicate Reached(fmt: Format, os: seq<Offer>, i: int) {
    exists j :: Reaches(fmt, os, j, i)
  }

  /** A vector is a run that cannot be extended. */
  lemma {:induction false} RunIsMaximal(fmt: Format, os: seq<Offer>)
    requires WellFormedOffers(fmt, os) && os != [] && |os[0].full| == FullLen(fmt)
    ensures var n := VectorLength(fmt, os);
            && (forall k :: 0 < k < n ==> Continues(fmt, os[k - 1], os[k]))
            && (n < |os| ==> !Continues(fmt, os[n - 1], os[n]))
    decreases |os|
  {
    hide Advance;
    var n, rest := VectorLength(fmt, os), os[1..];
    assert forall k :: 0 < k < |os| ==> os[k] == rest[k - 1];
    if n > 1 {
      assert VectorLength(fmt, rest) == n - 1;
      RunIsMaximal(fmt, rest);
    }
  }

  lemma ReachesShift(fmt: Format, os: seq<Offer>, n: nat, j: nat, i: nat)
    requires n <= j <= i < |os|
    ensures Reaches(fmt, os, j, i) <==> Reaches(fmt, os[n..], j - n, i - n)
  {
    hide Continues, Mandatory;
    var rest := os[n..];
    assert forall k :: n <= k < |os| ==> os[k] == rest[k - n];
    assert forall k :: 0 <= k < |rest| ==> rest[k] == os[k + n];
    if Reaches(fmt, rest, j - n, i - n) {
      forall k | j < k <= i ensures Continues(fmt, os[k - 1], os[k]) {
        assert Continues(fmt, rest[k - n - 1], rest[k - n]);
      }
    }
  }

  lemma ReachedTail(fmt: Format, os: seq<Offer>, n: nat, i: nat)
    requires WellFormedOffers(fmt, os) && 1 <= n <= i < |os|
    requires if Mandatory(os[0]) then n == VectorLength(fmt, os) else n == 1
    ensures Reached(fmt, os, i) <==> Reached(fmt, os[n..], i - n)
  {
    hide Continues, VectorLength;
    if Reached(fmt, os, i) {
      var j :| Reaches(fmt, os, j, i);
      if Mandatory(os[0]) {
        RunIsMaximal(fmt, os);
      }
      assert j >= n;
      ReachesShift(fmt, os, n, j, i);
    }
    if Reached(fmt, os[n..], i - n) {
      var j :| Reaches(fmt, os[n..], j, i - n);
      ReachesShift(fmt, os, n, j + n, i);
    }
  }

  lemma {:induction false} SelectedOffered(fmt: Format, os: seq<Offer>)
    requires WellFormedOffers(fmt, os)
    ensures forall x :: x in Selected(fmt, os) ==> Offered(fmt, os, x)
    decreases |os|
  {
    hide VectorLength, ItemOf, Offered;
    if os != [] {
      if !Mandatory(os[0]) {
        SelectedOffered(fmt, os[1..]);
        OfferedLater(fmt, os, 1, Selected(fmt, os[1..]));
      } else {
        var n := VectorLength(fmt, os);
        RunFacts(fmt, os);
        RunAllMine(fmt, os);
        SelectedOffered(fmt, os[n..]);
        OfferedLater(fmt, os, n, Selected(fmt, os[n..]));
        RunOffered(fmt, os, n);
      }
    }
  }

  lemma RunOffered(fmt: Format, os: seq<Offer>, n: nat)
    requires WellFormedOffers(fmt, os) && n <= |os| && AllMine(fmt, os[..n]) && forall i :: 0 <= i < n ==> os[i].mine
    ensures forall x :: x in ItemsOf(fmt, os[..n]) ==> Offered(fmt, os, x)
  {
    hide ItemOf;
    forall x | x in ItemsOf(fmt, os[..n]) ensures Offered(fmt, os, x) {
      var k :| 0 <= k < n && ItemsOf(fmt, os[..n])[k] == x;
      assert os[..n][k] == os[k];
    }
  }

  /** What is offered behind position `n` is not about offer `i` in front of it. */
  lemma NotAhead(fmt: Format, os: seq<Offer>, n: nat, i: nat)
    requires WellFormedOffers(fmt, os) && DifferentStreams(fmt, os) && i < n <= |os| && os[i].mine
    requires WellFormedOffers(fmt, os[n..])
    ensures ItemOf(fmt, os[i]) !in Selected(fmt, os[n..])
  {
    hide ItemOf, Selected, IdLen, WellFormedOffers;
    SelectedOffered(fmt, os[n..]);
    assert |os[i].full| == FullLen(fmt) by { MineLength(fmt, os, i); }
    if ItemOf(fmt, os[i]) in Selected(fmt, os[n..]) {
      ItemStream(fmt, os[i]);
      var l := LaterId(fmt, os, n, ItemOf(fmt, os[i]));
    }
  }

  lemma MineLength(fmt: Format, os: seq<Offer>, i: nat)
    requires WellFormedOffers(fmt, os) && i < |os| && os[i].mine
    ensures |os[i].full| == FullLen(fmt)
  {
  }

  lemma {:induction false} SelectedTail(fmt: Format, os: seq<Offer>, n: nat, i: nat)
    requires WellFormedOffers(fmt, os) && DifferentStreams(fmt, os) && 1 <= n <= i < |os| && os[i].mine
    requires if Mandatory(os[0]) then n == VectorLength(fmt, os) else n == 1
    requires WellFormedOffers(fmt, os[n..])
    ensures ItemOf(fmt, os[i]) in Selected(fmt, os) <==> ItemOf(fmt, os[i]) in Selected(fmt, os[n..])
  {
    hide VectorLength, ItemOf, FullChain, IdLen;
    if Mandatory(os[0]) {
      RunFacts(fmt, os);
      RunAllMine(fmt, os);
      ChainIsMine(fmt, os[..n]);
      var head := ItemsOf(fmt, os[..n]);
      forall k | 0 <= k < n ensures head[k] != ItemOf(fmt, os[i]) {
        RunIds(fmt, os, n, k);
        ItemStream(fmt, os[i]);
      }
    }
  }

  /** Exactly the attributes that are mandatory, or that a run from a mandatory one reaches, are selected. */
  lemma {:induction false} SelectedExactly(fmt: Format, os: seq<Offer>, i: nat)
    requires WellFormedOffers(fmt, os) && DifferentStreams(fmt, os) && i < |os| && os[i].mine
    ensures ItemOf(fmt, os[i]) in Selected(fmt, os) <==> Reached(fmt, os, i)
    decreases |os|
  {
    hide VectorLength, ItemOf, Continues, DifferentStreams, WellFormedOffers, Reached;
    var n := 1;
    if Mandatory(os[0]) {
      MineLength(fmt, os, 0);
      n := VectorLength(fmt, os);
    }
    LaterDifferent(fmt, os, n);
    if i >= n {
      SelectedExactly(fmt, os[n..], i - n);
      ReachedTail(fmt, os, n, i);
      SelectedTail(fmt, os, n, i);
    } else if Mandatory(os[0]) {
      InHead(fmt, os, i);
    } else {
      NotAhead(fmt, os, 1, 0);
      FirstNotReached(fmt, os);
    }
  }

  lemma {:induction false} InHead(fmt: Format, os: seq<Offer>, i: nat)
    requires WellFormedOffers(fmt, os) && os != [] && Mandatory(os[0]) && i < VectorLength(fmt, os) && os[i].mine
    ensures ItemOf(fmt, os[i]) in Selected(fmt, os) && Reached(fmt, os, i)
  {
    hide VectorLength, ItemOf, Continues, FullChain;
    var n := VectorLength(fmt, os);
    RunFacts(fmt, os);
    ChainIsMine(fmt, os[..n]);
    RunIsMaximal(fmt, os);
    assert ItemsOf(fmt, os[..n])[i] == ItemOf(fmt, os[i]);
    assert Reaches(fmt, os, 0, i);
  }

  lemma FirstNotReached(fmt: Format, os: seq<Offer>)
    requires os != [] && !Mandatory(os[0])
    ensures !Reached(fmt, os, 0)
  {
    hide Continues;
  }

  // ---------------------------------------------------------------- who has to speak

  /** At tx! exactly the pending attributes are mandatory, at txLA! exactly the declared ones. */
  lemma MandatoryIff(fmt: Format, x: Attribute, e: Event)
    requires WellTyped(x.key) && (e == Tx || e == TxLA)
    ensures Mandatory(OfferFor(fmt, x, e)) <==>
            x.key.kind == KindOf(fmt) && if e == Tx then Pending(x.app) else Declares(x.app)
  {
    hide AppRequest, AppNext, PduCode, RegNext, FullOf, Declares, Pending, WellTyped;
    RequestIsSendable(x.app, e);
    Applicant.TableFollowsRules(x.app, e, false, false);
    Applicant.MembersDeclare(x.app);
  }

  /** What the receiver makes of an offered attribute. With tx!, JoinIn and In tell that the sender has it registered; a
      LeaveAll has just ended that. */
  lemma WhatIsSaid(fmt: Format, x: Attribute, e: Event)
    requires WellTyped(x.key) && (e == Tx || e == TxLA)
    ensures var o, known := OfferFor(fmt, x, e), e == Tx && x.reg == IN;
            && Encodable(o)
            && RecvEvent(CodeOf(o)) ==
               if x.app in {VN, AN} then RNew
               else if x.app == LA && e == Tx then RLv
               else if x.app in {AA, AP, QA} || x.app == (if e == Tx then VP else QP) then
                 (if known then RJoinIn else RJoinMt)
               else if known then RIn else RMt
  {
    hide FullOf, WellTyped;
  }

  lemma {:induction false} NothingSelected(fmt: Format, os: seq<Offer>, p: nat, room: int, lva: bool)
    requires WellFormedOffers(fmt, os) && forall i :: 0 <= i < |os| ==> !Mandatory(os[i])
    ensures EmitVectors(fmt, os, p, room, lva) == Vectors([])
    decreases |os|
  {
    if os != [] && p < room - LeastVector(fmt) - 2 {
      NothingSelected(fmt, os[1..], p, room, lva);
    }
  }

  lemma {:induction false} SilentMessages(q: Offers, lva: bool, n: nat)
    requires WellFormedAll(q) && n <= 4
    requires forall fmt, i :: 0 <= i < |q.For(fmt)| ==> !Mandatory(q.For(fmt)[i])
    ensures Messages(q, lva, false, n) == Some([])
  {
    hide EmitVectors, Mandatory;
    if n > 0 {
      SilentMessages(q, lva, n - 1);
      var fmt := Nth(n - 1);
      NothingSelected(fmt, q.For(fmt), 0, ROOM, lva);
      var list: seq<byte> := [];
      assert NthMessage(q, lva, false, n - 1, list) == Some(list) && list + list == list;
    }
  }

  /** A station with nothing to send is silent at tx!. */
  lemma QuietIsSilent(station: seq<byte>, db: Db)
    requires Valid(db) && !SomePending(db.entries)
    ensures FrameOf(station, db, Transmit) == None
  {
    hide Messages, OfferFor, Pending, WellTyped, Unique;
    EntriesTyped(db);
    var q := Offering(db.entries, Tx);
    forall fmt, i | 0 <= i < |q.For(fmt)| ensures !Mandatory(q.For(fmt)[i]) {
      MandatoryIff(fmt, db.entries[i], Tx);
    }
    SilentMessages(q, db.t.laTx, 4);
  }
}
