/** What a frame carries when it has room for all that an MSRP station wants to say. */
module MsrpSender {
  import opened Mrp
  import opened Participant
  import opened Msrp
  import opened Wire
  import Eui64
  import opened StreamValues
  import opened MsrpCodec
  import opened MsrpRoundTrip
  import opened MsrpMessages
  import opened MsrpFrames
  import opened MsrpStations

  // ---------------------------------------------------------------- what a database sends

  /** How many bytes at the front of a value tell whose attribute it is: the stream ID, or the class ID. */
  function IdLen(fmt: Format): nat {
    if fmt == DomainFormat then 1 else 8
  }

  /** No two offers of the kind being sent have the same stream or class ID. */
  ghost predicate DifferentStreams(fmt: Format, os: seq<Offer>)
    requires WellFormedOffers(fmt, os)
  {
    forall i, j :: 0 <= i < j < |os| && os[i].mine && os[j].mine ==>
      os[i].full[..IdLen(fmt)] != os[j].full[..IdLen(fmt)]
  }

  lemma LaterDifferent(fmt: Format, os: seq<Offer>, n: nat)
    requires WellFormedOffers(fmt, os) && DifferentStreams(fmt, os) && n <= |os|
    ensures WellFormedOffers(fmt, os[n..]) && DifferentStreams(fmt, os[n..])
  {
    assert forall i :: 0 <= i < |os[n..]| ==> os[n..][i] == os[n + i];
  }

  ghost predicate Offered(fmt: Format, os: seq<Offer>, x: Item)
    requires WellFormedOffers(fmt, os)
  {
    exists i :: 0 <= i < |os| && os[i].mine && x == ItemOf(fmt, os[i])
  }

  ghost predicate DifferentItems(fmt: Format, items: seq<Item>) {
    && (forall i :: 0 <= i < |items| ==> |items[i].value| >= IdLen(fmt))
    && (forall i, j :: 0 <= i < j < |items| ==> items[i].value[..IdLen(fmt)] != items[j].value[..IdLen(fmt)])
  }

  /** What is sent comes from the offers, and no stream or class ID is sent twice. */
  lemma {:induction false} SentDifferent(fmt: Format, os: seq<Offer>, p: nat, room: int)
    requires WellFormedOffers(fmt, os) && DifferentStreams(fmt, os)
    ensures DifferentItems(fmt, Sent(fmt, os, p, room))
    ensures forall x :: x in Sent(fmt, os, p, room) ==> Offered(fmt, os, x)
    decreases |os|
  {
    hide VectorLength, ItemOf, Offered, DifferentItems;
    if os == [] || p >= room - LeastVector(fmt) - 2 {
      NothingDiffers(fmt);
    } else if !os[0].mine || !os[0].tx || os[0].optional {
      SentDifferent(fmt, os[1..], p, room);
      OfferedLater(fmt, os, 1, Sent(fmt, os[1..], p, room));
    } else {
      var n := VectorLength(fmt, os);
      RunFacts(fmt, os);
      RunAllMine(fmt, os);
      var rest := Sent(fmt, os[n..], (if p == 0 then 4 else p) + VectorSize(fmt, n), room);
      SentDifferent(fmt, os[n..], (if p == 0 then 4 else p) + VectorSize(fmt, n), room);
      OfferedLater(fmt, os, n, rest);
      RunDiffers(fmt, os, n, rest);
    }
  }

  lemma NothingDiffers(fmt: Format)
    ensures DifferentItems(fmt, [])
  {
  }

  lemma RunAllMine(fmt: Format, os: seq<Offer>)
    requires os != [] && |os[0].full| == FullLen(fmt) && os[0].mine
    ensures forall i :: 0 <= i < VectorLength(fmt, os) ==> os[i].mine
  {
    RunIsMine(fmt, os[1..], os[0].full);
    assert forall i :: 0 < i < |os| ==> os[i] == os[1..][i - 1];
  }

  lemma OfferedLater(fmt: Format, os: seq<Offer>, n: nat, rest: seq<Item>)
    requires WellFormedOffers(fmt, os) && n <= |os| && WellFormedOffers(fmt, os[n..])
    requires forall x :: x in rest ==> Offered(fmt, os[n..], x)
    ensures forall x :: x in rest ==> Offered(fmt, os, x)
  {
    hide ItemOf;
    forall x | x in rest ensures Offered(fmt, os, x) {
      var i :| 0 <= i < |os[n..]| && os[n..][i].mine && x == ItemOf(fmt, os[n..][i]);
      assert os[n..][i] == os[n + i];
    }
  }

  lemma ItemStream(fmt: Format, o: Offer)
    requires |o.full| == FullLen(fmt)
    ensures |ItemOf(fmt, o).value| >= IdLen(fmt) && ItemOf(fmt, o).value[..IdLen(fmt)] == o.full[..IdLen(fmt)]
  {
  }

  /** Items of a run have the IDs of its offers. */
  lemma RunIds(fmt: Format, os: seq<Offer>, n: nat, k: nat)
    requires n <= |os| && AllMine(fmt, os[..n]) && k < n
    ensures |os[k].full| == FullLen(fmt)
    ensures var x := ItemsOf(fmt, os[..n])[k];
            x == ItemOf(fmt, os[k]) && |x.value| >= IdLen(fmt) && x.value[..IdLen(fmt)] == os[k].full[..IdLen(fmt)]
  {
    hide ItemOf;
    assert os[..n][k] == os[k];
    ItemStream(fmt, os[k]);
  }

  /** An item offered behind the run has the ID of an offer behind the run. */
  lemma LaterId(fmt: Format, os: seq<Offer>, n: nat, x: Item) returns (i: nat)
    requires WellFormedOffers(fmt, os) && n <= |os| && WellFormedOffers(fmt, os[n..]) && Offered(fmt, os[n..], x)
    ensures n <= i < |os| && os[i].mine && |x.value| >= IdLen(fmt)
    ensures x.value[..IdLen(fmt)] == os[i].full[..IdLen(fmt)]
  {
    hide ItemOf;
    var l :| 0 <= l < |os[n..]| && os[n..][l].mine && x == ItemOf(fmt, os[n..][l]);
    assert os[n..][l] == os[n + l];
    ItemStream(fmt, os[n + l]);
    i := n + l;
  }

  lemma RunDiffers(fmt: Format, os: seq<Offer>, n: nat, rest: seq<Item>)
    requires WellFormedOffers(fmt, os) && DifferentStreams(fmt, os) && n <= |os| && AllMine(fmt, os[..n])
    requires forall i :: 0 <= i < n ==> os[i].mine
    requires DifferentItems(fmt, rest) && WellFormedOffers(fmt, os[n..])
    requires forall x :: x in rest ==> Offered(fmt, os[n..], x)
    ensures DifferentItems(fmt, ItemsOf(fmt, os[..n]) + rest)
    ensures forall x :: x in ItemsOf(fmt, os[..n]) + rest ==> Offered(fmt, os, x)
  {
    hide ItemOf, WellFormedOffers, IdLen;
    var head, len := ItemsOf(fmt, os[..n]), IdLen(fmt);
    OfferedLater(fmt, os, n, rest);
    forall k | 0 <= k < n ensures |head[k].value| >= len && Offered(fmt, os, head[k]) {
      RunIds(fmt, os, n, k);
    }
    forall k, l | 0 <= k < l < n ensures head[k].value[..len] != head[l].value[..len] {
      RunIds(fmt, os, n, k);
      RunIds(fmt, os, n, l);
    }
    forall k, l | 0 <= k < n && 0 <= l < |rest| ensures head[k].value[..len] != rest[l].value[..len] {
      RunIds(fmt, os, n, k);
      assert rest[l] in rest;
      var i := LaterId(fmt, os, n, rest[l]);
    }
  }

  // ---------------------------------------------------------------- from a valid database

  lemma IdOfFull(fmt: Format, r: Declaration)
    requires WellTyped(r) && r.kind == KindOf(fmt)
    ensures |FullOf(r)| == FullLen(fmt)
    ensures FullOf(r)[..IdLen(fmt)] == if fmt == DomainFormat then [r.number] else Eui64.Write(r.number)
  {
    hide Eui64.Write;
  }

  /** A database without duplicates offers no stream or class ID twice. */
  lemma DatabaseStreams(fmt: Format, es: seq<Attribute>, e: Event)
    requires Unique(es) && AllTyped(es) && WellFormedOffers(fmt, OffersFor(fmt, es, e))
    ensures DifferentStreams(fmt, OffersFor(fmt, es, e))
  {
    hide Eui64.Write, Eui64.Value, AppRequest, FullOf, PduCode, RegNext, WellTyped;
    var os, n := OffersFor(fmt, es, e), IdLen(fmt);
    forall i, j | 0 <= i < j < |os| && os[i].mine && os[j].mine ensures os[i].full[..n] != os[j].full[..n] {
      var k, l := es[i].key, es[j].key;
      IdOfFull(fmt, k);
      IdOfFull(fmt, l);
      assert k.number != l.number by { assert IdOf(k) != IdOf(l); }
      if fmt != DomainFormat {
        NumbersApart(k, l);
      }
    }
  }

  lemma NumbersApart(k: Declaration, l: Declaration)
    requires WellTyped(k) && WellTyped(l) && k.kind != Domain && l.kind != Domain && k.number != l.number
    ensures Eui64.Write(k.number) != Eui64.Write(l.number)
  {
    hide Eui64.Write, Eui64.Value;
    NumberBack(k.number);
    NumberBack(l.number);
  }

  ghost predicate ProperItems(fmt: Format, items: seq<Item>) {
    forall i :: 0 <= i < |items| ==> |items[i].value| == FirstLen(fmt) && 0 <= items[i].code < 6
  }

  /** The declaration an offered item makes comes from an attribute of the sender. */
  lemma OfferedIs(fmt: Format, es: seq<Attribute>, e: Event, x: Item) returns (l: nat)
    requires AllTyped(es) && (e == Tx || e == TxLA) && WellFormedOffers(fmt, OffersFor(fmt, es, e))
    requires Offered(fmt, OffersFor(fmt, es, e), x)
    ensures |x.value| == FirstLen(fmt) && 0 <= x.code < 6
    ensures l < |es| && es[l].key.kind == KindOf(fmt) && DeclarationOf(fmt, x) == Carried(es[l].key)
    ensures fmt == ListenerFormat ==> x.substate == es[l].key.substate
  {
    hide AppRequest, PduCode, RegNext, FullOf, WellTyped, DeclarationOf, Carried, MineEncodable;
    var os := OffersFor(fmt, es, e);
    OffersEncodable(fmt, es, e);
    l :| 0 <= l < |os| && os[l].mine && x == ItemOf(fmt, os[l]);
    assert os[l] == OfferFor(fmt, es[l], e);
    MineIs(os, l);
    FieldsBack(fmt, es[l].key, x.code, x.substate);
  }

  lemma MineIs(os: seq<Offer>, l: nat)
    requires MineEncodable(os) && l < |os| && os[l].mine
    ensures Encodable(os[l])
  {
  }

  /** All listeners of a database have one of the three substates. */
  ghost predicate ListenersDeclared(es: seq<Attribute>) {
    forall i :: 0 <= i < |es| ==> es[i].key.kind == Listener ==> 1 <= es[i].key.substate <= 3
  }

  // ---------------------------------------------------------------- what a message raises

  function ItemInputs(fmt: Format, items: seq<Item>): (r: seq<Input>)
    requires ProperItems(fmt, items)
    ensures |r| == |items|
    ensures forall i :: 0 <= i < |items| ==> r[i] == On(RecvEvent(items[i].code), DeclarationOf(fmt, items[i]))
  {
    seq(|items|, i requires 0 <= i < |items| => On(RecvEvent(items[i].code), DeclarationOf(fmt, items[i])))
  }

  lemma {:induction false} RaisedItems(fmt: Format, items: seq<Item>)
    requires ProperItems(fmt, items)
    ensures RaisedAll(fmt, Spoken(items)) == ItemInputs(fmt, items)
    decreases |items|
  {
    hide DeclarationOf, FirstLen;
    if items != [] {
      var rest := items[1..];
      assert Spoken(items)[1..] == Spoken(rest);
      RaisedItems(fmt, rest);
      assert ItemInputs(fmt, items) == [ItemInputs(fmt, items)[0]] + ItemInputs(fmt, rest);
    }
  }

  function LaInputs(fmt: Format, lva: bool): seq<Input> {
    if lva then [RecvLeaveAll(Some(KindOf(fmt)))] else []
  }

  lemma RaisedLeaveAll(fmt: Format, lva: bool, hs: seq<Heard>)
    ensures RaisedAll(fmt, LaHeard(lva) + hs) == LaInputs(fmt, lva) + RaisedAll(fmt, hs)
  {
    if lva {
      var all := LaHeard(lva) + hs;
      assert all[0] == LeaveAll && all[1..] == hs;
    } else {
      assert LaHeard(lva) + hs == hs;
    }
  }

  /** What the messages from the `n`-th on raise. */
  function PartsFrom(q: Offers, lva: bool, sendEmpty: bool, n: nat): seq<Input>
    requires WellFormedAll(q) && n <= 4 && forall m :: 0 <= m <= 4 ==> Messages(q, lva, sendEmpty, m).Some?
    decreases 4 - n
  {
    if n == 4 then [] else Part(q, lva, sendEmpty, n) + PartsFrom(q, lva, sendEmpty, n + 1)
  }

  lemma {:induction false} PartsSplit(q: Offers, lva: bool, sendEmpty: bool, n: nat)
    requires WellFormedAll(q) && n <= 4 && forall m :: 0 <= m <= 4 ==> Messages(q, lva, sendEmpty, m).Some?
    ensures Parts(q, lva, sendEmpty, 4) == Parts(q, lva, sendEmpty, n) + PartsFrom(q, lva, sendEmpty, n)
    decreases 4 - n
  {
    hide WellFormedAll, Messages, Part;
    if n < 4 {
      PartsSplit(q, lva, sendEmpty, n + 1);
    }
  }

  // ---------------------------------------------------------------- with room for everything

  /** The most a message can take: its header, its endmark, and its vectors or an empty LeaveAll. */
  function Need(fmt: Format, os: seq<Offer>): nat
    requires WellFormedOffers(fmt, os)
  {
    var size := TotalSize(fmt, os);
    6 + if size > 2 + FirstLen(fmt) then size else 2 + FirstLen(fmt)
  }

  function Needs(q: Offers, n: nat): nat
    requires WellFormedAll(q)
  {
    if n == 0 then 0 else Needs(q, n - 1) + Need(Nth(n - 1), q.For(Nth(n - 1)))
  }

  lemma {:induction false} NeedsGrow(q: Offers, n: nat, m: nat)
    requires WellFormedAll(q) && n <= m
    ensures Needs(q, n) <= Needs(q, m)
    decreases m
  {
    hide WellFormedAll, Need;
    if n < m {
      NeedsGrow(q, n, m - 1);
    }
  }

  ghost predicate AllMineEncodable(q: Offers) {
    forall fmt :: MineEncodable(q.For(fmt))
  }

  /** With room for the vector, the margins and the endmarks, a message goes out whole. */
  lemma MessageWhole(fmt: Format, os: seq<Offer>, room: int, lva: bool, sendEmpty: bool)
    requires WellFormedOffers(fmt, os) && MineEncodable(os) && Need(fmt, os) + 40 <= room
    ensures var m := EmitMessage(fmt, os, room, lva, sendEmpty); m.Some? && |m.value| <= Need(fmt, os)
    ensures Sent(fmt, os, 0, room) == Selected(fmt, os)
  {
    hide EmitVectors, Sent, Selected, TotalSize, WellFormedOffers, MineEncodable;
    AmpleRoom(fmt, os, 0, room, lva);
  }

  lemma {:induction false} MessagesWhole(q: Offers, lva: bool, sendEmpty: bool, n: nat)
    requires WellFormedAll(q) && AllMineEncodable(q) && n <= 4 && Needs(q, 4) <= 1945
    ensures var list := Messages(q, lva, sendEmpty, n); list.Some? && |list.value| <= Needs(q, n)
  {
    hide EmitMessage, Need, WellFormedAll, AllMineEncodable;
    if n > 0 {
      MessagesWhole(q, lva, sendEmpty, n - 1);
      NthWhole(q, lva, sendEmpty, n - 1);
    }
  }

  lemma NthWhole(q: Offers, lva: bool, sendEmpty: bool, n: nat)
    requires WellFormedAll(q) && AllMineEncodable(q) && n < 4 && Needs(q, 4) <= 1945
    requires var list := Messages(q, lva, sendEmpty, n); list.Some? && |list.value| <= Needs(q, n)
    ensures var fmt, list := Nth(n), Messages(q, lva, sendEmpty, n).value;
            var m := NthMessage(q, lva, sendEmpty, n, list);
            && m.Some? && |m.value| <= Need(fmt, q.For(fmt))
            && Sent(fmt, q.For(fmt), 0, ROOM - |list|) == Selected(fmt, q.For(fmt))
  {
    hide EmitMessage, Need, Sent, Selected, Messages;
    var fmt, list := Nth(n), Messages(q, lva, sendEmpty, n).value;
    NeedsGrow(q, n + 1, 4);
    assert WellFormedOffers(fmt, q.For(fmt)) && MineEncodable(q.For(fmt));
    MessageWhole(fmt, q.For(fmt), ROOM - |list|, lva, sendEmpty);
  }

  // ---------------------------------------------------------------- the parts of a frame

  /** The sender, and that its frame has room for all it wants to say. */
  ghost predicate Sender(es: seq<Attribute>, e: Event, q: Offers) {
    && Unique(es) && AllTyped(es) && ListenersDeclared(es) && (e == Tx || e == TxLA) && q == Offering(es, e)
    && Needs(q, 4) <= 1945
  }

  lemma SenderFormed(es: seq<Attribute>, e: Event, q: Offers, fmt: Format)
    requires Sender(es, e, q)
    ensures WellFormedAll(q) && WellFormedOffers(fmt, q.For(fmt))
  {
  }

  lemma SenderWhole(es: seq<Attribute>, e: Event, q: Offers, lva: bool, sendEmpty: bool, n: nat)
    requires Sender(es, e, q) && n <= 4
    ensures Messages(q, lva, sendEmpty, n).Some? && |Messages(q, lva, sendEmpty, n).value| <= 1945
    ensures n < 4 ==> var fmt, list := Nth(n), Messages(q, lva, sendEmpty, n).value;
                      && NthMessage(q, lva, sendEmpty, n, list).Some?
                      && Sent(fmt, q.For(fmt), 0, ROOM - |list|) == Selected(fmt, q.For(fmt))
  {
    hide Messages, NthMessage, Sent, Selected, MineEncodable, OffersFor, Need;
    forall fmt ensures MineEncodable(q.For(fmt)) {
      OffersEncodable(fmt, es, e);
    }
    MessagesWhole(q, lva, sendEmpty, n);
    NeedsGrow(q, n, 4);
    if n < 4 {
      NthWhole(q, lva, sendEmpty, n);
    }
  }

  /** What the sender says about one kind. */
  function Says(q: Offers, n: nat): seq<Item>
    requires WellFormedAll(q)
  {
    Selected(Nth(n), q.For(Nth(n)))
  }

  /** No two items are about the same attribute. */
  ghost predicate AllDifferent(fmt: Format, items: seq<Item>)
    requires ProperItems(fmt, items)
  {
    forall i, j :: 0 <= i < j < |items| ==>
      IdOf(DeclarationOf(fmt, items[i])) != IdOf(DeclarationOf(fmt, items[j]))
  }

  lemma ItemsAreDifferent(fmt: Format, items: seq<Item>)
    requires ProperItems(fmt, items) && DifferentItems(fmt, items)
    ensures AllDifferent(fmt, items)
  {
    hide Eui64.Value;
    forall i, j | 0 <= i < j < |items|
      ensures IdOf(DeclarationOf(fmt, items[i])) != IdOf(DeclarationOf(fmt, items[j]))
    {
      var v, w := items[i].value[..IdLen(fmt)], items[j].value[..IdLen(fmt)];
      if fmt != DomainFormat && Eui64.Value(v) == Eui64.Value(w) {
        Eui64.ValueInjective(v, w);
      }
      if fmt == ListenerFormat {
        assert items[i].value == v && items[j].value == w;
      }
      if fmt == DomainFormat {
        assert v == [items[i].value[0]] && w == [items[j].value[0]];
      }
    }
  }

  /** An item that says something about attribute `l` of the sender. */
  ghost predicate AboutOne(fmt: Format, es: seq<Attribute>, l: int, x: Item) {
    && 0 <= l < |es| && es[l].key.kind == KindOf(fmt) && WellTyped(es[l].key) && |x.value| == FirstLen(fmt)
    && DeclarationOf(fmt, x) == Carried(es[l].key)
  }

  ghost predicate AboutSome(fmt: Format, es: seq<Attribute>, x: Item) {
    exists l :: AboutOne(fmt, es, l, x)
  }

  lemma SaysFacts(es: seq<Attribute>, e: Event, q: Offers, lva: bool, sendEmpty: bool, n: nat)
    requires Sender(es, e, q) && n < 4
    ensures var fmt, items := Nth(n), Says(q, n);
            && ProperItems(fmt, items) && AllDifferent(fmt, items) && (fmt == ListenerFormat ==> Reported(items))
            && forall j :: 0 <= j < |items| ==> AboutSome(fmt, es, items[j])
  {
    hide Selected, OfferFor, DifferentItems, DifferentStreams, Offered, Unique, WellTyped, MineEncodable,
      WellFormedOffers, IdOf, DeclarationOf, Sent, Messages, NthMessage, Carried, WellFormedAll;
    var fmt, items := Nth(n), Says(q, n);
    var os := OffersFor(fmt, es, e);
    SenderWhole(es, e, q, lva, sendEmpty, n);
    OffersEncodable(fmt, es, e);
    DatabaseStreams(fmt, es, e);
    SentDifferent(fmt, os, 0, ROOM - |Messages(q, lva, sendEmpty, n).value|);
    forall j | 0 <= j < |items|
      ensures |items[j].value| == FirstLen(fmt) && 0 <= items[j].code < 6
      ensures fmt == ListenerFormat ==> 1 <= items[j].substate <= 3
      ensures AboutSome(fmt, es, items[j])
    {
      assert items[j] in items;
      var l := OfferedIs(fmt, es, e, items[j]);
      assert AboutOne(fmt, es, l, items[j]);
    }
    ItemsAreDifferent(fmt, items);
  }

  lemma PartIs(es: seq<Attribute>, e: Event, q: Offers, lva: bool, sendEmpty: bool, n: nat)
    requires Sender(es, e, q) && n < 4
    ensures Messages(q, lva, sendEmpty, n).Some? && Messages(q, lva, sendEmpty, n + 1).Some?
    ensures ProperItems(Nth(n), Says(q, n))
    ensures var part := Part(q, lva, sendEmpty, n);
            if Says(q, n) == [] && !sendEmpty then part == []
            else part == LaInputs(Nth(n), lva) + ItemInputs(Nth(n), Says(q, n))
  {
    hide Selected, Sent, Messages, Deliver, LaHeard, LaInputs, RaisedAll, DeclarationOf, ProperItems, Sender,
      EmitMessage, AllDifferent, WellFormedAll, WellFormedOffers, AboutOne, Reported;
    var fmt := Nth(n);
    SenderFormed(es, e, q, fmt);
    SenderWhole(es, e, q, lva, sendEmpty, n);
    SenderWhole(es, e, q, lva, sendEmpty, n + 1);
    SaysFacts(es, e, q, lva, sendEmpty, n);
    var list, items := Messages(q, lva, sendEmpty, n).value, Says(q, n);
    if NthMessage(q, lva, sendEmpty, n, list) == Some([]) {
      EmptySays(fmt, q.For(fmt), ROOM - |list|, lva, sendEmpty);
    } else {
      if items == [] && !sendEmpty {
        SilentMessage(fmt, q.For(fmt), ROOM - |list|, lva);
      }
      DeliverAll(fmt, items);
      RaisedLeaveAll(fmt, lva, Spoken(items));
      RaisedItems(fmt, items);
    }
  }

  /** Without anything sent, there is no vector. */
  lemma {:induction false} SilentEmits(fmt: Format, os: seq<Offer>, p: nat, room: int, lva: bool)
    requires WellFormedOffers(fmt, os) && Sent(fmt, os, p, room) == []
    ensures EmitVectors(fmt, os, p, room, lva) == Vectors([])
    decreases |os|
  {
    hide VectorBytes, VectorLength, ItemOf;
    if os != [] && p < room - LeastVector(fmt) - 2 {
      if !os[0].mine || !os[0].tx || os[0].optional {
        SilentEmits(fmt, os[1..], p, room, lva);
      }
    }
  }

  lemma SilentMessage(fmt: Format, os: seq<Offer>, room: int, lva: bool)
    requires WellFormedOffers(fmt, os) && Sent(fmt, os, 0, room) == []
    ensures var m := EmitMessage(fmt, os, room, lva, false); m.None? || m == Some([])
  {
    hide EmitVectors, Sent;
    SilentEmits(fmt, os, 0, room, lva);
  }

  lemma EmptySays(fmt: Format, os: seq<Offer>, room: int, lva: bool, sendEmpty: bool)
    requires WellFormedOffers(fmt, os) && EmitMessage(fmt, os, room, lva, sendEmpty) == Some([])
    ensures Sent(fmt, os, 0, room) == [] && !sendEmpty
  {
    hide EmitVectors, Sent;
    NothingSent(fmt, os, 0, room, lva);
  }
}
