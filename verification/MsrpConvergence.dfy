/** MSRP from station to station: what one station announces in a frame is registered at the other. */
module MsrpConvergence {
  import opened Mrp
  import Applicant
  import opened Participant
  import opened Msrp
  import opened MsrpProduct
  import opened MsrpProperties
  import opened Wire
  import Eui64
  import opened StreamValues
  import opened MsrpCodec
  import opened MsrpRoundTrip
  import opened MsrpMessages
  import opened MsrpFrames
  import opened MsrpStations
  import opened MsrpSender

  // ---------------------------------------------------------------- what a frame says about other attributes

  lemma ElsewhereConcat(x: seq<Input>, y: seq<Input>, id: Id)
    requires Elsewhere(x, id) && Elsewhere(y, id)
    ensures Elsewhere(x + y, id)
  {
  }

  lemma SparesConcat(x: seq<Input>, y: seq<Input>, kind: Kind)
    ensures Spares(x + y, kind) <==> Spares(x, kind) && Spares(y, kind)
  {
    var s := x + y;
    assert forall i :: 0 <= i < |x| ==> s[i] == x[i];
    assert forall i :: 0 <= i < |y| ==> s[|x| + i] == y[i];
  }

  lemma ProperConcat(x: seq<Input>, y: seq<Input>)
    requires ProperInputs(x) && ProperInputs(y)
    ensures ProperInputs(x + y)
  {
    hide FromNetwork;
  }

  lemma ItemsProper(fmt: Format, items: seq<Item>)
    requires ProperItems(fmt, items)
    ensures ProperInputs(ItemInputs(fmt, items)) && forall kind :: Spares(ItemInputs(fmt, items), kind)
  {
    hide DeclarationOf, FirstLen;
    forall i | 0 <= i < |items| ensures FromNetwork(ItemInputs(fmt, items)[i]) {
      DeclarationTyped(fmt, items[i]);
    }
  }

  lemma CarriedId(r: Declaration)
    requires WellTyped(r)
    ensures WellTyped(Carried(r)) && IdOf(Carried(r)) == IdOf(r) && Carried(r).kind == r.kind
  {
  }

  /** A message of another kind says nothing about attribute `i`. */
  lemma PartElsewhere(es: seq<Attribute>, e: Event, q: Offers, lva: bool, sendEmpty: bool, n: nat, i: nat)
    requires Sender(es, e, q) && n < 4 && i < |es| && es[i].key.kind != KindOf(Nth(n))
    ensures WellFormedAll(q) && Messages(q, lva, sendEmpty, n + 1).Some?
    ensures Elsewhere(Part(q, lva, sendEmpty, n), IdOf(es[i].key))
  {
    hide DeclarationOf, Says, Part, FirstLen, Offering, Messages, Carried, WellTyped, AllDifferent, Reported,
      ProperItems, ListenersDeclared, Needs, IdOf, LaInputs;
    var fmt, items, id := Nth(n), Says(q, n), IdOf(es[i].key);
    PartIs(es, e, q, lva, sendEmpty, n);
    SaysFacts(es, e, q, lva, sendEmpty, n);
    forall j | 0 <= j < |items| ensures IdOf(ItemInputs(fmt, items)[j].r) != id {
      assert AboutSome(fmt, es, items[j]);
      var l :| AboutOne(fmt, es, l, items[j]);
      CarriedId(es[l].key);
      assert l != i;
    }
    LeaveAllElsewhere(fmt, lva, id);
    ElsewhereConcat(LaInputs(fmt, lva), ItemInputs(fmt, items), id);
  }

  lemma LeaveAllElsewhere(fmt: Format, lva: bool, id: Id)
    ensures Elsewhere(LaInputs(fmt, lva), id) && ProperInputs(LaInputs(fmt, lva))
    ensures forall kind :: Spares(LaInputs(fmt, lva), kind) <==> !(lva && kind == KindOf(fmt))
  {
    forall kind ensures Spares(LaInputs(fmt, lva), kind) <==> !(lva && kind == KindOf(fmt)) {
      assert lva ==> LaInputs(fmt, lva)[0] == RecvLeaveAll(Some(KindOf(fmt)));
    }
  }

  /** A message brings proper events, and no LeaveAll but for its own kind. */
  lemma PartProper(es: seq<Attribute>, e: Event, q: Offers, lva: bool, sendEmpty: bool, n: nat, kind: Kind)
    requires Sender(es, e, q) && n < 4
    ensures WellFormedAll(q) && Messages(q, lva, sendEmpty, n + 1).Some?
    ensures ProperInputs(Part(q, lva, sendEmpty, n))
    ensures kind != KindOf(Nth(n)) ==> Spares(Part(q, lva, sendEmpty, n), kind)
  {
    hide DeclarationOf, Says, Part, Messages, ProperItems, Sender, LaInputs, FromNetwork, WellFormedAll;
    var fmt := Nth(n);
    SenderFormed(es, e, q, fmt);
    var items := Says(q, n);
    PartIs(es, e, q, lva, sendEmpty, n);
    ItemsProper(fmt, items);
    LeaveAllElsewhere(fmt, lva, TalkerId(0));
    ProperConcat(LaInputs(fmt, lva), ItemInputs(fmt, items));
    SparesConcat(LaInputs(fmt, lva), ItemInputs(fmt, items), kind);
  }

  lemma {:induction false} PartsBefore(es: seq<Attribute>, e: Event, q: Offers, lva: bool, sendEmpty: bool, n: nat,
                                       i: nat)
    requires Sender(es, e, q) && n <= 4 && i < |es| && forall m :: 0 <= m < n ==> es[i].key.kind != KindOf(Nth(m))
    ensures WellFormedAll(q) && Messages(q, lva, sendEmpty, n).Some?
    ensures ProperInputs(Parts(q, lva, sendEmpty, n)) && Elsewhere(Parts(q, lva, sendEmpty, n), IdOf(es[i].key))
  {
    hide Part, Messages, Sender, FromNetwork, WellFormedAll, IdOf, Elsewhere;
    SenderFormed(es, e, q, Nth(n));
    SenderWhole(es, e, q, lva, sendEmpty, n);
    var id := IdOf(es[i].key);
    if n == 0 {
      NothingElsewhere(id);
    } else {
      PartsBefore(es, e, q, lva, sendEmpty, n - 1, i);
      PartElsewhere(es, e, q, lva, sendEmpty, n - 1, i);
      PartProper(es, e, q, lva, sendEmpty, n - 1, Domain);
      ElsewhereConcat(Parts(q, lva, sendEmpty, n - 1), Part(q, lva, sendEmpty, n - 1), id);
      ProperConcat(Parts(q, lva, sendEmpty, n - 1), Part(q, lva, sendEmpty, n - 1));
    }
  }

  lemma NothingElsewhere(id: Id)
    ensures Elsewhere([], id) && ProperInputs([]) && forall kind :: Spares([], kind)
  {
  }

  lemma AllThere(es: seq<Attribute>, e: Event, q: Offers, lva: bool, sendEmpty: bool)
    requires Sender(es, e, q)
    ensures WellFormedAll(q) && forall m :: 0 <= m <= 4 ==> Messages(q, lva, sendEmpty, m).Some?
  {
    hide Messages;
    SenderFormed(es, e, q, DomainFormat);
    forall m | 0 <= m <= 4 ensures Messages(q, lva, sendEmpty, m).Some? {
      SenderWhole(es, e, q, lva, sendEmpty, m);
    }
  }

  lemma {:induction false} PartsBehind(es: seq<Attribute>, e: Event, q: Offers, lva: bool, sendEmpty: bool, n: nat,
                                       i: nat, kind: Kind)
    requires Sender(es, e, q) && n <= 4 && i < |es| && forall m :: n <= m < 4 ==> es[i].key.kind != KindOf(Nth(m))
    requires WellFormedAll(q) && forall m :: 0 <= m <= 4 ==> Messages(q, lva, sendEmpty, m).Some?
    ensures ProperInputs(PartsFrom(q, lva, sendEmpty, n))
    ensures Elsewhere(PartsFrom(q, lva, sendEmpty, n), IdOf(es[i].key))
    ensures (forall m :: n <= m < 4 ==> kind != KindOf(Nth(m))) ==> Spares(PartsFrom(q, lva, sendEmpty, n), kind)
    decreases 4 - n
  {
    hide Part, Messages, Sender, FromNetwork, WellFormedAll, IdOf, Elsewhere, Spares;
    var id := IdOf(es[i].key);
    if n == 4 {
      NothingElsewhere(id);
    } else {
      var x, y := Part(q, lva, sendEmpty, n), PartsFrom(q, lva, sendEmpty, n + 1);
      PartsBehind(es, e, q, lva, sendEmpty, n + 1, i, kind);
      PartElsewhere(es, e, q, lva, sendEmpty, n, i);
      PartProper(es, e, q, lva, sendEmpty, n, kind);
      ElsewhereConcat(x, y, id);
      ProperConcat(x, y);
      SparesConcat(x, y, kind);
    }
  }

  // ---------------------------------------------------------------- what a frame says about one attribute

  /** The events of a message around item `j`. */
  lemma AroundItem(fmt: Format, items: seq<Item>, j: nat)
    requires ProperItems(fmt, items) && j < |items|
    ensures ProperItems(fmt, items[..j]) && ProperItems(fmt, items[j + 1..])
    ensures var all := ItemInputs(fmt, items);
            all == ItemInputs(fmt, items[..j]) + ([all[j]] + ItemInputs(fmt, items[j + 1..]))
  {
    hide DeclarationOf, FirstLen;
  }

  lemma OthersElsewhere(fmt: Format, items: seq<Item>, j: nat)
    requires ProperItems(fmt, items) && AllDifferent(fmt, items) && j < |items|
    requires ProperItems(fmt, items[..j]) && ProperItems(fmt, items[j + 1..])
    ensures var id := IdOf(DeclarationOf(fmt, items[j]));
            Elsewhere(ItemInputs(fmt, items[..j]), id) && Elsewhere(ItemInputs(fmt, items[j + 1..]), id)
  {
    hide DeclarationOf, IdOf, FirstLen;
    var a, b := items[..j], items[j + 1..];
    assert forall i :: 0 <= i < |a| ==> a[i] == items[i];
    assert forall i :: 0 <= i < |b| ==> b[i] == items[j + 1 + i];
  }

  lemma ListenersOnly(fmt: Format, items: seq<Item>, stream: int)
    requires fmt == ListenerFormat && ProperItems(fmt, items)
    ensures Elsewhere(ItemInputs(fmt, items), TalkerId(stream))
  {
  }

  lemma Regroup<T>(a: seq<T>, b: seq<T>, c: seq<T>, d: seq<T>, e: seq<T>, f: seq<T>)
    ensures a + ((b + (c + (d + e))) + f) == (a + (b + c)) + (d + (e + f))
  {
  }

  /** All that a frame raises: `before`, the message about attribute `i`, and `after`. Neither part says anything about
      it, and `after` brings LeaveAlls for later kinds only. */
  lemma FrameAround(es: seq<Attribute>, e: Event, q: Offers, lva: bool, sendEmpty: bool, n: nat, i: nat, j: nat)
    returns (before: seq<Input>, own: seq<Input>, after: seq<Input>)
    requires Sender(es, e, q) && n < 4 && i < |es| && es[i].key.kind == KindOf(Nth(n)) && WellTyped(es[i].key)
    requires WellFormedAll(q) && forall m :: 0 <= m <= 4 ==> Messages(q, lva, sendEmpty, m).Some?
    requires ProperItems(Nth(n), Says(q, n)) && j < |Says(q, n)|
    requires DeclarationOf(Nth(n), Says(q, n)[j]) == Carried(es[i].key)
    ensures var id, input := IdOf(es[i].key), On(RecvEvent(Says(q, n)[j].code), Carried(es[i].key));
            && Parts(q, lva, sendEmpty, 4) == (Parts(q, lva, sendEmpty, n) + own) + ([input] + after)
            && before == Parts(q, lva, sendEmpty, n) + own
            && ProperInputs(Parts(q, lva, sendEmpty, n)) && ProperInputs(own) && ProperInputs(after)
            && Elsewhere(before, id) && Elsewhere(after, id)
    ensures n == 2 ==> Elsewhere(own, TalkerId(es[i].key.number))
    ensures forall kind :: (forall m :: n < m < 4 ==> kind != KindOf(Nth(m))) ==> Spares(after, kind)
    ensures n == 0 ==> Spares(before, TalkerFailed)
  {
    hide Part, Messages, FromNetwork, WellFormedAll, IdOf, Elsewhere, Spares, Says, ProperItems, AllDifferent,
      DeclarationOf, Carried, WellTyped, Offering, Needs, Unique, AllTyped, LaInputs, Parts, PartsFrom;
    var fmt, items, id := Nth(n), Says(q, n), IdOf(es[i].key);
    PartIs(es, e, q, lva, sendEmpty, n);
    SaysFacts(es, e, q, lva, sendEmpty, n);
    CarriedId(es[i].key);
    AroundItem(fmt, items, j);
    OthersElsewhere(fmt, items, j);
    LeaveAllElsewhere(fmt, lva, id);
    LeaveAllElsewhere(fmt, lva, TalkerId(es[i].key.number));
    ItemsProper(fmt, items[..j]);
    ItemsProper(fmt, items[j + 1..]);
    KindsApart(n);
    PartsBefore(es, e, q, lva, sendEmpty, n, i);
    PartsBehind(es, e, q, lva, sendEmpty, n + 1, i, Domain);
    PartsSplit(q, lva, sendEmpty, n);
    var la, a, b, rest := LaInputs(fmt, lva), ItemInputs(fmt, items[..j]), ItemInputs(fmt, items[j + 1..]),
                          PartsFrom(q, lva, sendEmpty, n + 1);
    own := la + a;
    after := b + rest;
    before := Parts(q, lva, sendEmpty, n) + own;
    ElsewhereConcat(la, a, id);
    ElsewhereConcat(Parts(q, lva, sendEmpty, n), own, id);
    ElsewhereConcat(b, rest, id);
    ProperConcat(la, a);
    ProperConcat(b, rest);
    forall kind | forall m :: n < m < 4 ==> kind != KindOf(Nth(m)) ensures Spares(after, kind) {
      PartsBehind(es, e, q, lva, sendEmpty, n + 1, i, kind);
      SparesConcat(b, rest, kind);
    }
    if n == 0 {
      SparesConcat(la, a, TalkerFailed);
      assert before == own by { assert [] + own == own; NoParts(q, lva, sendEmpty); }
    }
    if n == 2 {
      ListenersOnly(fmt, items[..j], es[i].key.number);
      ElsewhereConcat(la, a, TalkerId(es[i].key.number));
    }
    FromHere(q, lva, sendEmpty, n);
    Regroup(Parts(q, lva, sendEmpty, n), la, a, [ItemInputs(fmt, items)[j]], b, rest);
  }

  lemma NoParts(q: Offers, lva: bool, sendEmpty: bool)
    requires WellFormedAll(q)
    ensures Messages(q, lva, sendEmpty, 0) == Some([]) && Parts(q, lva, sendEmpty, 0) == []
  {
  }

  lemma FromHere(q: Offers, lva: bool, sendEmpty: bool, n: nat)
    requires WellFormedAll(q) && n < 4 && forall m :: 0 <= m <= 4 ==> Messages(q, lva, sendEmpty, m).Some?
    ensures PartsFrom(q, lva, sendEmpty, n) == Part(q, lva, sendEmpty, n) + PartsFrom(q, lva, sendEmpty, n + 1)
  {
  }

  lemma KindsApart(n: nat)
    requires n < 4
    ensures forall m :: 0 <= m < 4 && m != n ==> KindOf(Nth(n)) != KindOf(Nth(m))
  {
  }

  // ---------------------------------------------------------------- station to station

  /** Does the input make the station announce the attribute? With tx! it does if it declares the attribute and has
      something to send for it; with a LeaveAll unless it is a very anxious passive member. */
  predicate Announces(x: Attribute, input: Input) {
    || (input.Transmit? && Declares(x.app) && Pending(x.app))
    || (input.LeaveAllTimer? && Declares(x.app) && x.app != VP)
  }

  function EventOf(input: Input): Event {
    if input.Transmit? then Tx else TxLA
  }

  lemma AnnouncedOffer(fmt: Format, x: Attribute, input: Input)
    requires WellTyped(x.key) && Announces(x, input)
    ensures var o := OfferFor(fmt, x, EventOf(input)); o.tx && !o.optional && CodeOf(o) in {0, 1, 3}
  {
    hide AppRequest, FullOf, RegNext, Declares, Pending, WellTyped;
    Applicant.MembersDeclare(x.app);
    Applicant.LeaveAllSays(x.app);
    Applicant.TableFollowsRules(x.app, Tx, false, false);
  }

  lemma IndexOf(kind: Kind) returns (n: nat)
    ensures n < 4 && KindOf(Nth(n)) == kind
  {
    n := match kind case TalkerAdvertise => 0 case TalkerFailed => 1 case Listener => 2 case Domain => 3;
  }

  /** An attribute that is announced is among what the sender says about its kind. */
  lemma Said(es: seq<Attribute>, input: Input, q: Offers, n: nat, i: nat) returns (j: nat)
    requires Sender(es, EventOf(input), q) && n < 4 && i < |es| && es[i].key.kind == KindOf(Nth(n))
    requires Announces(es[i], input) && WellTyped(es[i].key) && WellFormedAll(q)
    ensures j < |Says(q, n)| && |Says(q, n)[j].value| == FirstLen(Nth(n)) && Says(q, n)[j].code in {0, 1, 3}
    ensures DeclarationOf(Nth(n), Says(q, n)[j]) == Carried(es[i].key)
  {
    hide AppRequest, FullOf, RegNext, Declares, Pending, WellTyped, DeclarationOf, Carried, Selected, Unique, Announces,
      PduCode, Needs, CodeOf;
    var fmt, e := Nth(n), EventOf(input);
    var os := OffersFor(fmt, es, e);
    OffersEncodable(fmt, es, e);
    AnnouncedOffer(fmt, es[i], input);
    NothingLost(fmt, os, i);
    var x := ItemOf(fmt, os[i]);
    FieldsBack(fmt, es[i].key, x.code, x.substate);
    j :| 0 <= j < |Says(q, n)| && Says(q, n)[j] == x;
  }

  lemma ReportedFit(es: seq<Attribute>, e: Event, q: Offers, lva: bool, sendEmpty: bool)
    requires Sender(es, e, q) && WellFormedAll(q)
    ensures ListenersFit(q, lva, sendEmpty)
  {
    hide Messages, NthMessage, Sent, Selected, AllDifferent, ProperItems, AboutSome, Sender, WellFormedAll;
    SenderWhole(es, e, q, lva, sendEmpty, 2);
    SaysFacts(es, e, q, lva, sendEmpty, 2);
  }

  /** The frame goes out. */
  lemma FrameGoesOut(station: seq<byte>, es: seq<Attribute>, e: Event, q: Offers, lva: bool, sendEmpty: bool, n: nat)
    requires Sender(es, e, q) && WellFormedAll(q) && n < 4 && Says(q, n) != []
    ensures BuildFrame(station, q, lva, sendEmpty).Some?
  {
    hide Sent, Selected, Sender, WellFormedAll, EmitMessage, FrameHeader;
    SenderWhole(es, e, q, lva, sendEmpty, 4);
    SenderWhole(es, e, q, lva, sendEmpty, n);
    var list := Messages(q, lva, sendEmpty, n).value;
    SenderFormed(es, e, q, Nth(n));
    MessagesPrefix(q, lva, sendEmpty, n + 1, 4);
    var x := Says(q, n)[0];
    assert x in Sent(Nth(n), q.For(Nth(n)), 0, ROOM - |list|);
    var m := NthMessage(q, lva, sendEmpty, n, list).value;
    MessageNeeded(Nth(n), q.For(Nth(n)), ROOM - |list|, lva, sendEmpty, m, x);
    assert Messages(q, lva, sendEmpty, n + 1).value == list + m;
  }

  /** What is stored does not depend on talkers unless it is a listener. */
  lemma StoredAny(before: Option<Declaration>, r: Declaration, t: bool, u: bool, key: Declaration)
    requires WellTyped(r) && (before.Some? ==> WellTyped(before.value) && IdOf(before.value) == IdOf(r))
    requires Stored(before, r, t, key) && (r.kind == Listener ==> t == u)
    ensures Stored(before, r, u, key)
  {
  }

  /** The events before, the message itself, and the events after it. */
  lemma MessageLands(b: Db, before: seq<Input>, e: Event, r: Declaration, after: seq<Input>, now: nat)
    requires Valid(b) && WellTyped(r) && e in {RNew, RJoinIn, RJoinMt}
    requires ProperInputs(before) && ProperInputs(after) && Elsewhere(before, IdOf(r)) && Elsewhere(after, IdOf(r))
    ensures ProperInputs(before + ([On(e, r)] + after))
    ensures var k := KeyAt(b.entries, IdOf(r));
            (k.Some? ==> WellTyped(k.value) && IdOf(k.value) == IdOf(r))
            && var o := At(Handled(b, before + ([On(e, r)] + after), now).entries, IdOf(r));
               && o.Some? && Stored(k, r, KeyAt(Handled(b, before, now).entries, TalkerId(r.number)).Some?, o.value.key)
               && o.value.reg == if Spares(after, o.value.key.kind) then IN else LV
  {
    hide Handled, Valid, At, Stored, Step, IdOf, WellTyped, Elsewhere, Spares;
    var id, input := IdOf(r), On(e, r);
    HandledOne(b, input, now);
    HandledSplit(b, before, [input] + after, now) by { ProperConcat([input], after); }
    var b1 := Handled(b, before, now);
    HandledSplit(b1, [input], after, now);
    HandledOne(b1, input, now);
    var b2 := Step(b1, Stamped(now, input));
    HandledElsewhere(b, before, now, id);
    StoredStep(b1, e, r, now);
    HandledElsewhere(b2, after, now, id);
  }

  /** When the listeners of a frame are heard, is a talker for the stream known? */
  predicate TalkerHeard(b: Db, q: Offers, lva: bool, sendEmpty: bool, now: nat, stream: int)
    requires Valid(b) && WellFormedAll(q) && Messages(q, lva, sendEmpty, 2).Some?
    requires ProperInputs(Parts(q, lva, sendEmpty, 2))
  {
    KeyAt(Handled(b, Parts(q, lva, sendEmpty, 2), now).entries, TalkerId(stream)).Some?
  }

  /** The LeaveAll an input signals. */
  predicate SignalsLeaveAll(a: Db, input: Input) {
    input.LeaveAllTimer? || a.t.laTx
  }

  function OfferingOf(a: Db, input: Input): (q: Offers)
    requires Valid(a)
    ensures WellFormedAll(q)
  {
    EntriesTyped(a);
    Offering(a.entries, EventOf(input))
  }

  /** What of attribute `i` reaches the other side. */
  function CarriedBy(a: Db, i: nat): (r: Declaration)
    requires Valid(a) && i < |a.entries|
    ensures WellTyped(r) && IdOf(r) == IdOf(a.entries[i].key)
    ensures r.kind == a.entries[i].key.kind && r.operation == Register
  {
    EntriesTyped(a);
    CarriedId(a.entries[i].key);
    Carried(a.entries[i].key)
  }

  lemma {:induction false} PartsProper(es: seq<Attribute>, e: Event, q: Offers, lva: bool, sendEmpty: bool, n: nat)
    requires Sender(es, e, q) && n <= 4
    ensures WellFormedAll(q) && Messages(q, lva, sendEmpty, n).Some? && ProperInputs(Parts(q, lva, sendEmpty, n))
  {
    hide Part, Messages, Sender, FromNetwork, WellFormedAll;
    SenderFormed(es, e, q, Nth(n));
    SenderWhole(es, e, q, lva, sendEmpty, n);
    if n > 0 {
      PartsProper(es, e, q, lva, sendEmpty, n - 1);
      PartProper(es, e, q, lva, sendEmpty, n - 1, Domain);
      ProperConcat(Parts(q, lva, sendEmpty, n - 1), Part(q, lva, sendEmpty, n - 1));
    }
  }

  lemma TalkerAt(b: Db, q: Offers, lva: bool, sendEmpty: bool, own: seq<Input>, now: nat, stream: int)
    requires Valid(b) && WellFormedAll(q) && Messages(q, lva, sendEmpty, 2).Some?
    requires ProperInputs(Parts(q, lva, sendEmpty, 2)) && ProperInputs(own) && Elsewhere(own, TalkerId(stream))
    ensures ProperInputs(Parts(q, lva, sendEmpty, 2) + own)
    ensures KeyAt(Handled(b, Parts(q, lva, sendEmpty, 2) + own, now).entries, TalkerId(stream)).Some?
            <==> TalkerHeard(b, q, lva, sendEmpty, now, stream)
  {
    hide Handled, Valid, KeyAt, Elsewhere, Parts, WellFormedAll, FromNetwork;
    var talkers := Parts(q, lva, sendEmpty, 2);
    HandledSplit(b, talkers, own, now);
    HandledElsewhere(Handled(b, talkers, now), own, now, TalkerId(stream));
  }

  /** The whole effect of the parts of a frame on the attribute they announce. */
  lemma PartsLand(es: seq<Attribute>, input: Input, q: Offers, lva: bool, sendEmpty: bool, b: Db, now: nat, n: nat,
                  i: nat, r: Declaration)
    requires Sender(es, EventOf(input), q) && WellFormedAll(q) && Valid(b) && n < 4 && i < |es|
    requires es[i].key.kind == KindOf(Nth(n)) && WellTyped(es[i].key) && r == Carried(es[i].key)
    requires WellTyped(r) && IdOf(r) == IdOf(es[i].key) && Announces(es[i], input)
    ensures Messages(q, lva, sendEmpty, 2).Some? && Messages(q, lva, sendEmpty, 4).Some? && Says(q, n) != []
    ensures ProperInputs(Parts(q, lva, sendEmpty, 2)) && ProperInputs(Parts(q, lva, sendEmpty, 4))
    ensures var all, k := Parts(q, lva, sendEmpty, 4), KeyAt(b.entries, IdOf(r));
            (k.Some? ==> WellTyped(k.value) && IdOf(k.value) == IdOf(r))
            && var o := At(Handled(b, all, now).entries, IdOf(r));
               && o.Some? && Stored(k, r, TalkerHeard(b, q, lva, sendEmpty, now, r.number), o.value.key)
               && o.value.reg == if r.kind == TalkerAdvertise && o.value.key.kind == TalkerFailed
                                    && !Spares(all, TalkerFailed) then LV else IN
  {
    hide Part, Messages, Parts, FromNetwork, WellFormedAll, Elsewhere, Spares, Says, ProperItems, Announces,
      DeclarationOf, Carried, WellTyped, Sender, Handled, Valid, At, KeyAt, TalkerHeard, RecvEvent, Stored;
    AllThere(es, EventOf(input), q, lva, sendEmpty);
    PartIs(es, EventOf(input), q, lva, sendEmpty, n);
    var j := Said(es, input, q, n, i);
    var before, own, after := FrameAround(es, EventOf(input), q, lva, sendEmpty, n, i, j);
    PartsProper(es, EventOf(input), q, lva, sendEmpty, 2);
    PartsProper(es, EventOf(input), q, lva, sendEmpty, 4);
    ProperConcat(Parts(q, lva, sendEmpty, n), own);
    var e := RecvEvent(Says(q, n)[j].code);
    Registering(Says(q, n)[j].code);
    MessageLands(b, before, e, r, after, now);
    var all, id := Parts(q, lva, sendEmpty, 4), IdOf(r);
    var o, k := At(Handled(b, all, now).entries, id), KeyAt(b.entries, id);
    var t := KeyAt(Handled(b, before, now).entries, TalkerId(r.number)).Some?;
    if n == 2 {
      TalkerAt(b, q, lva, sendEmpty, own, now, r.number);
    }
    CarriedKind(es[i].key);
    StoredAny(k, r, t, TalkerHeard(b, q, lva, sendEmpty, now, r.number), o.value.key);
    StoredKind(k, r, t, o.value.key);
    if n == 0 {
      SparesConcat(before, [On(e, r)] + after, TalkerFailed);
      SparesConcat([On(e, r)], after, TalkerFailed);
      OnSpares(e, r);
    }
  }

  lemma OnSpares(e: Event, r: Declaration)
    ensures Spares([On(e, r)], TalkerFailed)
  {
  }

  lemma CarriedKind(r: Declaration)
    requires WellTyped(r)
    ensures Carried(r).kind == r.kind && Carried(r).number == r.number
  {
  }

  lemma Registering(code: int)
    requires code in {0, 1, 3}
    ensures RecvEvent(code) in {RNew, RJoinIn, RJoinMt}
  {
  }

  /** A talker is stored as a talker, and the others with their own kind. */
  lemma StoredKind(before: Option<Declaration>, r: Declaration, t: bool, key: Declaration)
    requires WellTyped(r) && (before.Some? ==> WellTyped(before.value) && IdOf(before.value) == IdOf(r))
    requires Stored(before, r, t, key)
    ensures key.kind == r.kind
         || (r.kind in {TalkerAdvertise, TalkerFailed} && key.kind in {TalkerAdvertise, TalkerFailed})
  {
  }

  /** The receiver itself declares the talker as failed, and the frame goes on with a LeaveAll for failed talkers. */
  predicate UndoneByLeaveAll(before: Option<Declaration>, r: Declaration, q: Offers, lva: bool, sendEmpty: bool)
    requires WellFormedAll(q)
  {
    && r.kind == TalkerAdvertise
    && before.Some? && before.value.kind == TalkerFailed && before.value.operation == Declare
    && lva && (sendEmpty || Says(q, 1) != [])
  }

  lemma StoredFailed(before: Option<Declaration>, r: Declaration, t: bool, key: Declaration)
    requires WellTyped(r) && (before.Some? ==> WellTyped(before.value) && IdOf(before.value) == IdOf(r))
    requires Stored(before, r, t, key) && r.operation == Register && r.kind == TalkerAdvertise
    ensures key.kind == TalkerFailed <==>
            before.Some? && before.value.kind == TalkerFailed && before.value.operation == Declare
  {
  }

  /** A frame has a LeaveAll for failed talkers if and only if one is signalled and it has a message for them. */
  lemma SparesFailed(es: seq<Attribute>, e: Event, q: Offers, lva: bool, sendEmpty: bool)
    requires Sender(es, e, q)
    ensures WellFormedAll(q) && Messages(q, lva, sendEmpty, 4).Some?
    ensures Spares(Parts(q, lva, sendEmpty, 4), TalkerFailed) <==> !(lva && (sendEmpty || Says(q, 1) != []))
  {
    hide Part, Messages, Sender, WellFormedAll, Spares, LaInputs, ItemInputs, Says, ProperItems, FromNetwork;
    AllThere(es, e, q, lva, sendEmpty);
    PartProper(es, e, q, lva, sendEmpty, 0, TalkerFailed);
    PartProper(es, e, q, lva, sendEmpty, 2, TalkerFailed);
    PartProper(es, e, q, lva, sendEmpty, 3, TalkerFailed);
    PartIs(es, e, q, lva, sendEmpty, 1);
    ItemsProper(FailedFormat, Says(q, 1));
    LeaveAllElsewhere(FailedFormat, lva, TalkerId(0));
    NothingElsewhere(TalkerId(0));
    SparesConcat(LaInputs(FailedFormat, lva), ItemInputs(FailedFormat, Says(q, 1)), TalkerFailed);
    SparesConcat(Parts(q, lva, sendEmpty, 0), Part(q, lva, sendEmpty, 0), TalkerFailed);
    SparesConcat(Parts(q, lva, sendEmpty, 1), Part(q, lva, sendEmpty, 1), TalkerFailed);
    SparesConcat(Parts(q, lva, sendEmpty, 2), Part(q, lva, sendEmpty, 2), TalkerFailed);
    SparesConcat(Parts(q, lva, sendEmpty, 3), Part(q, lva, sendEmpty, 3), TalkerFailed);
    PartsUnfold(q, lva, sendEmpty);
  }

  lemma PartsUnfold(q: Offers, lva: bool, sendEmpty: bool)
    requires WellFormedAll(q) && forall m :: 0 <= m <= 4 ==> Messages(q, lva, sendEmpty, m).Some?
    ensures Parts(q, lva, sendEmpty, 0) == []
    ensures forall m :: 0 <= m < 4 ==>
              Parts(q, lva, sendEmpty, m + 1) == Parts(q, lva, sendEmpty, m) + Part(q, lva, sendEmpty, m)
  {
    hide Part, Messages, WellFormedAll;
  }

  /** Every talker, listener and class that a station announces is registered at the station that receives the frame,
      padded or not, and stored there with the transmitted fields: as sent if it was unknown, and otherwise merged
      field by field. The one exception is a talker that the receiver itself declares as failed: the LeaveAll for
      failed talkers, which comes later in the frame, starts its leave period again. */
  lemma Converges(station: seq<byte>, a: Db, input: Input, b: Db, now: nat, k: nat, i: nat)
    requires |station| == 6 && Valid(a) && Valid(b) && ListenersDeclared(a.entries)
    requires i < |a.entries| && Announces(a.entries[i], input) && Needs(OfferingOf(a, input), 4) <= 1945
    ensures var q, lva, sendEmpty := OfferingOf(a, input), SignalsLeaveAll(a, input), input.LeaveAllTimer?;
            && Messages(q, lva, sendEmpty, 2).Some? && ProperInputs(Parts(q, lva, sendEmpty, 2))
            && FrameOf(station, a, input).Some?
            && var frame, r := Padded(FrameOf(station, a, input).value, k), CarriedBy(a, i);
               var before, o := KeyAt(b.entries, IdOf(r)), At(Receive(b, frame, now).entries, IdOf(r));
               && (before.Some? ==> WellTyped(before.value) && IdOf(before.value) == IdOf(r))
               && o.Some? && Stored(before, r, TalkerHeard(b, q, lva, sendEmpty, now, r.number), o.value.key)
               && o.value.reg == if UndoneByLeaveAll(before, r, q, lva, sendEmpty) then LV else IN
  {
    hide Parts, Messages, FromNetwork, WellFormedAll, Spares, Says, Announces, Carried, WellTyped, BuildFrame,
      Handled, At, KeyAt, TalkerHeard, Stored, Dispatch, Padded, ListenersFit, Needs, IdOf, Offering, ListenersDeclared;
    var es, e, q := a.entries, EventOf(input), OfferingOf(a, input);
    var lva, sendEmpty := SignalsLeaveAll(a, input), input.LeaveAllTimer?;
    EntriesTyped(a);
    assert Sender(es, e, q) by { ValidUnique(a); }
    var n := IndexOf(es[i].key.kind);
    var r := CarriedBy(a, i);
    PartsLand(es, input, q, lva, sendEmpty, b, now, n, i, r);
    FrameGoesOut(station, es, e, q, lva, sendEmpty, n);
    assert input.Transmit? || input.LeaveAllTimer? by { AnnouncingInputs(es[i], input); }
    var frame := FrameOf(station, a, input).value;
    ReportedFit(es, e, q, lva, sendEmpty);
    FrameRoundTrip(station, q, lva, sendEmpty, frame, k);
    SparesFailed(es, e, q, lva, sendEmpty);
    if r.kind == TalkerAdvertise {
      StoredFailed(KeyAt(b.entries, IdOf(r)), r, TalkerHeard(b, q, lva, sendEmpty, now, r.number),
                   At(Receive(b, Padded(frame, k), now).entries, IdOf(r)).value.key);
    }
  }

  lemma AnnouncingInputs(x: Attribute, input: Input)
    requires Announces(x, input)
    ensures input.Transmit? || input.LeaveAllTimer?
  {
  }

  lemma ValidUnique(a: Db)
    requires Valid(a)
    ensures Unique(a.entries)
  {
  }

  /** No frame, well-formed or not, changes what the receiver declares. */
  lemma ReceiveKeepsDeclared(b: Db, frame: seq<byte>, now: nat)
    requires Valid(b)
    ensures Declared(Receive(b, frame, now).entries) == Declared(b.entries)
  {
    hide Handled, Valid, Declared, Dispatch;
    DispatchValid(frame);
    HandledKeepsDeclared(b, Dispatch(frame), now);
  }

  lemma {:induction false} HandledKeepsDeclared(b: Db, inputs: seq<Input>, now: nat)
    requires Valid(b) && ProperInputs(inputs)
    ensures Declared(Handled(b, inputs, now).entries) == Declared(b.entries)
    decreases |inputs|
  {
    hide Step, Valid, Declared, ValidInput, RegisteredAfter, LeavingAfter;
    if inputs != [] {
      var s := Stamped(now, inputs[0]);
      StepSets(b, s);
      StepValid(b, s);
      assert AllAt(now, inputs)[1..] == AllAt(now, inputs[1..]);
      HandledKeepsDeclared(Step(b, s), inputs[1..], now);
    }
  }

  // ---------------------------------------------------------------- the exception

  lemma SizeOfOne(fmt: Format, x: Attribute, e: Event)
    requires WellTyped(x.key) && (e == Tx || e == TxLA)
    ensures AllTyped([x]) && WellFormedOffers(fmt, OffersFor(fmt, [x], e))
    ensures TotalSize(fmt, OffersFor(fmt, [x], e)) <= VectorSize(fmt, 1)
  {
    hide AppRequest, PduCode, RegNext, FullOf, WellTyped, VectorSize;
    OffersEncodable(fmt, [x], e);
    var os := OffersFor(fmt, [x], e);
    assert os[1..] == [];
    if os[0].mine {
      assert VectorLength(fmt, os) == 1;
    }
  }

  lemma OneNeedsLittle(x: Attribute, e: Event)
    requires WellTyped(x.key) && (e == Tx || e == TxLA)
    ensures AllTyped([x]) && Needs(Offering([x], e), 4) <= 200
  {
    hide TotalSize, OffersFor, Offering, WellFormedAll;
    SizeOfOne(AdvertiseFormat, x, e);
    var q := Offering([x], e);
    assert Needs(q, 0) == 0;
    OneNeed(x, e, 0);
    OneNeed(x, e, 1);
    OneNeed(x, e, 2);
    OneNeed(x, e, 3);
  }

  lemma OneNeed(x: Attribute, e: Event, n: nat)
    requires WellTyped(x.key) && (e == Tx || e == TxLA) && AllTyped([x]) && n < 4
    ensures var q := Offering([x], e); Needs(q, n + 1) <= Needs(q, n) + 50
  {
    hide TotalSize, OffersFor;
    SizeOfOne(Nth(n), x, e);
  }

  /** It occurs: a station re-declares its talker with leavealltimer!, and the other one, which declares the same talker
      as failed and had it registered, is left with it in its leave period. */
  lemma AnnouncedCanBeLeaving(station: seq<byte>, stream: int, rest: seq<byte>, t: Timers, p2p: bool, now: nat, k: nat)
    requires |station| == 6 && 0 <= stream < Eui64.LIMIT && |rest| == 17
    ensures var r := Declaration(TalkerAdvertise, stream, Stream(NO_BRIDGE, 0, rest), 0, Declare);
            var a := Db([Entry(r, QA, MT)], t, p2p);
            var b := Db([Entry(r.(kind := TalkerFailed), QA, IN)], t, p2p);
            && Valid(a) && Valid(b) && FrameOf(station, a, LeaveAllTimer).Some?
            && var frame := Padded(FrameOf(station, a, LeaveAllTimer).value, k);
               var o := At(Receive(b, frame, now).entries, TalkerId(stream));
               o.Some? && o.value.reg == LV
  {
    hide FrameOf, Receive, Stored, TalkerHeard, Says, Parts, Messages, Needs, Offering, Padded;
    var r := Declaration(TalkerAdvertise, stream, Stream(NO_BRIDGE, 0, rest), 0, Declare);
    var x, y := Entry(r, QA, MT), Entry(r.(kind := TalkerFailed), QA, IN);
    var a, b := Db([x], t, p2p), Db([y], t, p2p);
    OneNeedsLittle(x, TxLA);
    assert a.entries[0] == x && b.entries[0] == y;
    assert KeyAt(b.entries, TalkerId(stream)) == Some(y.key);
    Converges(station, a, LeaveAllTimer, b, now, k, 0);
  }
}
