/** Two MSRP stations joined by a link: what an MSRP database offers its emitters, and what the events raised for a
    frame do to the database that receives it. */
module MsrpStations {
  import opened Mrp
  import opened Participant
  import opened Msrp
  import opened MsrpProduct
  import opened MsrpProperties
  import opened Lives
  import Applicant
  import opened Wire
  import Eui64
  import opened StreamValues
  import opened MsrpCodec
  import opened MsrpRoundTrip
  import opened MsrpMessages
  import opened MsrpFrames

  // ---------------------------------------------------------------- from the database to the emitters

  /** The bytes that are compared when a run is extended: the whole talker, the stream ID of a listener, or the class
      with its priority and VID. */
  function FullOf(r: Declaration): seq<byte>
    requires WellTyped(r)
  {
    match r.kind
    case Listener => Eui64.Write(r.number)
    case Domain => [r.number, r.body.priority, Hi(r.body.vid), Lo(r.body.vid)]
    case _ => Eui64.Write(r.number) + r.body.rest + r.body.bridge + [r.body.failure]
  }

  /** What an emitter finds after the loop of tx! or txLA!; listeners are all marked anyway. */
  function OfferFor(fmt: Format, x: Attribute, e: Event): Offer
    requires WellTyped(x.key)
  {
    var r := AppRequest(x.app, e);
    var mine := x.key.kind == KindOf(fmt);
    Offer(mine, r.tx || fmt == ListenerFormat, r.optional, PduCode(r.sndmsg, RegNext(x.reg, e)),
          if mine then FullOf(x.key) else [], x.key.substate)
  }

  ghost predicate AllTyped(es: seq<Attribute>) {
    forall i :: 0 <= i < |es| ==> WellTyped(es[i].key)
  }

  function OffersFor(fmt: Format, es: seq<Attribute>, e: Event): (os: seq<Offer>)
    requires AllTyped(es)
    ensures |os| == |es| && forall i :: 0 <= i < |es| ==> os[i] == OfferFor(fmt, es[i], e)
  {
    seq(|es|, i requires 0 <= i < |es| => OfferFor(fmt, es[i], e))
  }

  lemma RequestIsSendable(s: AppState, e: Event)
    requires e == Tx || e == TxLA
    ensures AppRequest(s, e).tx && Sendable(AppRequest(s, e).sndmsg)
  {
  }

  /** After tx! and txLA! every attribute is marked and has a message the emitters know how to encode: their "huh?"
      exits are unreachable. */
  lemma OffersEncodable(fmt: Format, es: seq<Attribute>, e: Event)
    requires AllTyped(es) && (e == Tx || e == TxLA)
    ensures WellFormedOffers(fmt, OffersFor(fmt, es, e)) && MineEncodable(OffersFor(fmt, es, e))
    ensures forall i :: 0 <= i < |es| ==> OffersFor(fmt, es, e)[i].tx
  {
    hide AppRequest, PduCode, RegNext;
    forall i | 0 <= i < |es| ensures Encodable(OfferFor(fmt, es[i], e)) && OfferFor(fmt, es[i], e).tx {
      RequestIsSendable(es[i].app, e);
      MessageMeaning(AppRequest(es[i].app, e).sndmsg, RegNext(es[i].reg, e));
    }
  }

  /** What all emitters find. */
  function Offering(es: seq<Attribute>, e: Event): (q: Offers)
    requires AllTyped(es) && (e == Tx || e == TxLA)
    ensures WellFormedAll(q) && forall fmt :: q.For(fmt) == OffersFor(fmt, es, e)
  {
    var q := Offers(OffersFor(AdvertiseFormat, es, e), OffersFor(FailedFormat, es, e),
                    OffersFor(ListenerFormat, es, e), OffersFor(DomainFormat, es, e));
    assert forall fmt :: q.For(fmt) == OffersFor(fmt, es, e);
    OffersAllFormed(q, es, e);
    q
  }

  lemma OffersAllFormed(q: Offers, es: seq<Attribute>, e: Event)
    requires AllTyped(es) && (e == Tx || e == TxLA) && forall fmt :: q.For(fmt) == OffersFor(fmt, es, e)
    ensures WellFormedAll(q)
  {
    hide OfferFor, OffersFor;
    forall fmt ensures WellFormedOffers(fmt, q.For(fmt)) {
      OffersEncodable(fmt, es, e);
    }
  }

  lemma EntriesTyped(db: Db)
    requires Valid(db)
    ensures AllTyped(db.entries)
  {
    forall i | 0 <= i < |db.entries| ensures WellTyped(db.entries[i].key) {
      assert db.entries[i] in db.entries;
    }
  }

  /** The frame an input makes a station send. */
  function FrameOf(station: seq<byte>, db: Db, input: Input): Option<seq<byte>>
    requires Valid(db)
  {
    EntriesTyped(db);
    match input
    case Transmit => BuildFrame(station, Offering(db.entries, Tx), db.t.laTx, false)
    case LeaveAllTimer => BuildFrame(station, Offering(db.entries, TxLA), true, true)
    case _ => None
  }

  // ---------------------------------------------------------------- from the receiver to the database

  /** What of a declaration reaches the other side. */
  function Carried(r: Declaration): Declaration
    requires WellTyped(r)
  {
    match r.kind
    case TalkerAdvertise => r.(body := Stream(NO_BRIDGE, 0, r.body.rest), substate := 0, operation := Register)
    case TalkerFailed => r.(substate := 0, operation := Register)
    case Listener => r.(body := Stream(NO_BRIDGE, 0, Zeroes(17)), operation := Register)
    case Domain => r.(body := r.body.(neighbor := r.body.priority), substate := 0, operation := Register)
  }

  lemma NumberBack(n: nat)
    requires n < Eui64.LIMIT
    ensures Eui64.Value(Eui64.Write(n)) == n
  {
    Eui64.ReadWrite(n);
    Eui64.ReadIsValue(Eui64.Write(n));
  }

  /** Where the fields of a talker stand, in whole and in the part an Advertise carries. */
  lemma FieldsOf(id: seq<byte>, rest: seq<byte>, bridge: seq<byte>, failure: byte)
    requires |id| == 8 && |rest| == 17 && |bridge| == 8
    ensures var full := id + rest + bridge + [failure];
            && |full| == 34 && full[..34] == full && full[..8] == id && full[8..25] == rest && full[25..33] == bridge
            && full[33] == failure && full[..25][..8] == id && full[..25][8..25] == rest
  {
    var full := id + rest + bridge + [failure];
    assert full[..25] == id + rest;
  }

  /** Encoding and filling in again gives exactly what is carried. */
  lemma FieldsBack(fmt: Format, r: Declaration, code: int, substate: int)
    requires WellTyped(r) && r.kind == KindOf(fmt) && substate == (if fmt == ListenerFormat then r.substate else 0)
    ensures |FullOf(r)| == FullLen(fmt)
    ensures DeclarationOf(fmt, Item(FullOf(r)[..FirstLen(fmt)], code, substate)) == Carried(r)
  {
    hide Eui64.Write, Eui64.Value;
    if fmt == DomainFormat {
      WordParts(r.body.vid);
      assert FullOf(r)[..4] == FullOf(r);
    } else {
      NumberBack(r.number);
      var id := Eui64.Write(r.number);
      if fmt == ListenerFormat {
        assert id[..8] == id;
      } else {
        FieldsOf(id, r.body.rest, r.body.bridge, r.body.failure);
      }
    }
  }

  /** All events of a frame are handled within one instant. */
  function AllAt(now: nat, inputs: seq<Input>): (r: seq<Stamped>)
    ensures |r| == |inputs|
    ensures forall i :: 0 <= i < |inputs| ==> r[i] == Stamped(now, inputs[i])
  {
    seq(|inputs|, i requires 0 <= i < |inputs| => Stamped(now, inputs[i]))
  }

  function Handled(b: Db, inputs: seq<Input>, now: nat): (r: Db)
    requires Valid(b) && ProperInputs(inputs)
    ensures Valid(r)
  {
    assert ValidRun(AllAt(now, inputs));
    Run(b, AllAt(now, inputs))
  }

  /** A station receives a frame. */
  function Receive(b: Db, frame: seq<byte>, now: nat): (r: Db)
    requires Valid(b)
    ensures Valid(r)
  {
    DispatchValid(frame);
    Handled(b, Dispatch(frame), now)
  }

  lemma {:induction false} HandledSplit(b: Db, x: seq<Input>, y: seq<Input>, now: nat)
    requires Valid(b) && ProperInputs(x) && ProperInputs(y)
    ensures ProperInputs(x + y) && Handled(b, x + y, now) == Handled(Handled(b, x, now), y, now)
    decreases |x|
  {
    hide Step, Valid, ValidInput;
    if x == [] {
      assert x + y == y;
    } else {
      var b1 := Step(b, Stamped(now, x[0]));
      StepValid(b, Stamped(now, x[0]));
      assert AllAt(now, x + y)[1..] == AllAt(now, x[1..] + y) && AllAt(now, x)[1..] == AllAt(now, x[1..]);
      HandledSplit(b1, x[1..], y, now);
    }
  }

  lemma HandledOne(b: Db, input: Input, now: nat)
    requires Valid(b) && FromNetwork(input)
    ensures ProperInputs([input]) && Handled(b, [input], now) == Step(b, Stamped(now, input))
  {
    hide Step, Valid, ValidInput;
    var s := AllAt(now, [input]);
    StepValid(b, Stamped(now, input));
    assert s == [Stamped(now, input)];
    assert Run(b, s) == Run(Step(b, s[0]), s[1..]);
  }

  // ---------------------------------------------------------------- what a frame leaves alone

  /** No message for `id`. */
  ghost predicate Elsewhere(inputs: seq<Input>, id: Id) {
    forall i :: 0 <= i < |inputs| ==> inputs[i].On? ==> IdOf(inputs[i].r) != id
  }

  /** No LeaveAll for `kind`. */
  ghost predicate Spares(inputs: seq<Input>, kind: Kind) {
    forall i :: 0 <= i < |inputs| ==> inputs[i] != RecvLeaveAll(Some(kind))
  }

  function KeyAt(es: seq<Attribute>, id: Id): Option<Declaration> {
    var o := At(es, id);
    if o.Some? then Some(o.value.key) else None
  }

  function RegAt(es: seq<Attribute>, id: Id): RegState {
    var o := At(es, id);
    if o.Some? then o.value.reg else MT
  }

  lemma StepElsewhere(b: Db, input: Input, now: nat, id: Id)
    requires Valid(b) && FromNetwork(input) && (input.On? ==> IdOf(input.r) != id)
    ensures var es, es' := b.entries, Step(b, Stamped(now, input)).entries;
            && KeyAt(es', id) == KeyAt(es, id)
            && RegAt(es', id) == if Named(es, id, if input.On? then None else input.kind) && RegAt(es, id) == IN then LV
                                 else RegAt(es, id)
  {
    hide Step, Valid, At, WellTyped, IdOf, NewsFor, Applicant.NameOf, Applicant.Moved;
    StepLife(b, Stamped(now, input), id);
    StepData(b, Stamped(now, input), id);
  }

  lemma {:induction false} HandledElsewhere(b: Db, inputs: seq<Input>, now: nat, id: Id)
    requires Valid(b) && ProperInputs(inputs) && Elsewhere(inputs, id)
    ensures var es, es' := b.entries, Handled(b, inputs, now).entries;
            && KeyAt(es', id) == KeyAt(es, id)
            && (KeyAt(es, id).Some? ==>
                  RegAt(es', id) == if !Spares(inputs, KeyAt(es, id).value.kind) && RegAt(es, id) == IN then LV
                                    else RegAt(es, id))
    decreases |inputs|
  {
    hide Step, Valid, ValidInput, At, RegAt, IdOf, IsAttributeEvent;
    if inputs != [] {
      var b1, rest := Step(b, Stamped(now, inputs[0])), inputs[1..];
      StepElsewhere(b, inputs[0], now, id);
      StepValid(b, Stamped(now, inputs[0]));
      assert AllAt(now, inputs)[1..] == AllAt(now, rest);
      HandledElsewhere(b1, rest, now, id);
      if KeyAt(b.entries, id).Some? {
        SparesCons(inputs, KeyAt(b.entries, id).value.kind);
      }
    }
  }

  lemma SparesCons(inputs: seq<Input>, kind: Kind)
    requires inputs != []
    ensures Spares(inputs, kind) <==> inputs[0] != RecvLeaveAll(Some(kind)) && Spares(inputs[1..], kind)
  {
    assert forall i :: 0 < i < |inputs| ==> inputs[i] == inputs[1..][i - 1];
  }

  // ---------------------------------------------------------------- what a frame stores

  /** What is stored for an attribute that was announced as New or Join with the data `r`: unknown, as it was sent;
      known, as the fields of the kind follow. `talkerKnown` matters for listeners only. */
  ghost predicate Stored(before: Option<Declaration>, r: Declaration, talkerKnown: bool, key: Declaration)
    requires WellTyped(r) && (before.Some? ==> WellTyped(before.value) && IdOf(before.value) == IdOf(r))
  {
    if before.None? then key == r else Follows(before.value, key, r, talkerKnown)
  }

  lemma StoredStep(b: Db, e: Event, r: Declaration, now: nat)
    requires Valid(b) && WellTyped(r) && e in {RNew, RJoinIn, RJoinMt}
    ensures var es, o' := b.entries, At(Step(b, Stamped(now, On(e, r))).entries, IdOf(r));
            && o'.Some? && o'.value.reg == IN && IdOf(o'.value.key) == IdOf(r)
            && var k := KeyAt(es, IdOf(r));
               (k.Some? ==> WellTyped(k.value) && IdOf(k.value) == IdOf(r))
               && Stored(k, r, KeyAt(es, TalkerId(r.number)).Some?, o'.value.key)
  {
    hide Step, Unique, WellTyped, IdOf, NewsFor, Applicant.NameOf, Applicant.Moved, Follows, Find;
    var s, es, id := Stamped(now, On(e, r)), b.entries, IdOf(r);
    StepLife(b, s, id);
    StepData(b, s, id);
    if At(es, id).Some? {
      AtSome(es, id);
    }
    AtSome(Step(b, s).entries, id);
  }
}
