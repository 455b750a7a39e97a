/** Two MVRP stations at work: one transmits, the other receives, on their own linked lists and buffers. */
module MvrpExchange {
  import opened Mrp
  import opened Mvrp
  import opened KeySets
  import opened MvrpProperties
  import opened MvrpFrames
  import opened Convergence
  import opened AttributeList
  import opened MvrpEmitter
  import opened MvrpDatabase
  import opened Wire

  /** Two stations share no part of their databases. */
  ghost predicate Apart(a: Database, b: Database)
    reads a, a.list, b, b.list
  {
    a != b && a.list != b.list && forall k :: 0 <= k < |b.list.nodes| ==> b.list.nodes[k] !in a.list.nodes
  }

  /** periodic! and then tx! at one station. */
  method Announce(a: Database, now: nat) returns (frame: Option<seq<byte>>)
    requires a.Valid() && !a.sendEmpty
    modifies a, a.list, a.list.nodes
    ensures a.Valid() && !a.sendEmpty && a.Model() == TransmitStep(PeriodicStep(old(a.Model())))
    ensures frame == FrameOf(a.station, PeriodicStep(old(a.Model())), Transmit)
    ensures forall k :: 0 <= k < |a.list.nodes| ==> a.list.nodes[k] in old(a.list.nodes) || fresh(a.list.nodes[k])
  {
    hide PeriodicStep, TransmitStep, FrameOf, Mvrp.Valid, Linked, NoRepeat, AbsAll, Attrs;
    ghost var m := a.Model();
    var _ := a.Handle(PeriodicTimer, now);
    assert a.Model() == PeriodicStep(m);
    frame := a.Handle(Transmit, now);
  }

  /** After periodic! and tx! at `a`, and delivery of the frame, with any padding, to `b`, every 12-bit VID that `a`
      declares is registered at `b`, and neither station's declarations have changed. */
  method Exchange(a: Database, b: Database, now: nat, pad: nat)
    requires a.Valid() && b.Valid() && !a.sendEmpty && !b.sendEmpty && Apart(a, b)
    requires TotalSize(OffersAfter(PeriodicStep(a.Model()).entries, Tx)) <= CAPACITY
    modifies a, a.list, a.list.nodes, b, b.list, b.list.nodes
    ensures a.Valid() && b.Valid()
    ensures Declared(a.Model().entries) == old(Declared(a.Model().entries))
    ensures Declared(b.Model().entries) == old(Declared(b.Model().entries))
    ensures Declared12(old(a.Model().entries)) <= Registered(b.Model().entries)
  {
    hide PeriodicStep, TransmitStep, FrameOf, Mvrp.Valid, Linked, NoRepeat, AbsAll, Attrs, Declared, Declared12,
      Registered, Withdrawn12, TotalSize, Receive, OffersAfter, Padded;
    ghost var ma, mb := a.Model(), b.Model();
    Converges(a.station, ma, mb, now, now, pad);
    var frame := Announce(a, now);
    assert b.Valid() && b.Model() == mb;
    if frame.Some? {
      b.RecvMsg(Padded(frame.value, pad), now);
      assert a.Model() == TransmitStep(PeriodicStep(ma));
    } else {
      assert {} <= Registered(mb.entries);
    }
  }
}
