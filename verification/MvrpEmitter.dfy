/** `mvrp_emit_vidvectors` and `mvrp_txpdu` as they work: walking the linked attribute list, clearing
    `tx` flags on the way, and writing a frame buffer in place. */
module MvrpEmitter {
  import opened Mrp
  import opened Participant
  import opened Mvrp
  import opened Wire
  import opened MvrpCodec
  import opened AttributeList

  /** `struct mvrp_attribute`. */
  datatype Attr = Attr(vid: int, app: Applicant, reg: RegState)

  function Abs(a: Attr): Vlan {
    Entry(a.vid, a.app.state, a.reg)
  }

  function AbsAll(s: seq<Attr>): (r: seq<Vlan>)
    ensures |r| == |s| && forall i :: 0 <= i < |s| ==> r[i] == Abs(s[i])
  {
    seq(|s|, i requires 0 <= i < |s| => Abs(s[i]))
  }

  function OfferOfAttr(a: Attr): Offer {
    Offer(a.vid, a.app.tx, a.app.optional, PduCode(a.app.sndmsg, a.reg))
  }

  function OffersOf(s: seq<Attr>): (r: seq<Offer>)
    ensures |r| == |s| && forall i :: 0 <= i < |s| ==> r[i] == OfferOfAttr(s[i])
  {
    seq(|s|, i requires 0 <= i < |s| => OfferOfAttr(s[i]))
  }

  function Untransmit(a: Attr): Attr {
    a.(app := a.app.(tx := false))
  }

  /** The attributes with the `tx` flags at positions `from` to `to` cleared. */
  function Cleared(s: seq<Attr>, from: int, to: int): (r: seq<Attr>)
    ensures |r| == |s|
    ensures forall i :: 0 <= i < |s| ==> r[i] == if from <= i < to then Untransmit(s[i]) else s[i]
  {
    seq(|s|, i requires 0 <= i < |s| => if from <= i < to then Untransmit(s[i]) else s[i])
  }

  lemma ClearedOne(s: seq<Attr>, from: int, to: nat)
    requires from <= to < |s|
    ensures Cleared(s, from, to)[to := Untransmit(s[to])] == Cleared(s, from, to + 1)
  {
  }

  lemma ClearedAbs(s: seq<Attr>, from: int, to: int)
    ensures AbsAll(Cleared(s, from, to)) == AbsAll(s)
  {
  }

  // ---------------------------------------------------------------- packing in steps

  lemma {:induction false} PackAllAppend(cs: seq<int>, x: int, y: int, z: int)
    requires |cs| % 3 == 0
    ensures PackAll(cs + [x, y, z]) == PackAll(cs) + [Pack3(x, y, z)]
    decreases |cs|
  {
    hide Pack3;
    var t := cs + [x, y, z];
    if cs != [] {
      PackAllAppend(cs[3..], x, y, z);
      assert t[3..] == cs[3..] + [x, y, z];
    }
  }

  lemma {:induction false} PackAllPadded(cs: seq<int>, x: int, y: int)
    requires |cs| % 3 == 0
    ensures PackAll(cs + [x]) == PackAll(cs) + [Pack3(x, 0, 0)]
    ensures PackAll(cs + [x, y]) == PackAll(cs) + [Pack3(x, y, 0)]
    decreases |cs|
  {
    hide Pack3;
    if cs != [] {
      PackAllPadded(cs[3..], x, y);
      assert (cs + [x])[3..] == cs[3..] + [x];
      assert (cs + [x, y])[3..] == cs[3..] + [x, y];
    }
  }

  /** The three-event accumulator of the emitter: `n` events pending. */
  datatype Triple = Triple(x: int, y: int, z: int, n: nat)

  const NO_EVENTS := Triple(0, 0, 0, 0)

  function Push(t: Triple, c: int): Triple {
    if t.n == 0 then Triple(c, 0, 0, 1)
    else if t.n == 1 then Triple(t.x, c, 0, 2)
    else Triple(t.x, t.y, c, 3)
  }

  /** `bs` and the pending events are what the codes `cs` come to. */
  ghost predicate Packed(cs: seq<int>, bs: seq<byte>, t: Triple) {
    && 0 <= t.n < 3 && |cs| % 3 == t.n && bs == PackAll(cs[..|cs| - t.n])
    && (if t.n == 0 then t == NO_EVENTS
        else if t.n == 1 then t == Triple(cs[|cs| - 1], 0, 0, 1)
        else t == Triple(cs[|cs| - 2], cs[|cs| - 1], 0, 2))
  }

  lemma PackedPush(cs: seq<int>, bs: seq<byte>, t: Triple, c: int)
    requires Packed(cs, bs, t)
    ensures t.n < 2 ==> Packed(cs + [c], bs, Push(t, c))
    ensures t.n == 2 ==> Packed(cs + [c], bs + [Pack3(t.x, t.y, c)], NO_EVENTS)
  {
    hide PackAll, Pack3;
    var full := cs[..|cs| - t.n];
    var cs' := cs + [c];
    if t.n < 2 {
      assert cs'[..|cs'| - (t.n + 1)] == full;
    } else {
      PackAllAppend(full, t.x, t.y, c);
      assert cs' == full + [t.x, t.y, c];
      assert cs'[..|cs'|] == cs';
    }
  }

  lemma PackedFlush(cs: seq<int>, bs: seq<byte>, t: Triple)
    requires Packed(cs, bs, t)
    ensures PackAll(cs) == if t.n > 0 then bs + [Pack3(t.x, t.y, t.z)] else bs
  {
    hide PackAll, Pack3;
    var full := cs[..|cs| - t.n];
    if t.n == 0 {
      assert full == cs;
    } else {
      PackAllPadded(full, t.x, t.y);
      assert cs == full + (if t.n == 1 then [t.x] else [t.x, t.y]);
    }
  }

  // ---------------------------------------------------------------- one vector

  /** The run that is being emitted: `m` values so far, `bs` and `t` their packed form. */
  ghost predicate InRun(os: seq<Offer>, m: nat, bs: seq<byte>, t: Triple) {
    && 1 <= m <= |os| && AllEncodable(os[..m]) && Packed(CodesOf(os[..m]), bs, t)
    && VectorLength(os) == m + RunLength(os[m..], (os[0].vid + (m - 1)) % 0x10000)
  }

  lemma NextVid(a: int)
    ensures (a % 0x10000 + 1) % 0x10000 == (a + 1) % 0x10000
  {
  }

  lemma RunStarts(os: seq<Offer>)
    requires os != [] && Encodable(os[0]) && 0 <= os[0].vid < 0x10000
    ensures InRun(os, 1, [], Triple(os[0].code.value, 0, 0, 1))
  {
    var cs := CodesOf(os[..1]);
    assert cs[..0] == [];
  }

  lemma RunGrows(os: seq<Offer>, m: nat, bs: seq<byte>, t: Triple)
    requires InRun(os, m, bs, t) && m < |os| && os[m].tx && os[m].vid == (os[0].vid + m) % 0x10000
    requires Encodable(os[m])
    ensures t.n < 2 ==> InRun(os, m + 1, bs, Push(t, os[m].code.value))
    ensures t.n == 2 ==> InRun(os, m + 1, bs + [Pack3(t.x, t.y, os[m].code.value)], NO_EVENTS)
  {
    hide Packed, Pack3;
    var c := os[m].code.value;
    PackedPush(CodesOf(os[..m]), bs, t, c);
    assert CodesOf(os[..m + 1]) == CodesOf(os[..m]) + [c];
    assert os[m..][1..] == os[m + 1..];
    NextVid(os[0].vid + (m - 1));
  }

  lemma RunSoFar(os: seq<Offer>, m: nat, bs: seq<byte>, t: Triple)
    requires InRun(os, m, bs, t)
    ensures 1 <= m <= VectorLength(os) && |bs| == m / 3 && t.n == m % 3 && AllEncodable(os[..m])
  {
  }

  /** A value of the run that cannot be encoded. */
  lemma RunFails(os: seq<Offer>, m: nat, bs: seq<byte>, t: Triple)
    requires InRun(os, m, bs, t) && m < |os| && os[m].tx && os[m].vid == (os[0].vid + m) % 0x10000
    requires !Encodable(os[m])
    ensures !AllEncodable(os[..VectorLength(os)])
  {
    hide Packed;
    NextVid(os[0].vid + (m - 1));
    assert os[..VectorLength(os)][m] == os[m];
  }

  lemma RunPacked(os: seq<Offer>, m: nat, bs: seq<byte>, t: Triple)
    requires InRun(os, m, bs, t)
    ensures PackAll(CodesOf(os[..m])) == if t.n > 0 then bs + [Pack3(t.x, t.y, t.z)] else bs
  {
    hide Packed, Pack3, PackAll, RunLength;
    PackedFlush(CodesOf(os[..m]), bs, t);
  }

  lemma RunEnds(os: seq<Offer>, m: nat, bs: seq<byte>, t: Triple)
    requires InRun(os, m, bs, t)
    requires m < |os| ==> !os[m].tx || os[m].vid != (os[0].vid + m) % 0x10000
    ensures VectorLength(os) == m
  {
    hide Packed;
    NextVid(os[0].vid + (m - 1));
  }

  /** `bs` stands in the buffer from index `at` on. */
  ghost predicate Wrote(buf: array<byte>, at: int, bs: seq<byte>)
    reads buf
  {
    0 <= at && at + |bs| <= buf.Length && forall k :: 0 <= k < |bs| ==> buf[at + k] == bs[k]
  }

  /** FirstValue and the vector bytes so far; the header at `at` is written last. */
  ghost predicate Filled(buf: array<byte>, at: nat, vid: int, bs: seq<byte>)
    reads buf
  {
    && at + 4 <= buf.Length && buf[at + 2] == Hi(vid) && buf[at + 3] == Lo(vid)
    && Wrote(buf, at + 4, bs)
  }

  method WriteFirst(buf: array<byte>, at: nat, vid: int)
    requires at + 4 <= buf.Length
    modifies buf
    ensures Filled(buf, at, vid, [])
    ensures forall k :: 0 <= k < at ==> buf[k] == old(buf[k])
  {
    buf[at + 2] := Hi(vid);
    buf[at + 3] := Lo(vid);
  }

  method PushByte(buf: array<byte>, at: nat, ghost vid: int, ghost bs: seq<byte>, idx: nat, b: byte)
    requires Filled(buf, at, vid, bs) && idx == at + 4 + |bs| && idx < buf.Length
    modifies buf
    ensures Filled(buf, at, vid, bs + [b])
    ensures forall k :: 0 <= k < at ==> buf[k] == old(buf[k])
  {
    buf[idx] := b;
  }

  method WriteHeader(buf: array<byte>, at: nat, ghost vid: int, ghost bs: seq<byte>, h: int)
    requires Filled(buf, at, vid, bs)
    modifies buf
    ensures Wrote(buf, at, [Hi(h), Lo(h), Hi(vid), Lo(vid)] + bs)
    ensures forall k :: 0 <= k < at ==> buf[k] == old(buf[k])
  {
    buf[at] := Hi(h);
    buf[at + 1] := Lo(h);
  }

  /** Everything the inner loop keeps, seen from the list. */
  ghost predicate Vectorizing(list: List<Attr>, s: seq<Attr>, i: nat, m: nat, os: seq<Offer>,
                              bs: seq<byte>, t: Triple)
    reads list, list.nodes
  {
    && list.Valid() && |list.nodes| == |s| && i + m <= |s| && os == OffersOf(s[i..])
    && InRun(os, m, bs, t) && list.Contents() == Cleared(s, i + 1, i + m)
  }

  /** One more attribute joins the vector: its `tx` flag is cleared, its event taken. */
  method Absorb(list: List<Attr>, v: Node<Attr>, ghost s: seq<Attr>, ghost i: nat, ghost m: nat,
                ghost os: seq<Offer>, ghost bs: seq<byte>, t: Triple) returns (code: Option<int>)
    requires Vectorizing(list, s, i, m, os, bs, t) && i + m < |s| && list.nodes[i + m] == v
    requires v.attr.app.tx && v.attr.vid == (os[0].vid + m) % 0x10000
    modifies list.nodes
    ensures list.Valid() && AbsAll(list.Contents()) == AbsAll(s)
    ensures code.None? ==> !AllEncodable(os[..VectorLength(os)])
    ensures code.Some? && t.n < 2 ==> Vectorizing(list, s, i, m + 1, os, bs, Push(t, code.value))
    ensures code.Some? && t.n == 2 ==>
      Vectorizing(list, s, i, m + 1, os, bs + [Pack3(t.x, t.y, code.value)], NO_EVENTS)
  {
    hide InRun, RunLength, VectorLength, PackAll, Pack3, Linked, NoRepeat;
    var a := v.attr;
    RunSoFar(os, m, bs, t);
    assert a == s[i + m];
    assert os[m] == OfferOfAttr(a);
    list.SetAttr(v, i + m, Untransmit(a));
    ClearedOne(s, i + 1, i + m);
    ClearedAbs(s, i + 1, i + m + 1);
    code := PduCode(a.app.sndmsg, a.reg);
    if code.None? {
      RunFails(os, m, bs, t);
    } else {
      RunGrows(os, m, bs, t);
    }
  }

  lemma Reached(list: List<Attr>, s: seq<Attr>, i: nat, m: nat, os: seq<Offer>, bs: seq<byte>, t: Triple)
    requires Vectorizing(list, s, i, m, os, bs, t)
    ensures list.Valid() && |list.nodes| == |s| && i + m <= |s| && |os| == |s| - i
    ensures AbsAll(list.Contents()) == AbsAll(s)
    ensures i + m < |s| ==> os[m] == OfferOfAttr(list.nodes[i + m].attr)
    ensures 1 <= m <= VectorLength(os) && |bs| == m / 3 && t.n == m % 3 && AllEncodable(os[..m])
  {
    hide InRun, RunLength, VectorLength, Linked, NoRepeat, Push;
    RunSoFar(os, m, bs, t);
    ClearedAbs(s, i + 1, i + m);
    if i + m < |s| {
      assert list.Contents()[i + m] == s[i + m];
    }
  }

  lemma RunOver(list: List<Attr>, s: seq<Attr>, i: nat, m: nat, os: seq<Offer>, bs: seq<byte>, t: Triple)
    requires Vectorizing(list, s, i, m, os, bs, t)
    requires m < |os| ==> !os[m].tx || os[m].vid != (os[0].vid + m) % 0x10000
    ensures VectorLength(os) == m
  {
    hide InRun, RunLength, VectorLength, PackAll, Pack3;
    RunEnds(os, m, bs, t);
  }

  /** One turn of the inner loop: take in `v`, and write a byte when three events are pending. */
  method Extend(list: List<Attr>, v: Node<Attr>, ghost s: seq<Attr>, ghost i: nat, ghost m: nat,
                ghost os: seq<Offer>, ghost bs: seq<byte>, t: Triple,
                buf: array<byte>, at: nat, ghost vid: int, idx: nat)
    returns (ok: bool, t': Triple, idx': nat, ghost bs': seq<byte>)
    requires Vectorizing(list, s, i, m, os, bs, t) && i + m < |s| && list.nodes[i + m] == v
    requires v.attr.app.tx && v.attr.vid == (os[0].vid + m) % 0x10000
    requires Filled(buf, at, vid, bs) && idx == at + 4 + |bs| && idx <= buf.Length - 2
    modifies buf, list.nodes
    ensures list.Valid() && AbsAll(list.Contents()) == AbsAll(s)
    ensures forall k :: 0 <= k < at ==> buf[k] == old(buf[k])
    ensures ok ==> Vectorizing(list, s, i, m + 1, os, bs', t')
    ensures ok ==> Filled(buf, at, vid, bs') && idx' == at + 4 + |bs'| && idx' <= buf.Length - 2
    ensures !ok ==> at + VectorSize(VectorLength(os)) > buf.Length - 2 || !AllEncodable(os[..VectorLength(os)])
  {
    hide Vectorizing, VectorLength, Filled, Pack3;
    Reached(list, s, i, m, os, bs, t);
    var c := Absorb(list, v, s, i, m, os, bs, t);
    t', idx', bs' := t, idx, bs;
    if c.None? {
      return false, t', idx', bs';
    }
    if t.n == 2 {
      var b := Pack3(t.x, t.y, c.value);
      PushByte(buf, at, vid, bs, idx, b);
      bs', idx', t' := bs + [b], idx + 1, NO_EVENTS;
    } else {
      t' := Push(t, c.value);
    }
    Reached(list, s, i, m + 1, os, bs', t');
    ok := idx' <= buf.Length - 2;
  }

  /** The inner loop: gather the run that starts at `x`. */
  method Gather(list: List<Attr>, x: Node<Attr>, ghost s: seq<Attr>, ghost i: nat, ghost os: seq<Offer>,
                t0: Triple, buf: array<byte>, at: nat)
    returns (ok: bool, m: nat, t: Triple, idx: nat, ghost bs: seq<byte>)
    requires Vectorizing(list, s, i, 1, os, [], t0) && list.nodes[i] == x && x.attr.vid == os[0].vid
    requires Filled(buf, at, x.attr.vid, []) && at + 6 < buf.Length
    modifies buf, list.nodes
    ensures list.Valid() && AbsAll(list.Contents()) == AbsAll(s)
    ensures forall k :: 0 <= k < at ==> buf[k] == old(buf[k])
    ensures ok ==> Vectorizing(list, s, i, m, os, bs, t) && m == VectorLength(os)
    ensures ok ==> Filled(buf, at, os[0].vid, bs) && idx == at + 4 + |bs| && idx <= buf.Length - 2
    ensures !ok ==> at + VectorSize(VectorLength(os)) > buf.Length - 2 || !AllEncodable(os[..VectorLength(os)])
  {
    hide Vectorizing, VectorLength, Filled, Linked, NoRepeat, AllEncodable, VectorSize, AbsAll, Attrs;
    var vid := x.attr.vid;
    t, idx, m, bs := t0, at + 4, 1, [];
    Reached(list, s, i, 1, os, [], t0);
    LinksAt(list.nodes, i);
    var v := x.next;
    while v != null
      invariant Vectorizing(list, s, i, m, os, bs, t) && v == At(list.nodes, i + m)
      invariant idx == at + 4 + |bs| && idx <= buf.Length - 2 && Filled(buf, at, vid, bs)
      invariant forall k :: 0 <= k < at ==> buf[k] == old(buf[k])
      invariant m <= |s|
      decreases |s| - m
    {
      Reached(list, s, i, m, os, bs, t);
      if !v.attr.app.tx || v.attr.vid != (vid + m) % 0x10000 {
        break;
      }
      ok, t, idx, bs := Extend(list, v, s, i, m, os, bs, t, buf, at, vid, idx);
      m := m + 1;
      if !ok {
        return;
      }
      LinksAt(list.nodes, i + m - 1);
      v := v.next;
    }
    Reached(list, s, i, m, os, bs, t);
    RunOver(list, s, i, m, os, bs, t);
    ok := true;
  }

  /** The trailing byte and the header of a finished run. */
  method Finish(buf: array<byte>, at: nat, ghost os: seq<Offer>, m: nat, ghost bs: seq<byte>, t: Triple,
                idx: nat, lva: bool) returns (end: Option<nat>)
    requires InRun(os, m, bs, t) && m == VectorLength(os)
    requires Filled(buf, at, os[0].vid, bs) && idx == at + 4 + |bs| && idx <= buf.Length - 2
    modifies buf
    ensures forall k :: 0 <= k < at ==> buf[k] == old(buf[k])
    ensures end.None? <==> at + VectorSize(m) > buf.Length - 2
    ensures end.Some? ==> end.value == at + VectorSize(m)
    ensures end.Some? ==> Wrote(buf, at, VectorBytes(lva, os[0].vid, CodesOf(os[..m])))
  {
    hide InRun, RunLength, VectorLength, PackAll, Pack3, Filled, Wrote, Header;
    RunSoFar(os, m, bs, t);
    RunPacked(os, m, bs, t);
    ghost var bs' := bs;
    var idx' := idx;
    if t.n > 0 {
      var b := Pack3(t.x, t.y, t.z);
      PushByte(buf, at, os[0].vid, bs, idx, b);
      bs', idx' := bs + [b], idx + 1;
    }
    if idx' > buf.Length - 2 {
      return None;
    }
    WriteHeader(buf, at, os[0].vid, bs', Header(m, lva));
    return Some(idx');
  }

  /** Emit the vector that starts at `x`, whose `tx` flag is already cleared; None is the "oops" exit. */
  method EmitVector(list: List<Attr>, x: Node<Attr>, ghost i: nat, buf: array<byte>, at: nat, lva: bool)
    returns (end: Option<nat>)
    requires list.Valid() && i < |list.nodes| && list.nodes[i] == x && 0 <= x.attr.vid < 0x10000
    requires at + 6 < buf.Length
    modifies buf, list.nodes
    ensures list.Valid() && AbsAll(list.Contents()) == old(AbsAll(list.Contents()))
    ensures forall k :: 0 <= k < at ==> buf[k] == old(buf[k])
    ensures var os := OffersOf(old(list.Contents())[i..]);
            var n := VectorLength(os);
            && (end.None? <==> at + VectorSize(n) > buf.Length - 2 || !AllEncodable(os[..n]))
            && (end.Some? ==>
                  && end.value == at + VectorSize(n)
                  && list.Contents() == Cleared(old(list.Contents()), i + 1, i + n)
                  && Wrote(buf, at, VectorBytes(lva, os[0].vid, CodesOf(os[..n]))))
  {
    hide InRun, VectorLength, PackAll, Pack3, Filled, Wrote, Linked, NoRepeat, VectorBytes;
    ghost var s := list.Contents();
    ghost var os := OffersOf(s[i..]);
    var code := PduCode(x.attr.app.sndmsg, x.attr.reg);
    WriteFirst(buf, at, x.attr.vid);
    if code.None? {
      assert os[..VectorLength(os)][0] == os[0] && !Encodable(os[0]);
      return None;
    }
    RunStarts(os);
    assert Cleared(s, i + 1, i + 1) == s;
    var t0 := Triple(code.value, 0, 0, 1);
    var ok, m, t, idx, bs := Gather(list, x, s, i, os, t0, buf, at);
    if !ok {
      return None;
    }
    RunSoFar(os, m, bs, t);
    end := Finish(buf, at, os, m, bs, t, idx, lva);
  }
}
