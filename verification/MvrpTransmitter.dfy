/** The outer loop of `mvrp_emit_vidvectors` and `mvrp_txpdu`: a whole frame, written in place, is
    the frame `BuildFrame` describes. */
module MvrpTransmitter {
  import opened Mrp
  import opened Participant
  import opened Mvrp
  import opened Wire
  import opened MvrpCodec
  import opened AttributeList
  import opened MvrpEmitter

  // ---------------------------------------------------------------- how far the emitter has come

  function Prepend(out: seq<byte>, e: Emitted): Emitted {
    if e.Oops? then Oops else Vectors(out + e.bytes)
  }

  /** The emitter's write position: it counts the message header only once a vector is out. */
  function Offset(out: seq<byte>): nat {
    if out == [] then 0 else 2 + |out|
  }

  /** `out` has been written and `rest` is still to come. */
  ghost predicate Progress(os: seq<Offer>, lva0: bool, out: seq<byte>, rest: seq<Offer>, lva: bool) {
    EmitVectors(os, 0, ROOM, lva0) == Prepend(out, EmitVectors(rest, Offset(out), ROOM, lva))
  }

  lemma ProgressStart(os: seq<Offer>, lva: bool)
    ensures Progress(os, lva, [], os, lva)
  {
    hide EmitVectors;
    var e := EmitVectors(os, 0, ROOM, lva);
    assert e.Vectors? ==> [] + e.bytes == e.bytes;
  }

  lemma ProgressSkip(os: seq<Offer>, lva0: bool, out: seq<byte>, rest: seq<Offer>, lva: bool)
    requires Progress(os, lva0, out, rest, lva) && rest != [] && Offset(out) < ROOM - 8
    requires !rest[0].tx || rest[0].optional
    ensures Progress(os, lva0, out, rest[1..], lva)
  {
    hide VectorLength, VectorSize, VectorBytes, AllEncodable, CodesOf;
  }

  /** Where a vector that is written next ends, counted from the start of the message. */
  function EndOf(out: seq<byte>, n: nat): nat {
    2 + |out| + VectorSize(n)
  }

  lemma ProgressOops(os: seq<Offer>, lva0: bool, out: seq<byte>, rest: seq<Offer>, lva: bool)
    requires Progress(os, lva0, out, rest, lva) && rest != [] && Offset(out) < ROOM - 8
    requires rest[0].tx && !rest[0].optional
    requires EndOf(out, VectorLength(rest)) > ROOM - 2 || !AllEncodable(rest[..VectorLength(rest)])
    ensures EmitVectors(os, 0, ROOM, lva0).Oops?
  {
    hide VectorLength, VectorBytes, AllEncodable, CodesOf;
  }

  lemma ProgressVector(os: seq<Offer>, lva0: bool, out: seq<byte>, rest: seq<Offer>, lva: bool)
    requires Progress(os, lva0, out, rest, lva) && rest != [] && Offset(out) < ROOM - 8
    requires rest[0].tx && !rest[0].optional
    requires EndOf(out, VectorLength(rest)) <= ROOM - 2 && AllEncodable(rest[..VectorLength(rest)])
    ensures var n := VectorLength(rest);
            Progress(os, lva0, out + VectorBytes(lva, rest[0].vid, CodesOf(rest[..n])), rest[n..], false)
  {
    hide VectorLength, AllEncodable, CodesOf, VectorBytes, VectorSize;
    var n := VectorLength(rest);
    var v := VectorBytes(lva, rest[0].vid, CodesOf(rest[..n]));
    var e := EmitVectors(rest[n..], EndOf(out, n), ROOM, false);
    assert Offset(out + v) == EndOf(out, n) by { SizePositive(n); }
    assert EmitVectors(rest, Offset(out), ROOM, lva) == Prepend(v, e);
    if !e.Oops? {
      assert (out + v) + e.bytes == out + (v + e.bytes);
    }
  }

  lemma SizePositive(n: nat)
    ensures VectorSize(n) >= 4
  {
  }

  lemma ProgressEnd(os: seq<Offer>, lva0: bool, out: seq<byte>, rest: seq<Offer>, lva: bool)
    requires Progress(os, lva0, out, rest, lva) && (rest == [] || Offset(out) >= ROOM - 8)
    ensures EmitVectors(os, 0, ROOM, lva0) == Vectors(out)
  {
    assert out + [] == out;
  }

  /** Offers whose `tx` flag was cleared by an earlier vector are passed over. */
  lemma {:induction false} SkipCleared(a: seq<Offer>, b: seq<Offer>, p: nat, lva: bool)
    requires forall i :: 0 <= i < |a| ==> !a[i].tx
    ensures EmitVectors(a + b, p, ROOM, lva) == EmitVectors(b, p, ROOM, lva)
    decreases |a|
  {
    hide VectorLength, AllEncodable, CodesOf, VectorBytes, VectorSize;
    if a == [] {
      assert a + b == b;
    } else {
      SkipCleared(a[1..], b, p, lva);
      assert (a + b)[1..] == a[1..] + b;
      assert (a + b)[0] == a[0];
    }
  }

  lemma ProgressCleared(os: seq<Offer>, lva0: bool, out: seq<byte>, rest: seq<Offer>, rest': seq<Offer>, n: nat,
                        lva: bool)
    requires 1 <= n <= |rest| && |rest'| == |rest| - 1 && Progress(os, lva0, out, rest[n..], lva)
    requires forall i :: 0 <= i < n - 1 ==> !rest'[i].tx
    requires forall i :: n - 1 <= i < |rest'| ==> rest'[i] == rest[i + 1]
    ensures Progress(os, lva0, out, rest', lva)
  {
    hide EmitVectors;
    assert rest' == rest'[..n - 1] + rest[n..];
    SkipCleared(rest'[..n - 1], rest[n..], Offset(out), lva);
  }

  /** Whether the head of a run is still marked makes no difference to its vector. */
  lemma HeadCleared(os: seq<Offer>, o: Offer)
    requires os != [] && o == os[0].(tx := false)
    ensures VectorLength(os[0 := o]) == VectorLength(os)
    ensures var n := VectorLength(os);
            && (AllEncodable(os[0 := o][..n]) <==> AllEncodable(os[..n]))
            && CodesOf(os[0 := o][..n]) == CodesOf(os[..n])
  {
    var r, n := os[0 := o], VectorLength(os);
    assert r[1..] == os[1..];
    assert forall i :: 0 <= i < n ==> Encodable(r[..n][i]) == Encodable(os[..n][i]);
  }

  // ---------------------------------------------------------------- the loop over the list

  ghost predicate InRange(s: seq<Attr>) {
    forall i :: 0 <= i < |s| ==> 0 <= s[i].vid < 0x10000
  }

  /** What the outer loop keeps about the list; `s` is what the list held at the start. */
  ghost predicate Emitting(list: List<Attr>, s: seq<Attr>, lva0: bool, i: nat, out: seq<byte>, lva: bool)
    reads list, list.nodes
  {
    && list.Valid() && i <= |list.nodes| && InRange(list.Contents())
    && AbsAll(list.Contents()) == AbsAll(s)
    && Progress(OffersOf(s), lva0, out, OffersOf(list.Contents()[i..]), lva)
  }

  /** What it keeps about the buffer: the message header, then the vectors, then still zeroes. */
  ghost predicate Buffered(buf: array<byte>, out: seq<byte>)
    reads buf
  {
    && buf.Length == MAX_FRAME_SIZE && buf[MESSAGE_START] == VID_TYPE && buf[MESSAGE_START + 1] == 2
    && Wrote(buf, MESSAGE_START + 2, out)
    && (out == [] ==> forall k :: MESSAGE_START + 2 <= k < buf.Length ==> buf[k] == 0)
  }

  lemma TailOffers(s: seq<Attr>, i: nat)
    requires i < |s|
    ensures OffersOf(s[i..])[0] == OfferOfAttr(s[i])
    ensures OffersOf(s[i..])[1..] == OffersOf(s[i + 1..])
  {
  }

  lemma Unmarked(s: seq<Attr>, i: nat)
    requires i < |s|
    ensures var s' := s[i := Untransmit(s[i])];
            && AbsAll(s') == AbsAll(s) && (InRange(s) ==> InRange(s'))
            && s'[i + 1..] == s[i + 1..]
            && OffersOf(s'[i..]) == OffersOf(s[i..])[0 := OfferOfAttr(s[i]).(tx := false)]
  {
  }

  /** Passing over an attribute that is not marked, or only optional. */
  lemma EmittingSkip(list: List<Attr>, s: seq<Attr>, lva0: bool, i: nat, out: seq<byte>, lva: bool)
    requires Emitting(list, s, lva0, i, out, lva) && i < |list.nodes| && Offset(out) < ROOM - 8
    requires var a := list.nodes[i].attr; !a.app.tx || a.app.optional
    ensures Emitting(list, s, lva0, i + 1, out, lva)
  {
    hide Progress, Linked, NoRepeat;
    var c := list.Contents();
    TailOffers(c, i);
    ProgressSkip(OffersOf(s), lva0, out, OffersOf(c[i..]), lva);
  }

  method Skip(list: List<Attr>, x: Node<Attr>, ghost s: seq<Attr>, ghost lva0: bool, ghost i: nat,
              ghost out: seq<byte>, ghost lva: bool)
    requires Emitting(list, s, lva0, i, out, lva) && i < |list.nodes| && Offset(out) < ROOM - 8
    requires list.nodes[i] == x && x.attr.app.tx && x.attr.app.optional
    modifies x
    ensures Emitting(list, s, lva0, i + 1, out, lva)
  {
    hide Progress, Linked, NoRepeat;
    ghost var c := list.Contents();
    EmittingSkip(list, s, lva0, i, out, lva);
    Unmarked(c, i);
    list.SetAttr(x, i, Untransmit(x.attr));
  }

  /** The attributes once the vector of `n` values that starts at `i` is out. */
  function Taken(c: seq<Attr>, i: nat, n: nat): seq<Attr>
    requires i < |c|
  {
    Cleared(c[i := Untransmit(c[i])], i + 1, i + n)
  }

  lemma TakenOffers(c: seq<Attr>, i: nat, n: nat)
    requires i < |c| && 1 <= n <= |c| - i
    ensures var rest, rest' := OffersOf(c[i..]), OffersOf(Taken(c, i, n)[i + 1..]);
            && |rest'| == |rest| - 1
            && (forall k :: 0 <= k < n - 1 ==> !rest'[k].tx)
            && (forall k :: n - 1 <= k < |rest'| ==> rest'[k] == rest[k + 1])
    ensures AbsAll(Taken(c, i, n)) == AbsAll(c)
    ensures InRange(c) ==> InRange(Taken(c, i, n))
  {
  }

  lemma EmittingVector(s: seq<Attr>, lva0: bool, c: seq<Attr>, i: nat, out: seq<byte>, lva: bool)
    requires i < |c| && Progress(OffersOf(s), lva0, out, OffersOf(c[i..]), lva) && Offset(out) < ROOM - 8
    requires c[i].app.tx && !c[i].app.optional
    ensures var rest := OffersOf(c[i..]);
            var n := VectorLength(rest);
            if EndOf(out, n) > ROOM - 2 || !AllEncodable(rest[..n]) then EmitVectors(OffersOf(s), 0, ROOM, lva0).Oops?
            else Progress(OffersOf(s), lva0, out + VectorBytes(lva, c[i].vid, CodesOf(rest[..n])),
                          OffersOf(Taken(c, i, n)[i + 1..]), false)
  {
    hide Progress, VectorLength, AllEncodable, CodesOf, VectorBytes, EmitVectors;
    var rest := OffersOf(c[i..]);
    var n := VectorLength(rest);
    TailOffers(c, i);
    if EndOf(out, n) > ROOM - 2 || !AllEncodable(rest[..n]) {
      ProgressOops(OffersOf(s), lva0, out, rest, lva);
    } else {
      ProgressVector(OffersOf(s), lva0, out, rest, lva);
      TakenOffers(c, i, n);
      ProgressCleared(OffersOf(s), lva0, out + VectorBytes(lva, c[i].vid, CodesOf(rest[..n])), rest,
                      OffersOf(Taken(c, i, n)[i + 1..]), n, false);
    }
  }

  lemma BufferedMore(buf: array<byte>, out: seq<byte>, v: seq<byte>)
    requires buf.Length == MAX_FRAME_SIZE && buf[MESSAGE_START] == VID_TYPE && buf[MESSAGE_START + 1] == 2
    requires Wrote(buf, MESSAGE_START + 2, out) && Wrote(buf, MESSAGE_START + 2 + |out|, v) && v != []
    ensures Buffered(buf, out + v)
  {
    forall k | 0 <= k < |out + v| ensures buf[MESSAGE_START + 2 + k] == (out + v)[k] {
      if k >= |out| {
        assert buf[MESSAGE_START + 2 + |out| + (k - |out|)] == v[k - |out|];
      }
    }
  }

  /** Clear the mark of `x` and write its vector behind `out`. */
  method TakeVector(list: List<Attr>, x: Node<Attr>, ghost i: nat, ghost out: seq<byte>, buf: array<byte>,
                    at: nat, lva: bool) returns (end: Option<nat>)
    requires list.Valid() && i < |list.nodes| && list.nodes[i] == x && InRange(list.Contents())
    requires Buffered(buf, out) && at == MESSAGE_START + 2 + |out| && Offset(out) < ROOM - 8
    modifies buf, list.nodes
    ensures list.Valid() && AbsAll(list.Contents()) == old(AbsAll(list.Contents()))
    ensures forall k :: 0 <= k < MESSAGE_START ==> buf[k] == old(buf[k])
    ensures var rest := OffersOf(old(list.Contents())[i..]);
            var n := VectorLength(rest);
            && (end.None? <==> EndOf(out, n) > ROOM - 2 || !AllEncodable(rest[..n]))
            && (end.Some? ==>
                  && end.value == MESSAGE_START + EndOf(out, n)
                  && list.Contents() == Taken(old(list.Contents()), i, n)
                  && Buffered(buf, out + VectorBytes(lva, rest[0].vid, CodesOf(rest[..n]))))
  {
    hide VectorLength, AllEncodable, CodesOf, VectorBytes, VectorSize, Linked, NoRepeat;
    ghost var c := list.Contents();
    ghost var rest := OffersOf(c[i..]);
    Unmarked(c, i);
    HeadCleared(rest, rest[0].(tx := false));
    list.SetAttr(x, i, Untransmit(x.attr));
    end := EmitVector(list, x, i, buf, at, lva);
    if end.Some? {
      ghost var v := VectorBytes(lva, c[i].vid, CodesOf(rest[..VectorLength(rest)]));
      SizePositive(VectorLength(rest));
      BufferedMore(buf, out, v);
    }
  }

  /** One vector of the frame. */
  method EmitRun(list: List<Attr>, x: Node<Attr>, ghost s: seq<Attr>, ghost lva0: bool, ghost i: nat,
                 ghost out: seq<byte>, buf: array<byte>, at: nat, lva: bool)
    returns (end: Option<nat>, ghost out': seq<byte>)
    requires Emitting(list, s, lva0, i, out, lva) && i < |list.nodes| && Offset(out) < ROOM - 8
    requires list.nodes[i] == x && x.attr.app.tx && !x.attr.app.optional
    requires Buffered(buf, out) && at == MESSAGE_START + 2 + |out|
    modifies buf, list.nodes
    ensures list.Valid() && AbsAll(list.Contents()) == AbsAll(s)
    ensures forall k :: 0 <= k < MESSAGE_START ==> buf[k] == old(buf[k])
    ensures end.None? ==> EmitVectors(OffersOf(s), 0, ROOM, lva0).Oops?
    ensures end.Some? ==> Emitting(list, s, lva0, i + 1, out', false) && Buffered(buf, out') && out' != []
    ensures end.Some? ==> end.value == MESSAGE_START + 2 + |out'| <= buf.Length - 2
  {
    hide Progress, VectorLength, AllEncodable, CodesOf, VectorBytes, VectorSize, EmitVectors, Linked, NoRepeat,
      Wrote, Taken, AbsAll;
    ghost var c := list.Contents();
    ghost var rest := OffersOf(c[i..]);
    ghost var n := VectorLength(rest);
    EmittingVector(s, lva0, c, i, out, lva);
    TakenOffers(c, i, n);
    SizePositive(n);
    out' := out + VectorBytes(lva, rest[0].vid, CodesOf(rest[..n]));
    end := TakeVector(list, x, i, out, buf, at, lva);
  }

  /** The loop of `mvrp_emit_vidvectors`. */
  method EmitAll(list: List<Attr>, buf: array<byte>, lva0: bool) returns (at: nat, ok: bool, ghost out: seq<byte>)
    requires list.Valid() && InRange(list.Contents()) && Buffered(buf, [])
    modifies buf, list.nodes
    ensures list.Valid() && AbsAll(list.Contents()) == old(AbsAll(list.Contents()))
    ensures forall k :: 0 <= k < MESSAGE_START ==> buf[k] == old(buf[k])
    ensures var e := EmitVectors(OffersOf(old(list.Contents())), 0, ROOM, lva0);
            if ok then e == Vectors(out) else e.Oops?
    ensures ok ==> Buffered(buf, out) && at == MESSAGE_START + 2 + |out| && (out == [] || at <= buf.Length - 2)
  {
    hide Progress, EmitVectors, Linked, NoRepeat, Wrote, AbsAll, InRange;
    ghost var s := list.Contents();
    ghost var i := 0;
    var x, lva := list.head, lva0;
    at, out := MESSAGE_START + 2, [];
    assert s[0..] == s;
    ProgressStart(OffersOf(s), lva0);
    var ptr := MESSAGE_START;
    while x != null && ptr < buf.Length - 8
      invariant Emitting(list, s, lva0, i, out, lva) && x == At(list.nodes, i)
      invariant ptr == MESSAGE_START + Offset(out)
      invariant Buffered(buf, out) && at == MESSAGE_START + 2 + |out| && (out == [] || at <= buf.Length - 2)
      invariant forall k :: 0 <= k < MESSAGE_START ==> buf[k] == old(buf[k])
      decreases |list.nodes| - i
    {
      LinksAt(list.nodes, i);
      if !x.attr.app.tx {
        EmittingSkip(list, s, lva0, i, out, lva);
      } else if x.attr.app.optional {
        Skip(list, x, s, lva0, i, out, lva);
      } else {
        var end;
        end, out := EmitRun(list, x, s, lva0, i, out, buf, at, lva);
        if end.None? {
          return at, false, out;
        }
        ptr, at, lva := end.value, end.value, false;
      }
      LinksAt(list.nodes, i);
      x, i := x.next, i + 1;
    }
    ProgressEnd(OffersOf(s), lva0, out, OffersOf(list.Contents()[i..]), lva);
    ok := true;
  }

  /** `mvrp_emit_vidvectors`: None is the error return, otherwise the number of bytes used. */
  method EmitVidVectors(list: List<Attr>, buf: array<byte>, lva: bool, sendEmpty: bool) returns (used: Option<nat>)
    requires list.Valid() && InRange(list.Contents())
    requires buf.Length == MAX_FRAME_SIZE && forall k :: MESSAGE_START <= k < buf.Length ==> buf[k] == 0
    modifies buf, list.nodes
    ensures list.Valid() && AbsAll(list.Contents()) == old(AbsAll(list.Contents()))
    ensures forall k :: 0 <= k < MESSAGE_START ==> buf[k] == old(buf[k])
    ensures var m := EmitMessage(OffersOf(old(list.Contents())), ROOM, lva, sendEmpty);
            && (used.None? <==> m.None?)
            && (used.Some? ==> used.value == |m.value| && Wrote(buf, MESSAGE_START, m.value))
  {
    hide EmitVectors, Linked, NoRepeat, AbsAll, InRange;
    buf[MESSAGE_START] := VID_TYPE;
    buf[MESSAGE_START + 1] := 2;
    var at, ok, out := EmitAll(list, buf, lva);
    if !ok {
      return None;
    }
    if at == MESSAGE_START + 2 && sendEmpty {
      buf[at] := 0x20;
      at, out := at + 4, EMPTY_LEAVEALL;
    }
    if at == MESSAGE_START + 2 {
      return Some(0);
    }
    CloseMessage(buf, at, out);
    return Some(at + 2 - MESSAGE_START);
  }

  method CloseMessage(buf: array<byte>, at: nat, ghost out: seq<byte>)
    requires buf.Length == MAX_FRAME_SIZE && buf[MESSAGE_START] == VID_TYPE && buf[MESSAGE_START + 1] == 2
    requires Wrote(buf, MESSAGE_START + 2, out) && at == MESSAGE_START + 2 + |out| <= buf.Length - 2
    modifies buf
    ensures Wrote(buf, MESSAGE_START, [VID_TYPE, 2] + out + [0, 0])
    ensures forall k :: 0 <= k < MESSAGE_START ==> buf[k] == old(buf[k])
  {
    buf[at] := 0;
    buf[at + 1] := 0;
    ghost var m := [VID_TYPE, 2] + out + [0, 0];
    forall k | 0 <= k < |m| ensures buf[MESSAGE_START + k] == m[k] {
      if 2 <= k < 2 + |out| {
        assert buf[MESSAGE_START + 2 + (k - 2)] == out[k - 2];
      }
    }
  }

  /** `mvrp_txpdu`: what goes to the network is the specified frame. */
  method TxPdu(list: List<Attr>, station: seq<byte>, lva: bool, sendEmpty: bool) returns (frame: Option<seq<byte>>)
    requires list.Valid() && InRange(list.Contents()) && |station| == 6
    modifies list.nodes
    ensures list.Valid() && AbsAll(list.Contents()) == old(AbsAll(list.Contents()))
    ensures frame == BuildFrame(station, OffersOf(old(list.Contents())), lva, sendEmpty)
  {
    hide EmitMessage, Linked, NoRepeat, AbsAll, InRange, FrameHeader, OffersOf, Attrs;
    ghost var os := OffersOf(list.Contents());
    var buf := new byte[MAX_FRAME_SIZE](_ => 0);
    WriteEthernet(buf, station);
    var used := EmitVidVectors(list, buf, lva, sendEmpty);
    if used.None? || used.value == 0 {
      return None;
    }
    var end := MESSAGE_START + used.value;
    if end >= buf.Length - 2 {
      return None;
    }
    var f := CloseFrame(buf, end, FrameHeader(station), EmitMessage(os, ROOM, lva, sendEmpty).value);
    return Some(f);
  }

  /** The frame's own endmark. */
  method CloseFrame(buf: array<byte>, end: nat, ghost h: seq<byte>, ghost m: seq<byte>) returns (f: seq<byte>)
    requires Wrote(buf, 0, h) && Wrote(buf, |h|, m) && end == |h| + |m| && end + 2 <= buf.Length
    modifies buf
    ensures f == h + m + [0, 0]
  {
    buf[end] := 0;
    buf[end + 1] := 0;
    f := buf[..end + 2];
    ghost var g := h + m + [0, 0];
    forall k | 0 <= k < |g| ensures buf[k] == g[k] {
      if k < |h| {
        assert buf[0 + k] == h[k];
      } else if k < |h| + |m| {
        assert buf[|h| + (k - |h|)] == m[k - |h|];
      }
    }
  }

  method WriteEthernet(buf: array<byte>, station: seq<byte>)
    requires buf.Length == MAX_FRAME_SIZE && |station| == 6
    modifies buf
    ensures |FrameHeader(station)| == MESSAGE_START && Wrote(buf, 0, FrameHeader(station))
    ensures forall k :: MESSAGE_START <= k < buf.Length ==> buf[k] == old(buf[k])
  {
    var h := FrameHeader(station);
    for i := 0 to MESSAGE_START
      invariant forall k :: 0 <= k < i ==> buf[k] == h[k]
      invariant forall k :: MESSAGE_START <= k < buf.Length ==> buf[k] == old(buf[k])
    {
      buf[i] := h[i];
    }
  }
}
