/** Which attributes an MVRP frame has room for, counted in the bytes of the vectors before them. */
module MvrpCapacity {
  import opened Mrp
  import opened Wire
  import opened MvrpCodec
  import opened MvrpRoundTrip
  import opened MvrpFrames

  /** A vector is begun only behind fewer than 1975 bytes of other vectors. */
  const START_LIMIT := ROOM - 10

  /** The emitter's write position behind `b` bytes of vectors. */
  function Position(b: nat): nat {
    if b == 0 then 0 else 2 + b
  }

  predicate Mandatory(o: Offer) {
    o.tx && !o.optional
  }

  /** The bytes of all vectors that are begun behind `b` bytes of others. */
  function Attempted(os: seq<Offer>, b: nat): nat
    decreases |os|
  {
    if os == [] || b >= START_LIMIT then 0
    else if !Mandatory(os[0]) then Attempted(os[1..], b)
    else
      var size := VectorSize(VectorLength(os));
      size + Attempted(os[VectorLength(os)..], b + size)
  }

  /** The bytes of the vectors that come before the one with VID `v` in it. */
  function Before(os: seq<Offer>, v: int): nat
    decreases |os|
  {
    if os == [] then 0
    else if !Mandatory(os[0]) then Before(os[1..], v)
    else
      var n := VectorLength(os);
      if v <= os[n - 1].vid then 0 else VectorSize(n) + Before(os[n..], v)
  }

  // ---------------------------------------------------------------- when a frame goes out

  lemma EmitStep(os: seq<Offer>, b: nat, lva: bool)
    requires os != [] && b < START_LIMIT && Mandatory(os[0]) && AllEncodable(os)
    ensures var n := VectorLength(os);
            var end := b + VectorSize(n);
            var rest := EmitVectors(os[n..], Position(end), ROOM, false);
            EmitVectors(os, Position(b), ROOM, lva) ==
              if end > ROOM - 4 || rest.Oops? then Oops
              else Vectors(VectorBytes(lva, os[0].vid, CodesOf(os[..n])) + rest.bytes)
  {
    hide VectorBytes, VectorLength;
    var n := VectorLength(os);
    assert AllEncodable(os[..n]);
  }

  /** The emitter fails exactly if the vectors it begins overrun the buffer; otherwise it writes them all. */
  lemma {:induction false} EmitAttempts(os: seq<Offer>, b: nat, lva: bool)
    requires AllEncodable(os) && b <= ROOM - 4
    ensures var e := EmitVectors(os, Position(b), ROOM, lva);
            if b + Attempted(os, b) > ROOM - 4 then e.Oops? else e.Vectors? && |e.bytes| == Attempted(os, b)
    decreases |os|
  {
    hide VectorBytes, VectorLength;
    if os != [] && b < START_LIMIT {
      if !Mandatory(os[0]) {
        EmitAttempts(os[1..], b, lva);
      } else {
        var n := VectorLength(os);
        EmitStep(os, b, lva);
        assert AllEncodable(os[n..]);
        if b + VectorSize(n) <= ROOM - 4 {
          EmitAttempts(os[n..], b + VectorSize(n), false);
        }
      }
    }
  }

  /** A frame goes out if and only if there is something to send and the vectors begun take at most 1978 bytes. */
  lemma FrameGoesOutIff(station: seq<byte>, os: seq<Offer>, lva: bool, sendEmpty: bool)
    requires AllEncodable(os)
    ensures BuildFrame(station, os, lva, sendEmpty).Some? <==>
            (Attempted(os, 0) > 0 || sendEmpty) && Attempted(os, 0) <= CAPACITY
  {
    hide EmitVectors, Attempted, FrameHeader;
    EmitAttempts(os, 0, lva);
  }

  // ---------------------------------------------------------------- what a frame carries

  lemma SentHead(os: seq<Offer>, b: nat, i: nat)
    requires OffersAscend(os) && i < |os| && Mandatory(os[0]) && b < START_LIMIT
    ensures var n, x := VectorLength(os), Item(os[i].vid, CodeOf(os[i]));
            x in Sent(os, Position(b), ROOM) <==>
            i < n || x in Sent(os[n..], Position(b + VectorSize(n)), ROOM)
  {
    hide CodeOf, VectorLength;
    var n, x := VectorLength(os), Item(os[i].vid, CodeOf(os[i]));
    var head := ItemsOf(os[..n]);
    if i < n {
      assert head[i] == x;
    } else {
      assert forall k :: 0 <= k < n ==> head[k].vid == os[k].vid < os[i].vid;
    }
  }

  lemma BeforeHead(os: seq<Offer>, i: nat)
    requires OffersAscend(os) && i < |os| && Mandatory(os[0])
    ensures var n := VectorLength(os);
            Before(os, os[i].vid) == if i < n then 0 else VectorSize(n) + Before(os[n..], os[i].vid)
  {
    hide VectorLength, VectorSize;
    var n := VectorLength(os);
    assert i < n - 1 ==> os[i].vid < os[n - 1].vid;
    assert n - 1 < i ==> os[n - 1].vid < os[i].vid;
  }

  /** A mandatory attribute is sent if and only if fewer than 1975 bytes of vectors come before its own. */
  lemma {:induction false} SentIff(os: seq<Offer>, b: nat, i: nat)
    requires OffersAscend(os) && i < |os| && Mandatory(os[i])
    ensures Item(os[i].vid, CodeOf(os[i])) in Sent(os, Position(b), ROOM) <==>
            b + Before(os, os[i].vid) < START_LIMIT
    decreases |os|
  {
    hide CodeOf, VectorLength;
    if b < START_LIMIT {
      if !Mandatory(os[0]) {
        SentIff(os[1..], b, i - 1);
      } else {
        var n := VectorLength(os);
        SentHead(os, b, i);
        BeforeHead(os, i);
        if i >= n {
          SentIff(os[n..], b + VectorSize(n), i - n);
        }
      }
    }
  }

  // ---------------------------------------------------------------- small totals

  lemma {:induction false} AttemptedAtMost(os: seq<Offer>, b: nat)
    ensures Attempted(os, b) <= TotalSize(os)
    decreases |os|
  {
    hide VectorLength;
    if os != [] && b < START_LIMIT {
      var n := if Mandatory(os[0]) then VectorLength(os) else 1;
      AttemptedAtMost(os[n..], if Mandatory(os[0]) then b + VectorSize(n) else b);
    }
  }

  lemma {:induction false} BeforeAtMost(os: seq<Offer>, i: nat)
    requires OffersAscend(os) && i < |os| && Mandatory(os[i])
    ensures Before(os, os[i].vid) + 5 <= TotalSize(os)
    decreases |os|
  {
    hide VectorLength;
    if !Mandatory(os[0]) {
      BeforeAtMost(os[1..], i - 1);
    } else {
      var n := VectorLength(os);
      BeforeHead(os, i);
      if i >= n {
        BeforeAtMost(os[n..], i - n);
      }
    }
  }

  // ---------------------------------------------------------------- every other VID

  /** Offers for `n` even VIDs from `2 * from` on, each marked New. */
  function EvenOffers(from: nat, n: nat): (os: seq<Offer>)
    ensures |os| == n && forall i :: 0 <= i < n ==> os[i] == Offer(2 * (from + i), true, false, Some(0))
  {
    seq(n, i requires 0 <= i < n => Offer(2 * (from + i), true, false, Some(0)))
  }

  /** No two of them share a vector. */
  lemma EvenHead(from: nat, n: nat)
    requires 0 < n && from + n <= 0x8000
    ensures var os := EvenOffers(from, n);
            OffersAscend(os) && AllEncodable(os) && Mandatory(os[0]) && VectorLength(os) == 1
            && os[1..] == EvenOffers(from + 1, n - 1)
  {
    var os := EvenOffers(from, n);
    assert n > 1 ==> os[1..][0].vid == os[0].vid + 2;
  }

  lemma {:induction false} EvenSizes(from: nat, n: nat, b: nat)
    requires from + n <= 0x8000 && b % 5 == 0 && b <= START_LIMIT
    ensures TotalSize(EvenOffers(from, n)) == 5 * n
    ensures b + Attempted(EvenOffers(from, n), b) == if b + 5 * n <= START_LIMIT then b + 5 * n else START_LIMIT
    decreases n
  {
    hide VectorLength;
    if n > 0 {
      EvenHead(from, n);
      EvenSizes(from + 1, n - 1, if b < START_LIMIT then b + 5 else b);
    }
  }

  lemma {:induction false} EvenBefore(from: nat, n: nat, j: nat)
    requires from + n <= 0x8000 && j < n
    ensures Before(EvenOffers(from, n), 2 * (from + j)) == 5 * j
    decreases n
  {
    hide VectorLength;
    EvenHead(from, n);
    if j > 0 {
      EvenBefore(from + 1, n - 1, j - 1);
    }
  }

  /** 396 even VIDs need 1980 bytes: the frame goes out, and the last VID, though selected, is not in it. */
  lemma FrameCanLoseVid(station: seq<byte>, lva: bool, sendEmpty: bool)
    ensures var os := EvenOffers(0, 396);
            && OffersAscend(os) && AllEncodable(os) && TotalSize(os) == 1980
            && BuildFrame(station, os, lva, sendEmpty).Some?
            && Item(790, 0) in Selected(os) && Item(790, 0) !in Sent(os, 0, ROOM)
  {
    hide Attempted, Before, TotalSize, BuildFrame, Sent, Selected, VectorLength;
    var os := EvenOffers(0, 396);
    EvenHead(0, 396);
    EvenSizes(0, 396, 0);
    EvenBefore(0, 396, 395);
    FrameGoesOutIff(station, os, lva, sendEmpty);
    SentIff(os, 0, 395);
    assert os[395] == Offer(790, true, false, Some(0));
    assert Reaches(os, 395, 395);
    SelectedExactly(os, 395);
  }
}
