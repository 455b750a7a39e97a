/** The walks over a linked attribute list that `mmrp.c` and `msrp.c` have in common, on a list of entries. */
module EntryList {
  import opened Mrp
  import opened Participant
  import opened AttributeList

  // ---------------------------------------------------------------- event loops

  function Handled<K>(x: Entry<K>, e: Event, p2p: bool, selected: K -> bool): Entry<K> {
    if selected(x.key) then Both(x, e, p2p) else x
  }

  /** The list when the loop for event `e` has come to position `i`. */
  function Partly<K>(s: seq<Entry<K>>, e: Event, p2p: bool, selected: K -> bool, i: nat): (r: seq<Entry<K>>)
    ensures |r| == |s|
    ensures forall j :: 0 <= j < |s| ==> r[j] == if j < i then Handled(s[j], e, p2p, selected) else s[j]
  {
    seq(|s|, j requires 0 <= j < |s| => if j < i then Handled(s[j], e, p2p, selected) else s[j])
  }

  lemma PartlyAll<K>(s: seq<Entry<K>>, e: Event, p2p: bool, selected: K -> bool)
    ensures Partly(s, e, p2p, selected, 0) == s
    ensures Partly(s, e, p2p, selected, |s|) == All(s, e, p2p, selected)
  {
  }

  ghost predicate StartsBefore<K>(s: seq<Entry<K>>, e: Event, selected: K -> bool, i: nat) {
    exists j :: 0 <= j < i && j < |s| && selected(s[j].key) && StartsLeaveTimer(s[j].reg, e)
  }

  lemma StartsStep<K>(s: seq<Entry<K>>, e: Event, selected: K -> bool, i: nat)
    requires i < |s|
    ensures StartsBefore(s, e, selected, i + 1) <==>
            StartsBefore(s, e, selected, i) || (selected(s[i].key) && StartsLeaveTimer(s[i].reg, e))
  {
    hide StartsLeaveTimer;
  }

  lemma StartsAll<K>(s: seq<Entry<K>>, e: Event, selected: K -> bool)
    ensures StartsBefore(s, e, selected, |s|) <==> AnyStarts(s, e, selected)
    ensures !StartsBefore(s, e, selected, 0)
  {
    hide StartsLeaveTimer;
  }

  ghost predicate AgainBefore<K>(s: seq<Entry<K>>, p2p: bool, i: nat) {
    exists j :: 0 <= j < i && j < |s| && WantsAnotherTx(s[j], p2p)
  }

  lemma AgainStep<K>(s: seq<Entry<K>>, p2p: bool, i: nat)
    requires i < |s|
    ensures AgainBefore(s, p2p, i + 1) <==> AgainBefore(s, p2p, i) || WantsAnotherTx(s[i], p2p)
  {
    hide WantsAnotherTx;
  }

  lemma AgainAll<K>(s: seq<Entry<K>>, p2p: bool)
    ensures AgainBefore(s, p2p, |s|) == AnyAgain(s, p2p)
    ensures !AgainBefore(s, p2p, 0)
  {
    hide WantsAnotherTx;
  }

  /** The loop for event `e`, started on `s`, is at position `i`. */
  ghost predicate LoopAt<K>(list: List<Entry<K>>, s: seq<Entry<K>>, e: Event, p2p: bool, selected: K -> bool, i: nat)
    reads list, list.nodes
  {
    list.Valid() && i <= |s| && list.Contents() == Partly(s, e, p2p, selected, i)
  }

  lemma LoopStarts<K>(list: List<Entry<K>>, s: seq<Entry<K>>, e: Event, p2p: bool, selected: K -> bool)
    requires list.Valid() && s == list.Contents()
    ensures LoopAt(list, s, e, p2p, selected, 0) && list.head == At(list.nodes, 0)
  {
    PartlyAll(s, e, p2p, selected);
  }

  lemma LoopHere<K>(list: List<Entry<K>>, s: seq<Entry<K>>, e: Event, p2p: bool, selected: K -> bool, i: nat)
    requires LoopAt(list, s, e, p2p, selected, i)
    ensures |list.nodes| == |s| && (i < |s| ==> list.nodes[i].attr == s[i])
    ensures i == |s| ==> list.Valid() && list.Contents() == All(s, e, p2p, selected)
  {
    hide Linked, NoRepeat, Handled;
    PartlyAll(s, e, p2p, selected);
    assert i < |s| ==> list.Contents()[i] == s[i];
  }

  method HandleAt<K>(list: List<Entry<K>>, x: Node<Entry<K>>, ghost s: seq<Entry<K>>, e: Event, p2p: bool,
                     selected: K -> bool, ghost i: nat) returns (n: Node?<Entry<K>>)
    requires LoopAt(list, s, e, p2p, selected, i) && i < |s| == |list.nodes| && list.nodes[i] == x && x.attr == s[i]
    modifies x`attr
    ensures LoopAt(list, s, e, p2p, selected, i + 1) && n == At(list.nodes, i + 1)
  {
    hide Linked, NoRepeat, Both;
    assert Partly(s, e, p2p, selected, i)[i := Handled(s[i], e, p2p, selected)] == Partly(s, e, p2p, selected, i + 1);
    if selected(x.attr.key) {
      list.SetAttr(x, i, Both(x.attr, e, p2p));
    }
    LinksAt(list.nodes, i);
    n := x.next;
  }

  /** Run both machines of every selected attribute; the registrars share the leave timer. */
  method ForEach<K>(list: List<Entry<K>>, t: Timers, e: Event, p2p: bool, selected: K -> bool, now: nat)
    returns (t': Timers)
    requires list.Valid()
    modifies list.nodes
    ensures list.Valid() && list.Contents() == All(old(list.Contents()), e, p2p, selected)
    ensures t' == Restart(t, AnyStarts(old(list.Contents()), e, selected), now)
  {
    hide LoopAt, StartsLeaveTimer, StartsBefore, AnyStarts, All;
    ghost var s := list.Contents();
    ghost var i: nat := 0;
    StartsAll(s, e, selected);
    LoopStarts(list, s, e, p2p, selected);
    var x := list.head;
    t' := t;
    while x != null
      invariant LoopAt(list, s, e, p2p, selected, i) && i <= |s| && x == At(list.nodes, i)
      invariant t' == Restart(t, StartsBefore(s, e, selected, i), now)
      decreases |s| - i
    {
      LoopHere(list, s, e, p2p, selected, i);
      StartsStep(s, e, selected, i);
      if selected(x.attr.key) && StartsLeaveTimer(x.attr.reg, e) {
        t' := LvStart(t', now);
      }
      x := HandleAt(list, x, s, e, p2p, selected, i);
      i := i + 1;
    }
    LoopHere(list, s, e, p2p, selected, i);
  }

  /** The loop of tx!, which also asks whether another tx! is wanted. */
  method TransmitLoop<K>(list: List<Entry<K>>, p2p: bool, everything: K -> bool) returns (again: bool)
    requires list.Valid()
    modifies list.nodes
    ensures list.Valid() && list.Contents() == All(old(list.Contents()), Tx, p2p, everything)
    ensures again == AnyAgain(old(list.Contents()), p2p)
  {
    hide LoopAt, WantsAnotherTx, AgainBefore, All, AnyAgain;
    ghost var s := list.Contents();
    ghost var i: nat := 0;
    AgainAll(s, p2p);
    LoopStarts(list, s, Tx, p2p, everything);
    var x := list.head;
    again := false;
    while x != null
      invariant LoopAt(list, s, Tx, p2p, everything, i) && i <= |s| && x == At(list.nodes, i)
      invariant again <==> AgainBefore(s, p2p, i)
      decreases |s| - i
    {
      LoopHere(list, s, Tx, p2p, everything, i);
      AgainStep(s, p2p, i);
      again := again || WantsAnotherTx(x.attr, p2p);
      x := HandleAt(list, x, s, Tx, p2p, everything, i);
      i := i + 1;
    }
    LoopHere(list, s, Tx, p2p, everything, i);
  }

  // ---------------------------------------------------------------- adding

  /** The walk of the add functions: the entry to stitch next to, or null for the tail. */
  method Walk<K>(list: List<Entry<K>>, alike: K -> bool, below: K -> bool)
    returns (n: Node?<Entry<K>>, tail: Node?<Entry<K>>, ghost i: nat)
    requires list.Valid()
    ensures i <= |list.nodes| && n == At(list.nodes, i) && tail == At(list.nodes, if i > 0 then i - 1 else 0)
    ensures BlockPos(list.Contents(), alike, below) == if n != null && below(n.attr.key) then i + 1 else i
  {
    hide Linked, NoRepeat;
    n, tail, i := list.head, list.head, 0;
    ghost var s := list.Contents();
    assert s[0..] == s;
    while n != null
      invariant i <= |list.nodes| && n == At(list.nodes, i)
      invariant BlockPos(s, alike, below) == i + BlockPos(s[i..], alike, below)
      invariant tail == At(list.nodes, if i > 0 then i - 1 else 0)
      decreases |list.nodes| - i
    {
      LinksAt(list.nodes, i);
      TailAt(s, i);
      if alike(n.attr.key) {
        if !below(n.attr.key) || n.next == null || !alike(n.next.attr.key) {
          return;
        }
      }
      tail, n, i := n, n.next, i + 1;
    }
  }

  lemma TailAt<T>(s: seq<T>, i: nat)
    requires i < |s|
    ensures s[i..][0] == s[i] && s[i..][1..] == s[i + 1..] && (i + 1 < |s| ==> s[i..][1] == s[i + 1])
  {
  }

  /** Stitch a new entry into its block. */
  method Add<K>(list: List<Entry<K>>, k: K, alike: K -> bool, below: K -> bool)
    returns (x: Node<Entry<K>>, ghost i: nat)
    requires list.Valid()
    modifies list, list.nodes
    ensures list.Valid() && fresh(x) && i == BlockPos(old(list.Contents()), alike, below)
    ensures list.nodes == InsertAt(old(list.nodes), i, x)
    ensures list.Contents() == InsertAt(old(list.Contents()), i, Fresh(k))
  {
    hide Linked, NoRepeat, BlockPos, Attrs;
    x := new Node(Fresh(k));
    var n, tail, j := Walk(list, alike, below);
    i := BlockPos(list.Contents(), alike, below);
    if n == null {
      if tail == null {
        list.InsertOnly(x);
      } else {
        list.InsertAfter(x, tail, j - 1);
      }
    } else if !below(n.attr.key) {
      list.InsertBefore(x, n, j);
    } else {
      list.InsertAfter(x, n, j);
    }
  }

  // ---------------------------------------------------------------- reclaiming

  /** Unlink `x` if nobody declares or registers it; go on with what follows. */
  method ReclaimOne<K>(list: List<Entry<K>>, x: Node<Entry<K>>, ghost i: nat)
    returns (n: Node?<Entry<K>>, ghost i': nat)
    requires list.Valid() && i < |list.nodes| && list.nodes[i] == x
    modifies list, list.nodes
    ensures list.Valid() && i' <= |list.nodes| && n == At(list.nodes, i')
    ensures var c := old(list.Contents());
            if Reclaimable(c[i]) then i' == i && list.Contents() == RemoveAt(c, i)
            else i' == i + 1 && list.Contents() == c
    ensures |list.nodes| - i' < old(|list.nodes|) - i
    ensures forall k :: 0 <= k < |list.nodes| ==> list.nodes[k] in old(list.nodes)
  {
    hide Linked, NoRepeat;
    LinksAt(list.nodes, i);
    n, i' := x.next, i + 1;
    if x.attr.reg == MT && x.attr.app in {VO, AO, QO} {
      ghost var s := list.nodes;
      list.Unlink(x, i);
      RemoveIndex(s, i);
      i' := i;
    }
  }

  function Expired<K>(x: Entry<K>, expire: bool): Entry<K> {
    if expire then x.(reg := RegNext(x.reg, LvTimer)) else x
  }

  function ExpiredAll<K>(s: seq<Entry<K>>, expire: bool): (r: seq<Entry<K>>)
    ensures |r| == |s| && forall i :: 0 <= i < |s| ==> r[i] == Expired(s[i], expire)
  {
    seq(|s|, i requires 0 <= i < |s| => Expired(s[i], expire))
  }

  /** `c` is the list when the reclaiming loop that started on `s` has come to position `i`; with `expire`
      it runs leavetimer! on each attribute first. */
  ghost predicate Sweeping<K>(s: seq<Entry<K>>, expire: bool, c: seq<Entry<K>>, i: nat) {
    i <= |c| && Purge(ExpiredAll(s, expire)) == c[..i] + Purge(ExpiredAll(c[i..], expire))
  }

  lemma SweepStarts<K>(s: seq<Entry<K>>, expire: bool)
    ensures Sweeping(s, expire, s, 0)
  {
    var p := Purge(ExpiredAll(s, expire));
    assert s[0..] == s && [] + p == p;
  }

  lemma SweepStep<K>(s: seq<Entry<K>>, expire: bool, c: seq<Entry<K>>, i: nat)
    requires Sweeping(s, expire, c, i) && i < |c|
    ensures var c' := c[i := Expired(c[i], expire)];
            if Reclaimable(c'[i]) then Sweeping(s, expire, RemoveAt(c', i), i) else Sweeping(s, expire, c', i + 1)
  {
    hide Reclaimable, Expired;
    var c' := c[i := Expired(c[i], expire)];
    assert ExpiredAll(c[i..], expire)[0] == c'[i];
    assert ExpiredAll(c[i..], expire)[1..] == ExpiredAll(c[i + 1..], expire);
    var rest := Purge(ExpiredAll(c[i + 1..], expire));
    if Reclaimable(c'[i]) {
      var r := RemoveAt(c', i);
      assert r[..i] == c[..i] && r[i..] == c[i + 1..];
      assert [] + rest == rest;
    } else {
      assert c'[..i + 1] == c[..i] + [c'[i]] && c'[i + 1..] == c[i + 1..];
      assert c[..i] + ([c'[i]] + rest) == c'[..i + 1] + rest;
    }
  }

  lemma SweepEnds<K>(s: seq<Entry<K>>, expire: bool, c: seq<Entry<K>>)
    requires Sweeping(s, expire, c, |c|)
    ensures c == Purge(ExpiredAll(s, expire))
  {
    assert c[..|c|] == c && c + [] == c;
    assert ExpiredAll(c[|c|..], expire) == [];
  }

  /** One turn of a reclaiming loop. */
  method SweepOne<K>(list: List<Entry<K>>, x: Node<Entry<K>>, ghost i: nat, expire: bool)
    returns (n: Node?<Entry<K>>, ghost i': nat)
    requires list.Valid() && i < |list.nodes| && list.nodes[i] == x
    modifies list, list.nodes
    ensures list.Valid() && i' <= |list.nodes| && n == At(list.nodes, i')
    ensures var c := old(list.Contents());
            var c' := c[i := Expired(c[i], expire)];
            if Reclaimable(c'[i]) then i' == i && list.Contents() == RemoveAt(c', i)
            else i' == i + 1 && list.Contents() == c'
    ensures |list.nodes| - i' < old(|list.nodes|) - i
    ensures forall k :: 0 <= k < |list.nodes| ==> list.nodes[k] in old(list.nodes)
  {
    hide Linked, NoRepeat, Reclaimable, RegNext;
    if expire {
      list.SetAttr(x, i, Expired(x.attr, expire));
    }
    n, i' := ReclaimOne(list, x, i);
  }

  method Sweep<K>(list: List<Entry<K>>, expire: bool)
    requires list.Valid()
    modifies list, list.nodes
    ensures list.Valid() && list.Contents() == Purge(ExpiredAll(old(list.Contents()), expire))
    ensures forall k :: 0 <= k < |list.nodes| ==> list.nodes[k] in old(list.nodes)
  {
    hide Linked, NoRepeat, Reclaimable, Purge, Sweeping, Expired;
    ghost var s := list.Contents();
    ghost var i: nat := 0;
    var x := list.head;
    SweepStarts(s, expire);
    while x != null
      invariant list.Valid() && i <= |list.nodes| && x == At(list.nodes, i)
      invariant Sweeping(s, expire, list.Contents(), i)
      invariant forall k :: 0 <= k < |list.nodes| ==> list.nodes[k] in old(list.nodes)
      decreases |list.nodes| - i
    {
      SweepStep(s, expire, list.Contents(), i);
      x, i := SweepOne(list, x, i, expire);
    }
    SweepEnds(s, expire, list.Contents());
  }

  lemma ExpiredAllIs<K>(s: seq<Entry<K>>, p2p: bool, everything: K -> bool)
    requires forall i :: 0 <= i < |s| ==> everything(s[i].key)
    ensures ExpiredAll(s, false) == s
    ensures ExpiredAll(s, true) == All(s, LvTimer, p2p, everything)
  {
  }

  // ---------------------------------------------------------------- one attribute

  /** Run an attribute event on `x`; the registrar gets the remapped event. */
  method Update<K>(list: List<Entry<K>>, x: Node<Entry<K>>, ghost i: nat, t: Timers, e: Event, p2p: bool, now: nat)
    returns (t': Timers)
    requires list.Valid() && i < |list.nodes| && list.nodes[i] == x
    modifies x`attr
    ensures list.Valid()
    ensures var es := old(list.Contents());
            && list.Contents() == es[i := One(es[i], e, p2p)]
            && t' == Restart(t, StartsLeaveTimer(es[i].reg, Remap(e, es[i].reg)), now)
  {
    hide Linked, NoRepeat, One, Remap, StartsLeaveTimer;
    var a := x.attr;
    t' := t;
    if StartsLeaveTimer(a.reg, Remap(e, a.reg)) {
      t' := LvStart(t, now);
    }
    list.SetAttr(x, i, One(a, e, p2p));
  }
}
