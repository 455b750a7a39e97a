/** The doubly linked attribute list that `mvrp.c`, `mmrp.c` and `msrp.c` each relink in place.
    The relinking is the same in all three; where it is applied differs. */
module AttributeList {
  import opened Participant

  class Node<A> {
    var prev: Node?<A>
    var next: Node?<A>
    var attr: A

    constructor (a: A)
      ensures attr == a
    {
      attr := a;
      prev := null;
      next := null;
    }
  }

  ghost predicate NoRepeat<T>(s: seq<T>) {
    forall i, j :: 0 <= i < j < |s| ==> s[i] != s[j]
  }

  lemma Elsewhere<T>(s: seq<T>, i: nat)
    requires NoRepeat(s) && i < |s|
    ensures forall k :: 0 <= k < |s| && s[k] == s[i] ==> k == i
  {
  }

  lemma NoRepeatInsert<T>(s: seq<T>, i: nat, x: T)
    requires NoRepeat(s) && i <= |s| && x !in s
    ensures NoRepeat(InsertAt(s, i, x))
  {
    InsertIndex(s, i, x);
  }

  lemma NoRepeatRemove<T>(s: seq<T>, i: nat)
    requires NoRepeat(s) && i < |s|
    ensures NoRepeat(RemoveAt(s, i))
  {
    RemoveIndex(s, i);
  }

  ghost function At<A>(s: seq<Node<A>>, i: int): Node?<A> {
    if 0 <= i < |s| then s[i] else null
  }

  /** Every `next` but that of node `j` leads to the following node. */
  ghost predicate ForwardBut<A>(s: seq<Node<A>>, j: int)
    reads s
  {
    forall i {:trigger s[i].next} :: 0 <= i < |s| && i != j ==> s[i].next == At(s, i + 1)
  }

  ghost predicate BackwardBut<A>(s: seq<Node<A>>, j: int)
    reads s
  {
    forall i {:trigger s[i].prev} :: 0 <= i < |s| && i != j ==> s[i].prev == At(s, i - 1)
  }

  /** Linked both ways in the order of `s`. */
  ghost predicate Linked<A>(s: seq<Node<A>>)
    reads s
  {
    ForwardBut(s, -1) && BackwardBut(s, -1)
  }

  lemma LinksAt<A>(s: seq<Node<A>>, i: nat)
    requires Linked(s) && i < |s|
    ensures s[i].next == At(s, i + 1) && s[i].prev == At(s, i - 1)
  {
  }

  lemma ForwardInsert<A>(s: seq<Node<A>>, i: nat, x: Node<A>)
    requires i <= |s| && ForwardBut(s, i - 1)
    requires i > 0 ==> s[i - 1].next == x
    requires x.next == At(s, i)
    ensures ForwardBut(InsertAt(s, i, x), -1)
  {
    InsertIndex(s, i, x);
  }

  lemma BackwardInsert<A>(s: seq<Node<A>>, i: nat, x: Node<A>)
    requires i <= |s| && BackwardBut(s, i)
    requires i < |s| ==> s[i].prev == x
    requires x.prev == At(s, i - 1)
    ensures BackwardBut(InsertAt(s, i, x), -1)
  {
    InsertIndex(s, i, x);
  }

  lemma ForwardRemove<A>(s: seq<Node<A>>, i: nat)
    requires i < |s| && ForwardBut(s, i - 1)
    requires i > 0 ==> s[i - 1].next == At(s, i + 1)
    ensures ForwardBut(RemoveAt(s, i), -1)
  {
    RemoveIndex(s, i);
  }

  lemma BackwardRemove<A>(s: seq<Node<A>>, i: nat)
    requires i < |s| && BackwardBut(s, i + 1)
    requires i + 1 < |s| ==> s[i + 1].prev == At(s, i - 1)
    ensures BackwardBut(RemoveAt(s, i), -1)
  {
    RemoveIndex(s, i);
  }

  ghost function Attrs<A>(s: seq<Node<A>>): (r: seq<A>)
    reads s
    ensures |r| == |s| && forall i :: 0 <= i < |s| ==> r[i] == s[i].attr
  {
    seq(|s|, i requires 0 <= i < |s| reads s => s[i].attr)
  }

  lemma AttrsInsert<A>(s: seq<Node<A>>, i: nat, x: Node<A>)
    requires i <= |s|
    ensures Attrs(InsertAt(s, i, x)) == InsertAt(Attrs(s), i, x.attr)
  {
    InsertIndex(s, i, x);
    InsertIndex(Attrs(s), i, x.attr);
  }

  lemma AttrsRemove<A>(s: seq<Node<A>>, i: nat)
    requires i < |s|
    ensures Attrs(RemoveAt(s, i)) == RemoveAt(Attrs(s), i)
  {
    RemoveIndex(s, i);
    RemoveIndex(Attrs(s), i);
  }

  class List<A> {
    var head: Node?<A>
    ghost var nodes: seq<Node<A>>

    constructor ()
      ensures Valid() && nodes == []
    {
      head := null;
      nodes := [];
    }

    /** The nodes are distinct and linked both ways in the order of `nodes`. */
    ghost predicate Valid()
      reads this, nodes
    {
      NoRepeat(nodes) && head == At(nodes, 0) && Linked(nodes)
    }

    /** What the list holds, front to back. */
    ghost function Contents(): seq<A>
      reads this, nodes
    {
      Attrs(nodes)
    }

    method SetAttr(x: Node<A>, ghost i: nat, a: A)
      requires Valid() && i < |nodes| && nodes[i] == x
      modifies x`attr
      ensures Valid() && Contents() == old(Contents())[i := a]
    {
      Elsewhere(nodes, i);
      x.attr := a;
    }

    /** The "head insertion" of the add functions: stitch `x` in before `anchor`. */
    method InsertBefore(x: Node<A>, anchor: Node<A>, ghost i: nat)
      requires Valid() && i < |nodes| && nodes[i] == anchor && x !in nodes
      modifies this, nodes, x
      ensures Valid() && nodes == InsertAt(old(nodes), i, x)
      ensures Contents() == InsertAt(old(Contents()), i, old(x.attr))
    {
      hide NoRepeat;
      ghost var s := nodes;
      LinksAt(s, i);
      Elsewhere(s, i);
      if i > 0 { Elsewhere(s, i - 1); }
      x.next := anchor;
      x.prev := anchor.prev;
      anchor.prev := x;
      if x.prev != null {
        x.prev.next := x;
      } else {
        head := x;
      }
      NoRepeatInsert(s, i, x);
      ForwardInsert(s, i, x);
      BackwardInsert(s, i, x);
      assert Attrs(s) == old(Attrs(nodes));
      AttrsInsert(s, i, x);
      nodes := InsertAt(s, i, x);
    }

    /** The "tail insertion" of the add functions: stitch `x` in after `anchor`. */
    method InsertAfter(x: Node<A>, anchor: Node<A>, ghost i: nat)
      requires Valid() && i < |nodes| && nodes[i] == anchor && x !in nodes
      modifies this, nodes, x
      ensures Valid() && nodes == InsertAt(old(nodes), i + 1, x)
      ensures Contents() == InsertAt(old(Contents()), i + 1, old(x.attr))
    {
      hide NoRepeat;
      ghost var s := nodes;
      LinksAt(s, i);
      Elsewhere(s, i);
      if i + 1 < |s| { Elsewhere(s, i + 1); }
      x.next := anchor.next;
      x.prev := anchor;
      anchor.next := x;
      if x.next != null {
        x.next.prev := x;
      }
      NoRepeatInsert(s, i + 1, x);
      ForwardInsert(s, i + 1, x);
      BackwardInsert(s, i + 1, x);
      assert Attrs(s) == old(Attrs(nodes));
      AttrsInsert(s, i + 1, x);
      nodes := InsertAt(s, i + 1, x);
    }

    method InsertOnly(x: Node<A>)
      requires Valid() && nodes == []
      modifies this, x
      ensures Valid() && nodes == [x] && Contents() == [old(x.attr)]
    {
      x.next := null;
      x.prev := null;
      head := x;
      nodes := [x];
    }

    /** Unlink `x`; its own `next` still leads on, which the loops that reclaim rely on. */
    method Unlink(x: Node<A>, ghost i: nat)
      requires Valid() && i < |nodes| && nodes[i] == x
      modifies this, nodes
      ensures Valid() && nodes == RemoveAt(old(nodes), i)
      ensures x.next == old(x.next)
      ensures Contents() == RemoveAt(old(Contents()), i)
    {
      hide NoRepeat;
      ghost var s := nodes;
      LinksAt(s, i);
      Elsewhere(s, i);
      if i > 0 { Elsewhere(s, i - 1); }
      if i + 1 < |s| { Elsewhere(s, i + 1); }
      if x.prev != null {
        x.prev.next := x.next;
      } else {
        head := x.next;
      }
      if x.next != null {
        x.next.prev := x.prev;
      }
      NoRepeatRemove(s, i);
      ForwardRemove(s, i);
      BackwardRemove(s, i);
      assert Attrs(s) == old(Attrs(nodes));
      AttrsRemove(s, i);
      nodes := RemoveAt(s, i);
    }
  }
}
