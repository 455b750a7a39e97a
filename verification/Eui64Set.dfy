/** The sorted stream-ID index of `eui64set.c`: an array searched by bisection, kept sorted by sorting after
    every change, and emptied of a key by overwriting it with the all-ones sentinel before sorting. */
module Eui64Set {
  import opened Mrp
  import opened Eui64

  const SENTINEL: int := LIMIT - 1

  ghost predicate Sorted(s: seq<int>) {
    forall i, j :: 0 <= i < j < |s| ==> s[i] <= s[j]
  }

  ghost predicate Keys(s: seq<int>) {
    forall i :: 0 <= i < |s| ==> 0 <= s[i] < LIMIT
  }

  // ---------------------------------------------------------------- sequences as multisets

  function Swapped(s: seq<int>, j: nat): seq<int>
    requires 0 < j < |s|
  {
    s[j - 1 := s[j]][j := s[j - 1]]
  }

  lemma SwapMultiset(s: seq<int>, j: nat)
    requires 0 < j < |s|
    ensures multiset(Swapped(s, j)) == multiset(s)
  {
    assert s == s[..j - 1] + [s[j - 1], s[j]] + s[j + 1..];
    assert Swapped(s, j) == s[..j - 1] + [s[j], s[j - 1]] + s[j + 1..];
  }

  /** Sorted up to `k`, except that the entry at `j` may still have to move down. */
  ghost predicate Sinking(s: seq<int>, j: nat, k: nat) {
    j <= k < |s| && forall a, b :: 0 <= a < b <= k && b != j ==> s[a] <= s[b]
  }

  lemma SinkStarts(s: seq<int>, k: nat)
    requires k < |s| && Sorted(s[..k])
    ensures Sinking(s, k, k)
  {
    assert forall a :: 0 <= a < k ==> s[..k][a] == s[a];
  }

  lemma SinkStep(s: seq<int>, j: nat, k: nat)
    requires Sinking(s, j, k) && j > 0 && s[j - 1] > s[j]
    ensures Sinking(Swapped(s, j), j - 1, k) && multiset(Swapped(s, j)) == multiset(s)
  {
    SwapMultiset(s, j);
  }

  lemma SinkEnds(s: seq<int>, j: nat, k: nat)
    requires Sinking(s, j, k) && (j > 0 ==> s[j - 1] <= s[j])
    ensures Sorted(s[..k + 1])
  {
    forall a, b | 0 <= a < b <= k ensures s[a] <= s[b] {
      if b == j && a < j - 1 {
        assert s[a] <= s[j - 1];
      }
    }
  }

  lemma UpdateMultiset(s: seq<int>, k: nat, v: int)
    requires k < |s|
    ensures multiset(s[k := v]) == multiset(s) - multiset{s[k]} + multiset{v}
  {
    assert s == s[..k] + [s[k]] + s[k + 1..];
    assert s[k := v] == s[..k] + [v] + s[k + 1..];
  }

  /** A sorted sequence that holds the sentinel ends with it. */
  lemma SentinelLast(s: seq<int>)
    requires Sorted(s) && Keys(s) && SENTINEL in multiset(s)
    ensures s != [] && s[|s| - 1] == SENTINEL && multiset(s[..|s| - 1]) == multiset(s) - multiset{SENTINEL}
  {
    var k :| 0 <= k < |s| && s[k] == SENTINEL;
    assert s == s[..|s| - 1] + [s[|s| - 1]];
  }

  class Index {
    const storage: array<int>
    var num: nat

    /** Sorted, within the storage, and all keys are 64 bits wide. */
    ghost predicate Valid()
      reads this, storage
    {
      num <= storage.Length && Sorted(storage[..num]) && Keys(storage[..num])
    }

    ghost function Contents(): multiset<int>
      requires num <= storage.Length
      reads this, storage
    {
      multiset(storage[..num])
    }

    /** `eui64set_init` */
    constructor (max: nat)
      ensures Valid() && fresh(storage) && storage.Length == max && Contents() == multiset{}
    {
      storage := new int[max];
      num := 0;
    }

    /** Move entry `k` down to its place in the sorted entries before it. */
    method Sink(k: nat)
      requires k < num <= storage.Length && Sorted(storage[..k])
      modifies storage
      ensures Sorted(storage[..k + 1]) && multiset(storage[..num]) == old(multiset(storage[..num]))
    {
      hide Sorted, Sinking, Swapped;
      ghost var m := multiset(storage[..num]);
      var j := k;
      assert storage[..num][..k] == storage[..k];
      SinkStarts(storage[..num], k);
      while j > 0 && storage[j - 1] > storage[j]
        invariant 0 <= j <= k && Sinking(storage[..num], j, k) && multiset(storage[..num]) == m
      {
        SinkOnce(j, k);
        j := j - 1;
      }
      SinkEnds(storage[..num], j, k);
      assert storage[..num][..k + 1] == storage[..k + 1];
    }

    method SinkOnce(j: nat, ghost k: nat)
      requires 0 < j <= k < num <= storage.Length && Sinking(storage[..num], j, k) && storage[j - 1] > storage[j]
      modifies storage
      ensures Sinking(storage[..num], j - 1, k) && multiset(storage[..num]) == old(multiset(storage[..num]))
    {
      hide Sorted, Sinking, Swapped;
      SinkStep(storage[..num], j, k);
      Swap(j);
    }

    method Swap(j: nat)
      requires 0 < j < num <= storage.Length
      modifies storage
      ensures storage[..num] == Swapped(old(storage[..num]), j)
    {
      storage[j - 1], storage[j] := storage[j], storage[j - 1];
    }

    /** `eui64set_sort`; any sorting algorithm gives the same array. */
    method Sort()
      requires num <= storage.Length
      modifies storage
      ensures Sorted(storage[..num]) && multiset(storage[..num]) == old(multiset(storage[..num]))
    {
      var k := 0;
      while k < num
        invariant 0 <= k <= num && Sorted(storage[..k])
        invariant multiset(storage[..num]) == old(multiset(storage[..num]))
      {
        Sink(k);
        k := k + 1;
      }
    }

    /** `bsearch` as `eui64set_find` uses it. */
    method Find(v: int) returns (k: Option<nat>)
      requires Valid()
      ensures k.Some? <==> v in Contents()
      ensures k.Some? ==> k.value < num && storage[k.value] == v
    {
      var lo, hi := 0, num;
      while lo < hi
        invariant 0 <= lo <= hi <= num
        invariant forall i :: 0 <= i < lo ==> storage[..num][i] < v
        invariant forall i :: hi <= i < num ==> v < storage[..num][i]
      {
        var mid := (lo + hi) / 2;
        assert storage[..num][mid] == storage[mid];
        if storage[mid] < v {
          lo := mid + 1;
        } else if v < storage[mid] {
          hi := mid;
        } else {
          return Some(mid);
        }
      }
      return None;
    }

    method Put(k: nat, v: int)
      requires k < num <= storage.Length
      modifies storage
      ensures storage[..num] == old(storage[..num])[k := v]
    {
      storage[k] := v;
    }

    /** `eui64set_insert` when there is room */
    method Append(v: int)
      requires num < storage.Length
      modifies this`num, storage
      ensures num == old(num) + 1 && storage[..num] == old(storage[..num]) + [v]
    {
      storage[num] := v;
      num := num + 1;
    }

    /** `eui64set_insert_and_sort` */
    method InsertAndSort(v: int) returns (done: bool)
      requires Valid() && 0 <= v < LIMIT
      modifies this`num, storage
      ensures Valid()
      ensures done <==> old(|Contents()|) < storage.Length
      ensures Contents() == Insert(old(Contents()), v, storage.Length)
    {
      hide Sorted, Keys;
      done := num < storage.Length;
      if done {
        ghost var s := storage[..num];
        Append(v);
        Sort();
        Inserted(s, v, storage[..num]);
      }
    }

    /** Overwrite entry `k` with the sentinel, sort it to the end, and cut it off. */
    method DropAt(k: nat)
      requires k < num <= storage.Length && Keys(storage[..num])
      modifies this`num, storage
      ensures Valid() && Contents() == old(multiset(storage[..num])) - multiset{old(storage[..num])[k]}
    {
      hide Sorted, Keys;
      ghost var s := storage[..num];
      Put(k, SENTINEL);
      Sort();
      Removed(s, k, storage[..num]);
      Shrink();
    }

    method Shrink()
      requires 0 < num <= storage.Length
      modifies this`num
      ensures num == old(num) - 1 && storage[..num] == old(storage[..num])[..num]
    {
      num := num - 1;
    }

    /** `eui64set_remove_and_sort` */
    method RemoveAndSort(v: int) returns (done: bool)
      requires Valid() && 0 <= v < LIMIT
      modifies this`num, storage
      ensures Valid()
      ensures done <==> v in old(Contents())
      ensures Contents() == old(Contents()) - multiset{v}
    {
      hide Sorted, Keys;
      var k := Find(v);
      done := k.Some?;
      if done {
        DropAt(k.value);
      } else {
        Absent(Contents(), v);
      }
    }

    /** `eui64set_clear` */
    method Clear()
      requires Valid()
      modifies this`num
      ensures Valid() && Contents() == multiset{}
    {
      num := 0;
    }
  }

  lemma Absent(m: multiset<int>, v: int)
    requires v !in m
    ensures m - multiset{v} == m
  {
  }

  lemma Inserted(s: seq<int>, v: int, t: seq<int>)
    requires Keys(s) && 0 <= v < LIMIT && multiset(t) == multiset(s + [v])
    ensures Keys(t) && multiset(t) == multiset(s) + multiset{v}
  {
    KeysByMultiset(t, s + [v]);
  }

  /** Sorting after the sentinel was written puts the sentinel last; dropping it drops exactly the key. */
  lemma Removed(s: seq<int>, k: nat, t: seq<int>)
    requires Keys(s) && k < |s| && Sorted(t) && multiset(t) == multiset(s[k := SENTINEL])
    ensures |t| == |s| && Sorted(t[..|t| - 1]) && Keys(t[..|t| - 1])
    ensures multiset(t[..|t| - 1]) == multiset(s) - multiset{s[k]}
  {
    UpdateMultiset(s, k, SENTINEL);
    KeysByMultiset(t, s[k := SENTINEL]);
    SentinelLast(t);
    assert multiset(s) - multiset{s[k]} + multiset{SENTINEL} - multiset{SENTINEL} == multiset(s) - multiset{s[k]};
  }

  lemma KeysByMultiset(s: seq<int>, r: seq<int>)
    requires multiset(s) == multiset(r) && Keys(r)
    ensures Keys(s) && |s| == |r|
  {
    assert |s| == |multiset(s)| == |multiset(r)| == |r|;
    forall i | 0 <= i < |s| ensures 0 <= s[i] < LIMIT {
      assert s[i] in multiset(r);
    }
  }

  // ---------------------------------------------------------------- whole histories

  datatype Op = Ins(v: int) | Rem(v: int) | Clr

  function Insert(m: multiset<int>, v: int, max: nat): multiset<int> {
    if |m| < max then m + multiset{v} else m
  }

  function Apply(m: multiset<int>, op: Op, max: nat): multiset<int> {
    match op
    case Ins(v) => Insert(m, v, max)
    case Rem(v) => m - multiset{v}
    case Clr => multiset{}
  }

  function ApplyAll(m: multiset<int>, ops: seq<Op>, max: nat): multiset<int>
    decreases |ops|
  {
    if ops == [] then m else ApplyAll(Apply(m, ops[0], max), ops[1..], max)
  }

  ghost predicate ValidOps(ops: seq<Op>) {
    forall i :: 0 <= i < |ops| ==> !ops[i].Clr? ==> 0 <= ops[i].v < LIMIT
  }

  /** Any sequence of operations leaves the index sorted and holding what a multiset would hold. */
  method Replay(x: Index, ops: seq<Op>)
    requires x.Valid() && ValidOps(ops)
    modifies x`num, x.storage
    ensures x.Valid() && x.Contents() == ApplyAll(old(x.Contents()), ops, x.storage.Length)
  {
    hide Sorted, Keys, Apply, Insert;
    var i := 0;
    ghost var m := x.Contents();
    assert ops[0..] == ops;
    while i < |ops|
      invariant 0 <= i <= |ops| && x.Valid()
      invariant ApplyAll(x.Contents(), ops[i..], x.storage.Length) == ApplyAll(m, ops, x.storage.Length)
    {
      assert ops[i..][0] == ops[i] && ops[i..][1..] == ops[i + 1..];
      Perform(x, ops[i]);
      i := i + 1;
    }
  }

  method Perform(x: Index, op: Op)
    requires x.Valid() && (op.Clr? || 0 <= op.v < LIMIT)
    modifies x`num, x.storage
    ensures x.Valid() && x.Contents() == Apply(old(x.Contents()), op, x.storage.Length)
  {
    hide Sorted, Keys;
    match op
    case Ins(v) => var _ := x.InsertAndSort(v);
    case Rem(v) => var _ := x.RemoveAndSort(v);
    case Clr => x.Clear();
  }

  /** Nothing is inserted that is already there, which `msrp_recv_cmd` makes sure of. */
  ghost predicate NoDuplicates(m: multiset<int>, ops: seq<Op>, max: nat)
    decreases |ops|
  {
    ops == [] || ((ops[0].Ins? ==> ops[0].v !in m) && NoDuplicates(Apply(m, ops[0], max), ops[1..], max))
  }

  function ApplySet(s: set<int>, op: Op, max: nat): set<int> {
    match op
    case Ins(v) => if |s| < max then s + {v} else s
    case Rem(v) => s - {v}
    case Clr => {}
  }

  function ApplySetAll(s: set<int>, ops: seq<Op>, max: nat): set<int>
    decreases |ops|
  {
    if ops == [] then s else ApplySetAll(ApplySet(s, ops[0], max), ops[1..], max)
  }

  lemma AsSet(s: set<int>, op: Op, max: nat)
    requires op.Ins? ==> op.v !in s
    ensures Apply(multiset(s), op, max) == multiset(ApplySet(s, op, max))
  {
    match op
    case Ins(v) => assert multiset(s + {v}) == multiset(s) + multiset{v};
    case Rem(v) => assert multiset(s - {v}) == multiset(s) - multiset{v};
    case Clr =>
  }

  /** Then the index is a set: every ID is there at most once, and there iff the set has it. */
  lemma {:induction false} RefinesSet(s: set<int>, ops: seq<Op>, max: nat)
    requires NoDuplicates(multiset(s), ops, max)
    ensures ApplyAll(multiset(s), ops, max) == multiset(ApplySetAll(s, ops, max))
    decreases |ops|
  {
    hide Apply, ApplySet;
    if ops != [] {
      AsSet(s, ops[0], max);
      RefinesSet(ApplySet(s, ops[0], max), ops[1..], max);
    }
  }

  /** With a duplicate it is not: removing an ID once leaves the other copy. */
  lemma DuplicateSurvives(v: int)
    ensures v in ApplyAll(multiset{}, [Ins(v), Ins(v), Rem(v)], 2)
    ensures v !in ApplySetAll({}, [Ins(v), Ins(v), Rem(v)], 2)
  {
    var ops := [Ins(v), Ins(v), Rem(v)];
    var m2 := multiset{v, v};
    assert ops[1..] == [Ins(v), Rem(v)] && ops[1..][1..] == [Rem(v)] && ops[1..][1..][1..] == [];
    var empty: multiset<int> := multiset{};
    assert Apply(empty, ops[0], 2) == multiset{v} by { assert |empty| == 0; }
    assert Apply(multiset{v}, ops[1..][0], 2) == m2 by { assert |multiset{v}| == 1; }
    assert ApplyAll(multiset{}, ops, 2) == ApplyAll(multiset{v}, ops[1..], 2);
    assert ApplyAll(multiset{v}, ops[1..], 2) == ApplyAll(m2, ops[1..][1..], 2);
    assert ApplyAll(m2, ops[1..][1..], 2) == ApplyAll(multiset{v}, [], 2);
    assert ApplySetAll({}, ops, 2) == ApplySetAll({v}, ops[1..], 2);
    assert ApplySetAll({v}, ops[1..], 2) == ApplySetAll({v}, ops[1..][1..], 2);
    assert ApplySetAll({v}, ops[1..][1..], 2) == ApplySetAll({}, [], 2);
  }
}
