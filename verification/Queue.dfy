/** The bounded queue of `que.c`: a ring buffer, two counting semaphores and a mutex, shared by any number
    of threads. Every step below is one atomic action of one thread; a run is any interleaving. */
module Queue {

  /** Where a thread stands in `que_push`, `que_pop_wait` or `que_pop_nowait`; each state names what the
      thread has done last. The caller of `que_pop_nowait` has to hold a data token, so it starts in
      `PopToken` by way of the same wait that `que_pop_wait` begins with. */
  datatype Pc<T> =
    | Idle
    | PushCalled(v: T) | PushToken(v: T) | PushLocked(v: T) | PushCopied(v: T) | PushMoved | PushUnlocked
    | PopCalled | PopToken | PopLocked | PopCopied(v: T) | PopMoved | PopUnlocked

  /** `pushed` and `popped` record the values in the order in which the positions advanced. */
  datatype State<T> = State(
    ring: seq<T>, inPos: nat, outPos: nat, space: int, data: int, mutex: bool, pcs: seq<Pc<T>>,
    pushed: seq<T>, popped: seq<T>)

  /** What an idle thread may call; every other step is forced. */
  datatype Action<T> = Push(v: T) | Pop | Go

  /** `que_new` */
  function Initial<T>(ring: seq<T>, pcs: seq<Pc<T>>): State<T> {
    State(ring, 0, 0, |ring|, 0, false, pcs, [], [])
  }

  predicate Enabled<T>(s: State<T>, i: nat, a: Action<T>) {
    i < |s.pcs| && |s.ring| > 0 && s.inPos < |s.ring| && s.outPos < |s.ring| &&
    match s.pcs[i]
    case Idle => !a.Go?
    case PushCalled(_) => a.Go? && s.space > 0
    case PopCalled => a.Go? && s.data > 0
    case PushToken(_) => a.Go? && !s.mutex
    case PopToken => a.Go? && !s.mutex
    case _ => a.Go?
  }

  function Next<T>(s: State<T>, i: nat, a: Action<T>): State<T>
    requires Enabled(s, i, a)
  {
    match s.pcs[i]
    case Idle => At(s, i, if a.Push? then PushCalled(a.v) else PopCalled)
    case PushCalled(v) => At(s, i, PushToken(v)).(space := s.space - 1)
    case PushToken(v) => At(s, i, PushLocked(v)).(mutex := true)
    case PushLocked(v) => At(s, i, PushCopied(v)).(ring := s.ring[s.inPos := v])
    case PushCopied(v) => At(s, i, PushMoved).(inPos := (s.inPos + 1) % |s.ring|, pushed := s.pushed + [v])
    case PushMoved => At(s, i, PushUnlocked).(mutex := false)
    case PushUnlocked => At(s, i, Idle).(data := s.data + 1)
    case PopCalled => At(s, i, PopToken).(data := s.data - 1)
    case PopToken => At(s, i, PopLocked).(mutex := true)
    case PopLocked => At(s, i, PopCopied(s.ring[s.outPos]))
    case PopCopied(v) => At(s, i, PopMoved).(outPos := (s.outPos + 1) % |s.ring|, popped := s.popped + [v])
    case PopMoved => At(s, i, PopUnlocked).(mutex := false)
    case PopUnlocked => At(s, i, Idle).(space := s.space + 1)
  }

  function At<T>(s: State<T>, i: nat, pc: Pc<T>): State<T>
    requires i < |s.pcs|
  {
    s.(pcs := s.pcs[i := pc])
  }

  // ---------------------------------------------------------------- counting threads

  /** The groups of threads that matter for the token balance and for mutual exclusion. */
  datatype Group = HoldsSpace | OwesData | HoldsData | OwesSpace | Critical

  predicate In<T>(pc: Pc<T>, g: Group) {
    match g
    case HoldsSpace => pc.PushToken? || pc.PushLocked? || pc.PushCopied?
    case OwesData => pc.PushMoved? || pc.PushUnlocked?
    case HoldsData => pc.PopToken? || pc.PopLocked? || pc.PopCopied?
    case OwesSpace => pc.PopMoved? || pc.PopUnlocked?
    case Critical => pc.PushLocked? || pc.PushCopied? || pc.PushMoved? || pc.PopLocked? || pc.PopCopied? || pc.PopMoved?
  }

  function One<T>(pc: Pc<T>, g: Group): nat {
    if In(pc, g) then 1 else 0
  }

  function Count<T>(pcs: seq<Pc<T>>, g: Group): nat {
    if pcs == [] then 0 else One(pcs[0], g) + Count(pcs[1..], g)
  }

  lemma {:induction false} CountUpdate<T>(pcs: seq<Pc<T>>, i: nat, pc: Pc<T>, g: Group)
    requires i < |pcs|
    ensures Count(pcs[i := pc], g) == Count(pcs, g) - One(pcs[i], g) + One(pc, g)
  {
    hide In;
    if i == 0 {
      assert pcs[0 := pc][1..] == pcs[1..];
    } else {
      CountUpdate(pcs[1..], i - 1, pc, g);
      assert pcs[i := pc][1..] == pcs[1..][i - 1 := pc];
    }
  }

  lemma {:induction false} CountOne<T>(pcs: seq<Pc<T>>, i: nat, g: Group)
    requires i < |pcs|
    ensures Count(pcs, g) >= One(pcs[i], g)
  {
    if i > 0 {
      CountOne(pcs[1..], i - 1, g);
    }
  }

  lemma {:induction false} CountTwo<T>(pcs: seq<Pc<T>>, i: nat, j: nat, g: Group)
    requires i < j < |pcs|
    ensures Count(pcs, g) >= One(pcs[i], g) + One(pcs[j], g)
  {
    if i == 0 {
      CountOne(pcs[1..], j - 1, g);
    } else {
      CountTwo(pcs[1..], i - 1, j - 1, g);
    }
  }

  lemma {:induction false} CountNone<T>(pcs: seq<Pc<T>>, g: Group)
    requires forall i :: 0 <= i < |pcs| ==> !In(pcs[i], g)
    ensures Count(pcs, g) == 0
  {
    if pcs != [] {
      CountNone(pcs[1..], g);
    }
  }

  // ---------------------------------------------------------------- the invariant

  function Used<T>(s: State<T>): int {
    |s.pushed| - |s.popped|
  }

  /** The positions follow the history, and every value that is in the queue is still in its slot. */
  ghost predicate Stored<T>(s: State<T>) {
    && 0 < |s.ring| && 0 <= Used(s) <= |s.ring|
    && s.inPos == |s.pushed| % |s.ring| && s.outPos == |s.popped| % |s.ring|
    && (forall k :: |s.popped| <= k < |s.pushed| ==> s.ring[k % |s.ring|] == s.pushed[k])
  }

  /** Every slot is free, or reserved by a pusher, or in use, or about to be given back by a popper. */
  ghost predicate SpaceBalanced<T>(s: State<T>) {
    0 <= s.space && s.space + Count(s.pcs, HoldsSpace) + Used(s) + Count(s.pcs, OwesSpace) == |s.ring|
  }

  /** Every value in the queue is announced, or claimed by a popper, or about to be announced. */
  ghost predicate DataBalanced<T>(s: State<T>) {
    0 <= s.data && s.data + Count(s.pcs, HoldsData) + Count(s.pcs, OwesData) == Used(s)
  }

  ghost predicate MutexBalanced<T>(s: State<T>) {
    Count(s.pcs, Critical) == if s.mutex then 1 else 0
  }

  ghost predicate Balanced<T>(s: State<T>) {
    SpaceBalanced(s) && DataBalanced(s) && MutexBalanced(s)
  }

  /** What a thread that has copied an entry knows. */
  ghost predicate Knows<T>(s: State<T>, pc: Pc<T>) {
    && (pc.PushCopied? && s.inPos < |s.ring| ==> s.ring[s.inPos] == pc.v)
    && (pc.PopCopied? && |s.popped| < |s.pushed| ==> pc.v == s.pushed[|s.popped|])
  }

  ghost predicate Fifo<T>(s: State<T>) {
    s.popped <= s.pushed
  }

  ghost predicate Safe<T>(s: State<T>) {
    Stored(s) && Balanced(s) && Fifo(s) && forall i :: 0 <= i < |s.pcs| ==> Knows(s, s.pcs[i])
  }

  // ---------------------------------------------------------------- every step keeps it

  lemma SpaceNext<T>(s: State<T>, i: nat, a: Action<T>)
    requires Enabled(s, i, a) && SpaceBalanced(s)
    ensures SpaceBalanced(Next(s, i, a))
  {
    hide Count;
    var pc := Next(s, i, a).pcs[i];
    CountUpdate(s.pcs, i, pc, HoldsSpace);
    CountUpdate(s.pcs, i, pc, OwesSpace);
  }

  lemma DataNext<T>(s: State<T>, i: nat, a: Action<T>)
    requires Enabled(s, i, a) && DataBalanced(s)
    ensures DataBalanced(Next(s, i, a))
  {
    hide Count;
    var pc := Next(s, i, a).pcs[i];
    CountUpdate(s.pcs, i, pc, HoldsData);
    CountUpdate(s.pcs, i, pc, OwesData);
  }

  lemma MutexNext<T>(s: State<T>, i: nat, a: Action<T>)
    requires Enabled(s, i, a) && MutexBalanced(s)
    ensures MutexBalanced(Next(s, i, a))
  {
    hide Count;
    var pc := Next(s, i, a).pcs[i];
    CountUpdate(s.pcs, i, pc, Critical);
    CountOne(s.pcs, i, Critical);
  }

  lemma BalancedNext<T>(s: State<T>, i: nat, a: Action<T>)
    requires Enabled(s, i, a) && Balanced(s)
    ensures Balanced(Next(s, i, a))
  {
    hide SpaceBalanced, DataBalanced, MutexBalanced, Next;
    SpaceNext(s, i, a);
    DataNext(s, i, a);
    MutexNext(s, i, a);
  }

  /** A space token means a free slot, a data token a filled one. */
  lemma TokenMeansSlot<T>(s: State<T>, i: nat)
    requires Balanced(s) && i < |s.pcs|
    ensures In(s.pcs[i], HoldsSpace) ==> Used(s) < |s.ring|
    ensures In(s.pcs[i], HoldsData) ==> 0 < Used(s)
  {
    hide Count, In;
    CountOne(s.pcs, i, HoldsSpace);
    CountOne(s.pcs, i, HoldsData);
  }

  lemma MutualExclusion<T>(s: State<T>, i: nat, j: nat)
    requires Balanced(s) && i < |s.pcs| && j < |s.pcs| && In(s.pcs[i], Critical) && In(s.pcs[j], Critical)
    ensures s.mutex && i == j
  {
    hide Count, In;
    CountOne(s.pcs, i, Critical);
    if i < j {
      CountTwo(s.pcs, i, j, Critical);
    } else if j < i {
      CountTwo(s.pcs, j, i, Critical);
    }
  }

  lemma ModDistinct(a: nat, b: nat, n: nat)
    requires a < b < a + n
    ensures a % n != b % n
  {
    if a % n == b % n {
      var qa, qb := a / n, b / n;
      assert a == n * qa + a % n && b == n * qb + b % n;
      assert b - a == n * (qb - qa);
      if qb - qa <= 0 { Product(n, qb - qa); } else { Product(n, qb - qa - 1); }
    }
  }

  lemma Product(n: nat, d: int)
    ensures d <= 0 ==> n * d <= 0
    ensures d >= 0 ==> n * d >= 0
    ensures n * (d + 1) == n * d + n
  {
  }

  lemma ModNext(a: nat, n: nat)
    requires n > 0
    ensures (a % n + 1) % n == (a + 1) % n
  {
    var q, r := a / n, a % n;
    assert a == n * q + r;
    if r + 1 < n {
      DivModIs(a + 1, n, q, r + 1);
    } else {
      Product(n, q);
      DivModIs(a + 1, n, q + 1, 0);
    }
  }

  lemma DivModIs(a: nat, n: nat, q: nat, r: nat)
    requires a == n * q + r && r < n
    ensures a % n == r
  {
    var q', r' := a / n, a % n;
    assert a == n * q' + r';
    assert n * (q' - q) == r - r';
    if q' < q { Product(n, q' - q + 1); Product(n, q' - q); }
    if q' > q { Product(n, q' - q - 1); }
  }

  /** Copying into the free slot overwrites no unread value. */
  lemma NoOverwrite<T>(s: State<T>, v: T)
    requires Stored(s) && Used(s) < |s.ring|
    ensures Stored(s.(ring := s.ring[s.inPos := v]))
  {
    forall k | |s.popped| <= k < |s.pushed| ensures k % |s.ring| != s.inPos {
      ModDistinct(k, |s.pushed|, |s.ring|);
    }
  }

  lemma PushStored<T>(s: State<T>, v: T)
    requires Stored(s) && Used(s) < |s.ring| && s.ring[s.inPos] == v
    ensures Stored(s.(inPos := (s.inPos + 1) % |s.ring|, pushed := s.pushed + [v]))
  {
    ModNext(|s.pushed|, |s.ring|);
  }

  lemma PopStored<T>(s: State<T>, v: T)
    requires Stored(s) && 0 < Used(s)
    ensures Stored(s.(outPos := (s.outPos + 1) % |s.ring|, popped := s.popped + [v]))
  {
    ModNext(|s.popped|, |s.ring|);
  }

  lemma StoredNext<T>(s: State<T>, i: nat, a: Action<T>)
    requires Enabled(s, i, a) && Safe(s)
    ensures Stored(Next(s, i, a)) && Fifo(Next(s, i, a))
  {
    hide Balanced;
    TokenMeansSlot(s, i);
    assert Knows(s, s.pcs[i]);
    match s.pcs[i]
    case PushLocked(v) => NoOverwrite(s, v);
    case PushCopied(v) => PushStored(s, v);
    case PopCopied(v) => PopStored(s, v);
    case _ =>
  }

  lemma KnowsNext<T>(s: State<T>, i: nat, a: Action<T>, j: nat)
    requires Enabled(s, i, a) && Safe(s) && j < |s.pcs|
    ensures Knows(Next(s, i, a), Next(s, i, a).pcs[j])
  {
    hide Stored, Balanced;
    var s' := Next(s, i, a);
    TokenMeansSlot(s, i);
    assert Knows(s, s.pcs[j]);
    if i != j && In(s.pcs[i], Critical) && In(s.pcs[j], Critical) {
      MutualExclusion(s, i, j);
    }
    if i == j && s.pcs[i].PopLocked? {
      SlotHolds(s);
    }
  }

  lemma SlotHolds<T>(s: State<T>)
    requires Stored(s) && 0 < Used(s)
    ensures s.ring[s.outPos] == s.pushed[|s.popped|]
  {
  }

  lemma SafeNext<T>(s: State<T>, i: nat, a: Action<T>)
    requires Enabled(s, i, a) && Safe(s)
    ensures Safe(Next(s, i, a))
  {
    hide Stored, Balanced, Fifo, Knows;
    BalancedNext(s, i, a);
    StoredNext(s, i, a);
    forall j: nat | j < |s.pcs| ensures Knows(Next(s, i, a), Next(s, i, a).pcs[j]) {
      KnowsNext(s, i, a, j);
    }
  }

  // ---------------------------------------------------------------- every run

  datatype Turn<T> = Turn(thread: nat, action: Action<T>)

  /** A run is any interleaving of enabled steps. */
  ghost predicate Possible<T>(s: State<T>, run: seq<Turn<T>>)
    decreases |run|
  {
    run == [] || (Enabled(s, run[0].thread, run[0].action)
                  && Possible(Next(s, run[0].thread, run[0].action), run[1..]))
  }

  function After<T>(s: State<T>, run: seq<Turn<T>>): State<T>
    requires Possible(s, run)
    decreases |run|
  {
    if run == [] then s else After(Next(s, run[0].thread, run[0].action), run[1..])
  }

  lemma {:induction false} RunSafe<T>(s: State<T>, run: seq<Turn<T>>)
    requires Safe(s) && Possible(s, run)
    ensures Safe(After(s, run)) && |After(s, run).ring| == |s.ring|
    decreases |run|
  {
    hide Safe;
    if run != [] {
      SafeNext(s, run[0].thread, run[0].action);
      RunSafe(Next(s, run[0].thread, run[0].action), run[1..]);
    }
  }

  /** From a new queue, under every interleaving: values come out in the order they went in, no unread
      slot is overwritten, and the two semaphores plus the operations in flight sum to the capacity. */
  lemma QueueCorrect<T>(ring: seq<T>, pcs: seq<Pc<T>>, run: seq<Turn<T>>)
    requires |ring| > 0 && (forall i :: 0 <= i < |pcs| ==> pcs[i] == Idle) && Possible(Initial(ring, pcs), run)
    ensures var s := After(Initial(ring, pcs), run);
            && s.popped <= s.pushed
            && 0 <= Used(s) <= |ring|
            && |s.ring| == |ring|
            && (forall k :: |s.popped| <= k < |s.pushed| ==> s.ring[k % |ring|] == s.pushed[k])
            && s.space + s.data + Count(s.pcs, HoldsSpace) + Count(s.pcs, OwesData)
               + Count(s.pcs, HoldsData) + Count(s.pcs, OwesSpace) == |ring|
            && 0 <= s.space <= |ring| && 0 <= s.data <= |ring|
  {
    hide Count, In;
    InitialSafe(ring, pcs);
    RunSafe(Initial(ring, pcs), run);
  }

  lemma InitialSafe<T>(ring: seq<T>, pcs: seq<Pc<T>>)
    requires |ring| > 0 && forall i :: 0 <= i < |pcs| ==> pcs[i] == Idle
    ensures Safe(Initial(ring, pcs))
  {
    CountNone(pcs, HoldsSpace);
    CountNone(pcs, OwesData);
    CountNone(pcs, HoldsData);
    CountNone(pcs, OwesSpace);
    CountNone(pcs, Critical);
  }

  // ---------------------------------------------------------------- every call takes effect once

  /** What a thread is about to push. */
  ghost function Holding<T(!new)>(pc: Pc<T>): multiset<T> {
    if pc.PushCalled? || pc.PushToken? || pc.PushLocked? || pc.PushCopied? then multiset{pc.v} else multiset{}
  }

  ghost function AllHolding<T(!new)>(pcs: seq<Pc<T>>): multiset<T> {
    if pcs == [] then multiset{} else Holding(pcs[0]) + AllHolding(pcs[1..])
  }

  /** Is a thread about to take something? */
  function Taking<T>(pc: Pc<T>): nat {
    if pc.PopCalled? || pc.PopToken? || pc.PopLocked? || pc.PopCopied? then 1 else 0
  }

  function AllTaking<T>(pcs: seq<Pc<T>>): nat {
    if pcs == [] then 0 else Taking(pcs[0]) + AllTaking(pcs[1..])
  }

  lemma {:induction false} HoldingUpdate<T(!new)>(pcs: seq<Pc<T>>, i: nat, pc: Pc<T>)
    requires i < |pcs|
    ensures AllHolding(pcs[i := pc]) + Holding(pcs[i]) == AllHolding(pcs) + Holding(pc)
    ensures AllTaking(pcs[i := pc]) + Taking(pcs[i]) == AllTaking(pcs) + Taking(pc)
  {
    hide Holding, Taking;
    if i == 0 {
      assert pcs[0 := pc][1..] == pcs[1..];
    } else {
      HoldingUpdate(pcs[1..], i - 1, pc);
      assert pcs[i := pc][1..] == pcs[1..][i - 1 := pc];
      Exchange(Holding(pcs[0]), AllHolding(pcs[1..][i - 1 := pc]), Holding(pcs[i]), AllHolding(pcs[1..]), Holding(pc));
    }
  }

  lemma Exchange<T(!new)>(h: multiset<T>, a: multiset<T>, x: multiset<T>, b: multiset<T>, y: multiset<T>)
    requires a + x == b + y
    ensures (h + a) + x == (h + b) + y
  {
    assert forall v :: (a + x)[v] == a[v] + x[v] && (b + y)[v] == b[v] + y[v];
  }

  /** All that was pushed or is about to be; all that was popped or is about to be. */
  ghost function Accepted<T(!new)>(s: State<T>): multiset<T> {
    multiset(s.pushed) + AllHolding(s.pcs)
  }

  function Requested<T>(s: State<T>): nat {
    |s.popped| + AllTaking(s.pcs)
  }

  ghost function Entering<T(!new)>(a: Action<T>): multiset<T> {
    if a.Push? then multiset{a.v} else multiset{}
  }

  /** One step of one thread, in cases: a call begins, a position advances, or neither. */
  lemma ThreadMoves<T(!new)>(s: State<T>, i: nat, a: Action<T>)
    requires Enabled(s, i, a)
    ensures var t := Next(s, i, a);
            && |t.pcs| == |s.pcs| && t.pcs == s.pcs[i := t.pcs[i]]
            && t.pushed == s.pushed + (if s.pcs[i].PushCopied? then [s.pcs[i].v] else [])
            && |t.popped| + Taking(t.pcs[i]) == |s.popped| + Taking(s.pcs[i]) + if a.Pop? then 1 else 0
  {
  }

  lemma ThreadHolds<T(!new)>(s: State<T>, i: nat, a: Action<T>)
    requires Enabled(s, i, a) && i < |Next(s, i, a).pcs|
    ensures var pc := Next(s, i, a).pcs[i];
            if s.pcs[i].PushCopied? then
              Holding(pc) == multiset{} && Holding(s.pcs[i]) == multiset{s.pcs[i].v} && !a.Push?
            else if a.Push? then Holding(pc) == Entering(a) && Holding(s.pcs[i]) == multiset{}
            else Holding(pc) == Holding(s.pcs[i])
  {
  }

  /** What a thread holds is pushed, kept, or new. */
  lemma ThreadStep<T(!new)>(s: State<T>, i: nat, a: Action<T>)
    requires Enabled(s, i, a)
    ensures var t := Next(s, i, a);
            && |t.pcs| == |s.pcs| && t.pcs == s.pcs[i := t.pcs[i]]
            && multiset(t.pushed) + Holding(t.pcs[i]) == multiset(s.pushed) + Holding(s.pcs[i]) + Entering(a)
            && |t.popped| + Taking(t.pcs[i]) == |s.popped| + Taking(s.pcs[i]) + if a.Pop? then 1 else 0
  {
    hide Next, Holding, Taking, Enabled;
    Running(s, i, a);
    ThreadMoves(s, i, a);
    ThreadHolds(s, i, a);
    var t := Next(s, i, a);
    if s.pcs[i].PushCopied? {
      assert multiset(s.pushed + [s.pcs[i].v]) == multiset(s.pushed) + multiset{s.pcs[i].v};
    } else {
      assert s.pushed + [] == s.pushed;
    }
  }

  lemma ConservedNext<T(!new)>(s: State<T>, i: nat, a: Action<T>)
    requires Enabled(s, i, a)
    ensures Accepted(Next(s, i, a)) == Accepted(s) + Entering(a)
    ensures Requested(Next(s, i, a)) == Requested(s) + if a.Pop? then 1 else 0
  {
    hide AllHolding, AllTaking, Next, Holding, Taking, Entering, Enabled;
    var t := Next(s, i, a);
    assert i < |s.pcs| by { Running(s, i, a); }
    ThreadStep(s, i, a);
    HoldingUpdate(s.pcs, i, t.pcs[i]);
    Transfer(multiset(s.pushed), AllHolding(s.pcs), Holding(s.pcs[i]), multiset(t.pushed), AllHolding(t.pcs),
             Holding(t.pcs[i]), Entering(a));
  }

  lemma Running<T>(s: State<T>, i: nat, a: Action<T>)
    requires Enabled(s, i, a)
    ensures i < |s.pcs|
  {
  }

  lemma Transfer<T(!new)>(p: multiset<T>, h: multiset<T>, x: multiset<T>, q: multiset<T>, k: multiset<T>,
                          y: multiset<T>, new': multiset<T>)
    requires k + x == h + y && q + y == p + x + new'
    ensures q + k == p + h + new'
  {
    forall v ensures (q + k)[v] == (p + h + new')[v] {
      assert (k + x)[v] == (h + y)[v] && (q + y)[v] == (p + x + new')[v];
    }
  }

  /** The values of all push calls of a run, and the number of its pop calls. */
  ghost function Pushes<T(!new)>(run: seq<Turn<T>>): multiset<T> {
    if run == [] then multiset{}
    else Entering(run[0].action) + Pushes(run[1..])
  }

  function Pops<T>(run: seq<Turn<T>>): nat {
    if run == [] then 0 else (if run[0].action.Pop? then 1 else 0) + Pops(run[1..])
  }

  /** Under every interleaving, each push call enters its own value once, and each pop call takes one. */
  lemma {:induction false} CallsConserved<T(!new)>(s: State<T>, run: seq<Turn<T>>)
    requires Possible(s, run)
    ensures Accepted(After(s, run)) == Accepted(s) + Pushes(run)
    ensures Requested(After(s, run)) == Requested(s) + Pops(run)
    decreases |run|
  {
    hide Accepted, Requested, Next, Enabled;
    if run != [] {
      ConservedNext(s, run[0].thread, run[0].action);
      CallsConserved(Next(s, run[0].thread, run[0].action), run[1..]);
    }
  }

  // ---------------------------------------------------------------- no thread waits for nothing

  ghost predicate Stuck<T(!new)>(s: State<T>) {
    forall i, a :: 0 <= i < |s.pcs| && !s.pcs[i].Idle? ==> !Enabled(s, i, a)
  }

  lemma StuckPc<T(!new)>(s: State<T>, i: nat)
    requires Safe(s) && Stuck(s) && i < |s.pcs| && !s.pcs[i].Idle?
    ensures !In(s.pcs[i], Critical)
    ensures s.pcs[i].PushCalled? ==> s.space == 0
    ensures s.pcs[i].PopCalled? ==> s.data == 0
    ensures !s.pcs[i].PushUnlocked? && !s.pcs[i].PopUnlocked?
    ensures s.pcs[i].PushToken? || s.pcs[i].PopToken? ==> s.mutex
  {
    var go: Action<T> := Go;
    assert !Enabled(s, i, go);
  }

  /** If no call in progress can move, the mutex is free and every caller waits on the same side: all
      pushers on a full queue, or all poppers on an empty one. */
  lemma NoNeedlessWait<T(!new)>(s: State<T>, i: nat)
    requires Safe(s) && Stuck(s) && i < |s.pcs| && !s.pcs[i].Idle?
    ensures !s.mutex
    ensures (s.pcs[i].PushCalled? && Used(s) == |s.ring|) || (s.pcs[i].PopCalled? && Used(s) == 0)
  {
    hide Count, Stuck, Enabled, Stored, Fifo, Knows;
    forall j: nat | j < |s.pcs| && !s.pcs[j].Idle? ensures !In(s.pcs[j], Critical) { StuckPc(s, j); }
    CountNone(s.pcs, Critical);
    forall j: nat | j < |s.pcs| ensures s.pcs[j].Idle? || s.pcs[j].PushCalled? || s.pcs[j].PopCalled? {
      if !s.pcs[j].Idle? { StuckPc(s, j); }
    }
    CountNone(s.pcs, HoldsSpace);
    CountNone(s.pcs, OwesData);
    CountNone(s.pcs, HoldsData);
    CountNone(s.pcs, OwesSpace);
    StuckPc(s, i);
  }
}
