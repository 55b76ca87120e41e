/** The single-producer single-consumer ring queue (`thread_pool/include/ring_buffer.h`): its mask
    arithmetic on 32-bit words, and every interleaving of the single loads and stores of one producer and
    one consumer. */
module RingQueue {
  import opened Bits

  type Task = nat

  const WORD: nat := 0x1_0000_0000                  // values of a 32-bit index
  const SIZE_VALUES: nat := 0x1_0000_0000_0000_0000 // values of a 64-bit size

  // ----- sizes and masks ------------------------------------------------------------

  /** The constructor's test `(size & (size - 1)) != 0` lets the size pass. */
  predicate Accepts(size: nat)
    requires size < SIZE_VALUES
  {
    And(size, (size + SIZE_VALUES - 1) % SIZE_VALUES) == 0
  }

  /** `mask_`: the low 32 bits of size - 1. */
  function Mask(size: nat): nat
    requires size < SIZE_VALUES
  {
    (size + SIZE_VALUES - 1) % SIZE_VALUES % WORD
  }

  /** `(i + 1) & mask_` on 32-bit words. */
  function NextIndex(i: nat, size: nat): (r: nat)
    requires size < SIZE_VALUES
    ensures r <= Mask(size)
  {
    And((i + 1) % WORD, Mask(size))
  }

  /** How many slots the indices run through. */
  function Slots(size: nat): nat { if size <= WORD then size else WORD }

  /** Powers of two pass the test, and so does 0. */
  lemma AcceptedSizes(size: nat)
    requires size < SIZE_VALUES
    ensures Accepts(size) <==> size == 0 || IsPow2(size)
  {
    if size >= 1 {
      assert (size + SIZE_VALUES - 1) % SIZE_VALUES == size - 1;
      PowerOfTwoTest(size);
    }
  }

  /** For size 0 the mask is all ones and the buffer has no slot: the first push writes outside of it. */
  lemma SizeZeroHasNoSlot()
    ensures Accepts(0) && Mask(0) == WORD - 1 && NextIndex(0, 0) == 1
  {
    AcceptedSizes(0);
    Pow2Of32();
    LowMask(1, 32);
  }

  lemma Pow2Of32()
    ensures Pow2(32) == WORD
  {
    Pow2Sum(8, 8);
    Pow2Sum(16, 16);
    assert Pow2(8) == 256;
  }

  /** Masking is counting modulo the number of slots. */
  lemma MaskIsModulo(i: nat, size: nat)
    requires size < SIZE_VALUES && IsPow2(size) && i < Slots(size)
    ensures NextIndex(i, size) == (i + 1) % Slots(size)
  {
    var k: nat :| size == Pow2(k);
    MaskOf(size);
    if size <= WORD {
      SmallMask(size, k);
      LowMask((i + 1) % WORD, k);
      WordWraps(i, size);
    } else {
      LargeMask(size, k);
      Pow2Of32();
      LowMask((i + 1) % WORD, 32);
      DivModUnique((i + 1) % WORD, WORD, 0, (i + 1) % WORD);
    }
  }

  lemma MaskOf(size: nat)
    requires 1 <= size < SIZE_VALUES
    ensures Mask(size) == (size - 1) % WORD
  {
  }

  lemma SmallMask(size: nat, k: nat)
    requires size == Pow2(k) <= WORD
    ensures (size - 1) % WORD == Pow2(k) - 1
  {
  }

  lemma LargeMask(size: nat, k: nat)
    requires size == Pow2(k) > WORD
    ensures (size - 1) % WORD == WORD - 1
  {
    Pow2Of32();
    if k <= 32 {
      Pow2Monotone(k, 32);
    } else {
      Pow2Sum(32, k - 32);
      MultipleLess(Pow2(k - 32), WORD);
    }
  }

  lemma WordWraps(i: nat, size: nat)
    requires i < size <= WORD
    ensures (i + 1) % WORD % size == (i + 1) % size
  {
    if i + 1 == WORD {
      DivModUnique(WORD, WORD, 1, 0);
    }
  }

  lemma MultipleLess(m: nat, w: nat)
    requires m >= 1 && w >= 1
    ensures (w * m - 1) % w == w - 1
  {
    DivModUnique(w * m - 1, w, m - 1, w - 1);
  }

  /** Indices closer together than the number of slots are different slots. */
  lemma SlotsDiffer(i: nat, j: nat, m: nat)
    requires m >= 1 && i < j < i + m
    ensures i % m != j % m
  {
    if i % m == j % m {
      var a, b := i / m, j / m;
      assert j - i == (b - a) * m by {
        assert i == a * m + i % m && j == b * m + j % m;
        assert (b - a) * m == b * m - a * m;
      }
      MultipleNearZero(b - a, m);
    }
  }

  lemma NextModulo(n: nat, m: nat)
    requires m >= 1
    ensures (n % m + 1) % m == (n + 1) % m
  {
    var q := n / m;
    assert n == q * m + n % m;
    if n % m + 1 == m {
      assert n + 1 == (q + 1) * m;
      DivModUnique(n + 1, m, q + 1, 0);
      DivModUnique(m, m, 1, 0);
    } else {
      DivModUnique(n + 1, m, q, n % m + 1);
      DivModUnique(n % m + 1, m, 0, n % m + 1);
    }
  }

  // ----- single loads and stores ------------------------------------------------------

  datatype Slot = Empty | Full(task: Task)

  /** Inside `push`: before the load of tail, before the load of head, before the slot is written, before tail
      is stored. */
  datatype Producer = PIdle | PTail(x: Task) | PHead(x: Task, t: nat) | PWrite(x: Task, t: nat) | PStore(x: Task, t: nat)

  /** Inside `pop`. */
  datatype Consumer = CIdle | CHead | CTail(h: nat) | CRead(h: nat) | CStore(h: nat, x: Task)

  datatype State = State(
    size: nat, buffer: seq<Slot>, head: nat, tail: nat, p: Producer, c: Consumer,
    pushed: seq<Task>, popped: seq<Task>) // history: tasks in the order of the stores of tail and of head

  function Init(size: nat): State { State(size, seq(size, _ => Empty), 0, 0, PIdle, CIdle, [], []) }

  datatype Label = Push(x: Task) | LoadTail | LoadHead | Write | StoreTail | Pop | LoadHead2 | LoadTail2 | Read | StoreHead

  ghost predicate Step(st: State, st': State, l: Label)
    requires st.size < SIZE_VALUES
  {
    match l
    case Push(x) => st.p.PIdle? && st' == st.(p := PTail(x))
    case LoadTail => st.p.PTail? && st' == st.(p := PHead(st.p.x, st.tail))
    case LoadHead =>
      && st.p.PHead?
      && st' == if NextIndex(st.p.t, st.size) == st.head then st.(p := PIdle) else st.(p := PWrite(st.p.x, st.p.t))
    case Write => st.p.PWrite? && st.p.t < |st.buffer| && st' == st.(buffer := st.buffer[st.p.t := Full(st.p.x)], p := PStore(st.p.x, st.p.t))
    case StoreTail => st.p.PStore? && st' == st.(tail := NextIndex(st.p.t, st.size), p := PIdle, pushed := st.pushed + [st.p.x])
    case Pop => st.c.CIdle? && st' == st.(c := CHead)
    case LoadHead2 => st.c.CHead? && st' == st.(c := CTail(st.head))
    case LoadTail2 => st.c.CTail? && st' == if st.c.h == st.tail then st.(c := CIdle) else st.(c := CRead(st.c.h))
    case Read =>
      && st.c.CRead? && st.c.h < |st.buffer| && st.buffer[st.c.h].Full?
      && st' == st.(buffer := st.buffer[st.c.h := Empty], c := CStore(st.c.h, st.buffer[st.c.h].task))
    case StoreHead => st.c.CStore? && st' == st.(head := NextIndex(st.c.h, st.size), c := CIdle, popped := st.popped + [st.c.x])
  }

  // ----- the invariant ----------------------------------------------------------------

  /** Tasks in the queue: those pushed and not popped. */
  function Waiting(st: State): int { |st.pushed| - |st.popped| }

  /** Slot k mod m has the k-th task, or the consumer has just taken it out. */
  ghost predicate Holds(st: State, k: nat, m: nat)
    requires m >= 1 && |st.buffer| >= m && k < |st.pushed|
  {
    st.buffer[k % m] == Full(st.pushed[k]) || (k == |st.popped| && st.c.CStore? && st.c.x == st.pushed[k])
  }

  ghost predicate Safe(st: State) {
    var m, h, t := Slots(st.size), |st.popped|, |st.pushed|;
    && st.size < SIZE_VALUES && IsPow2(st.size) && m >= 1 && |st.buffer| == st.size
    && h <= t < h + m && st.head == h % m && st.tail == t % m
    && st.popped == st.pushed[..h]
    && (forall k: nat :: h <= k < t ==> Holds(st, k, m))
    && (st.p.PHead? || st.p.PWrite? || st.p.PStore? ==> st.p.t == st.tail)
    && (st.p.PWrite? || st.p.PStore? ==> t + 1 < h + m)
    && (st.p.PStore? ==> st.buffer[st.p.t] == Full(st.p.x))
    && (st.c.CTail? || st.c.CRead? || st.c.CStore? ==> st.c.h == st.head)
    && (st.c.CRead? || st.c.CStore? ==> h < t)
    && (st.c.CStore? ==> st.c.x == st.pushed[h])
  }

  lemma InitSafe(size: nat)
    requires size < SIZE_VALUES && IsPow2(size)
    ensures Safe(Init(size))
  {
  }

  lemma Indices(st: State)
    requires Safe(st)
    ensures NextIndex(st.tail, st.size) == (|st.pushed| + 1) % Slots(st.size)
    ensures NextIndex(st.head, st.size) == (|st.popped| + 1) % Slots(st.size)
  {
    hide NextIndex, Holds;
    IndexAfter(st.tail, |st.pushed|, st.size);
    IndexAfter(st.head, |st.popped|, st.size);
  }

  lemma IndexAfter(i: nat, n: nat, size: nat)
    requires size < SIZE_VALUES && IsPow2(size) && Slots(size) >= 1 && i == n % Slots(size)
    ensures NextIndex(i, size) == (n + 1) % Slots(size)
  {
    MaskIsModulo(i, size);
    NextModulo(n, Slots(size));
  }

  /** The load of head that makes `push` fail happens when the queue holds one task less than it has slots. */
  lemma FullIsFull(st: State)
    requires Safe(st) && st.p.PHead?
    ensures NextIndex(st.p.t, st.size) == st.head <==> Waiting(st) == Slots(st.size) - 1
  {
    var m, h, t := Slots(st.size), |st.popped|, |st.pushed|;
    Indices(st);
    if t + 1 < h + m && h < t + 1 {
      SlotsDiffer(h, t + 1, m);
    } else if t + 1 == h + m {
      WrapAround(h, m);
    }
  }

  lemma WrapAround(h: nat, m: nat)
    requires m >= 1
    ensures (h + m) % m == h % m
  {
    assert h == h / m * m + h % m;
    assert (h / m + 1) * m == h / m * m + m;
    DivModUnique(h + m, m, h / m + 1, h % m);
  }

  /** The load of tail that makes `pop` return nothing happens when the queue is empty. */
  lemma EmptyIsEmpty(st: State)
    requires Safe(st) && st.c.CTail?
    ensures st.c.h == st.tail <==> Waiting(st) == 0
  {
    var m, h, t := Slots(st.size), |st.popped|, |st.pushed|;
    if h < t { SlotsDiffer(h, t, m); }
  }

  /** The free slot at the tail is none of the waiting ones. */
  lemma TailIsFree(st: State, k: nat)
    requires Safe(st) && |st.popped| <= k < |st.pushed| && |st.pushed| < |st.popped| + Slots(st.size)
    ensures k % Slots(st.size) != st.tail
  {
    SlotsDiffer(k, |st.pushed|, Slots(st.size));
  }

  lemma WriteKeeps(st: State, st': State)
    requires Safe(st) && Step(st, st', Write)
    ensures Safe(st')
  {
    var m := Slots(st.size);
    forall k: nat | |st.popped| <= k < |st.pushed|
      ensures Holds(st', k, m)
    {
      assert Holds(st, k, m);
      TailIsFree(st, k);
    }
  }

  lemma StoreTailKeeps(st: State, st': State)
    requires Safe(st) && Step(st, st', StoreTail)
    ensures Safe(st')
  {
    var m := Slots(st.size);
    Indices(st);
    forall k: nat | |st'.popped| <= k < |st'.pushed|
      ensures Holds(st', k, m)
    {
      if k < |st.pushed| {
        assert Holds(st, k, m);
      }
    }
  }

  lemma ReadKeeps(st: State, st': State)
    requires Safe(st) && Step(st, st', Read)
    ensures Safe(st')
  {
    var m, h := Slots(st.size), |st.popped|;
    assert Holds(st, h, m);
    forall k: nat | h <= k < |st.pushed|
      ensures Holds(st', k, m)
    {
      assert Holds(st, k, m);
      if k > h { SlotsDiffer(h, k, m); }
    }
    if st.p.PStore? { SlotsDiffer(h, |st.pushed|, m); }
  }

  lemma StoreHeadKeeps(st: State, st': State)
    requires Safe(st) && Step(st, st', StoreHead)
    ensures Safe(st')
  {
    var m := Slots(st.size);
    Indices(st);
    forall k: nat | |st'.popped| <= k < |st'.pushed|
      ensures Holds(st', k, m)
    {
      assert Holds(st, k, m);
    }
  }

  /** Steps that change neither slots nor history. */
  lemma LoadKeeps(st: State, st': State, l: Label)
    requires Safe(st) && Step(st, st', l) && !l.Write? && !l.StoreTail? && !l.Read? && !l.StoreHead?
    ensures Safe(st')
  {
    if st.p.PHead? { FullIsFull(st); }
    if st.c.CTail? { EmptyIsEmpty(st); }
    forall k: nat | |st.popped| <= k < |st.pushed|
      ensures Holds(st', k, Slots(st.size))
    {
      assert Holds(st, k, Slots(st.size));
    }
  }

  lemma StepKeeps(st: State, st': State, l: Label)
    requires Safe(st) && Step(st, st', l)
    ensures Safe(st') && st'.size == st.size
  {
    match l
    case Write => WriteKeeps(st, st');
    case StoreTail => StoreTailKeeps(st, st');
    case Read => ReadKeeps(st, st');
    case StoreHead => StoreHeadKeeps(st, st');
    case _ => LoadKeeps(st, st', l);
  }

  // ----- runs -------------------------------------------------------------------------

  ghost predicate Run(size: nat, states: seq<State>, labels: seq<Label>) {
    && |states| == |labels| + 1 && states[0] == Init(size)
    && forall i :: 0 <= i < |labels| ==> states[i].size < SIZE_VALUES && Step(states[i], states[i + 1], labels[i])
  }

  lemma {:induction false} RunSafe(size: nat, states: seq<State>, labels: seq<Label>)
    requires size < SIZE_VALUES && IsPow2(size) && Run(size, states, labels)
    ensures Safe(states[|labels|]) && states[|labels|].size == size
    decreases |labels|
  {
    if labels == [] {
      InitSafe(size);
    } else {
      var n := |labels| - 1;
      RunSafe(size, states[..n + 1], labels[..n]);
      StepKeeps(states[n], states[n + 1], labels[n]);
    }
  }

  /** Under every interleaving the queue is a bounded FIFO: the tasks popped are the first of those pushed, in
      order, and never more than Slots - 1 of them wait. */
  lemma BoundedFifo(size: nat, states: seq<State>, labels: seq<Label>)
    requires size < SIZE_VALUES && IsPow2(size) && Run(size, states, labels)
    ensures var st := states[|labels|]; st.popped <= st.pushed && Waiting(st) <= Slots(size) - 1
  {
    RunSafe(size, states, labels);
  }

  /** A slot that is read holds a task, and the one whose turn it is; a slot that is written holds none that
      waits. */
  lemma NoSlotIsLost(size: nat, states: seq<State>, labels: seq<Label>)
    requires size < SIZE_VALUES && IsPow2(size) && Run(size, states, labels)
    ensures var st := states[|labels|];
            && (st.c.CRead? ==> st.c.h < |st.buffer| && |st.popped| < |st.pushed| && st.buffer[st.c.h] == Full(st.pushed[|st.popped|]))
            && (st.p.PWrite? ==> st.p.t < |st.buffer|)
            && (st.p.PWrite? ==> forall k: nat :: |st.popped| <= k < |st.pushed| ==> k % Slots(size) != st.p.t)
  {
    RunSafe(size, states, labels);
    var st := states[|labels|];
    if st.c.CRead? {
      assert Holds(st, |st.popped|, Slots(size));
    }
    if st.p.PWrite? {
      forall k: nat | |st.popped| <= k < |st.pushed|
        ensures k % Slots(size) != st.p.t
      {
        TailIsFree(st, k);
      }
    }
  }

  // ----- what a call achieves, whatever the other side does meanwhile ---------------------

  predicate OfProducer(l: Label) { l.Push? || l.LoadTail? || l.LoadHead? || l.Write? || l.StoreTail? }

  /** `push(x)` is over without effect exactly if it finds all slots but one in use; otherwise x is appended by its
      last step and by no other. */
  lemma PushDelivers(st: State, st': State, l: Label)
    requires Safe(st) && Step(st, st', l)
    ensures l.Push? ==> !st'.p.PIdle? && st'.p.x == l.x
    ensures l.LoadHead? ==> (st'.p.PIdle? <==> Waiting(st) == Slots(st.size) - 1)
    ensures !st.p.PIdle? && !st'.p.PIdle? ==> st'.p.x == st.p.x
    ensures st'.pushed == if !st.p.PIdle? && st'.p.PIdle? && !l.LoadHead? then st.pushed + [st.p.x] else st.pushed
  {
    if st.p.PHead? { FullIsFull(st); }
    hide NextIndex;
  }

  /** `pop()` is over without effect exactly if it finds the queue empty; otherwise its last step, and no other, takes
      the oldest task, which is the one it returns. */
  lemma PopDelivers(st: State, st': State, l: Label)
    requires Safe(st) && Step(st, st', l)
    ensures l.LoadTail2? ==> (st'.c.CIdle? <==> Waiting(st) == 0)
    ensures !st.c.CIdle? && st'.c.CIdle? && !l.LoadTail2? ==> |st.popped| < |st.pushed| && st.c.CStore? && st.c.x == st.pushed[|st.popped|]
    ensures st'.popped == if !st.c.CIdle? && st'.c.CIdle? && !l.LoadTail2? then st.popped + [st.pushed[|st.popped|]] else st.popped
  {
    if st.c.CTail? { EmptyIsEmpty(st); }
    hide NextIndex;
  }

  function ProducerRank(p: Producer): nat {
    match p
    case PIdle => 0
    case PStore(_, _) => 1
    case PWrite(_, _) => 2
    case PHead(_, _) => 3
    case PTail(_) => 4
  }

  function ConsumerRank(c: Consumer): nat {
    match c
    case CIdle => 0
    case CStore(_, _) => 1
    case CRead(_) => 2
    case CTail(_) => 3
    case CHead => 4
  }

  /** No call waits for the other side: one inside a call can always go on, */
  lemma ProducerMoves(st: State) returns (st': State, l: Label)
    requires Safe(st) && !st.p.PIdle?
    ensures Step(st, st', l) && OfProducer(l) && !l.Push?
  {
    match st.p
    case PTail(x) => l, st' := LoadTail, st.(p := PHead(x, st.tail));
    case PHead(x, t) =>
      l, st' := LoadHead, if NextIndex(t, st.size) == st.head then st.(p := PIdle) else st.(p := PWrite(x, t));
    case PWrite(x, t) =>
      l, st' := Write, st.(buffer := st.buffer[t := Full(x)], p := PStore(x, t));
    case PStore(x, t) => l, st' := StoreTail, st.(tail := NextIndex(t, st.size), p := PIdle, pushed := st.pushed + [x]);
  }

  lemma ConsumerMoves(st: State) returns (st': State, l: Label)
    requires Safe(st) && !st.c.CIdle?
    ensures Step(st, st', l) && !OfProducer(l) && !l.Pop?
  {
    match st.c
    case CHead => l, st' := LoadHead2, st.(c := CTail(st.head));
    case CTail(h) => l, st' := LoadTail2, if h == st.tail then st.(c := CIdle) else st.(c := CRead(h));
    case CRead(h) =>
      assert Holds(st, |st.popped|, Slots(st.size));
      l, st' := Read, st.(buffer := st.buffer[h := Empty], c := CStore(h, st.buffer[h].task));
    case CStore(h, x) => l, st' := StoreHead, st.(head := NextIndex(h, st.size), c := CIdle, popped := st.popped + [x]);
  }

  /** and is through after at most four steps of its own. */
  lemma CallsAreShort(st: State, st': State, l: Label)
    requires Safe(st) && Step(st, st', l)
    ensures ProducerRank(st.p) <= 4 && ConsumerRank(st.c) <= 4
    ensures if OfProducer(l) then st'.c == st.c && (l.Push? || ProducerRank(st'.p) < ProducerRank(st.p))
            else st'.p == st.p && (l.Pop? || ConsumerRank(st'.c) < ConsumerRank(st.c))
  {
    hide NextIndex, Safe;
  }

  /** With one slot nothing can ever be pushed. */
  lemma OneSlotHoldsNothing(states: seq<State>, labels: seq<Label>)
    requires Run(1, states, labels)
    ensures states[|labels|].pushed == []
    decreases |labels|
  {
    assert Pow2(0) == 1;
    BoundedFifo(1, states, labels);
    if labels != [] {
      var n := |labels| - 1;
      OneSlotHoldsNothing(states[..n + 1], labels[..n]);
      RunSafe(1, states[..n + 1], labels[..n]);
    }
  }

  // ----- the class ------------------------------------------------------------------

  class LockFreeRingQueue {
    const size: nat
    const buffer: array<Slot>
    var head: nat
    var tail: nat
    ghost var contents: seq<Task>

    ghost predicate Valid()
      reads this, buffer
    {
      && 1 <= size < SIZE_VALUES && IsPow2(size) && buffer.Length == size
      && head < Slots(size) && |contents| < Slots(size)
      && tail == Around(head, |contents|, Slots(size))
      && forall k: nat :: k < |contents| ==> buffer[Around(head, k, Slots(size))] == Full(contents[k])
    }

    constructor (n: nat)
      requires n < SIZE_VALUES && IsPow2(n)
      ensures Valid() && contents == [] && size == n && fresh(buffer)
    {
      size := n;
      buffer := new Slot[n](_ => Empty);
      head, tail, contents := 0, 0, [];
    }

    method Push(x: Task) returns (ok: bool)
      requires Valid()
      modifies this`tail, this`contents, buffer
      ensures Valid() && head == old(head)
      ensures ok <==> |old(contents)| < Slots(size) - 1
      ensures contents == if ok then old(contents) + [x] else old(contents)
    {
      PlaceAtTail(size, head, |contents|, tail);
      hide Around, IsPow2;
      var next := NextIndex(tail, size);
      if next == head {
        return false;
      }
      buffer[tail] := Full(x);
      tail := next;
      contents := contents + [x];
      ok := true;
    }

    method Pop() returns (r: Slot)
      requires Valid()
      modifies this`head, this`contents, buffer
      ensures Valid() && tail == old(tail)
      ensures if old(contents) == [] then r == Empty && contents == [] else r == Full(old(contents)[0]) && contents == old(contents)[1..]
    {
      ghost var m := Slots(size);
      MaskIsModulo(head, size);
      AroundOnce(head, |contents|, m);
      AroundZero(head, m);
      forall k: nat | k < |contents|
        ensures k > 0 ==> Around(head, k, m) != head
        ensures Around(NextIndex(head, size), k, m) == Around(head, k + 1, m)
      {
        AroundOnce(head, k, m);
        AroundShift(head, k, m);
      }
      hide Around, NextIndex;
      if head == tail {
        return Empty;
      }
      r := buffer[head];
      buffer[head] := Empty;
      head := NextIndex(head, size);
      contents := contents[1..];
    }

    method IsEmpty() returns (r: bool)
      requires Valid()
      ensures r <==> contents == []
    {
      AroundOnce(head, |contents|, Slots(size));
      r := head == tail;
    }

    method IsFull() returns (r: bool)
      requires Valid()
      ensures r <==> |contents| == Slots(size) - 1
    {
      MaskIsModulo(tail, size);
      AroundNext(head, |contents|, Slots(size));
      AroundOnce(head, |contents| + 1, Slots(size));
      r := NextIndex(tail, size) == head;
    }
  }

  /** The slot d steps round the ring from h. */
  function Around(h: nat, d: nat, m: nat): (r: nat)
    requires h < m
    ensures r < m
  {
    (h + d) % m
  }

  lemma AroundZero(h: nat, m: nat)
    requires h < m
    ensures Around(h, 0, m) == h
  {
    DivModUnique(h, m, 0, h);
  }

  lemma AroundNext(h: nat, d: nat, m: nat)
    requires h < m
    ensures (Around(h, d, m) + 1) % m == Around(h, d + 1, m)
  {
    NextModulo(h + d, m);
  }

  lemma AroundDiffers(h: nat, c: nat, d: nat, m: nat)
    requires h < m && c < d < c + m
    ensures Around(h, c, m) != Around(h, d, m)
  {
    SlotsDiffer(h + c, h + d, m);
  }

  /** One is back at h exactly after 0 and after m steps. */
  lemma AroundOnce(h: nat, d: nat, m: nat)
    requires h < m && d <= m
    ensures Around(h, d, m) == h <==> d == 0 || d == m
  {
    AroundZero(h, m);
    if 0 < d < m {
      AroundDiffers(h, 0, d, m);
    } else if d == m {
      WrapAround(h, m);
    }
  }

  /** Where a task would go: the slot at the tail holds none that waits, and the tail moves on unless all slots
      but one are in use. */
  lemma PlaceAtTail(size: nat, head: nat, n: nat, tail: nat)
    requires 1 <= size < SIZE_VALUES && IsPow2(size) && head < Slots(size) && n < Slots(size) && tail == Around(head, n, Slots(size))
    ensures NextIndex(tail, size) == head <==> n + 1 == Slots(size)
    ensures n + 1 < Slots(size) ==> NextIndex(tail, size) == Around(head, n + 1, Slots(size))
    ensures tail < size && forall k: nat :: k < n ==> Around(head, k, Slots(size)) != tail
  {
    var m := Slots(size);
    MaskIsModulo(tail, size);
    AroundNext(head, n, m);
    AroundOnce(head, n + 1, m);
    forall k: nat | k < n
      ensures Around(head, k, m) != tail
    {
      AroundDiffers(head, k, n, m);
    }
  }

  lemma AroundShift(h: nat, k: nat, m: nat)
    requires h < m
    ensures Around((h + 1) % m, k, m) == Around(h, k + 1, m)
  {
    if h + 1 == m {
      DivModUnique(m, m, 1, 0);
      WrapAround(k, m);
      assert h + (k + 1) == k + m;
    } else {
      DivModUnique(h + 1, m, 0, h + 1);
    }
  }
}
