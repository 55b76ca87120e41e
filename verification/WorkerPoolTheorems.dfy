/** What every run of the fixed-mode thread pool guarantees. */
module WorkerPoolTheorems {
  import opened Common
  import opened WorkerPool
  import opened WorkerPoolSafety

  lemma StepKeeps(st: State, st': State, l: Label)
    requires Safe(st) && Step(st, st', l)
    ensures Safe(st') && st'.n == st.n && st'.limit == st.limit
  {
    hide Safe, StepWorker, StepClient, StepOwner, StepSpurious, StepOwnerSpurious;
    match l
    case W(t) =>
      WorkerKeeps(st, st', t);
      WorkerOthers(st, st', t);
    case Spurious(t) =>
      SpuriousKeeps(st, st', t);
      SpuriousOthers(st, st', t);
    case C(c, timeout, woken) =>
      ClientKeeps(st, st', c, timeout, woken);
      ClientOthers(st, st', c, timeout, woken);
    case O =>
      OwnerKeeps(st, st');
      OwnerOthers(st, st');
    case SpuriousO =>
      OwnerKeeps(st, st');
      OwnerOthers(st, st');
  }

  lemma SpuriousOthers(st: State, st': State, t: Tid)
    requires StepSpurious(st, st', t)
    ensures st'.n == st.n && st'.limit == st.limit
  {
  }

  lemma {:induction false} RunSafe(n: nat, limit: nat, states: seq<State>, labels: seq<Label>)
    requires Run(n, limit, states, labels)
    ensures Safe(states[|labels|]) && states[|labels|].n == n && states[|labels|].limit == limit
    decreases |labels|
  {
    hide Safe, Step;
    if labels == [] {
      InitSafe(n, limit);
    } else {
      var k := |labels| - 1;
      RunSafe(n, limit, states[..k + 1], labels[..k]);
      StepKeeps(states[k], states[k + 1], labels[k]);
    }
  }

  ghost predicate EndsIn(n: nat, limit: nat, states: seq<State>, labels: seq<Label>, st: State) {
    Run(n, limit, states, labels) && states[|labels|] == st
  }

  ghost predicate Reachable(n: nat, limit: nat, st: State) {
    exists states: seq<State>, labels: seq<Label> :: EndsIn(n, limit, states, labels, st)
  }

  lemma ReachableSafe(n: nat, limit: nat, st: State)
    requires Reachable(n, limit, st)
    ensures Safe(st) && st.n == n && st.limit == limit
  {
    hide Safe, Run;
    var states: seq<State>, labels: seq<Label> :| EndsIn(n, limit, states, labels, st);
    RunSafe(n, limit, states, labels);
  }

  // ----- order, bound, exactly once -----------------------------------------------------

  /** Tasks leave the queue in the order in which they were accepted, and the queue keeps to its limit. */
  lemma QueueIsBoundedFifo(n: nat, limit: nat, st: State)
    requires Reachable(n, limit, st)
    ensures st.size == |st.queue| == st.accepted - st.taken && |st.queue| <= limit
    ensures forall i :: 0 <= i < |st.queue| ==> st.queue[i] == st.taken + i
  {
    hide Reachable;
    ReachableSafe(n, limit, st);
  }

  /** A task that has left the queue is finished or with exactly one worker, never both. */
  lemma TasksRunOnce(n: nat, limit: nat, st: State, k: Task)
    requires Reachable(n, limit, st)
    ensures k in st.finished ==> k < st.taken && forall t: Tid :: !InHand(WorkerAt(st, t), k)
    ensures forall t: Tid, u: Tid :: InHand(WorkerAt(st, t), k) && InHand(WorkerAt(st, u), k) ==> t == u
    ensures k < st.taken && k !in st.finished ==> exists t: Tid :: InHand(WorkerAt(st, t), k)
  {
    hide Reachable;
    ReachableSafe(n, limit, st);
    hide MutexOk, QueueOk, PlaceOk, KnownOk, WakeOk, StopOk;
  }

  /** `m_get_task` always finds a task, and so always notifies everyone. */
  lemma GettingNotifies(n: nat, limit: nat, st: State, t: Tid)
    requires Reachable(n, limit, st) && WorkerAt(st, t).Getting?
    ensures st.queue != [] && st.size != 0
  {
    hide Reachable;
    ReachableSafe(n, limit, st);
    assert Knows(st, t);
  }

  // ----- wakeups and progress -----------------------------------------------------------

  /** No lost wakeup: whenever the mutex is free and a task waits, some live worker is not asleep. */
  lemma NoLostWakeup(n: nat, limit: nat, st: State)
    requires n >= 1 && Reachable(n, limit, st) && st.mutex == None && st.queue != []
    ensures exists t: Tid :: t in st.live && !WorkerAt(st, t).Asleep?
  {
    hide Reachable;
    ReachableSafe(n, limit, st);
    hide MutexOk, QueueOk, PlaceOk, WorkOk, KnownOk, StopOk;
  }

  /** A worker that is not asleep can go on if the mutex is free or its own. */
  lemma WorkerMoves(st: State, t: Tid) returns (st': State)
    requires t < st.n && !WorkerAt(st, t).Asleep? && !WorkerAt(st, t).Gone?
    requires st.mutex == None || st.mutex == Some(Worker(t)) || WorkerAt(st, t).Running?
    requires st.mutex == Some(Worker(t)) ==> WorkerHolds(WorkerAt(st, t))
    requires WorkerAt(st, t).Getting? ==> st.queue != [] && st.size >= 1
    ensures StepWorker(st, st', t)
  {
    match WorkerAt(st, t)
    case Ready => st' := ToW(st, t, Testing).(mutex := Some(Worker(t)));
    case Testing => st' := ToW(st, t, if st.size == 0 then Checking else Getting);
    case Checking => st' := ToW(st, t, if st.running then Sleeping else Leaving);
    case Sleeping => st' := ToW(st, t, Asleep).(mutex := None);
    case Awake => st' := ToW(st, t, Testing).(mutex := Some(Worker(t)));
    case Leaving =>
      st' := ToW(st, t, Erased).(live := st.live - {t}, owner := if st.live - {t} == {} && st.owner.Waiting? then Woken else st.owner);
    case Erased => st' := ToW(st, t, Gone).(mutex := None);
    case Getting =>
      st' := st.(queue := st.queue[1..], size := st.size - 1, taken := st.taken + 1,
                 workers := (if st.size != 0 then WakeAll(st.workers) else st.workers)[t := Got(st.queue[0])]);
    case Got(k) => st' := ToW(st, t, Running(k)).(mutex := None);
    case Running(k) => st' := ToW(st, t, Ready).(finished := st.finished + {k});
  }

  /** A client inside a call can go on if the mutex is free or its own, whether or not its wait has run out. */
  lemma ClientMoves(st: State, c: nat, timeout: bool) returns (st': State, woken: Tid)
    requires ClientAt(st, c) != Outside && (st.mutex == None || ClientHolds(ClientAt(st, c)))
    ensures StepClient(st, st', c, timeout, woken)
  {
    woken := 0;
    match ClientAt(st, c)
    case Calling => st' := ToC(st, c, Asking).(mutex := Some(Client(c)));
    case Asking =>
      st' := if st.size < st.limit then ToC(st, c, Pushing) else ToC(st, c, if timeout then Outside else Full).(mutex := None);
    case Full => st' := ToC(st, c, Asking).(mutex := Some(Client(c)));
    case Pushing =>
      st' := ToC(st, c, Notifying).(queue := st.queue + [st.accepted], size := st.size + 1, accepted := st.accepted + 1);
    case Notifying =>
      if t: Tid :| t < st.n && WorkerAt(st, t).Asleep? {
        woken := t;
        st' := ToC(ToW(st, t, Awake), c, Done);
      } else {
        st' := ToC(st, c, Done);
      }
    case Done => st' := ToC(st, c, Outside).(mutex := None);
  }

  /** Whoever holds the mutex can go on. */
  lemma HolderMoves(st: State) returns (st': State, l: Label)
    requires Safe(st) && st.mutex.Some?
    ensures Step(st, st', l) && !l.Spurious? && !l.SpuriousO? && (l.C? ==> ClientAt(st, l.c) != Outside)
    ensures l.O? ==> !st.owner.Alive?
  {
    assert MutexOk(st) && QueueOk(st);
    hide StepWorker, StepClient, PlaceOk, WorkOk, WakeOk;
    match st.mutex.value
    case Worker(t) =>
      assert WorkerHolds(WorkerAt(st, t)) && Knows(st, t);
      hide MutexOk, KnownOk, StopOk;
      st' := WorkerMoves(st, t);
      l := W(t);
    case Client(c) =>
      var woken;
      st', woken := ClientMoves(st, c, true);
      l := C(c, true, woken);
    case Destructor =>
      st' := if st.owner.Locked? then st.(owner := Notified, workers := WakeAll(st.workers))
             else st.(owner := if st.live == {} then Returned else Waiting, mutex := None);
      l := O;
  }

  /** The pool never gets stuck: while a task waits or a call of `submit_task` is going on, somebody can move
      without a spurious wakeup and without a new call. */
  lemma NoDeadlock(n: nat, limit: nat, st: State, c: nat) returns (st': State, l: Label)
    requires n >= 1 && Reachable(n, limit, st) && (st.queue != [] || ClientAt(st, c) != Outside)
    ensures Step(st, st', l) && !l.Spurious? && !l.SpuriousO? && (l.C? ==> ClientAt(st, l.c) != Outside)
  {
    hide Reachable;
    ReachableSafe(n, limit, st);
    hide StepWorker, StepClient, StepOwner;
    if st.mutex.Some? {
      st', l := HolderMoves(st);
    } else if ClientAt(st, c) != Outside {
      var woken;
      st', woken := ClientMoves(st, c, true);
      l := C(c, true, woken);
    } else {
      NoLostWakeup(n, limit, st);
      var t: Tid :| t in st.live && !WorkerAt(st, t).Asleep?;
      FreeWorker(st, t);
      hide Safe;
      st' := WorkerMoves(st, t);
      l := W(t);
    }
  }

  lemma FreeWorker(st: State, t: Tid)
    requires Safe(st) && st.mutex == None && t in st.live
    ensures t < st.n && !WorkerAt(st, t).Gone? && !WorkerHolds(WorkerAt(st, t))
  {
    assert Knows(st, t);
  }

  /** The destructor cannot hang: once it has stopped the pool, a worker or the destructor itself can move until
      it returns. */
  lemma ShutdownMoves(n: nat, limit: nat, st: State) returns (st': State, l: Label)
    requires Reachable(n, limit, st) && !st.owner.Alive? && !st.owner.Returned?
    ensures Step(st, st', l) && (l.W? || l.O?)
  {
    hide Reachable;
    ReachableSafe(n, limit, st);
    hide StepWorker, StepClient, StepOwner;
    if st.mutex.Some? {
      NoClients(st);
      st', l := HolderMoves(st);
    } else {
      st', l := FreeShutdown(st);
    }
  }

  lemma NoClients(st: State)
    requires Safe(st) && !st.owner.Alive?
    ensures forall c: nat :: ClientAt(st, c) == Outside
  {
  }

  lemma FreeShutdown(st: State) returns (st': State, l: Label)
    requires Safe(st) && st.mutex == None && !st.owner.Alive? && !st.owner.Returned?
    ensures Step(st, st', l) && (l.W? || l.O?)
  {
    hide StepWorker, WorkOk, QueueOk, PlaceOk, WakeOk;
    match st.owner
    case Stopped => st', l := st.(owner := Locked, mutex := Some(Destructor)), O;
    case Woken => st', l := st.(owner := Notified, mutex := Some(Destructor)), O;
    case Waiting =>
      var t: Tid :| t in st.live;
      FreeWorker(st, t);
      assert !WorkerAt(st, t).Asleep?;
      hide Safe, MutexOk, KnownOk, StopOk;
      st' := WorkerMoves(st, t);
      l := W(t);
  }

  /** How far a worker is from its end, once the pool is stopped. */
  function WorkerRank(pc: WorkerPc): nat {
    match pc
    case Gone => 0
    case Erased => 1
    case Leaving => 5
    case Checking => 6
    case Getting => 6
    case Testing => 7
    case Ready => 8
    case Awake => 8
    case Asleep => 9
    case Running(_) => 9
    case Sleeping => 10
    case Got(_) => 10
  }

  function OwnerRank(pc: OwnerPc): nat {
    match pc
    case Returned => 0
    case Waiting => 1
    case Notified => 2
    case Woken => 3
    case Locked => 3
    case Stopped => 4
    case Alive => 5
  }

  function WorkersRank(st: State, n: nat): nat {
    if n == 0 then 0 else WorkersRank(st, n - 1) + WorkerRank(WorkerAt(st, n - 1))
  }

  function Rank(st: State): nat {
    5 * |st.queue| + WorkersRank(st, st.n) + OwnerRank(st.owner)
  }

  /** If no other worker's rank grows, the sum changes by at most what worker t's does. */
  lemma {:induction false} WorkersChange(st: State, st': State, n: nat, t: Tid)
    requires forall u: Tid :: u != t ==> WorkerRank(WorkerAt(st', u)) <= WorkerRank(WorkerAt(st, u))
    ensures WorkersRank(st', n) <= WorkersRank(st, n) + (if t < n then WorkerRank(WorkerAt(st', t)) - WorkerRank(WorkerAt(st, t)) else 0)
  {
    if n > 0 { WorkersChange(st, st', n - 1, t); }
  }

  lemma WorkerFalls(st: State, st': State, t: Tid)
    requires StepWorker(st, st', t) && !st.running
    ensures 5 * |st'.queue| + WorkerRank(WorkerAt(st', t)) + OwnerRank(st'.owner) < 5 * |st.queue| + WorkerRank(WorkerAt(st, t)) + OwnerRank(st.owner)
    ensures t < st.n
  {
  }

  lemma OwnerFalls(st: State, st': State)
    requires StepOwner(st, st') || StepOwnerSpurious(st, st')
    ensures StepOwner(st, st') ==> OwnerRank(st'.owner) < OwnerRank(st.owner)
    ensures OwnerRank(st'.owner) <= OwnerRank(st.owner) + 2 && !st'.owner.Alive?
  {
  }

  /** Once the pool is stopped every step lowers the rank, except a spurious wakeup of the destructor. */
  lemma RankFalls(st: State, st': State, l: Label)
    requires Safe(st) && !st.owner.Alive? && Step(st, st', l)
    ensures !st'.owner.Alive? && st'.n == st.n && (if l.SpuriousO? then Rank(st') <= Rank(st) + 2 else Rank(st') < Rank(st))
  {
    StoppedFacts(st);
    hide Safe, StepWorker, StepClient, StepOwner, StepSpurious, StepOwnerSpurious, OwnerRank, WorkerRank;
    match l
    case W(t) =>
      WorkerOthers(st, st', t);
      WorkerFalls(st, st', t);
      AwakeIsLess();
      WorkersChange(st, st', st.n, t);
      OwnerNotBack(st, st', t);
    case Spurious(t) => SpuriousFalls(st, st', t);
    case C(c, timeout, woken) => NoNewCall(st, st', c, timeout, woken);
    case O =>
      OwnerOthers(st, st');
      OwnerFalls(st, st');
      AwakeIsLess();
      WorkersChange(st, st', st.n, st.n);
    case SpuriousO =>
      OwnerOthers(st, st');
      OwnerFalls(st, st');
      AwakeIsLess();
      WorkersChange(st, st', st.n, st.n);
  }

  lemma AwakeIsLess()
    ensures WorkerRank(Awake) < WorkerRank(Asleep)
  {
  }

  lemma StoppedFacts(st: State)
    requires Safe(st) && !st.owner.Alive?
    ensures !st.running && forall c: nat :: ClientAt(st, c) == Outside
  {
  }

  lemma OwnerNotBack(st: State, st': State, t: Tid)
    requires StepWorker(st, st', t) && !st.owner.Alive?
    ensures !st'.owner.Alive?
  {
  }

  lemma SpuriousFalls(st: State, st': State, t: Tid)
    requires StepSpurious(st, st', t)
    ensures Rank(st') < Rank(st) && st'.owner == st.owner && st'.n == st.n
  {
    assert forall u: Tid :: u != t ==> WorkerAt(st', u) == WorkerAt(st, u);
    WorkersChange(st, st', st.n, t);
    hide WorkersRank, OwnerRank;
  }

  lemma NoNewCall(st: State, st': State, c: nat, timeout: bool, woken: Tid)
    requires ClientAt(st, c) == Outside && !st.owner.Alive?
    ensures !StepClient(st, st', c, timeout, woken)
  {
  }

  /** Spurious wakeups of the destructor among some steps. */
  function Spurious(labels: seq<Label>): nat {
    if labels == [] then 0 else (if labels[0].SpuriousO? then 1 else 0) + Spurious(labels[1..])
  }

  ghost predicate Steps(states: seq<State>, labels: seq<Label>) {
    && |states| == |labels| + 1
    && forall i :: 0 <= i < |labels| ==> Step(states[i], states[i + 1], labels[i])
  }

  lemma {:induction false} StepsLeft(states: seq<State>, labels: seq<Label>)
    requires Steps(states, labels) && Safe(states[0]) && !states[0].owner.Alive?
    ensures |labels| <= Rank(states[0]) + 3 * Spurious(labels)
    decreases |labels|
  {
    hide Safe, Step, Rank;
    if labels != [] {
      RankFalls(states[0], states[1], labels[0]);
      StepKeeps(states[0], states[1], labels[0]);
      StepsLeft(states[1..], labels[1..]);
    }
  }

  /** Once the destructor has stopped the pool only so many steps are left, whoever takes them, apart from its own
      spurious wakeups. As one is possible until it returns, it returns. */
  lemma ShutdownEnds(n: nat, limit: nat, states: seq<State>, labels: seq<Label>)
    requires Steps(states, labels) && Reachable(n, limit, states[0]) && !states[0].owner.Alive?
    ensures |labels| <= Rank(states[0]) + 3 * Spurious(labels)
  {
    hide Reachable, Safe, Rank, Spurious;
    ReachableSafe(n, limit, states[0]);
    StepsLeft(states, labels);
  }

  // ----- what the destructor waits for ---------------------------------------------------

  /** When the destructor returns, every task that was ever accepted has finished, and all workers have left. */
  lemma DestructorWaits(n: nat, limit: nat, st: State)
    requires n >= 1 && Reachable(n, limit, st) && st.owner.Returned?
    ensures st.queue == [] && st.live == {} && st.taken == st.accepted
    ensures forall k: Task :: k in st.finished <==> k < st.accepted
  {
    hide Reachable;
    ReachableSafe(n, limit, st);
    assert Knows(st, 0);
    forall t: Tid, k: Task
      ensures !InHand(WorkerAt(st, t), k)
    {
      assert Knows(st, t);
    }
    hide MutexOk, PlaceOk, KnownOk, WakeOk;
  }

  lemma Extend(n: nat, limit: nat, st: State, l: Label, st': State)
    requires Reachable(n, limit, st) && Step(st, st', l)
    ensures Reachable(n, limit, st')
  {
    hide Step;
    var states: seq<State>, labels: seq<Label> :| EndsIn(n, limit, states, labels, st);
    assert EndsIn(n, limit, states + [st'], labels + [l], st');
  }

  /** A client submits a task to a pool without workers. */
  lemma SubmitToNobody(limit: nat) returns (st: State)
    requires limit >= 1
    ensures Reachable(0, limit, st) && st.n == 0 && st.owner == Alive && st.mutex == None && st.live == {}
    ensures st.queue == [0] && st.accepted == 1 && st.finished == {} && forall c: nat :: ClientAt(st, c) == Outside
  {
    hide Reachable;
    var s0 := Init(0, limit);
    assert Reachable(0, limit, s0) by { InitReachable(0, limit); }
    var s1 := ToC(s0, 0, Calling);
    Extend(0, limit, s0, C(0, true, 0), s1);
    var s2 := ToC(s1, 0, Asking).(mutex := Some(Client(0)));
    Extend(0, limit, s1, C(0, true, 0), s2);
    var s3 := ToC(s2, 0, Pushing);
    Extend(0, limit, s2, C(0, true, 0), s3);
    var s4 := ToC(s3, 0, Notifying).(queue := [0], size := 1, accepted := 1);
    Extend(0, limit, s3, C(0, true, 0), s4);
    var s5 := ToC(s4, 0, Done);
    Extend(0, limit, s4, C(0, true, 0), s5);
    st := ToC(s5, 0, Outside).(mutex := None);
    Extend(0, limit, s5, C(0, true, 0), st);
  }

  lemma InitReachable(n: nat, limit: nat)
    ensures Reachable(n, limit, Init(n, limit))
  {
    assert EndsIn(n, limit, [Init(n, limit)], [], Init(n, limit));
  }

  /** With an initial size of 0, which the constructor allows, the destructor returns at once and leaves accepted
      tasks undone. */
  lemma NoWorkersNoWork(limit: nat) returns (st: State)
    requires limit >= 1
    ensures Reachable(0, limit, st) && st.owner.Returned? && st.accepted == 1 && st.finished == {} && st.queue == [0]
  {
    hide Reachable;
    var s0 := SubmitToNobody(limit);
    var s1 := s0.(running := false, owner := Stopped);
    Extend(0, limit, s0, O, s1);
    var s2 := s1.(owner := Locked, mutex := Some(Destructor));
    Extend(0, limit, s1, O, s2);
    var s3 := s2.(owner := Notified, workers := WakeAll(s2.workers));
    Extend(0, limit, s2, O, s3);
    st := s3.(owner := Returned, mutex := None);
    Extend(0, limit, s3, O, st);
  }
}
