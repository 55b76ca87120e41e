/** What the steps of submitting and working achieve in every safe state, and that the workers drain the queue. */
module WorkerPoolCalls {
  import opened Common
  import opened WorkerPool
  import opened WorkerPoolSafety
  import opened WorkerPoolTheorems

  // ----- submitting ------------------------------------------------------------------------

  /** A client that holds the mutex goes on to push exactly if there is a place, whether or not its wait has run out;
      without a place it is rejected exactly if the wait has run out. */
  lemma SubmitDecides(st: State, st': State, c: nat, timeout: bool, woken: Tid)
    requires Safe(st) && StepClient(st, st', c, timeout, woken) && ClientAt(st, c).Asking?
    ensures ClientAt(st', c).Pushing? <==> |st.queue| < st.limit
    ensures |st.queue| < st.limit ==> st' == st.(clients := st'.clients)
    ensures |st.queue| >= st.limit ==> st' == st.(clients := st'.clients, mutex := None)
    ensures |st.queue| >= st.limit ==> ClientAt(st', c) == if timeout then Outside else Full
    ensures forall d: nat :: d != c ==> ClientAt(st', d) == ClientAt(st, d)
  {
    hide MutexOk, PlaceOk, WorkOk, KnownOk, WakeOk, StopOk;
  }

  /** A push appends the task that is accepted next and keeps the limit. */
  lemma PushAppends(st: State, st': State, c: nat, timeout: bool, woken: Tid)
    requires Safe(st) && StepClient(st, st', c, timeout, woken) && ClientAt(st, c).Pushing?
    ensures st'.queue == st.queue + [st.accepted] && st'.accepted == st.accepted + 1 && |st'.queue| <= st.limit
    ensures st'.taken == st.taken && st'.finished == st.finished && ClientAt(st', c).Notifying?
  {
    hide MutexOk, WorkOk, KnownOk, WakeOk, StopOk;
  }

  /** Then one sleeping worker is woken, if there is one, and no other. */
  lemma NotifyWakesOne(st: State, st': State, c: nat, timeout: bool, woken: Tid)
    requires Safe(st) && StepClient(st, st', c, timeout, woken) && ClientAt(st, c).Notifying?
    ensures (exists t: Tid :: WorkerAt(st, t).Asleep?) ==>
              WorkerAt(st, woken).Asleep? && WorkerAt(st', woken).Awake? && forall u: Tid :: u != woken ==> WorkerAt(st', u) == WorkerAt(st, u)
    ensures (forall t: Tid :: !WorkerAt(st, t).Asleep?) ==> st'.workers == st.workers
    ensures ClientAt(st', c).Done? && st' == st.(workers := st'.workers, clients := st'.clients)
  {
    assert MutexOk(st);
    hide QueueOk, PlaceOk, WorkOk, KnownOk, WakeOk, StopOk;
    forall t: Tid | WorkerAt(st, t).Asleep?
      ensures t < st.n
    {
    }
  }

  // ----- working ---------------------------------------------------------------------------

  /** A worker with the mutex takes a task exactly if one waits; otherwise it sleeps exactly if the pool is running,
      and leaves if it is not. */
  lemma WorkerDecides(st: State, st': State, t: Tid)
    requires Safe(st) && StepWorker(st, st', t)
    ensures WorkerAt(st, t).Testing? ==> (WorkerAt(st', t).Getting? <==> st.queue != []) && (WorkerAt(st', t).Checking? <==> st.queue == [])
    ensures WorkerAt(st, t).Checking? ==> (WorkerAt(st', t).Sleeping? <==> st.owner.Alive?) && (WorkerAt(st', t).Leaving? <==> !st.owner.Alive?)
    ensures WorkerAt(st, t).Testing? || WorkerAt(st, t).Checking? ==> st' == st.(workers := st'.workers)
  {
    hide MutexOk, PlaceOk, WorkOk, KnownOk, WakeOk;
  }

  /** Only a worker that gets a task changes the queue: it has the oldest one, and wakes everybody. */
  lemma GettingTakes(st: State, st': State, t: Tid)
    requires Safe(st) && StepWorker(st, st', t)
    ensures if WorkerAt(st, t).Getting?
            then st.queue != [] && WorkerAt(st', t) == Got(st.queue[0]) && st'.queue == st.queue[1..] && st.queue[0] == st.taken
                   && st'.taken == st.taken + 1 && forall u: Tid :: !WorkerAt(st', u).Asleep?
            else st'.queue == st.queue && st'.taken == st.taken
    ensures st'.accepted == st.accepted
  {
    assert Knows(st, t) && QueueOk(st);
    hide MutexOk, PlaceOk, WorkOk, KnownOk, WakeOk, StopOk;
  }

  /** A task is finished by the step in which its worker has run it, and by no other. */
  lemma RunningFinishes(st: State, st': State, l: Label)
    requires Safe(st) && Step(st, st', l)
    ensures st'.finished == if l.W? && WorkerAt(st, l.t).Running? then st.finished + {WorkerAt(st, l.t).k} else st.finished
    ensures l.W? && WorkerAt(st, l.t).Got? ==> WorkerAt(st', l.t) == Running(WorkerAt(st, l.t).k)
  {
    hide Safe, StepWorker, StepClient, StepOwner;
    match l
    case W(t) => WorkerFinishes(st, st', t);
    case C(c, timeout, woken) => ClientFinishesNone(st, st', c, timeout, woken);
    case O => OwnerFinishesNone(st, st');
    case _ =>
  }

  lemma WorkerFinishes(st: State, st': State, t: Tid)
    requires StepWorker(st, st', t)
    ensures st'.finished == if WorkerAt(st, t).Running? then st.finished + {WorkerAt(st, t).k} else st.finished
    ensures WorkerAt(st, t).Got? ==> WorkerAt(st', t) == Running(WorkerAt(st, t).k)
  {
    hide WakeAll;
  }

  lemma ClientFinishesNone(st: State, st': State, c: nat, timeout: bool, woken: Tid)
    requires StepClient(st, st', c, timeout, woken)
    ensures st'.finished == st.finished
  {
  }

  lemma OwnerFinishesNone(st: State, st': State)
    requires StepOwner(st, st')
    ensures st'.finished == st.finished
  {
    hide WakeAll;
  }

  // ----- the workers drain the queue ---------------------------------------------------------

  /** How many steps a worker can take before it sleeps or has left, apart from tasks it takes. */
  function RestRank(pc: WorkerPc): nat {
    match pc
    case Gone => 0
    case Asleep => 0
    case Erased => 1
    case Sleeping => 1
    case Leaving => 2
    case Checking => 3
    case Getting => 3
    case Testing => 4
    case Ready => 5
    case Awake => 5
    case Running(_) => 6
    case Got(_) => 7
  }

  function RestSum(st: State, n: nat): nat {
    if n == 0 then 0 else RestSum(st, n - 1) + RestRank(WorkerAt(st, n - 1))
  }

  function DrainRank(st: State): nat { (5 * st.n + 1) * |st.queue| + RestSum(st, st.n) }

  /** If the rank of every worker but t grows by at most `more`, the sum does so by at most that for each. */
  lemma {:induction false} RestChange(st: State, st': State, n: nat, t: Tid, more: nat)
    requires forall u: Tid :: u != t ==> RestRank(WorkerAt(st', u)) <= RestRank(WorkerAt(st, u)) + more
    ensures RestSum(st', n) <= RestSum(st, n) + more * n + (if t < n then RestRank(WorkerAt(st', t)) - RestRank(WorkerAt(st, t)) - more else 0)
  {
    if n > 0 {
      RestChange(st, st', n - 1, t, more);
      assert more * n == more * (n - 1) + more;
    }
  }

  lemma OthersRest(st: State, st': State, t: Tid)
    requires StepWorker(st, st', t)
    ensures t < st.n && st'.n == st.n
    ensures WorkerAt(st, t).Getting? ==> forall u: Tid :: u != t ==> RestRank(WorkerAt(st', u)) <= RestRank(WorkerAt(st, u)) + 5
    ensures !WorkerAt(st, t).Getting? ==> forall u: Tid :: u != t ==> WorkerAt(st', u) == WorkerAt(st, u)
    ensures !WorkerAt(st, t).Getting? ==> st'.queue == st.queue && RestRank(WorkerAt(st', t)) < RestRank(WorkerAt(st, t))
    ensures WorkerAt(st, t).Getting? ==> |st'.queue| == |st.queue| - 1 && RestRank(WorkerAt(st', t)) == RestRank(WorkerAt(st, t)) + 4
  {
  }

  lemma DrainFalls(st: State, st': State, t: Tid)
    requires StepWorker(st, st', t)
    ensures DrainRank(st') < DrainRank(st)
  {
    OthersRest(st, st', t);
    hide StepWorker, RestRank, WorkerAt;
    if WorkerAt(st, t).Getting? {
      RestChange(st, st', st.n, t, 5);
      OneTaskLess(5 * st.n + 1, |st.queue|);
    } else {
      RestChange(st, st', st.n, t, 0);
    }
  }

  lemma OneTaskLess(w: nat, n: nat)
    requires n >= 1
    ensures w * (n - 1) == w * n - w
  {
  }

  /** While only workers move, they take no more steps than the rank says. */
  lemma {:induction false} WorkersRest(states: seq<State>, labels: seq<Label>)
    requires Steps(states, labels) && forall i :: 0 <= i < |labels| ==> labels[i].W?
    ensures |labels| + DrainRank(states[|labels|]) <= DrainRank(states[0])
    decreases |labels|
  {
    hide StepWorker, DrainRank;
    if labels != [] {
      DrainFalls(states[0], states[1], labels[0].t);
      WorkersRest(states[1..], labels[1..]);
    }
  }

  /** And when no worker can move any more, no client being inside a call, every accepted task has finished. */
  lemma RestMeansDone(n: nat, limit: nat, st: State)
    requires n >= 1 && Reachable(n, limit, st) && st.owner.Alive? && forall c: nat :: ClientAt(st, c) == Outside
    requires forall t: Tid, st': State :: !StepWorker(st, st', t)
    ensures st.queue == [] && forall k: Task :: k in st.finished <==> k < st.accepted
  {
    hide Reachable, StepWorker;
    ReachableSafe(n, limit, st);
    NobodyHolds(st);
    forall t: Tid | t < st.n
      ensures WorkerAt(st, t).Asleep? || WorkerAt(st, t).Gone?
    {
      if !WorkerAt(st, t).Asleep? && !WorkerAt(st, t).Gone? {
        HoldsNot(st, t);
        var st' := WorkerMoves(st, t);
      }
    }
    if st.queue != [] {
      NoLostWakeup(n, limit, st);
      var t: Tid :| t in st.live && !WorkerAt(st, t).Asleep?;
      FreeWorker(st, t);
    }
    AllFinished(st);
  }

  lemma HoldsNot(st: State, t: Tid)
    requires Safe(st) && st.mutex == None
    ensures !WorkerHolds(WorkerAt(st, t))
  {
  }

  lemma NobodyHolds(st: State)
    requires Safe(st) && st.owner.Alive? && (forall c: nat :: ClientAt(st, c) == Outside) && forall t: Tid, st': State :: !StepWorker(st, st', t)
    ensures st.mutex == None
  {
    if st.mutex.Some? {
      assert MutexOk(st);
      match st.mutex.value
      case Worker(t) =>
        HolderGetting(st, t);
        hide StepWorker, Safe, MutexOk;
        var st' := WorkerMoves(st, t);
      case Client(c) => assert false;
      case Destructor => assert false;
    }
  }

  lemma HolderGetting(st: State, t: Tid)
    requires Safe(st) && st.mutex == Some(Worker(t))
    ensures t < st.n && WorkerHolds(WorkerAt(st, t)) && (WorkerAt(st, t).Getting? ==> st.queue != [] && st.size >= 1)
  {
    assert Knows(st, t);
  }

  lemma AllFinished(st: State)
    requires Safe(st) && st.queue == [] && forall t: Tid :: t < st.n ==> WorkerAt(st, t).Asleep? || WorkerAt(st, t).Gone?
    ensures forall k: Task :: k in st.finished <==> k < st.accepted
  {
    assert MutexOk(st);
    forall t: Tid, k: Task
      ensures !InHand(WorkerAt(st, t), k)
    {
      assert t >= st.n ==> WorkerAt(st, t) == Ready;
    }
    hide MutexOk, PlaceOk, KnownOk, WakeOk, StopOk;
  }
}
