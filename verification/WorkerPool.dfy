/** The fixed-mode thread pool (`thread_pool/src/thread_pool.cpp`, `include/thread_pool.h`) as a
    transition system: workers, clients that submit tasks, and the thread that destroys the pool. One step
    is one action under the mutex, one change of its owner, or one access outside of it. */
module WorkerPool {
  import opened Common

  type Tid = nat
  type Task = nat // tasks are numbered in the order in which they are accepted

  datatype Who = Worker(t: Tid) | Client(c: nat) | Destructor

  /** Where a worker is in `m_fixed_func`. */
  datatype WorkerPc =
    | Ready                  // about to lock the mutex
    | Testing                // about to test the task count
    | Checking               // count was 0, about to test m_running_
    | Sleeping               // about to wait on m_cond_not_empty_ (mutex still held)
    | Asleep                 // waiting
    | Awake                  // notified, about to lock again
    | Leaving                // about to erase itself
    | Erased                 // about to unlock for good
    | Getting                // count was not 0
    | Got(k: Task)           // task in hand, about to unlock
    | Running(k: Task)
    | Gone

  /** Where a client is in `submit_task`. */
  datatype ClientPc = Outside | Calling | Asking | Full | Pushing | Notifying | Done

  datatype OwnerPc = Alive | Stopped | Locked | Notified | Waiting | Woken | Returned

  datatype State = State(
    n: nat,                        // init_thread_size
    limit: nat,                    // m_thresh_hold_task_size_
    queue: seq<Task>, size: nat,   // m_task_que_, m_task_size_
    running: bool,
    mutex: Option<Who>,            // owner of m_task_mtx_
    live: set<Tid>,                // keys of m_threads_
    workers: map<Tid, WorkerPc>, clients: map<nat, ClientPc>, owner: OwnerPc,
    accepted: nat, taken: nat, finished: set<Task>) // history

  function WorkerAt(st: State, t: Tid): WorkerPc { if t in st.workers then st.workers[t] else Ready }
  function ClientAt(st: State, c: nat): ClientPc { if c in st.clients then st.clients[c] else Outside }

  predicate IsWorker(t: Tid, n: nat) { t < n }

  function Everyone(n: nat): set<Tid> { set t: Tid | 0 <= t < n && IsWorker(t, n) }

  /** After `start`. */
  function Init(n: nat, limit: nat): State {
    State(n, limit, [], 0, true, None, Everyone(n), map[], map[], Alive, 0, 0, {})
  }

  function ToW(st: State, t: Tid, pc: WorkerPc): State { st.(workers := st.workers[t := pc]) }
  function ToC(st: State, c: nat, pc: ClientPc): State { st.(clients := st.clients[c := pc]) }

  /** `m_cond_not_empty_.notify_all()`. */
  function WakeAll(workers: map<Tid, WorkerPc>): map<Tid, WorkerPc> {
    map t | t in workers :: if workers[t].Asleep? then Awake else workers[t]
  }

  // ----- workers --------------------------------------------------------------------

  ghost predicate StepWorker(st: State, st': State, t: Tid) {
    t < st.n &&
    match WorkerAt(st, t)
    case Ready => st.mutex == None && st' == ToW(st, t, Testing).(mutex := Some(Worker(t)))
    case Testing => st' == ToW(st, t, if st.size == 0 then Checking else Getting)
    case Checking => st' == ToW(st, t, if st.running then Sleeping else Leaving)
    case Sleeping => st' == ToW(st, t, Asleep).(mutex := None)
    case Asleep => false
    case Awake => st.mutex == None && st' == ToW(st, t, Testing).(mutex := Some(Worker(t)))
    case Leaving =>
      st' == ToW(st, t, Erased).(live := st.live - {t},
                                 owner := if st.live - {t} == {} && st.owner.Waiting? then Woken else st.owner)
    case Erased => st' == ToW(st, t, Gone).(mutex := None)
    case Getting =>
      && st.queue != [] && st.size >= 1
      && st' == st.(queue := st.queue[1..], size := st.size - 1, taken := st.taken + 1,
                    workers := (if st.size != 0 then WakeAll(st.workers) else st.workers)[t := Got(st.queue[0])])
    case Got(k) => st' == ToW(st, t, Running(k)).(mutex := None)
    case Running(k) => st' == ToW(st, t, Ready).(finished := st.finished + {k})
    case Gone => false
  }

  /** A waiting worker may wake up without being notified. */
  ghost predicate StepSpurious(st: State, st': State, t: Tid) {
    t < st.n && WorkerAt(st, t).Asleep? && st' == ToW(st, t, Awake)
  }

  // ----- clients --------------------------------------------------------------------

  /** `timeout`: the one-second wait for a free place has run out. `woken` is the worker that `notify_one`
      picks, if one is asleep. */
  ghost predicate StepClient(st: State, st': State, c: nat, timeout: bool, woken: Tid) {
    match ClientAt(st, c)
    case Outside => st.owner == Alive && st' == ToC(st, c, Calling)
    case Calling => st.mutex == None && st' == ToC(st, c, Asking).(mutex := Some(Client(c)))
    case Asking =>
      st' == if st.size < st.limit then ToC(st, c, Pushing)
             else if timeout then ToC(st, c, Outside).(mutex := None) // rejected
             else ToC(st, c, Full).(mutex := None)
    case Full => st.mutex == None && st' == ToC(st, c, Asking).(mutex := Some(Client(c)))
    case Pushing =>
      st' == ToC(st, c, Notifying).(queue := st.queue + [st.accepted], size := st.size + 1, accepted := st.accepted + 1)
    case Notifying =>
      if exists t: Tid :: t < st.n && WorkerAt(st, t).Asleep?
      then woken < st.n && WorkerAt(st, woken).Asleep? && st' == ToC(ToW(st, woken, Awake), c, Done)
      else st' == ToC(st, c, Done)
    case Done => st' == ToC(st, c, Outside).(mutex := None)
  }

  // ----- destruction ----------------------------------------------------------------

  /** `~HncThreadPool`. `m_running_` is cleared without the mutex. Destroying the pool during a call of
      `submit_task` is not allowed. */
  ghost predicate StepOwner(st: State, st': State) {
    match st.owner
    case Alive => (forall c :: ClientAt(st, c) == Outside) && st' == st.(running := false, owner := Stopped)
    case Stopped => st.mutex == None && st' == st.(owner := Locked, mutex := Some(Destructor))
    case Locked => st' == st.(owner := Notified, workers := WakeAll(st.workers))
    case Notified =>
      st' == st.(owner := if st.live == {} then Returned else Waiting, mutex := None)
    case Waiting => false
    case Woken => st.mutex == None && st' == st.(owner := Notified, mutex := Some(Destructor))
    case Returned => false
  }

  ghost predicate StepOwnerSpurious(st: State, st': State) {
    st.owner.Waiting? && st' == st.(owner := Woken)
  }

  datatype Label = W(t: Tid) | Spurious(t: Tid) | C(c: nat, timeout: bool, woken: Tid) | O | SpuriousO

  ghost predicate Step(st: State, st': State, l: Label) {
    match l
    case W(t) => StepWorker(st, st', t)
    case Spurious(t) => StepSpurious(st, st', t)
    case C(c, timeout, woken) => StepClient(st, st', c, timeout, woken)
    case O => StepOwner(st, st')
    case SpuriousO => StepOwnerSpurious(st, st')
  }

  ghost predicate Run(n: nat, limit: nat, states: seq<State>, labels: seq<Label>) {
    && |states| == |labels| + 1 && states[0] == Init(n, limit)
    && forall i :: 0 <= i < |labels| ==> Step(states[i], states[i + 1], labels[i])
  }

  // ----- the invariant ----------------------------------------------------------------

  predicate WorkerHolds(pc: WorkerPc) {
    pc.Testing? || pc.Checking? || pc.Sleeping? || pc.Leaving? || pc.Erased? || pc.Getting? || pc.Got?
  }

  predicate ClientHolds(pc: ClientPc) { pc.Asking? || pc.Pushing? || pc.Notifying? || pc.Done? }

  predicate OwnerHolds(pc: OwnerPc) { pc.Locked? || pc.Notified? }

  /** The mutex belongs to whoever is in a section. */
  ghost predicate MutexOk(st: State) {
    && (forall t: Tid :: WorkerHolds(WorkerAt(st, t)) <==> st.mutex == Some(Worker(t)))
    && (forall c: nat :: ClientHolds(ClientAt(st, c)) <==> st.mutex == Some(Client(c)))
    && (OwnerHolds(st.owner) <==> st.mutex == Some(Destructor))
    && (forall t: Tid :: t >= st.n ==> WorkerAt(st, t) == Ready)
  }

  /** The queue has the accepted tasks that are not taken, in order, and never more than the limit. */
  ghost predicate QueueOk(st: State) {
    && st.size == |st.queue| && |st.queue| == st.accepted - st.taken && |st.queue| <= st.limit
    && (forall i :: 0 <= i < |st.queue| ==> st.queue[i] == st.taken + i)
  }

  /** A client that is about to push has found a free place. */
  ghost predicate PlaceOk(st: State) {
    forall c: nat :: ClientAt(st, c).Pushing? ==> st.size < st.limit
  }

  predicate InHand(pc: WorkerPc, k: Task) { pc == Got(k) || pc == Running(k) }

  /** A task that was taken is finished, or in the hands of exactly one worker. */
  ghost predicate WorkOk(st: State) {
    && (forall k: Task :: k in st.finished ==> k < st.taken)
    && (forall t: Tid, k: Task {:trigger InHand(WorkerAt(st, t), k)} :: InHand(WorkerAt(st, t), k) ==> k < st.taken && k !in st.finished)
    && (forall t: Tid, u: Tid, k: Task {:trigger InHand(WorkerAt(st, t), k), InHand(WorkerAt(st, u), k)} ::
          InHand(WorkerAt(st, t), k) && InHand(WorkerAt(st, u), k) ==> t == u)
    && (forall k: Task :: k < st.taken && k !in st.finished ==> exists t: Tid :: InHand(WorkerAt(st, t), k))
  }

  /** Where a worker knows the queue to be empty, or not to be. */
  ghost predicate Knows(st: State, t: Tid) {
    && (WorkerAt(st, t).Checking? || WorkerAt(st, t).Sleeping? || WorkerAt(st, t).Leaving? || WorkerAt(st, t).Erased? ==> st.queue == [])
    && (WorkerAt(st, t).Getting? ==> st.queue != [])
    && (WorkerAt(st, t).Leaving? || WorkerAt(st, t).Erased? || WorkerAt(st, t).Gone? ==> !st.running && st.queue == [])
    && (t in st.live <==> t < st.n && !WorkerAt(st, t).Erased? && !WorkerAt(st, t).Gone?)
  }

  ghost predicate KnownOk(st: State) {
    forall t: Tid :: Knows(st, t)
  }

  predicate Notifier(st: State) { st.mutex.Some? && st.mutex.value.Client? && ClientAt(st, st.mutex.value.c).Notifying? }

  /** No lost wakeup, if there is a worker at all. */
  ghost predicate WakeOk(st: State) {
    st.n >= 1 && st.queue != [] && !Notifier(st) ==> exists t: Tid :: t in st.live && !WorkerAt(st, t).Asleep?
  }

  predicate HasNotified(pc: OwnerPc) { pc.Notified? || pc.Waiting? || pc.Woken? || pc.Returned? }

  /** Shutting down: no client is left, and after the destructor's notification nobody falls asleep again. */
  ghost predicate StopOk(st: State) {
    && (st.running <==> st.owner.Alive?)
    && (!st.running ==> forall c: nat :: ClientAt(st, c) == Outside)
    && (HasNotified(st.owner) ==> forall t: Tid :: !WorkerAt(st, t).Asleep? && !WorkerAt(st, t).Sleeping?)
    && (st.owner.Waiting? ==> st.live != {})
    && (st.owner.Returned? ==> st.live == {})
  }

  ghost predicate Safe(st: State) {
    MutexOk(st) && QueueOk(st) && PlaceOk(st) && WorkOk(st) && KnownOk(st) && WakeOk(st) && StopOk(st)
  }
}
