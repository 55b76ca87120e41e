/** The invariant of the fixed-mode thread pool is kept by every step. */
module WorkerPoolSafety {
  import opened Common
  import opened WorkerPool

  lemma InitSafe(n: nat, limit: nat)
    ensures Safe(Init(n, limit))
  {
    assert forall t: Tid :: t in Everyone(n) <==> IsWorker(t, n);
  }

  // ----- workers ----------------------------------------------------------------------

  /** What a worker's step does to the other workers: at most wake them. */
  lemma WorkerOthers(st: State, st': State, t: Tid)
    requires StepWorker(st, st', t)
    ensures st'.clients == st.clients && st'.n == st.n && st'.limit == st.limit && st'.running == st.running
    ensures forall u: Tid :: u != t ==>
              WorkerAt(st', u) == WorkerAt(st, u) || (WorkerAt(st, u).Asleep? && WorkerAt(st', u).Awake?)
  {
  }

  /** Entering and leaving sections. */
  lemma WorkerSection(st: State, st': State, t: Tid)
    requires MutexOk(st) && StepWorker(st, st', t)
    ensures WorkerHolds(WorkerAt(st', t)) <==> st'.mutex == Some(Worker(t))
    ensures st'.mutex == st.mutex || (st.mutex == None && st'.mutex == Some(Worker(t))) || (st.mutex == Some(Worker(t)) && st'.mutex == None)
    ensures OwnerHolds(st'.owner) <==> OwnerHolds(st.owner)
    ensures t < st.n
  {
  }

  lemma WorkerMutex(st: State, st': State, t: Tid)
    requires MutexOk(st) && StepWorker(st, st', t)
    ensures MutexOk(st')
  {
    WorkerOthers(st, st', t);
    WorkerSection(st, st', t);
    hide StepWorker;
    assert forall c: nat :: ClientAt(st', c) == ClientAt(st, c);
  }

  lemma WorkerQueue(st: State, st': State, t: Tid)
    requires QueueOk(st) && StepWorker(st, st', t)
    ensures QueueOk(st')
  {
  }

  lemma WorkerPlace(st: State, st': State, t: Tid)
    requires PlaceOk(st) && StepWorker(st, st', t)
    ensures PlaceOk(st')
  {
    assert st'.size <= st.size && st'.limit == st.limit && st'.clients == st.clients;
    assert forall c: nat :: ClientAt(st', c) == ClientAt(st, c);
  }

  lemma WorkSame(st: State, st': State)
    requires WorkOk(st) && st'.taken == st.taken && st'.finished == st.finished
    requires forall u: Tid, k: Task {:trigger InHand(WorkerAt(st, u), k)} {:trigger InHand(WorkerAt(st', u), k)} ::
               InHand(WorkerAt(st', u), k) <==> InHand(WorkerAt(st, u), k)
    ensures WorkOk(st')
  {
    hide InHand, WorkerAt;
    forall k: Task | k < st'.taken && k !in st'.finished
      ensures exists u: Tid :: InHand(WorkerAt(st', u), k)
    {
      var u: Tid :| InHand(WorkerAt(st, u), k);
      assert InHand(WorkerAt(st', u), k);
    }
  }

  lemma WorkTaken(st: State, st': State, t: Tid)
    requires WorkOk(st) && st'.taken == st.taken + 1 && st'.finished == st.finished
    requires forall u: Tid, k: Task {:trigger InHand(WorkerAt(st, u), k)} {:trigger InHand(WorkerAt(st', u), k)} ::
               InHand(WorkerAt(st', u), k) <==> InHand(WorkerAt(st, u), k) || (u == t && k == st.taken)
    ensures WorkOk(st')
  {
    hide InHand, WorkerAt;
    assert InHand(WorkerAt(st', t), st.taken);
    forall k: Task | k < st.taken && k !in st'.finished
      ensures exists u: Tid :: InHand(WorkerAt(st', u), k)
    {
      var u: Tid :| InHand(WorkerAt(st, u), k);
      assert InHand(WorkerAt(st', u), k);
    }
  }

  lemma WorkFinished(st: State, st': State, t: Tid, k0: Task)
    requires WorkOk(st) && st'.taken == st.taken && st'.finished == st.finished + {k0} && InHand(WorkerAt(st, t), k0)
    requires forall u: Tid, k: Task {:trigger InHand(WorkerAt(st, u), k)} {:trigger InHand(WorkerAt(st', u), k)} ::
               InHand(WorkerAt(st', u), k) <==> InHand(WorkerAt(st, u), k) && u != t
    requires forall k: Task :: InHand(WorkerAt(st, t), k) ==> k == k0
    ensures WorkOk(st')
  {
    hide InHand, WorkerAt;
    forall k: Task | k < st.taken && k !in st'.finished
      ensures exists u: Tid :: InHand(WorkerAt(st', u), k)
    {
      var u: Tid :| InHand(WorkerAt(st, u), k);
      assert InHand(WorkerAt(st', u), k);
    }
  }

  lemma WorkerWork(st: State, st': State, t: Tid)
    requires QueueOk(st) && WorkOk(st) && StepWorker(st, st', t)
    ensures WorkOk(st')
  {
    WorkerOthers(st, st', t);
    var pc := WorkerAt(st, t);
    hide QueueOk, WorkOk;
    if pc.Getting? {
      TaskIsNext(st);
      WorkTaken(st, st', t);
    } else if pc.Running? {
      WorkFinished(st, st', t, pc.k);
    } else {
      WorkSame(st, st');
    }
  }

  lemma TaskIsNext(st: State)
    requires QueueOk(st)
    ensures st.queue != [] ==> st.queue[0] == st.taken
  {
  }

  lemma KnowsSelf(st: State, st': State, t: Tid)
    requires QueueOk(st) && Knows(st, t) && StepWorker(st, st', t)
    ensures Knows(st', t)
  {
  }

  lemma KnowsOther(st: State, st': State, t: Tid, u: Tid)
    requires MutexOk(st) && Knows(st, u) && StepWorker(st, st', t) && u != t
    ensures Knows(st', u)
  {
    WorkerOthers(st, st', t);
    assert !WorkerHolds(WorkerAt(st, t)) || !WorkerHolds(WorkerAt(st, u));
    assert st'.queue == st.queue || (WorkerAt(st, t).Getting? && st.queue != []);
    assert u in st'.live <==> u in st.live;
    hide StepWorker, MutexOk;
  }

  lemma WorkerKnown(st: State, st': State, t: Tid)
    requires MutexOk(st) && QueueOk(st) && KnownOk(st) && StepWorker(st, st', t)
    ensures KnownOk(st')
  {
    hide MutexOk, QueueOk, Knows, StepWorker;
    forall u: Tid
      ensures Knows(st', u)
    {
      assert Knows(st, u);
      if u == t { KnowsSelf(st, st', t); } else { KnowsOther(st, st', t, u); }
    }
  }

  lemma WorkerWake(st: State, st': State, t: Tid)
    requires QueueOk(st) && KnownOk(st) && StepWorker(st, st', t)
    ensures WakeOk(st')
  {
    assert Knows(st, t);
    KnowsSelf(st, st', t);
  }

  lemma WorkerStop(st: State, st': State, t: Tid)
    requires MutexOk(st) && KnownOk(st) && StopOk(st) && StepWorker(st, st', t)
    ensures StopOk(st')
  {
    WorkerOthers(st, st', t);
    assert forall c: nat :: ClientAt(st', c) == ClientAt(st, c);
    assert HasNotified(st.owner) ==> !WorkerAt(st', t).Asleep? && !WorkerAt(st', t).Sleeping?;
  }

  lemma WorkerKeeps(st: State, st': State, t: Tid)
    requires Safe(st) && StepWorker(st, st', t)
    ensures Safe(st')
  {
    hide MutexOk, QueueOk, PlaceOk, WorkOk, KnownOk, WakeOk, StopOk, StepWorker;
    WorkerMutex(st, st', t);
    WorkerQueue(st, st', t);
    WorkerPlace(st, st', t);
    WorkerWork(st, st', t);
    WorkerKnown(st, st', t);
    WorkerWake(st, st', t);
    WorkerStop(st, st', t);
  }

  lemma SpuriousKeeps(st: State, st': State, t: Tid)
    requires Safe(st) && StepSpurious(st, st', t)
    ensures Safe(st')
  {
    assert forall u: Tid :: u != t ==> WorkerAt(st', u) == WorkerAt(st, u);
    assert forall c: nat :: ClientAt(st', c) == ClientAt(st, c);
    assert forall u: Tid :: Knows(st, u) ==> Knows(st', u);
    WorkSame(st, st');
    hide WorkOk, KnownOk, Knows;
    assert KnownOk(st') by { AllKnow(st'); }
  }

  lemma AllKnow(st: State)
    requires forall u: Tid :: Knows(st, u)
    ensures KnownOk(st)
  {
  }

  // ----- clients ----------------------------------------------------------------------

  /** What a client's step does to others: at most wake one worker. */
  lemma ClientOthers(st: State, st': State, c: nat, timeout: bool, woken: Tid)
    requires StepClient(st, st', c, timeout, woken)
    ensures st'.n == st.n && st'.limit == st.limit && st'.running == st.running && st'.live == st.live && st'.owner == st.owner
    ensures st'.taken == st.taken && st'.finished == st.finished
    ensures forall d: nat :: d != c ==> ClientAt(st', d) == ClientAt(st, d)
    ensures forall u: Tid :: WorkerAt(st', u) == WorkerAt(st, u) || (u < st.n && WorkerAt(st, u).Asleep? && WorkerAt(st', u).Awake?)
  {
    if ClientAt(st, c).Notifying? {
      NotifyOthers(st, st', c, timeout, woken);
    } else {
      assert st'.workers == st.workers;
      assert st'.clients == st.clients[c := ClientAt(st', c)];
    }
  }

  lemma NotifyOthers(st: State, st': State, c: nat, timeout: bool, woken: Tid)
    requires StepClient(st, st', c, timeout, woken) && ClientAt(st, c).Notifying?
    ensures st' == st.(workers := st'.workers, clients := st.clients[c := Done])
    ensures st'.workers == st.workers || (woken < st.n && WorkerAt(st, woken).Asleep? && st'.workers == st.workers[woken := Awake])
    ensures st'.workers == st.workers ==> forall t: Tid :: t < st.n ==> !WorkerAt(st, t).Asleep?
  {
  }

  lemma ClientSection(st: State, st': State, c: nat, timeout: bool, woken: Tid)
    requires MutexOk(st) && StepClient(st, st', c, timeout, woken)
    ensures ClientHolds(ClientAt(st', c)) <==> st'.mutex == Some(Client(c))
    ensures st'.mutex == st.mutex || (st.mutex == None && st'.mutex == Some(Client(c))) || (st.mutex == Some(Client(c)) && st'.mutex == None)
  {
  }

  lemma ClientMutex(st: State, st': State, c: nat, timeout: bool, woken: Tid)
    requires MutexOk(st) && StepClient(st, st', c, timeout, woken)
    ensures MutexOk(st')
  {
    ClientOthers(st, st', c, timeout, woken);
    ClientSection(st, st', c, timeout, woken);
    hide StepClient;
  }

  lemma ClientQueue(st: State, st': State, c: nat, timeout: bool, woken: Tid)
    requires QueueOk(st) && PlaceOk(st) && StepClient(st, st', c, timeout, woken)
    ensures QueueOk(st')
    ensures st'.size == st.size || ClientAt(st, c).Pushing?
    ensures ClientAt(st', c).Pushing? ==> st'.size < st'.limit
  {
  }

  lemma ClientPlace(st: State, st': State, c: nat, timeout: bool, woken: Tid)
    requires MutexOk(st) && QueueOk(st) && PlaceOk(st) && StepClient(st, st', c, timeout, woken)
    ensures PlaceOk(st')
  {
    ClientQueue(st, st', c, timeout, woken);
    ClientOthers(st, st', c, timeout, woken);
    hide StepClient, QueueOk;
    forall d: nat | ClientAt(st', d).Pushing?
      ensures st'.size < st'.limit
    {
      if d != c {
        assert ClientHolds(ClientAt(st, d)) && !ClientHolds(ClientAt(st, c));
      }
    }
  }

  lemma ClientWork(st: State, st': State, c: nat, timeout: bool, woken: Tid)
    requires WorkOk(st) && StepClient(st, st', c, timeout, woken)
    ensures WorkOk(st')
  {
    ClientOthers(st, st', c, timeout, woken);
    hide StepClient, WorkOk;
    WorkSame(st, st');
  }

  lemma ClientKnown(st: State, st': State, c: nat, timeout: bool, woken: Tid)
    requires MutexOk(st) && KnownOk(st) && StopOk(st) && StepClient(st, st', c, timeout, woken)
    ensures KnownOk(st')
  {
    ClientOthers(st, st', c, timeout, woken);
    assert st'.queue == st.queue || (ClientAt(st, c).Pushing? && st'.queue != []);
    assert ClientAt(st, c).Pushing? ==> st.running && st.mutex == Some(Client(c));
    hide StepClient, StopOk;
    forall u: Tid
      ensures Knows(st', u)
    {
      assert Knows(st, u);
    }
  }

  lemma NotifyWakes(st: State, st': State, c: nat, timeout: bool, woken: Tid)
    requires st.n >= 1 && KnownOk(st') && st'.running && StepClient(st, st', c, timeout, woken) && ClientAt(st, c).Notifying?
    ensures WakeOk(st')
  {
    NotifyOthers(st, st', c, timeout, woken);
    hide StepClient;
    assert Knows(st', woken) && Knows(st', 0);
    if st'.workers == st.workers {
      assert !WorkerAt(st, 0).Asleep?;
      assert 0 in st'.live && !WorkerAt(st', 0).Asleep?;
    } else {
      assert woken in st'.live && !WorkerAt(st', woken).Asleep?;
    }
  }

  lemma ClientWake(st: State, st': State, c: nat, timeout: bool, woken: Tid)
    requires MutexOk(st) && WakeOk(st) && StopOk(st) && StepClient(st, st', c, timeout, woken)
    requires KnownOk(st') && MutexOk(st')
    ensures WakeOk(st')
  {
    ClientOthers(st, st', c, timeout, woken);
    if ClientAt(st, c).Notifying? {
      if st.n >= 1 { NotifyWakes(st, st', c, timeout, woken); }
    } else if ClientAt(st, c).Pushing? {
      assert Notifier(st');
    } else {
      assert st'.queue == st.queue;
      assert Notifier(st) ==> Notifier(st') by { NotifierStays(st, st', c, timeout, woken); }
    }
  }

  lemma NotifierStays(st: State, st': State, c: nat, timeout: bool, woken: Tid)
    requires MutexOk(st) && StepClient(st, st', c, timeout, woken) && !ClientAt(st, c).Notifying?
    ensures Notifier(st) ==> Notifier(st')
  {
    ClientOthers(st, st', c, timeout, woken);
    ClientSection(st, st', c, timeout, woken);
    hide StepClient;
  }

  lemma ClientStop(st: State, st': State, c: nat, timeout: bool, woken: Tid)
    requires StopOk(st) && StepClient(st, st', c, timeout, woken)
    ensures StopOk(st')
  {
    ClientOthers(st, st', c, timeout, woken);
  }

  lemma ClientKeeps(st: State, st': State, c: nat, timeout: bool, woken: Tid)
    requires Safe(st) && StepClient(st, st', c, timeout, woken)
    ensures Safe(st')
  {
    hide MutexOk, QueueOk, PlaceOk, WorkOk, KnownOk, WakeOk, StopOk, StepClient;
    ClientMutex(st, st', c, timeout, woken);
    ClientQueue(st, st', c, timeout, woken);
    ClientPlace(st, st', c, timeout, woken);
    ClientWork(st, st', c, timeout, woken);
    ClientKnown(st, st', c, timeout, woken);
    ClientWake(st, st', c, timeout, woken);
    ClientStop(st, st', c, timeout, woken);
  }

  // ----- destruction ------------------------------------------------------------------

  lemma OwnerOthers(st: State, st': State)
    requires StepOwner(st, st') || StepOwnerSpurious(st, st')
    ensures st'.n == st.n && st'.limit == st.limit && st'.clients == st.clients && st'.live == st.live
    ensures st'.queue == st.queue && st'.size == st.size && st'.taken == st.taken && st'.accepted == st.accepted && st'.finished == st.finished
    ensures st'.running ==> st.running
    ensures forall u: Tid :: WorkerAt(st', u) == WorkerAt(st, u) || (WorkerAt(st, u).Asleep? && WorkerAt(st', u).Awake?)
  {
  }

  lemma OwnerMutex(st: State, st': State)
    requires MutexOk(st) && (StepOwner(st, st') || StepOwnerSpurious(st, st'))
    ensures MutexOk(st')
  {
    OwnerOthers(st, st');
    assert forall c: nat :: ClientAt(st', c) == ClientAt(st, c);
  }

  lemma OwnerStop(st: State, st': State)
    requires MutexOk(st) && KnownOk(st) && StopOk(st) && (StepOwner(st, st') || StepOwnerSpurious(st, st'))
    ensures StopOk(st')
  {
    OwnerOthers(st, st');
    assert forall c: nat :: ClientAt(st', c) == ClientAt(st, c);
    if st.owner.Locked? {
      assert forall u: Tid :: !WorkerHolds(WorkerAt(st, u));
      assert forall u: Tid :: WorkerAt(st', u) == (if WorkerAt(st, u).Asleep? then Awake else WorkerAt(st, u));
    }
  }

  lemma OwnerRest(st: State, st': State)
    requires MutexOk(st) && QueueOk(st) && PlaceOk(st) && WorkOk(st) && KnownOk(st) && WakeOk(st) && MutexOk(st')
    requires StepOwner(st, st') || StepOwnerSpurious(st, st')
    ensures QueueOk(st') && PlaceOk(st') && WorkOk(st') && KnownOk(st') && WakeOk(st')
  {
    OwnerOthers(st, st');
    assert forall c: nat :: ClientAt(st', c) == ClientAt(st, c);
    OwnerNotifier(st, st');
    hide StepOwner;
    WorkSame(st, st');
    hide WorkOk;
    assert forall u: Tid :: Knows(st, u) ==> Knows(st', u);
  }

  lemma OwnerNotifier(st: State, st': State)
    requires MutexOk(st) && (StepOwner(st, st') || StepOwnerSpurious(st, st'))
    ensures Notifier(st) ==> Notifier(st')
  {
    OwnerOthers(st, st');
  }

  lemma OwnerKeeps(st: State, st': State)
    requires Safe(st) && (StepOwner(st, st') || StepOwnerSpurious(st, st'))
    ensures Safe(st')
  {
    hide MutexOk, QueueOk, PlaceOk, WorkOk, KnownOk, WakeOk, StopOk, StepOwner, StepOwnerSpurious;
    OwnerMutex(st, st');
    OwnerStop(st, st');
    OwnerRest(st, st');
  }
}
