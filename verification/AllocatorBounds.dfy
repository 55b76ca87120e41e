/** Slow start over whole runs, and how many steps a call takes. */
module AllocatorBounds {
  import opened Common
  import opened SizeClasses
  import opened Allocator
  import opened AllocatorFree
  import opened AllocatorTheorems
  import opened AllocatorCalls
  import opened PageModel

  predicate Starts(l: Label) { l.MallocHit? || l.MallocMiss? || l.MallocBig? || l.Free? }

  /** How many more steps of its own thread t needs for its call, at most. */
  function CallRank(st: State, t: Tid): nat {
    var n := 3 * |On(st.blocks, Moving(t))|;
    match PcOf(st, t)
    case Idle => 0
    case Got(_, _) => 1
    case Taking(_, _, _, _) => 2
    case Carved(_, _, _, _, _) => 3
    case Carving(_, _, _, _) => 4
    case Fetch(_, _, _) => 5
    case Want(_, _, _) => 6
    case FreeBig(_) => 1
    case Returning(_) => n + 1
    case Return(_) => n + 2
    case GiveBack(_, _) => n + 3
    case FreeSmall(_, _) => MOST
    case Freeing(_) => MOST + 1
  }

  const MOST: nat := 3 * 513 + 3

  /** What the rank and the slow start of threads other than t depend on is unchanged. */
  ghost predicate Alone(st: State, st': State, t: Tid) {
    && (forall u: Tid :: u != t ==> PcOf(st', u) == PcOf(st, u) && On(st'.blocks, Moving(u)) == On(st.blocks, Moving(u)))
    && st'.apply == st.apply
  }

  ghost predicate Falls(st: State, st': State, t: Tid) {
    Alone(st, st', t) && CallRank(st', t) < CallRank(st, t)
  }

  lemma ScanFalls(st: State, st': State, t: Tid)
    requires Step(st, st', Scan(t))
    ensures Falls(st, st', t)
  {
    hide Usable;
    match PcOf(st, t)
    case Want(size, c, k) =>
      var i := ScanDecides(st, st', t, size, c, k);
      hide Step;
  }

  lemma TakeRunFalls(st: State, st': State, t: Tid)
    requires Reachable(st) && Step(st, st', TakeRun(t))
    ensures Falls(st, st', t)
  {
    hide Reachable, MoveFront;
    match PcOf(st, t)
    case Taking(size, c, k, p) =>
      var run := TakeRunTakes(st, st', t, size, c, k, p);
      hide Step;
  }

  lemma FetchFalls(st: State, st': State, t: Tid, os: Page)
    requires Reachable(st) && Step(st, st', FetchSpan(t, os))
    ensures Falls(st, st', t)
  {
    hide Reachable, Create, Mark, PageThreshold, HeadsOk, PoolOk, OsPages, OsAnswers, R.Gets;
    match PcOf(st, t)
    case Fetch(size, c, k) =>
      var p, i := FetchGets(st, st', t, os, size, c, k);
      hide Step;
  }

  lemma CarveFalls(st: State, st': State, t: Tid)
    requires Reachable(st) && Step(st, st', Carve(t))
    ensures Falls(st, st', t)
  {
    hide Reachable, AllBlocks;
    match PcOf(st, t)
    case Carving(size, c, k, p) =>
      var chain := CarveMakes(st, st', t, size, c, k, p);
      hide Step;
  }

  lemma InsertFalls(st: State, st': State, t: Tid)
    requires Reachable(st) && Step(st, st', Insert(t))
    ensures Falls(st, st', t)
  {
    hide Reachable;
    match PcOf(st, t)
    case Carved(size, c, k, p, chain) =>
      InsertShows(st, st', t, size, c, k, p, chain);
      hide Step;
  }

  lemma DeliverFalls(st: State, st': State, t: Tid)
    requires Reachable(st) && Step(st, st', Deliver(t))
    ensures Falls(st, st', t)
  {
    hide Reachable, MoveFront;
    match PcOf(st, t)
    case Got(size, c) =>
      var b := DeliverServes(st, st', t, size, c);
      hide Step;
  }

  lemma LookupFalls(st: State, st': State, t: Tid)
    requires Reachable(st) && Step(st, st', Lookup(t))
    ensures Falls(st, st', t)
  {
    hide Reachable, StepLookup;
    assert PcOf(st, t).Freeing? by { LookupPcKind(st, st', t); }
    var p := LookupFinds(st, st', t, PcOf(st, t).b);
  }

  lemma PushFalls(st: State, st': State, t: Tid)
    requires Reachable(st) && Step(st, st', PushLocal(t))
    ensures Falls(st, st', t)
  {
    hide Reachable, StepPushLocal, BlockThreshold;
    var b, p := PushLocalPc(st, st', t);
    var c, list := PushDecides(st, st', t, b, p);
    BinClass(st, c, p);
    CachesBounded(st, t, c);
    BlockThresholdRange(c);
  }

  lemma BinClass(st: State, c: nat, p: Ptr)
    requires Reachable(st) && p in Bin(st, c)
    ensures c >= 1
  {
    hide Reachable;
    SpanAccounting(st, c, p);
  }

  lemma ReturnFalls(st: State, st': State, t: Tid)
    requires Reachable(st) && Step(st, st', ReturnOne(t))
    ensures Falls(st, st', t)
  {
    hide Reachable, StepReturnOne;
    assert PcOf(st, t).Returning? by { ReturningPc(st, st', t); }
    var b, p, i := ReturnPuts(st, st', t, PcOf(st, t).c);
  }

  lemma ReturningPc(st: State, st': State, t: Tid)
    requires StepReturnOne(st, st', t)
    ensures PcOf(st, t).Returning?
  {
    hide MoveFront, Without;
  }

  lemma ReleaseFalls(st: State, st': State, t: Tid)
    requires Reachable(st) && Step(st, st', ReleaseSpan(t))
    ensures Falls(st, st', t)
  {
    hide Reachable, RecoverClean, HeldAfter, R.GivesBack;
    match PcOf(st, t)
    case GiveBack(c, p) =>
      ReleaseJoins(st, st', t, c, p);
      hide Step;
  }

  lemma BigFalls(st: State, st': State, t: Tid)
    requires Reachable(st) && Step(st, st', ReleaseBig(t))
    ensures Falls(st, st', t)
  {
    hide Reachable, RecoverClean, HeldAfter, R.GivesBack;
    match PcOf(st, t)
    case FreeBig(p) =>
      BigJoins(st, st', t, p);
      hide Step;
  }

  lemma InsideFalls(st: State, st': State, l: Label)
    requires Reachable(st) && Step(st, st', l) && !Starts(l)
    ensures Falls(st, st', l.t)
  {
    hide Reachable, Step, Falls;
    match l
    case Scan(t) => ScanFalls(st, st', t);
    case TakeRun(t) => TakeRunFalls(st, st', t);
    case FetchSpan(t, os) => FetchFalls(st, st', t, os);
    case Carve(t) => CarveFalls(st, st', t);
    case Insert(t) => InsertFalls(st, st', t);
    case Deliver(t) => DeliverFalls(st, st', t);
    case Lookup(t) => LookupFalls(st, st', t);
    case PushLocal(t) => PushFalls(st, st', t);
    case ReleaseBig(t) => BigFalls(st, st', t);
    case LockBin(t) => LockFalls(st, st', t);
    case ReturnOne(t) => ReturnFalls(st, st', t);
    case ReleaseSpan(t) => ReleaseFalls(st, st', t);
    case Done(t) => DoneFalls(st, st', t);
  }

  lemma LockFalls(st: State, st': State, t: Tid)
    requires Step(st, st', LockBin(t))
    ensures Falls(st, st', t)
  {
  }

  lemma DoneFalls(st: State, st': State, t: Tid)
    requires Step(st, st', Done(t))
    ensures Falls(st, st', t)
  {
  }

  // ----- calls end ---------------------------------------------------------------------------

  /** The start of a call: other threads are not concerned, and the call takes at most MOST + 1 more steps. */
  lemma StartRank(st: State, st': State, l: Label)
    requires Reachable(st) && Step(st, st', l) && Starts(l)
    ensures CallRank(st', l.t) <= if l.Free? then MOST + 1 else 6
    ensures forall u: Tid :: u != l.t ==> CallRank(st', u) == CallRank(st, u)
  {
    hide Reachable, Step, CallRank;
    match l
    case MallocHit(t, size) => HitRank(st, st', t, size);
    case MallocMiss(t, size) => MissRank(st, st', t, size);
    case MallocBig(t, size, os) => BigRank(st, st', t, size, os);
    case Free(t, b) => FreeRank(st, st', t, b);
  }

  lemma HitRank(st: State, st': State, t: Tid, size: nat)
    requires Reachable(st) && Step(st, st', MallocHit(t, size))
    ensures forall u: Tid :: CallRank(st', u) == CallRank(st, u)
    ensures CallRank(st', t) == 0
  {
    hide Reachable, Step, LeastClass;
    var c, b := HitServes(st, st', t, size);
    assert forall u: Tid :: On(st'.blocks, Moving(u)) == On(st.blocks, Moving(u));
  }

  lemma MissRank(st: State, st': State, t: Tid, size: nat)
    requires Reachable(st) && Step(st, st', MallocMiss(t, size))
    ensures forall u: Tid :: u != t ==> CallRank(st', u) == CallRank(st, u)
    ensures CallRank(st', t) == 6
  {
    hide Reachable, Step, LeastClass, BlockThreshold;
    var c := MissAsks(st, st', t, size);
  }

  lemma BigRank(st: State, st': State, t: Tid, size: nat, os: Page)
    requires Reachable(st) && Step(st, st', MallocBig(t, size, os))
    ensures forall u: Tid :: CallRank(st', u) == CallRank(st, u)
    ensures CallRank(st', t) == 0
  {
    hide Reachable, Step, R.Gets;
    var n, p, i := BigServes(st, st', t, size, os);
  }

  lemma FreeRank(st: State, st': State, t: Tid, b: Addr)
    requires Step(st, st', Free(t, b))
    ensures forall u: Tid :: u != t ==> CallRank(st', u) == CallRank(st, u)
    ensures CallRank(st', t) == MOST + 1
  {
  }

  ghost predicate Steps(states: seq<State>, labels: seq<Label>) {
    && |states| == |labels| + 1
    && forall i :: 0 <= i < |labels| ==> Step(states[i], states[i + 1], labels[i])
  }

  function Own(labels: seq<Label>, t: Tid): nat {
    if labels == [] then 0 else (if labels[0].t == t then 1 else 0) + Own(labels[1..], t)
  }

  lemma OneStep(st: State, st': State, l: Label)
    requires Reachable(st) && Step(st, st', l)
    ensures Reachable(st')
  {
    hide Step;
    var states: seq<State>, labels: seq<Label> :| EndsIn(states, labels, st);
    assert EndsIn(states + [st'], labels + [l], st');
  }

  /** Whatever the other threads do, thread t takes no more steps than its rank says before its call is over. */
  lemma {:induction false} CallEnds(states: seq<State>, labels: seq<Label>, t: Tid)
    requires Steps(states, labels) && Reachable(states[0]) && forall i :: 0 <= i < |labels| ==> !(labels[i].t == t && Starts(labels[i]))
    ensures Own(labels, t) + CallRank(states[|labels|], t) <= CallRank(states[0], t)
    decreases |labels|
  {
    hide Step, Reachable, CallRank;
    if labels != [] {
      var l := labels[0];
      OneStep(states[0], states[1], l);
      CallEnds(states[1..], labels[1..], t);
      if Starts(l) {
        StartRank(states[0], states[1], l);
      } else {
        InsideFalls(states[0], states[1], l);
        AloneRank(states[0], states[1], l.t);
      }
    }
  }

  /** An allocation takes at most 6 more steps after its first, a release at most 1543. */
  lemma WholeCall(states: seq<State>, labels: seq<Label>, t: Tid)
    requires Steps(states, labels) && Reachable(states[0]) && labels != [] && labels[0].t == t && Starts(labels[0])
    requires forall i :: 1 <= i < |labels| ==> !(labels[i].t == t && Starts(labels[i]))
    ensures Own(labels[1..], t) <= if labels[0].Free? then 1543 else 6
  {
    hide Step, Reachable, CallRank, Starts;
    StartRank(states[0], states[1], labels[0]);
    OneStep(states[0], states[1], labels[0]);
    CallEnds(states[1..], labels[1..], t);
  }

  lemma AloneRank(st: State, st': State, t: Tid)
    requires Alone(st, st', t)
    ensures forall u: Tid :: u != t ==> CallRank(st', u) == CallRank(st, u)
  {
  }

  // ----- slow start over whole runs ---------------------------------------------------------------

  /** How often thread t has found its list of class c empty. */
  ghost function Misses(labels: seq<Label>, t: Tid, c: nat): nat {
    if labels == [] then 0
    else
      var l := labels[|labels| - 1];
      Misses(labels[..|labels| - 1], t, c) + if l.MallocMiss? && l.t == t && LeastClass(c, l.size) then 1 else 0
  }

  /** The n-th miss asks for n blocks, until the threshold is reached: the apply count is a function of the misses. */
  lemma {:induction false} SlowStart(states: seq<State>, labels: seq<Label>, t: Tid, c: nat)
    requires Run(states, labels) && IsClass(c)
    ensures Applies(states[|labels|].apply, t, c) == 1 + Min(Misses(labels, t, c), BlockThreshold(c))
    decreases |labels|
  {
    hide Step, LeastClass, BlockThreshold, IsClass;
    ClassPositive(c);
    if labels != [] {
      var n := |labels| - 1;
      var l := labels[n];
      SlowStart(states[..n + 1], labels[..n], t, c);
      assert Reachable(states[n]) by { assert EndsIn(states[..n + 1], labels[..n], states[n]); }
      hide Reachable, Run;
      if l.MallocMiss? {
        var d := MissAsks(states[n], states[n + 1], l.t, l.size);
        LeastIsOne(c, d, l.size);
      } else {
        ApplyStays(states[n], states[n + 1], l);
      }
    }
  }

  lemma ClassPositive(c: nat)
    requires IsClass(c)
    ensures c >= 1
  {
  }

  lemma LeastIsOne(c: nat, d: nat, size: nat)
    requires LeastClass(d, size)
    ensures LeastClass(c, size) <==> c == d
  {
    hide IsClass;
  }

  lemma ApplyStays(st: State, st': State, l: Label)
    requires Reachable(st) && Step(st, st', l) && !l.MallocMiss?
    ensures st'.apply == st.apply
  {
    hide Reachable, Step;
    if Starts(l) {
      match l
      case MallocHit(t, size) => var c, b := HitServes(st, st', t, size);
      case MallocBig(t, size, os) => var n, p, i := BigServes(st, st', t, size, os);
      case Free(t, b) => FreeApply(st, st', t, b);
    } else {
      InsideFalls(st, st', l);
    }
  }

  lemma FreeApply(st: State, st': State, t: Tid, b: Addr)
    requires Step(st, st', Free(t, b))
    ensures st'.apply == st.apply
  {
  }
}
