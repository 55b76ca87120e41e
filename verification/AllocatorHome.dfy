/** A span goes back to the page cache exactly when all its blocks are home: over handing out, returning and
    the lock drops between. */
module AllocatorHome {
  import opened Common
  import opened SizeClasses
  import opened PageModel
  import opened PageInvariant
  import opened PageCreate
  import opened PageRecover
  import opened Allocator
  import opened AllocatorBlocks
  import opened AllocatorSafety
  import opened AllocatorSteps
  import opened AllocatorFree
  import opened AllocatorReturn
  import opened AllocatorTheorems

  // ----- no idle span stays in a bin ------------------------------------------------

  /** The holder of bin lock c is about to take blocks of span p. */
  ghost predicate BeingTaken(st: State, c: nat, p: Ptr) {
    && c in st.locks && PcOf(st, st.locks[c]).Taking?
    && PcOf(st, st.locks[c]).c == c && PcOf(st, st.locks[c]).p == p
  }

  ghost predicate IdleIn(st: State, c: nat, p: Ptr) {
    p in Bin(st, c) && Uses(st.uses, p) == 0
  }

  /** A span in a bin without a block out is just being taken from. */
  ghost predicate Occupied(st: State) {
    forall c: nat, p: Ptr :: IdleIn(st, c, p) ==> BeingTaken(st, c, p)
  }

  /** Thread t is the only one that moves; the others keep their bin locks. */
  ghost predicate OthersStay(st: State, st': State, t: Tid) {
    && (forall u: Tid :: u != t ==> PcOf(st', u) == PcOf(st, u))
    && (forall c: nat :: c in st.locks && st.locks[c] != t ==> c in st'.locks && st'.locks[c] == st.locks[c])
  }

  lemma StaysOccupied(st: State, st': State, t: Tid)
    requires Occupied(st) && OthersStay(st, st', t) && !PcOf(st, t).Taking?
    requires forall c: nat, p: Ptr :: IdleIn(st', c, p) ==> IdleIn(st, c, p) || BeingTaken(st', c, p)
    ensures Occupied(st')
  {
    forall c: nat, p: Ptr | IdleIn(st', c, p) && IdleIn(st, c, p)
      ensures BeingTaken(st', c, p)
    {
      assert BeingTaken(st, c, p);
    }
  }

  predicate MovesSpans(l: Label) {
    l.TakeRun? || l.Insert? || l.ReturnOne? || l.Done?
  }

  ghost predicate Quiet(st: State, st': State, t: Tid) {
    st'.bins == st.bins && st'.uses == st.uses && OthersStay(st, st', t) && !PcOf(st, t).Taking?
  }

  lemma ScanQuiet(st: State, st': State, t: Tid)
    requires StepScan(st, st', t)
    ensures Quiet(st, st', t)
  {
    hide Create, Mark, Usable, RoundUp, PageThreshold, MoveFront, HeadsOk, PoolOk, OsPages, OsAnswers;
  }

  lemma FetchSpanQuiet(st: State, st': State, t: Tid, os: Page)
    requires StepFetchSpan(st, st', t, os)
    ensures Quiet(st, st', t)
  {
    hide Create, Mark, Usable, RoundUp, PageThreshold, MoveFront, HeadsOk, PoolOk, OsPages, OsAnswers;
  }

  lemma DeliverQuiet(st: State, st': State, t: Tid)
    requires StepDeliver(st, st', t)
    ensures Quiet(st, st', t)
  {
    hide Create, Mark, Usable, RoundUp, PageThreshold, MoveFront, HeadsOk, PoolOk, OsPages, OsAnswers;
  }

  lemma MallocBigQuiet(st: State, st': State, t: Tid, size: nat, os: Page)
    requires StepMallocBig(st, st', t, size, os)
    ensures Quiet(st, st', t)
  {
    hide Create, Mark, Usable, RoundUp, PageThreshold, MoveFront, HeadsOk, PoolOk, OsPages, OsAnswers;
  }

  lemma PushLocalQuiet(st: State, st': State, t: Tid)
    requires StepPushLocal(st, st', t)
    ensures Quiet(st, st', t)
  {
    hide Create, Mark, Usable, RoundUp, PageThreshold, MoveFront, HeadsOk, PoolOk, OsPages, OsAnswers;
  }

  lemma ReleaseBigQuiet(st: State, st': State, t: Tid)
    requires StepReleaseBig(st, st', t)
    ensures Quiet(st, st', t)
  {
    hide RecoverClean, HeldAfter;
  }

  lemma ReleaseSpanQuiet(st: State, st': State, t: Tid)
    requires StepReleaseSpan(st, st', t)
    ensures Quiet(st, st', t)
  {
    hide RecoverClean, HeldAfter;
  }

  lemma LookupQuiet(st: State, st': State, t: Tid)
    requires StepLookup(st, st', t)
    ensures Quiet(st, st', t)
  {
    hide RecoverClean, HeldAfter;
  }

  lemma QuietStep(st: State, st': State, l: Label)
    requires Step(st, st', l) && !MovesSpans(l)
    ensures Quiet(st, st', l.t)
  {
    hide StepScan, StepFetchSpan, StepDeliver, StepMallocBig, StepPushLocal, StepReleaseBig, StepReleaseSpan, StepLookup,
      RoundUp, BlockThreshold, AllBlocks, StepTakeRun, StepInsert, StepReturnOne, StepDone;
    match l
    case Scan(t) => ScanQuiet(st, st', t);
    case FetchSpan(t, os) => FetchSpanQuiet(st, st', t, os);
    case Deliver(t) => DeliverQuiet(st, st', t);
    case MallocBig(t, size, os) => MallocBigQuiet(st, st', t, size, os);
    case PushLocal(t) => PushLocalQuiet(st, st', t);
    case ReleaseBig(t) => ReleaseBigQuiet(st, st', t);
    case ReleaseSpan(t) => ReleaseSpanQuiet(st, st', t);
    case Lookup(t) => LookupQuiet(st, st', t);
    case _ =>
  }

  lemma TakeRunOccupied(st: State, a: Aux, st': State, t: Tid)
    requires Occupied(st) && PcOk(st, a, t) && LocksOk(st) && StepTakeRun(st, st', t)
    ensures Occupied(st')
  {
    hide MoveFront, RoundUp, BlockThreshold;
    match PcOf(st, t)
    case Taking(size, c, k, p) =>
      assert Uses(st'.uses, p) >= 1;
      forall d: nat, q: Ptr | IdleIn(st', d, q)
        ensures BeingTaken(st', d, q)
      {
        assert q != p && IdleIn(st, d, q);
        assert BeingTaken(st, d, q);
      }
  }

  lemma InsertOccupied(st: State, st': State, t: Tid)
    requires Occupied(st) && StepInsert(st, st', t)
    ensures Occupied(st')
  {
    match PcOf(st, t)
    case Carved(size, c, k, p, chain) =>
      forall d: nat, q: Ptr | IdleIn(st', d, q)
        ensures IdleIn(st, d, q) || BeingTaken(st', d, q)
      {
      }
      StaysOccupied(st, st', t);
  }

  lemma DoneOccupied(st: State, a: Aux, st': State, t: Tid)
    requires Occupied(st) && PcOk(st, a, t) && StepDone(st, st', t)
    ensures Occupied(st')
  {
    hide RunOf;
    forall d: nat, q: Ptr | IdleIn(st', d, q)
      ensures IdleIn(st, d, q)
    {
    }
    StaysOccupied(st, st', t);
  }

  lemma ReturnOneOccupied(st: State, a: Aux, st': State, t: Tid, c: nat, p: Ptr)
    requires Occupied(st) && PcOk(st, a, t) && BinsOk(st.bins, a.roles) && StepReturnOne(st, st', t) && PcOf(st, t) == Returning(c)
    requires p == st.pages.tags[On(st.blocks, Moving(t))[0] / PAGE] && p in a.roles && a.roles[p] == InBin(c)
    ensures Occupied(st')
  {
    hide RunOf, MoveFront;
    forall d: nat, q: Ptr | IdleIn(st', d, q)
      ensures IdleIn(st, d, q)
    {
      assert d in st.bins && q in st.bins[d];
    }
    StaysOccupied(st, st', t);
  }

  lemma BinsOf(st: State, a: Aux)
    requires Core(st, a)
    ensures BinsOk(st.bins, a.roles)
  {
  }

  lemma ReturnOccupied(st: State, a: Aux, st': State, t: Tid)
    requires Safe(st, a) && Occupied(st) && StepReturnOne(st, st', t)
    ensures Occupied(st')
  {
    hide Safe, Core, Placed, ArgsOk, LocksOk, Occupied, BinsOk, MoveFront, RunOf;
    CoreOf(st, a, t);
    BinsOf(st, a);
    match PcOf(st, t)
    case Returning(c) =>
      var b := On(st.blocks, Moving(t))[0];
      ReturnedBlock(st, a, t, c, b);
      ReturnOneOccupied(st, a, st', t, c, st.pages.tags[b / PAGE]);
  }

  lemma QuietOccupied(st: State, st': State, l: Label)
    requires Occupied(st) && Step(st, st', l) && !MovesSpans(l)
    ensures Occupied(st')
  {
    QuietStep(st, st', l);
    hide Step;
    assert forall c: nat, p: Ptr :: IdleIn(st', c, p) ==> IdleIn(st, c, p);
    StaysOccupied(st, st', l.t);
  }

  lemma StepOccupied(st: State, a: Aux, st': State, l: Label)
    requires Safe(st, a) && Occupied(st) && Step(st, st', l)
    ensures Occupied(st')
  {
    hide Safe, Core, Placed, ArgsOk, Occupied, LocksOk, PcOk, StepTakeRun, StepInsert, StepReturnOne, StepDone,
      StepMallocHit, StepMallocMiss, StepScan, StepFetchSpan, StepCarve, StepDeliver,
      StepMallocBig, StepFree, StepLookup, StepPushLocal, StepReleaseBig, StepLockBin, StepReleaseSpan;
    CoreOf(st, a, l.t);
    match l
    case TakeRun(t) => TakeRunOccupied(st, a, st', t);
    case Insert(t) => InsertOccupied(st, st', t);
    case ReturnOne(t) => ReturnOccupied(st, a, st', t);
    case Done(t) => DoneOccupied(st, a, st', t);
    case _ => QuietOccupied(st, st', l);
  }

  lemma {:induction false} RunOccupied(states: seq<State>, labels: seq<Label>) returns (a: Aux)
    requires Run(states, labels)
    ensures Safe(states[|labels|], a) && Occupied(states[|labels|])
    decreases |labels|
  {
    hide Safe, Step, Occupied;
    if labels == [] {
      a := InitSafe();
      InitOccupied();
    } else {
      var n := |labels| - 1;
      var a0 := RunOccupied(states[..n + 1], labels[..n]);
      a := StepKeeps(states[n], a0, states[n + 1], labels[n]);
      StepOccupied(states[n], a0, states[n + 1], labels[n]);
    }
  }

  lemma InitOccupied()
    ensures Occupied(Init())
  {
  }

  /** Whenever a span in a bin has no block out, the holder of the bin's lock is about to take blocks of it. So
      with the lock free, or held by a returning thread, every span in the bin has a block out. */
  lemma IdleSpanIsTaken(st: State, c: nat, p: Ptr)
    requires Reachable(st) && p in Bin(st, c) && Uses(st.uses, p) == 0
    ensures c in st.locks && PcOf(st, st.locks[c]).Taking?
    ensures PcOf(st, st.locks[c]).c == c && PcOf(st, st.locks[c]).p == p
  {
    hide Safe, Run, Occupied;
    var states: seq<State>, labels: seq<Label> :| EndsIn(states, labels, st);
    var a := RunOccupied(states, labels);
    OccupiedAt(st, c, p);
  }

  lemma OccupiedAt(st: State, c: nat, p: Ptr)
    requires Occupied(st) && p in Bin(st, c) && Uses(st.uses, p) == 0
    ensures BeingTaken(st, c, p)
  {
    assert IdleIn(st, c, p);
  }

  // ----- a span leaves exactly with its last block --------------------------------------

  /** A duplicate-free list of blocks of a span is as long as possible exactly if it misses none. */
  lemma FullExactly(s: Span, home: seq<Addr>)
    requires s.blockSize >= 1 && NoDup(home) && forall b :: b in home ==> IsBlock(s, b)
    ensures |home| == BlockCount(s) <==> forall b :: IsBlock(s, b) ==> b in home
  {
    var all := AllBlocks(s);
    AllBlocksExact(s);
    NoDupCard(home);
    NoDupCard(all);
    SubsetCard(Elements(home), Elements(all));
    if |home| == BlockCount(s) {
      AllHome(home, all);
    } else if forall b :: IsBlock(s, b) ==> b in home {
      SubsetCard(Elements(all), Elements(home));
    }
  }

  lemma AllButOne(s: Span, home: seq<Addr>, b: Addr)
    requires s.blockSize >= 1 && NoDup(home) && forall d :: d in home ==> IsBlock(s, d)
    requires IsBlock(s, b) && b !in home
    ensures |home| + 1 == BlockCount(s) <==> forall d :: IsBlock(s, d) && d != b ==> d in home
  {
    hide IsBlock, BlockCount;
    PushNoDup(home, b);
    FullExactly(s, [b] + home);
    assert forall d :: d in [b] + home <==> d == b || d in home;
  }

  /** The chain of a span in a bin, as the state shows it. */
  lemma ChainFacts(st: State, a: Aux, c: nat, p: Ptr)
    requires Safe(st, a) && p in Bin(st, c)
    ensures p in st.pages.spans && st.pages.spans[p].blockSize >= 1 && p in a.roles && a.roles[p] == InBin(c)
    ensures Uses(st.uses, p) + |On(st.blocks, Home(p))| == BlockCount(st.pages.spans[p])
    ensures NoDup(On(st.blocks, Home(p)))
    ensures forall b :: b in On(st.blocks, Home(p)) ==> IsBlock(st.pages.spans[p], b)
  {
    hide Safe, Core, PageThreshold;
    CoreOf(st, a, 0);
    BinSpan(st, a, c, p);
    forall b | b in On(st.blocks, Home(p))
      ensures IsBlock(st.pages.spans[p], b)
    {
      ListFacts(st, a, Home(p), b);
    }
  }

  /** The use count says exactly whether every block of the span is on its chain. */
  lemma UnusedMeansHome(st: State, c: nat, p: Ptr)
    requires Reachable(st) && p in Bin(st, c)
    ensures p in st.pages.spans
    ensures Uses(st.uses, p) == 0 <==> forall b :: IsBlock(st.pages.spans[p], b) ==> IsAt(st, b, Home(p))
  {
    hide Safe, Reachable, IsBlock, BlockCount;
    var a := ReachableSafe(st);
    ChainFacts(st, a, c, p);
    FullExactly(st.pages.spans[p], On(st.blocks, Home(p)));
    assert forall b :: IsAt(st, b, Home(p)) <==> b in On(st.blocks, Home(p));
  }

  /** The step returns a block of span p, all of whose other blocks are on its chain. */
  ghost predicate LastReturn(st: State, l: Label, p: Ptr)
    requires p in st.pages.spans
  {
    && l.ReturnOne? && On(st.blocks, Moving(l.t)) != []
    && var b := On(st.blocks, Moving(l.t))[0];
       && IsBlock(st.pages.spans[p], b)
       && forall d :: IsBlock(st.pages.spans[p], d) && d != b ==> IsAt(st, d, Home(p))
  }

  lemma TakeRunBins(st: State, st': State, t: Tid)
    requires StepTakeRun(st, st', t) || StepDone(st, st', t)
    ensures st'.bins == st.bins
  {
    hide MoveFront;
  }

  lemma InsertedBin(st: State, st': State, t: Tid, c: nat, p: Ptr)
    requires StepInsert(st, st', t) && p in Bin(st, c)
    ensures p in Bin(st', c)
  {
  }

  lemma BinsGrow(st: State, st': State, l: Label, c: nat, p: Ptr)
    requires Step(st, st', l) && !l.ReturnOne? && p in Bin(st, c)
    ensures p in Bin(st', c)
  {
    hide StepTakeRun, StepInsert, StepReturnOne, StepDone, StepMallocHit, StepMallocMiss, StepScan, StepFetchSpan, StepCarve,
      StepDeliver, StepMallocBig, StepFree, StepLookup, StepPushLocal, StepReleaseBig, StepLockBin, StepReleaseSpan;
    match l
    case TakeRun(t) => TakeRunBins(st, st', t);
    case Insert(t) => InsertedBin(st, st', t, c, p);
    case Done(t) => TakeRunBins(st, st', t);
    case _ => QuietStep(st, st', l);
  }

  /** What returning one block does to the bin of its span q. */
  lemma ReturnedBin(st: State, st': State, t: Tid, c: nat, q: Ptr, d: nat, p: Ptr)
    requires StepReturnOne(st, st', t) && PcOf(st, t) == Returning(d) && q == st.pages.tags[On(st.blocks, Moving(t))[0] / PAGE]
    requires p in Bin(st, c) && (p == q ==> c == d)
    ensures p !in Bin(st', c) <==> p == q && Uses(st.uses, q) == 1
    ensures p !in Bin(st', c) ==> PcOf(st', t) == GiveBack(c, p)
  {
    hide MoveFront;
  }

  lemma BlockHasOneSpan(st: State, a: Aux, p: Ptr, b: Addr)
    requires Core(st, a) && b in a.own && p in a.roles && a.roles[p].InBin? && p in st.pages.spans
    ensures IsBlock(st.pages.spans[p], b) <==> a.own[b].span == p
  {
    hide PagesOk, RolesOk, BinsOk, Placed, CountsOk, HeldOk, CachesOk, IsBlock;
  }

  lemma ReturnLeaves(st: State, a: Aux, st': State, t: Tid, c: nat, p: Ptr)
    requires Safe(st, a) && StepReturnOne(st, st', t) && p in Bin(st, c) && p in st.pages.spans
    ensures p !in Bin(st', c) <==> LastReturn(st, ReturnOne(t), p)
    ensures p !in Bin(st', c) ==> PcOf(st', t) == GiveBack(c, p)
  {
    hide Safe, Core, Placed, ArgsOk, LocksOk, RunOf, MoveFront, IsBlock, BlockCount;
    CoreOf(st, a, t);
    ChainFacts(st, a, c, p);
    match PcOf(st, t)
    case Returning(d) =>
      var b := On(st.blocks, Moving(t))[0];
      var q := st.pages.tags[b / PAGE];
      ReturnedBlock(st, a, t, d, b);
      ReturnedBin(st, st', t, c, q, d, p);
      BlockHasOneSpan(st, a, p, b);
      if p == q {
        PlaceIsAt(st, a, b, Home(p));
        AllButOne(st.pages.spans[p], On(st.blocks, Home(p)), b);
        assert forall e :: IsAt(st, e, Home(p)) <==> e in On(st.blocks, Home(p));
      }
  }

  /** A span leaves its bin in exactly one way: the block that is returned was the only one not at home. Then
      the returning thread gives the span back. */
  lemma LeavesExactlyWhenHome(st: State, st': State, l: Label, c: nat, p: Ptr)
    requires Reachable(st) && Step(st, st', l) && p in Bin(st, c)
    ensures p in st.pages.spans
    ensures p !in Bin(st', c) <==> LastReturn(st, l, p)
    ensures p !in Bin(st', c) ==> PcOf(st', l.t) == GiveBack(c, p)
  {
    hide Safe, Reachable, IsBlock, IsAt, StepReturnOne;
    var a := ReachableSafe(st);
    ChainFacts(st, a, c, p);
    if l.ReturnOne? {
      ReturnLeaves(st, a, st', l.t, c, p);
    } else {
      BinsGrow(st, st', l, c, p);
    }
  }

  // ----- on its way back ------------------------------------------------------------------

  lemma PrivateBlocks(st: State, a: Aux, t: Tid, p: Ptr, b: Addr)
    requires Core(st, a) && OwnsSpan(a, t, p) && p in st.pages.spans && IsBlock(st.pages.spans[p], b)
    ensures b !in a.own && b / PAGE in a.v.own && a.v.own[b / PAGE] == p
  {
    hide Core;
    ChainIsNew(st, a, p, t);
    AllBlocksExact(st.pages.spans[p]);
  }

  lemma UnknownIsNowhere(st: State, a: Aux, t: Tid, p: Ptr, b: Addr, x: Place)
    requires Safe(st, a) && OwnsSpan(a, t, p) && PcOf(st, t).GiveBack?
    requires b !in a.own && b / PAGE in a.v.own && a.v.own[b / PAGE] == p
    ensures !IsAt(st, b, x)
  {
    hide Safe, Core;
    match x
    case User =>
      CoreOf(st, a, t);
      if b in st.held { HeldFacts(st, a, b); }
    case Argument(u) => CoreOf(st, a, u);
    case _ => CoreOf(st, a, t);
  }

  /** A span on its way back to the page cache has no block anywhere: nobody can come back with one. */
  lemma GivenBackIsHome(st: State, t: Tid, c: nat, p: Ptr, b: Addr, x: Place)
    requires Reachable(st) && PcOf(st, t) == GiveBack(c, p)
    ensures p in st.pages.spans && (IsBlock(st.pages.spans[p], b) ==> !IsAt(st, b, x))
  {
    hide Safe, Reachable, Core, Placed, IsBlock, IsAt, RunOf;
    var a := ReachableSafe(st);
    CoreOf(st, a, t);
    PrivateFacts(st, a, t, p);
    if IsBlock(st.pages.spans[p], b) {
      PrivateBlocks(st, a, t, p, b);
      UnknownIsNowhere(st, a, t, p, b, x);
    }
  }
}
