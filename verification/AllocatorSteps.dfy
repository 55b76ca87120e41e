/** Every step of the allocator keeps its invariant: the steps of `tnc_malloc` that stay above the page
    cache. */
module AllocatorSteps {
  import opened Common
  import opened SizeClasses
  import opened PageModel
  import opened PageInvariant
  import opened PageCreate
  import opened PageRecover
  import opened Allocator
  import opened AllocatorBlocks
  import opened AllocatorSafety
  import Bits

  /** What a block's list says about the block. */
  lemma ListFacts(st: State, a: Aux, x: Place, b: Addr)
    requires Safe(st, a) && b in On(st.blocks, x)
    ensures IsList(x) && b in a.own && a.own[b].place == x
    ensures var p := a.own[b].span;
            && p in a.roles && a.roles[p].InBin? && p in st.pages.spans && IsSpanOf(st.pages.spans[p], a.roles[p].c)
            && IsBlock(st.pages.spans[p], b)
            && (x.Home? ==> x.p == p) && (x.Cached? ==> x.c == st.pages.spans[p].blockSize)
  {
  }

  lemma NoOtherLists(blocks: map<Place, seq<Addr>>, own: map<Addr, Entry>)
    requires Placed(blocks, own)
    ensures On(blocks, User) == [] && forall u: Tid :: On(blocks, Argument(u)) == []
  {
  }

  lemma CoreOf(st: State, a: Aux, t: Tid)
    requires Safe(st, a)
    ensures Core(st, a) && Placed(st.blocks, a.own) && LocksOk(st) && PcOk(st, a, t) && ArgsOk(a.own, t, PcOf(st, t))
  {
  }

  /** Moving blocks between thread lists and users: the page clauses do not change. */
  lemma CoreMoved(st: State, a: Aux, st': State, own': map<Addr, Entry>)
    requires Core(st, a) && st'.pages == st.pages && st'.mapped == st.mapped && st'.bins == st.bins
    requires Placed(st'.blocks, own') && GeometryOk(st.pages.spans, a.roles, own')
    requires CountsOk(st.pages.spans, a.roles, st'.uses, st'.blocks)
    requires HeldOk(st.pages.spans, a.roles, a.v, own', st'.held) && CachesOk(st'.blocks, st'.apply)
    ensures Core(st', a.(own := own'))
  {
  }

  lemma CacheAt(blocks: map<Place, seq<Addr>>, apply: map<(Tid, nat), nat>, t: Tid, c: nat)
    requires CachesOk(blocks, apply) && c >= 1
    ensures |On(blocks, Cached(t, c))| < Applies(apply, t, c) <= BlockThreshold(c) + 1
  {
  }

  lemma CachesSame(blocks: map<Place, seq<Addr>>, blocks': map<Place, seq<Addr>>, apply: map<(Tid, nat), nat>)
    requires CachesOk(blocks, apply)
    requires forall t: Tid, c: nat :: On(blocks', Cached(t, c)) == On(blocks, Cached(t, c))
    ensures CachesOk(blocks', apply)
  {
  }

  lemma OnPlace(blocks: map<Place, seq<Addr>>, own: map<Addr, Entry>, x: Place)
    requires Placed(blocks, own)
    ensures forall b :: b in On(blocks, x) ==> b in own && own[b].place == x
  {
  }

  lemma HitBlocks(st: State, a: Aux, st': State, t: Tid, size: nat, b: Addr)
    requires Core(st, a) && StepMallocHit(st, st', t, size) && b == On(st.blocks, Cached(t, RoundUp(size)))[0]
    requires b in a.own && a.own[b].span in st.pages.spans && size <= st.pages.spans[a.own[b].span].blockSize
    requires RoundUp(size) >= 1
    ensures Core(st', a.(own := Relocate(a.own, [b], User)))
  {
    hide PagesOk, RolesOk, BinsOk, Placed, GeometryOk, CountsOk, HeldOk, CachesOk, RoundUp;
    var c := RoundUp(size);
    PopPlaced(st.blocks, a.own, Cached(t, c), User);
    GeometryMove(st.pages.spans, a.roles, a.own, [b], User);
    HeldTake(st.pages.spans, a.roles, a.v, a.own, st.held, b, size);
    CountsOther(st.pages.spans, a.roles, st.uses, st.blocks, st'.blocks);
    CacheAt(st.blocks, st.apply, t, c);
    CachesOne(st.blocks, st.apply, st'.blocks, st'.apply, t, c);
    CoreMoved(st, a, st', Relocate(a.own, [b], User));
  }

  /** Locks do not change and t holds none. */
  lemma NoLockMoved(st: State, st': State, t: Tid)
    requires LocksOk(st) && st'.locks == st.locks && forall c: nat :: !Inside(st, t, c)
    requires forall u: Tid :: u != t ==> PcOf(st', u) == PcOf(st, u)
    requires forall u: Tid, c: nat :: u != t ==> Applies(st'.apply, u, c) == Applies(st.apply, u, c)
    ensures OnlyThread(st, st', t)
  {
  }

  lemma MallocHitKeeps(st: State, a: Aux, st': State, t: Tid, size: nat) returns (a': Aux)
    requires Safe(st, a) && StepMallocHit(st, st', t, size)
    ensures Safe(st', a')
  {
    hide Safe, ArgsOk, Core, Placed, LocksOk, Local, RoundUp, OnlyThread;
    var x := Cached(t, RoundUp(size));
    var b := On(st.blocks, x)[0];
    CoreOf(st, a, t);
    ListFacts(st, a, x, b);
    NoOtherLists(st.blocks, a.own);
    ClassOfRequest(size);
    a' := a.(own := Relocate(a.own, [b], User));
    HitBlocks(st, a, st', t, size, b);
    NoLockMoved(st, st', t);
    LocalMoved(st, a, st', a'.own, t);
    ArgsShrink(a.own, a'.own, t, PcOf(st, t), PcOf(st', t));
    Assemble(st, a, st', a', t);
  }

  // ----- malloc: from the miss to the delivery --------------------------------------

  lemma ClassOfRequest(size: nat)
    requires 1 <= size <= MAX_ALLOC_BYTES
    ensures 8 <= RoundUp(size) <= MAX_ALLOC_BYTES && size <= RoundUp(size)
  {
    RoundUpCovers(size);
    RoundUpIsClassOfIndex(size);
  }

  lemma CoreStill(st: State, a: Aux, st': State)
    requires Core(st, a)
    requires st'.pages == st.pages && st'.mapped == st.mapped && st'.bins == st.bins && st'.uses == st.uses
    requires st'.blocks == st.blocks && st'.held == st.held && CachesOk(st'.blocks, st'.apply)
    ensures Core(st', a)
  {
  }

  lemma CachesOf(st: State, a: Aux)
    requires Core(st, a)
    ensures CachesOk(st.blocks, st.apply)
  {
  }

  lemma MissCaches(blocks: map<Place, seq<Addr>>, apply: map<(Tid, nat), nat>, t: Tid, c: nat, n: nat, k: nat,
                   apply': map<(Tid, nat), nat>)
    requires CachesOk(blocks, apply) && c >= 1 && On(blocks, Cached(t, c)) == []
    requires n == Applies(apply, t, c) && k == Min(n, BlockThreshold(c))
    requires apply' == if k == n then apply[(t, c) := n + 1] else apply
    ensures CachesOk(blocks, apply') && 1 <= k <= BlockThreshold(c) && k < Applies(apply', t, c)
    ensures forall u: Tid, d: nat :: u != t ==> Applies(apply', u, d) == Applies(apply, u, d)
  {
    BlockThresholdRange(c);
    assert |On(blocks, Cached(t, c))| < n;
  }

  lemma MallocMissKeeps(st: State, a: Aux, st': State, t: Tid, size: nat)
    requires Safe(st, a) && StepMallocMiss(st, st', t, size)
    ensures Safe(st', a)
  {
    hide Safe, ArgsOk, Core, Placed, LocksOk, Local, RoundUp, OnlyThread, BlockThreshold, CachesOk;
    var c := RoundUp(size);
    CoreOf(st, a, t);
    CachesOf(st, a);
    ClassOfRequest(size);
    var n := Applies(st.apply, t, c);
    MissCaches(st.blocks, st.apply, t, c, n, Min(n, BlockThreshold(c)), st'.apply);
    CoreStill(st, a, st');
    NoLockMoved(st, st', t);
    LocalStill(st, a, st', t);
    ArgsShrink(a.own, a.own, t, PcOf(st, t), PcOf(st', t));
    Assemble(st, a, st', a, t);
  }

  /** t takes lock c. */
  lemma LockTaken(st: State, st': State, t: Tid, c: nat)
    requires LocksOk(st) && c !in st.locks && st'.locks == st.locks[c := t]
    requires Inside(st', t, c) && forall d: nat :: !Inside(st, t, d)
    requires forall u: Tid :: u != t ==> PcOf(st', u) == PcOf(st, u)
    requires st'.apply == st.apply
    ensures OnlyThread(st, st', t)
  {
  }

  /** t drops the lock of the bin it is in. */
  lemma LockDropped(st: State, st': State, t: Tid, c: nat)
    requires LocksOk(st) && st'.locks == st.locks - {c} && Inside(st, t, c) && HasLock(st, t, c)
    requires forall u: Tid :: u != t ==> PcOf(st', u) == PcOf(st, u)
    requires st'.apply == st.apply
    ensures OnlyThread(st, st', t)
  {
  }

  lemma BinFacts(st: State, a: Aux, c: nat, i: nat)
    requires Core(st, a) && i < |Bin(st, c)|
    ensures Bin(st, c)[i] in a.roles && a.roles[Bin(st, c)[i]] == InBin(c)
  {
    assert Bin(st, c)[i] in st.bins[c];
  }

  lemma ScanKeeps(st: State, a: Aux, st': State, t: Tid)
    requires Safe(st, a) && StepScan(st, st', t)
    ensures Safe(st', a)
  {
    hide Safe, ArgsOk, Core, Placed, LocksOk, Local, OnlyThread, BlockThreshold, CachesOk, RoundUp;
    CoreOf(st, a, t);
    CachesOf(st, a);
    CoreStill(st, a, st');
    var c := PcOf(st, t).c;
    var i := Usable(Bin(st, c), st.blocks);
    if i < |Bin(st, c)| {
      BinFacts(st, a, c, i);
      LockTaken(st, st', t, c);
    } else {
      NoLockMoved(st, st', t);
    }
    LocalStill(st, a, st', t);
    ArgsShrink(a.own, a.own, t, PcOf(st, t), PcOf(st', t));
    Assemble(st, a, st', a, t);
  }

  lemma CarveKeeps(st: State, a: Aux, st': State, t: Tid)
    requires Safe(st, a) && StepCarve(st, st', t)
    ensures Safe(st', a)
  {
    hide Safe, ArgsOk, Core, Placed, LocksOk, Local, OnlyThread, BlockThreshold, CachesOk, RoundUp, AllBlocks, PageThreshold;
    CoreOf(st, a, t);
    CachesOf(st, a);
    CoreStill(st, a, st');
    NoLockMoved(st, st', t);
    LocalStill(st, a, st', t);
    ArgsShrink(a.own, a.own, t, PcOf(st, t), PcOf(st', t));
    Assemble(st, a, st', a, t);
  }

  lemma LockBinKeeps(st: State, a: Aux, st': State, t: Tid)
    requires Safe(st, a) && StepLockBin(st, st', t)
    ensures Safe(st', a)
  {
    hide Safe, ArgsOk, Core, Placed, LocksOk, Local, OnlyThread, CachesOk;
    CoreOf(st, a, t);
    CachesOf(st, a);
    CoreStill(st, a, st');
    LockTaken(st, st', t, PcOf(st, t).c);
    LocalStill(st, a, st', t);
    ArgsShrink(a.own, a.own, t, PcOf(st, t), PcOf(st', t));
    Assemble(st, a, st', a, t);
  }

  lemma DoneKeeps(st: State, a: Aux, st': State, t: Tid)
    requires Safe(st, a) && StepDone(st, st', t)
    ensures Safe(st', a)
  {
    hide Safe, ArgsOk, Core, Placed, LocksOk, Local, OnlyThread, CachesOk, RunOf;
    CoreOf(st, a, t);
    CachesOf(st, a);
    CoreStill(st, a, st');
    LockDropped(st, st', t, PcOf(st, t).c);
    LocalStill(st, a, st', t);
    ArgsShrink(a.own, a.own, t, PcOf(st, t), PcOf(st', t));
    Assemble(st, a, st', a, t);
  }

  lemma TakeRunCore(st: State, a: Aux, st': State, t: Tid, size: nat, c: nat, k: nat, p: Ptr, m: nat)
    requires Core(st, a) && StepTakeRun(st, st', t) && PcOf(st, t) == Taking(size, c, k, p)
    requires m == Min(k, |On(st.blocks, Home(p))|) && p in a.roles && a.roles[p].InBin?
    requires On(st.blocks, Moving(t)) == []
    ensures Core(st', a.(own := Relocate(a.own, On(st.blocks, Home(p))[..m], Moving(t))))
    ensures On(st'.blocks, Moving(t)) == On(st.blocks, Home(p))[..m]
  {
    hide PagesOk, RolesOk, BinsOk, Placed, GeometryOk, CountsOk, HeldOk, CachesOk;
    var x, y := Home(p), Moving(t);
    var run := On(st.blocks, x)[..m];
    MovePlaced(st.blocks, a.own, x, y, m);
    GeometryMove(st.pages.spans, a.roles, a.own, run, y);
    RunNotUser(st.blocks, a.own, x, run);
    HeldMove(st.pages.spans, a.roles, a.v, a.own, st.held, run, y);
    CountsOne(st.pages.spans, a.roles, st.uses, st.blocks, st'.uses, st'.blocks, p);
    CachesSame(st.blocks, st'.blocks, st.apply);
    CoreMoved(st, a, st', Relocate(a.own, run, y));
  }

  lemma RunNotUser(blocks: map<Place, seq<Addr>>, own: map<Addr, Entry>, x: Place, run: seq<Addr>)
    requires Placed(blocks, own) && forall b :: b in run ==> b in On(blocks, x)
    ensures forall b :: b in run ==> b in own && own[b].place == x && x != User
  {
  }

  /** Blocks that are moved to thread t keep their bin. */
  lemma RunFrom(st: State, a: Aux, x: Place, run: seq<Addr>, c: nat)
    requires Safe(st, a) && forall b :: b in run ==> b in On(st.blocks, x)
    requires match x case Home(p) => p in a.roles && a.roles[p] == InBin(c) case Cached(_, d) => d == c case _ => false
    ensures forall b :: b in run ==> b in a.own && a.own[b].place == x && a.own[b].span in a.roles && a.roles[a.own[b].span] == InBin(c)
  {
    forall b | b in run
      ensures b in a.own && a.own[b].place == x && a.own[b].span in a.roles && a.roles[a.own[b].span] == InBin(c)
    {
      ListFacts(st, a, x, b);
    }
  }

  lemma TakeRunKeeps(st: State, a: Aux, st': State, t: Tid) returns (a': Aux)
    requires Safe(st, a) && StepTakeRun(st, st', t)
    ensures Safe(st', a')
  {
    hide Safe, ArgsOk, Core, Placed, LocksOk, Local, OnlyThread, BlockThreshold, RoundUp, MoveFront;
    CoreOf(st, a, t);
    match PcOf(st, t)
    case Taking(size, c, k, p) =>
      var x := Home(p);
      var m := Min(k, |On(st.blocks, x)|);
      var run := On(st.blocks, x)[..m];
      a' := a.(own := Relocate(a.own, run, Moving(t)));
      TakeRunCore(st, a, st', t, size, c, k, p, m);
      RunFrom(st, a, x, run, c);
      LockDropped(st, st', t, c);
      TakeRunRest(st, a, st', t, size, c, k, p, m);
      LocalMoved(st, a, st', a'.own, t);
      ArgsShrink(a.own, a'.own, t, PcOf(st, t), PcOf(st', t));
      Assemble(st, a, st', a', t);
  }

  lemma TakeRunRest(st: State, a: Aux, st': State, t: Tid, size: nat, c: nat, k: nat, p: Ptr, m: nat)
    requires StepTakeRun(st, st', t) && PcOf(st, t) == Taking(size, c, k, p)
    requires m == Min(k, |On(st.blocks, Home(p))|)
    ensures forall x :: x != Home(p) && x != Moving(t) ==> On(st'.blocks, x) == On(st.blocks, x)
  {
  }

  /** The bookkeeping of a delivered run: its first block is the user's, the rest is cached. */
  function Delivered(own: map<Addr, Entry>, run: seq<Addr>, y: Place): map<Addr, Entry>
    requires run != []
  {
    Relocate(Relocate(own, [run[0]], User), run[1..], y)
  }

  /** The first block of the run goes to the user. */
  lemma UserMove(spans: map<Ptr, Span>, roles: map<Ptr, Role>, v: View, held: map<Addr, nat>, uses: map<Ptr, nat>,
                 blocks: map<Place, seq<Addr>>, own: map<Addr, Entry>, t: Tid, b: Addr, size: nat)
    requires Placed(blocks, own) && GeometryOk(spans, roles, own) && CountsOk(spans, roles, uses, blocks)
    requires HeldOk(spans, roles, v, own, held) && On(blocks, Moving(t)) != [] && b == On(blocks, Moving(t))[0]
    requires b in own && own[b].span in spans && size <= spans[own[b].span].blockSize
    ensures var blocks', own' := blocks[Moving(t) := On(blocks, Moving(t))[1..]], Relocate(own, [b], User);
            && Placed(blocks', own') && GeometryOk(spans, roles, own') && CountsOk(spans, roles, uses, blocks')
            && HeldOk(spans, roles, v, own', held[b := size])
  {
    hide Placed, GeometryOk, CountsOk, HeldOk;
    PopPlaced(blocks, own, Moving(t), User);
    GeometryMove(spans, roles, own, [b], User);
    HeldTake(spans, roles, v, own, held, b, size);
    CountsOther(spans, roles, uses, blocks, blocks[Moving(t) := On(blocks, Moving(t))[1..]]);
  }

  /** The rest of it goes to the thread's free list. */
  lemma CacheMove(spans: map<Ptr, Span>, roles: map<Ptr, Role>, v: View, held: map<Addr, nat>, uses: map<Ptr, nat>,
                  blocks: map<Place, seq<Addr>>, own: map<Addr, Entry>, t: Tid, c: nat, run: seq<Addr>)
    requires Placed(blocks, own) && GeometryOk(spans, roles, own) && CountsOk(spans, roles, uses, blocks)
    requires HeldOk(spans, roles, v, own, held) && run == On(blocks, Moving(t))
    requires forall b :: b in run ==> b in own && spans[own[b].span].blockSize == c
    ensures var blocks', own' := MoveFront(blocks, Moving(t), Cached(t, c), |run|), Relocate(own, run, Cached(t, c));
            && Placed(blocks', own') && GeometryOk(spans, roles, own') && CountsOk(spans, roles, uses, blocks')
            && HeldOk(spans, roles, v, own', held)
  {
    hide Placed, GeometryOk, CountsOk, HeldOk;
    assert run[..|run|] == run;
    MovePlaced(blocks, own, Moving(t), Cached(t, c), |run|);
    GeometryMove(spans, roles, own, run, Cached(t, c));
    RunNotUser(blocks, own, Moving(t), run);
    HeldMove(spans, roles, v, own, held, run, Cached(t, c));
    CountsOther(spans, roles, uses, blocks, MoveFront(blocks, Moving(t), Cached(t, c), |run|));
  }

  lemma DeliverCore(st: State, a: Aux, st': State, t: Tid, size: nat, c: nat, run: seq<Addr>)
    requires Core(st, a) && StepDeliver(st, st', t) && PcOf(st, t) == Got(size, c) && run == On(st.blocks, Moving(t)) && run != []
    requires forall b :: b in run ==> b in a.own && a.own[b].place == Moving(t) && a.own[b].span in st.pages.spans
                                      && st.pages.spans[a.own[b].span].blockSize == c
    requires size <= c && c >= 1 && On(st.blocks, Cached(t, c)) == [] && |run| < Applies(st.apply, t, c)
    ensures Core(st', a.(own := Delivered(a.own, run, Cached(t, c))))
  {
    hide PagesOk, RolesOk, BinsOk, Placed, GeometryOk, CountsOk, HeldOk, CachesOk, Relocate;
    var b := run[0];
    assert b in run && forall d :: d in run[1..] ==> d in run;
    var own1, blocks1 := Relocate(a.own, [b], User), st.blocks[Moving(t) := run[1..]];
    UserMove(st.pages.spans, a.roles, a.v, st.held, st.uses, st.blocks, a.own, t, b, size);
    assert On(blocks1, Moving(t)) == run[1..];
    RelocatedSpans(a.own, [b], User);
    CacheMove(st.pages.spans, a.roles, a.v, st'.held, st.uses, blocks1, own1, t, c, run[1..]);
    CacheAt(st.blocks, st.apply, t, c);
    CachesOne(st.blocks, st.apply, st'.blocks, st'.apply, t, c);
    CoreMoved(st, a, st', Delivered(a.own, run, Cached(t, c)));
  }

  lemma RelocatedSpans(own: map<Addr, Entry>, moved: seq<Addr>, y: Place)
    ensures Relocate(own, moved, y).Keys == own.Keys
    ensures forall b :: b in own ==> Relocate(own, moved, y)[b].span == own[b].span
  {
  }

  lemma RunSizes(st: State, a: Aux, t: Tid, c: nat)
    requires Safe(st, a) && RunOf(st, a, t, c)
    ensures forall b :: b in On(st.blocks, Moving(t)) ==>
              b in a.own && a.own[b].place == Moving(t) && a.own[b].span in st.pages.spans
              && st.pages.spans[a.own[b].span].blockSize == c
  {
    forall b | b in On(st.blocks, Moving(t))
      ensures b in a.own && a.own[b].place == Moving(t) && a.own[b].span in st.pages.spans
              && st.pages.spans[a.own[b].span].blockSize == c
    {
      ListFacts(st, a, Moving(t), b);
    }
  }

  lemma DeliverRest(st: State, a: Aux, st': State, t: Tid, size: nat, c: nat, run: seq<Addr>)
    requires StepDeliver(st, st', t) && PcOf(st, t) == Got(size, c) && run == On(st.blocks, Moving(t)) && run != []
    ensures forall x :: x != Moving(t) && x != Cached(t, c) ==> On(st'.blocks, x) == On(st.blocks, x)
    ensures On(st'.blocks, Moving(t)) == []
  {
  }

  lemma ArgsDelivered(own: map<Addr, Entry>, run: seq<Addr>, t: Tid, c: nat, pc: Pc)
    requires ArgsOk(own, t, pc) && !pc.Freeing? && !pc.FreeSmall? && run != []
    ensures ArgsOk(Delivered(own, run, Cached(t, c)), t, Idle)
  {
  }

  lemma DeliveredFrame(own: map<Addr, Entry>, run: seq<Addr>, y: Place)
    requires run != []
    ensures Delivered(own, run, y).Keys == own.Keys
    ensures forall b :: b in own ==> if b in run then Delivered(own, run, y)[b].place in {y, User} else Delivered(own, run, y)[b] == own[b]
  {
  }

  lemma DeliverKeeps(st: State, a: Aux, st': State, t: Tid) returns (a': Aux)
    requires Safe(st, a) && StepDeliver(st, st', t)
    ensures Safe(st', a')
  {
    hide Safe, ArgsOk, Delivered, Core, Placed, LocksOk, Local, OnlyThread, RoundUp, MoveFront;
    CoreOf(st, a, t);
    match PcOf(st, t)
    case Got(size, c) =>
      var run := On(st.blocks, Moving(t));
      a' := a.(own := Delivered(a.own, run, Cached(t, c)));
      RunSizes(st, a, t, c);
      ClassOfRequest(size);
      DeliverCore(st, a, st', t, size, c, run);
      DeliverRest(st, a, st', t, size, c, run);
      NoLockMoved(st, st', t);
      DeliveredFrame(a.own, run, Cached(t, c));
      LocalMoved(st, a, st', a'.own, t);
      ArgsDelivered(a.own, run, t, c, PcOf(st, t));
      Assemble(st, a, st', a', t);
  }

  // ----- a carved span enters its bin -----------------------------------------------

  /** The blocks of a span that is in no bin are on no list. */
  lemma ChainIsNew(st: State, a: Aux, p: Ptr, t: Tid)
    requires Core(st, a) && p in a.roles && a.roles[p] == Private(t) && p in st.pages.spans
    requires st.pages.spans[p].blockSize >= 1
    ensures forall b :: b in AllBlocks(st.pages.spans[p]) ==>
              b !in a.own && b / PAGE in a.v.own && a.v.own[b / PAGE] == p
  {
    hide PoolOk, BucketsOk, MarksOk, TagsOk, RolesOk, BinsOk, Placed, CountsOk, HeldOk, CachesOk;
    var s := st.pages.spans[p];
    AllBlocksExact(s);
    forall b | b in AllBlocks(s)
      ensures b !in a.own && b / PAGE in a.v.own && a.v.own[b / PAGE] == p
    {
      BlockInside(s, b);
      if b in a.own {
        BlockInside(st.pages.spans[a.own[b].span], b);
      }
    }
  }

  lemma InsertGeometry(spans: map<Ptr, Span>, roles: map<Ptr, Role>, own: map<Addr, Entry>, p: Ptr, c: nat)
    requires GeometryOk(spans, roles, own) && p in spans && p in roles && !roles[p].InBin? && spans[p].blockSize >= 1
    requires forall b :: b in AllBlocks(spans[p]) ==> b !in own
    ensures GeometryOk(spans, roles[p := InBin(c)], AddEntries(own, AllBlocks(spans[p]), p))
  {
    AllBlocksExact(spans[p]);
  }

  lemma InsertBins(bins: map<nat, seq<Ptr>>, roles: map<Ptr, Role>, p: Ptr, c: nat, bin: seq<Ptr>)
    requires BinsOk(bins, roles) && p in roles && !roles[p].InBin? && bin == if c in bins then bins[c] else []
    ensures BinsOk(bins[c := [p] + bin], roles[p := InBin(c)])
  {
    PushNoDup(bin, p);
  }

  lemma InsertHeld(spans: map<Ptr, Span>, roles: map<Ptr, Role>, v: View, own: map<Addr, Entry>, held: map<Addr, nat>,
                   p: Ptr, c: nat, t: Tid, chain: seq<Addr>)
    requires HeldOk(spans, roles, v, own, held) && p in roles && roles[p] == Private(t)
    requires forall b :: b in chain ==> b !in own && b / PAGE in v.own && v.own[b / PAGE] == p
    ensures HeldOk(spans, roles[p := InBin(c)], v, AddEntries(own, chain, p), held)
  {
    forall d | d in held
      ensures HeldAs(spans, roles[p := InBin(c)], v, AddEntries(own, chain, p), d, held[d])
    {
      assert HeldAs(spans, roles, v, own, d, held[d]);
    }
  }

  lemma InsertCounts(spans: map<Ptr, Span>, roles: map<Ptr, Role>, uses: map<Ptr, nat>, blocks: map<Place, seq<Addr>>,
                     p: Ptr, c: nat)
    requires CountsOk(spans, roles, uses, blocks) && p in roles && !roles[p].InBin? && p in spans && spans[p].blockSize >= 1
    ensures CountsOk(spans, roles[p := InBin(c)], uses, blocks[Home(p) := AllBlocks(spans[p])])
    ensures On(blocks, Home(p)) == []
  {
  }

  lemma InsertCore(st: State, a: Aux, st': State, t: Tid, size: nat, c: nat, k: nat, p: Ptr, chain: seq<Addr>)
    requires Core(st, a) && StepInsert(st, st', t) && PcOf(st, t) == Carved(size, c, k, p, chain)
    requires OwnsSpan(a, t, p) && p in st.pages.spans && IsSpanOf(st.pages.spans[p], c) && chain == AllBlocks(st.pages.spans[p])
    ensures Core(st', a.(roles := a.roles[p := InBin(c)], own := AddEntries(a.own, chain, p)))
    ensures On(st'.blocks, Home(p)) != []
    ensures forall b :: b in chain ==> b !in a.own && b / PAGE in a.v.own && a.v.own[b / PAGE] == p
    ensures st'.pages == st.pages && forall x :: x != Home(p) ==> On(st'.blocks, x) == On(st.blocks, x)
  {
    hide PagesOk, BinsOk, Placed, GeometryOk, CountsOk, HeldOk, CachesOk, PageThreshold, AllBlocks;
    var s := st.pages.spans[p];
    ChainIsNew(st, a, p, t);
    AllBlocksExact(s);
    InsertCounts(st.pages.spans, a.roles, st.uses, st.blocks, p, c);
    InsertGeometry(st.pages.spans, a.roles, a.own, p, c);
    InsertBins(st.bins, a.roles, p, c, Bin(st, c));
    InsertHeld(st.pages.spans, a.roles, a.v, a.own, st.held, p, c, t, chain);
    AddPlaced(st.blocks, a.own, p, chain);
    CachesSame(st.blocks, st'.blocks, st.apply);
    PageThresholdFits(c);
    AtLeastOne(s.count * PAGE, c);
  }

  lemma AtLeastOne(bytes: nat, c: nat)
    requires 1 <= c <= bytes
    ensures bytes / c >= 1
  {
    Bits.QuotientAtLeast(bytes, c, 1);
  }

  lemma NoBlocksOf(st: State, a: Aux, p: Ptr)
    requires Core(st, a) && p in a.roles && !a.roles[p].InBin?
    ensures forall b :: b in a.own ==> a.own[b].span != p
  {
  }

  lemma InsertLocal(st: State, a: Aux, st': State, t: Tid, p: Ptr, c: nat, chain: seq<Addr>)
    requires OnlyThread(st, st', t) && OwnsSpan(a, t, p) && forall b :: b in a.own ==> a.own[b].span != p
    requires forall b :: b in chain ==> b !in a.own && b / PAGE in a.v.own && a.v.own[b / PAGE] == p
    requires st'.pages == st.pages && forall x :: x != Home(p) ==> On(st'.blocks, x) == On(st.blocks, x)
    ensures Local(st, a, st', a.(roles := a.roles[p := InBin(c)], own := AddEntries(a.own, chain, p)), t)
  {
  }

  lemma InsertKeeps(st: State, a: Aux, st': State, t: Tid) returns (a': Aux)
    requires Safe(st, a) && StepInsert(st, st', t)
    ensures Safe(st', a')
  {
    hide Safe, ArgsOk, Core, Placed, LocksOk, Local, OnlyThread, AllBlocks, PageThreshold, RoundUp, BlockThreshold;
    CoreOf(st, a, t);
    match PcOf(st, t)
    case Carved(size, c, k, p, chain) =>
      a' := a.(roles := a.roles[p := InBin(c)], own := AddEntries(a.own, chain, p));
      InsertCore(st, a, st', t, size, c, k, p, chain);
      LockTaken(st, st', t, c);
      NoBlocksOf(st, a, p);
      InsertLocal(st, a, st', t, p, c, chain);
      ArgsShrink(a.own, a'.own, t, PcOf(st, t), PcOf(st', t));
      Assemble(st, a, st', a', t);
  }
}
