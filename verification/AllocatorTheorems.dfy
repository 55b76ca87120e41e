/** What every run of the allocator guarantees, in terms of its state alone. */
module AllocatorTheorems {
  import opened Common
  import opened SizeClasses
  import opened PageModel
  import opened PageInvariant
  import opened PageCreate
  import opened PageRecover
  import opened Allocator
  import opened AllocatorBlocks
  import opened AllocatorSafety
  import opened AllocatorSteps
  import opened AllocatorFree
  import opened AllocatorReturn
  import opened AllocatorPages

  // ----- the invariant along a run --------------------------------------------------

  lemma InitCore()
    ensures Core(Init(), Aux(View(map[], {}), map[], map[]))
  {
    hide Good;
    EmptyIsGood();
    forall t: Tid, c: nat | c >= 1
      ensures |On(Init().blocks, Cached(t, c))| < Applies(Init().apply, t, c) <= BlockThreshold(c) + 1
    {
      BlockThresholdRange(c);
    }
  }

  lemma SafeFrom(st: State, a: Aux)
    requires Core(st, a) && LocksOk(st) && forall t: Tid :: PcOk(st, a, t) && ArgsOk(a.own, t, PcOf(st, t))
    ensures Safe(st, a)
  {
    hide PagesOk, RolesOk, BinsOk, Placed, GeometryOk, CountsOk, HeldOk, CachesOk, LocksOk, PcOk, ArgsOk;
  }

  lemma InitSafe() returns (a: Aux)
    ensures Safe(Init(), a)
  {
    hide Core;
    a := Aux(View(map[], {}), map[], map[]);
    InitCore();
    forall t: Tid
      ensures PcOk(Init(), a, t) && ArgsOk(a.own, t, PcOf(Init(), t))
    {
    }
    SafeFrom(Init(), a);
  }

  /** Every step of every thread keeps the invariant. */
  lemma StepKeeps(st: State, a: Aux, st': State, l: Label) returns (a': Aux)
    requires Safe(st, a) && Step(st, st', l)
    ensures Safe(st', a')
  {
    hide Safe, StepMallocHit, StepMallocMiss, StepScan, StepTakeRun, StepFetchSpan, StepCarve, StepInsert, StepDeliver,
      StepMallocBig, StepFree, StepLookup, StepPushLocal, StepReleaseBig, StepLockBin, StepReturnOne, StepReleaseSpan, StepDone;
    a' := a;
    match l
    case MallocHit(t, size) => a' := MallocHitKeeps(st, a, st', t, size);
    case MallocMiss(t, size) => MallocMissKeeps(st, a, st', t, size);
    case Scan(t) => ScanKeeps(st, a, st', t);
    case TakeRun(t) => a' := TakeRunKeeps(st, a, st', t);
    case FetchSpan(t, os) => a' := FetchSpanKeeps(st, a, st', t, os);
    case Carve(t) => CarveKeeps(st, a, st', t);
    case Insert(t) => a' := InsertKeeps(st, a, st', t);
    case Deliver(t) => a' := DeliverKeeps(st, a, st', t);
    case MallocBig(t, size, os) => a' := MallocBigKeeps(st, a, st', t, size, os);
    case Free(t, b) => a' := FreeKeeps(st, a, st', t, b);
    case Lookup(t) => LookupKeeps(st, a, st', t);
    case PushLocal(t) => a' := PushLocalKeeps(st, a, st', t);
    case ReleaseBig(t) => a' := ReleaseBigKeeps(st, a, st', t);
    case LockBin(t) => LockBinKeeps(st, a, st', t);
    case ReturnOne(t) => a' := ReturnOneKeeps(st, a, st', t);
    case ReleaseSpan(t) => a' := ReleaseSpanKeeps(st, a, st', t);
    case Done(t) => DoneKeeps(st, a, st', t);
  }

  lemma {:induction false} RunSafe(states: seq<State>, labels: seq<Label>) returns (a: Aux)
    requires Run(states, labels)
    ensures Safe(states[|labels|], a)
    decreases |labels|
  {
    hide Safe, Step;
    if labels == [] {
      a := InitSafe();
    } else {
      var n := |labels| - 1;
      var a0 := RunSafe(states[..n + 1], labels[..n]);
      a := StepKeeps(states[n], a0, states[n + 1], labels[n]);
    }
  }

  ghost predicate Reachable(st: State) {
    exists states: seq<State>, labels: seq<Label> :: EndsIn(states, labels, st)
  }

  ghost predicate EndsIn(states: seq<State>, labels: seq<Label>, st: State) {
    Run(states, labels) && states[|labels|] == st
  }

  lemma ReachableSafe(st: State) returns (a: Aux)
    requires Reachable(st)
    ensures Safe(st, a)
  {
    hide Safe, Run;
    var states: seq<State>, labels: seq<Label> :| EndsIn(states, labels, st);
    a := RunSafe(states, labels);
  }

  // ----- live allocations -----------------------------------------------------------

  predicate Apart(x: Addr, n: nat, y: Addr, m: nat) {
    x + n <= y || y + m <= x
  }

  lemma SafePages(st: State, a: Aux)
    requires Safe(st, a)
    ensures PagesOk(st.pages, st.mapped, a.v)
  {
  }

  lemma SpansApart(pages: Pages, mapped: set<Page>, v: View, p: Ptr, q: Ptr)
    requires PagesOk(pages, mapped, v) && p in pages.spans && q in pages.spans && p != q
    ensures Apart(Base(pages.spans[p]), pages.spans[p].count * PAGE, Base(pages.spans[q]), pages.spans[q].count * PAGE)
  {
    hide PoolOk, BucketsOk, TagsOk;
    var a, b := pages.spans[p], pages.spans[q];
    assert Owns(a, a.first) && Owns(b, b.first);
    assert !(Owns(a, b.first)) && !(Owns(b, a.first));
    assert a.first + a.count <= b.first || b.first + b.count <= a.first;
  }

  /** The span a live allocation lies in, and the room it has there. */
  ghost predicate LiesIn(st: State, a: Aux, b: Addr, p: Ptr, room: nat) {
    && p in st.pages.spans && b in st.held && st.held[b] <= room
    && Base(st.pages.spans[p]) <= b && b + room <= Base(st.pages.spans[p]) + st.pages.spans[p].count * PAGE
    && p in a.roles
    && if a.roles[p].InBin? then IsBlock(st.pages.spans[p], b) && room == st.pages.spans[p].blockSize
       else a.roles[p].Direct? && b == Base(st.pages.spans[p])
  }

  lemma HeldLies(st: State, a: Aux, b: Addr) returns (p: Ptr, room: nat)
    requires Safe(st, a) && b in st.held
    ensures LiesIn(st, a, b, p, room)
  {
    hide Safe, Core;
    CoreOf(st, a, 0);
    HeldFacts(st, a, b);
    if HeldSmall(st.pages.spans, a.own, b, st.held[b]) {
      p := a.own[b].span;
      room := st.pages.spans[p].blockSize;
      BlockLookup(st, a, b);
      BlockOf(st, a, b);
      BlockInside(st.pages.spans[p], b);
    } else {
      p := a.v.own[b / PAGE];
      room := st.pages.spans[p].count * PAGE;
    }
  }

  lemma BlockOf(st: State, a: Aux, b: Addr)
    requires Core(st, a) && b in a.own
    ensures a.own[b].span in a.roles && a.roles[a.own[b].span].InBin? && a.own[b].span in st.pages.spans
    ensures IsBlock(st.pages.spans[a.own[b].span], b)
  {
  }

  /** No two live allocations overlap, whatever the threads did so far. */
  lemma LiveAllocationsApart(st: State, b: Addr, d: Addr)
    requires Reachable(st) && b in st.held && d in st.held && b != d
    ensures Apart(b, st.held[b], d, st.held[d])
  {
    hide Safe, Reachable;
    var a := ReachableSafe(st);
    var p, n := HeldLies(st, a, b);
    var q, m := HeldLies(st, a, d);
    if p != q {
      SafePages(st, a);
      SpansApart(st.pages, st.mapped, a.v, p, q);
    } else if a.roles[p].InBin? {
      BlocksDisjoint(st.pages.spans[p], b, d);
    }
  }

  lemma PageOfSpan(pages: Pages, mapped: set<Page>, v: View, p: Ptr, x: Addr)
    requires PagesOk(pages, mapped, v) && p in pages.spans
    requires Base(pages.spans[p]) <= x < Base(pages.spans[p]) + pages.spans[p].count * PAGE
    ensures x / PAGE in mapped && x >= PAGE
  {
    hide PoolOk, BucketsOk, TagsOk;
    PageOf(pages.spans[p].first, pages.spans[p].count, x);
    assert Owns(pages.spans[p], x / PAGE);
  }

  /** Every byte of a live allocation lies on a page that is held from the OS and is not page 0. */
  lemma LiveAllocationsMapped(st: State, b: Addr, x: Addr)
    requires Reachable(st) && b in st.held && b <= x < b + st.held[b]
    ensures x / PAGE in st.mapped && x >= PAGE
  {
    hide Safe, Reachable;
    var a := ReachableSafe(st);
    var p, n := HeldLies(st, a, b);
    SafePages(st, a);
    PageOfSpan(st.pages, st.mapped, a.v, p, x);
  }

  // ----- blocks and spans -----------------------------------------------------------

  /** Block b is at place x, read off the state. */
  ghost predicate IsAt(st: State, b: Addr, x: Place) {
    match x
    case User => b in st.held
    case Argument(t) =>
      (match PcOf(st, t)
       case Freeing(d) => d == b
       case FreeSmall(d, _) => d == b
       case _ => false)
    case _ => b in On(st.blocks, x)
  }

  lemma ListIsPlace(blocks: map<Place, seq<Addr>>, own: map<Addr, Entry>, b: Addr, x: Place)
    requires Placed(blocks, own) && b in own && IsList(x)
    ensures b in On(blocks, x) <==> own[b].place == x
  {
  }

  lemma PlaceIsAt(st: State, a: Aux, b: Addr, x: Place)
    requires Safe(st, a) && b in a.own
    ensures IsAt(st, b, x) <==> a.own[b].place == x
  {
    hide Safe, Core, Placed;
    match x
    case User =>
      CoreOf(st, a, 0);
      if b in st.held { HeldFacts(st, a, b); }
      if a.own[b].place == User { UserHeld(st, a, b); }
    case Argument(t) => CoreOf(st, a, t);
    case _ =>
      CoreOf(st, a, 0);
      ListIsPlace(st.blocks, a.own, b, x);
  }

  lemma UserHeld(st: State, a: Aux, b: Addr)
    requires Core(st, a) && b in a.own && a.own[b].place == User
    ensures b in st.held
  {
  }

  /** What a user writes into a live allocation misses every free block, wherever that is: the next pointers that
      the lists keep in the free blocks stay. */
  lemma FreeBlocksApart(st: State, b: Addr, x: Place, d: Addr) returns (p: Ptr)
    requires Reachable(st) && b in st.held && d in On(st.blocks, x)
    ensures p in st.pages.spans && IsBlock(st.pages.spans[p], d)
    ensures Apart(b, st.held[b], d, st.pages.spans[p].blockSize)
  {
    hide Safe, Reachable, IsBlock, Core;
    var a := ReachableSafe(st);
    ListFacts(st, a, x, d);
    p := a.own[d].span;
    var q, room := HeldLies(st, a, b);
    if p != q {
      SafePages(st, a);
      SpansApart(st.pages, st.mapped, a.v, p, q);
      BlockInside(st.pages.spans[p], d);
    } else {
      assert IsAt(st, b, User) && IsAt(st, d, x);
      PlaceIsAt(st, a, d, User);
      BlocksDisjoint(st.pages.spans[p], b, d);
    }
  }

  lemma BinBlock(st: State, a: Aux, c: nat, p: Ptr, b: Addr)
    requires Core(st, a) && p in Bin(st, c) && p in st.pages.spans && IsBlock(st.pages.spans[p], b)
    ensures b in a.own && a.own[b].span == p
  {
  }

  lemma BinSpan(st: State, a: Aux, c: nat, p: Ptr)
    requires Core(st, a) && p in Bin(st, c)
    ensures p in st.pages.spans && p in a.roles && a.roles[p] == InBin(c) && p !in a.v.linked
    ensures IsSpanOf(st.pages.spans[p], c)
    ensures Uses(st.uses, p) + |On(st.blocks, Home(p))| == BlockCount(st.pages.spans[p])
    ensures NoDup(On(st.blocks, Home(p)))
  {
  }

  /** Every block of every carved span is in exactly one place: on its span's chain, on one thread's
      free list, in one thread's hands, with the user, or being freed by one thread. */
  lemma EveryBlockOnce(st: State, c: nat, p: Ptr, b: Addr) returns (x: Place)
    requires Reachable(st) && p in Bin(st, c)
    ensures p in st.pages.spans
    ensures IsBlock(st.pages.spans[p], b) ==>
              && IsAt(st, b, x) && (forall y :: IsAt(st, b, y) ==> y == x)
              && (x.Home? ==> x.p == p) && (x.Cached? ==> x.c == c)
  {
    hide Safe, Reachable, Core, IsAt;
    var a := ReachableSafe(st);
    CoreOf(st, a, 0);
    BinSpan(st, a, c, p);
    x := User;
    if IsBlock(st.pages.spans[p], b) {
      BinBlock(st, a, c, p, b);
      x := a.own[b].place;
      forall y
        ensures IsAt(st, b, y) <==> y == x
      {
        PlaceIsAt(st, a, b, y);
      }
      PlaceFits(st, a, b);
    }
  }

  lemma PlaceFits(st: State, a: Aux, b: Addr)
    requires Core(st, a) && b in a.own
    ensures var e := a.own[b];
            && e.span in st.pages.spans && (e.place.Home? ==> e.place.p == e.span)
            && (e.place.Cached? ==> e.place.c == st.pages.spans[e.span].blockSize)
  {
  }

  /** Lists have no repetitions, so a block that is on one is there once. */
  lemma ListsDuplicateFree(st: State, x: Place)
    requires Reachable(st)
    ensures NoDup(On(st.blocks, x))
  {
    hide Safe, Reachable;
    var a := ReachableSafe(st);
    CoreOf(st, a, 0);
  }

  /** Span accounting: the chain of a span in a bin holds distinct blocks of it, and together with the
      use count they make up all its blocks. */
  lemma SpanAccounting(st: State, c: nat, p: Ptr)
    requires Reachable(st) && p in Bin(st, c)
    ensures p in st.pages.spans && IsSpanOf(st.pages.spans[p], c)
    ensures Uses(st.uses, p) + |On(st.blocks, Home(p))| == BlockCount(st.pages.spans[p])
    ensures NoDup(On(st.blocks, Home(p))) && forall b :: b in On(st.blocks, Home(p)) ==> IsBlock(st.pages.spans[p], b)
  {
    hide Safe, Reachable, Core;
    var a := ReachableSafe(st);
    CoreOf(st, a, 0);
    BinSpan(st, a, c, p);
    forall b | b in On(st.blocks, Home(p))
      ensures IsBlock(st.pages.spans[p], b)
    {
      ListFacts(st, a, Home(p), b);
    }
  }

  /** Slow start: a free list is shorter than its apply count and never longer than the threshold. */
  lemma CachesBounded(st: State, t: Tid, c: nat)
    requires Reachable(st) && c >= 1
    ensures |On(st.blocks, Cached(t, c))| < Applies(st.apply, t, c) <= BlockThreshold(c) + 1
    ensures |On(st.blocks, Cached(t, c))| <= BlockThreshold(c)
  {
    hide Safe, Reachable;
    var a := ReachableSafe(st);
    CoreOf(st, a, 0);
    CachesOf(st, a);
  }

  /** The page cache stays good in every run of the whole allocator, for exactly the mapped pages. */
  lemma PagesStayGood(st: State) returns (v: View)
    requires Reachable(st)
    ensures Good(st.pages, v) && v.own.Keys == st.mapped
  {
    hide Safe, Reachable;
    var a := ReachableSafe(st);
    CoreOf(st, a, 0);
    PartsOf(st, a);
    v := a.v;
  }

  // ----- spans in use ---------------------------------------------------------------

  function ThreadOf(l: Label): Tid { l.t }

  /** The span that thread t is giving back, if that is what it does next. */
  predicate GivesUp(st: State, t: Tid, p: Ptr) {
    match PcOf(st, t)
    case FreeBig(q) => q == p
    case GiveBack(_, q) => q == p
    case _ => false
  }

  lemma MarkedIsNotLinked(pages: Pages, mapped: set<Page>, v: View, p: Ptr)
    requires PagesOk(pages, mapped, v) && p in pages.spans
    ensures pages.spans[p].inUse <==> p !in v.linked
  {
  }

  lemma CreateLeaves(st: State, a: Aux, n: nat, os: Page, blockSize: nat, pages1: Pages, q: Ptr, p: Ptr)
    requires PagesOk(st.pages, st.mapped, a.v) && n >= 1 && HeadsOk(st.pages) && PoolOk(st.pages)
    requires OsAnswers(st, os, OsPages(st.pages, n)) && (pages1, q) == Create(st.pages, n, os) && q in pages1.spans
    requires p in st.pages.spans && st.pages.spans[p].inUse
    ensures p in Mark(pages1, q, blockSize).spans && Mark(pages1, q, blockSize).spans[p] == st.pages.spans[p]
  {
    assert |st.pages.lists| == MAX_PAGE_COUNT;
    hide PagesOk, PoolOk, HeadsOk, Create, OsPages, Mark;
    MarkedIsNotLinked(st.pages, st.mapped, a.v, p);
    var v' := Obtain(st.pages, st.mapped, a.v, n, os, blockSize, pages1, q, st.mapped + Range(os, OsPages(st.pages, n)));
  }

  lemma RecoverLeaves(st: State, a: Aux, t: Tid, q: Ptr, p: Ptr)
    requires RolesOk(st.pages.spans, a.v.linked, a.roles) && PagesOk(st.pages, st.mapped, a.v)
    requires OwnsSpan(a, t, q) && q in st.pages.spans && p in st.pages.spans && st.pages.spans[p].inUse && p != q
    ensures p in RecoverClean(st.pages, q).spans && RecoverClean(st.pages, q).spans[p] == st.pages.spans[p]
  {
    hide RecoverClean, Good;
    assert Good(st.pages, a.v);
    hide PagesOk;
    MarkedIsNotLinked(st.pages, st.mapped, a.v, p);
    var v' := RecoverCleanKeeps(st.pages, a.v, q, RecoverClean(st.pages, q));
  }

  lemma FetchLeaves(st: State, a: Aux, st': State, t: Tid, os: Page, p: Ptr)
    requires PagesOk(st.pages, st.mapped, a.v) && StepFetchSpan(st, st', t, os)
    requires p in st.pages.spans && st.pages.spans[p].inUse
    ensures p in st'.pages.spans && st'.pages.spans[p] == st.pages.spans[p]
  {
    hide PagesOk, PoolOk, HeadsOk, Create, OsPages, Mark, PageThreshold, OsAnswers;
    match PcOf(st, t)
    case Fetch(size, c, k) =>
      var (pages1, q) := Create(st.pages, PageThreshold(c), os);
      CreateLeaves(st, a, PageThreshold(c), os, c, pages1, q, p);
  }

  lemma BigLeaves(st: State, a: Aux, st': State, t: Tid, size: nat, os: Page, p: Ptr)
    requires PagesOk(st.pages, st.mapped, a.v) && StepMallocBig(st, st', t, size, os)
    requires p in st.pages.spans && st.pages.spans[p].inUse
    ensures p in st'.pages.spans && st'.pages.spans[p] == st.pages.spans[p]
  {
    hide PagesOk, PoolOk, HeadsOk, Create, OsPages, Mark, RoundUp, OsAnswers;
    var (pages1, q) := Create(st.pages, RoundUp(size) / PAGE, os);
    CreateLeaves(st, a, RoundUp(size) / PAGE, os, MAX_ALLOC_BYTES + 1, pages1, q, p);
  }

  lemma ReleaseBigLeaves(st: State, a: Aux, st': State, t: Tid, p: Ptr)
    requires RolesOk(st.pages.spans, a.v.linked, a.roles) && PagesOk(st.pages, st.mapped, a.v) && PcOk(st, a, t)
    requires StepReleaseBig(st, st', t) && p in st.pages.spans && st.pages.spans[p].inUse && !GivesUp(st, t, p)
    ensures p in st'.pages.spans && st'.pages.spans[p] == st.pages.spans[p]
  {
    hide PagesOk, RolesOk, RecoverClean;
    RecoverLeaves(st, a, t, PcOf(st, t).p, p);
  }

  lemma ReleaseSpanLeaves(st: State, a: Aux, st': State, t: Tid, p: Ptr)
    requires RolesOk(st.pages.spans, a.v.linked, a.roles) && PagesOk(st.pages, st.mapped, a.v) && PcOk(st, a, t)
    requires StepReleaseSpan(st, st', t) && p in st.pages.spans && st.pages.spans[p].inUse && !GivesUp(st, t, p)
    ensures p in st'.pages.spans && st'.pages.spans[p] == st.pages.spans[p]
  {
    hide PagesOk, RolesOk, RecoverClean, RunOf;
    RecoverLeaves(st, a, t, PcOf(st, t).p, p);
  }

  predicate ToPageCache(l: Label) {
    l.FetchSpan? || l.MallocBig? || l.ReleaseBig? || l.ReleaseSpan?
  }

  lemma PagesAlone(st: State, st': State, l: Label)
    requires Step(st, st', l) && !ToPageCache(l)
    ensures st'.pages == st.pages
  {
    hide StepTakeRun, StepDeliver, StepPushLocal, StepReturnOne, RoundUp, BlockThreshold, Usable;
    match l
    case TakeRun(t) => TakeRunAlone(st, st', t);
    case Deliver(t) => DeliverAlone(st, st', t);
    case PushLocal(t) => PushLocalAlone(st, st', t);
    case ReturnOne(t) => ReturnOneAlone(st, st', t);
    case _ =>
  }

  lemma TakeRunAlone(st: State, st': State, t: Tid)
    requires StepTakeRun(st, st', t)
    ensures st'.pages == st.pages
  {
  }

  lemma DeliverAlone(st: State, st': State, t: Tid)
    requires StepDeliver(st, st', t)
    ensures st'.pages == st.pages
  {
  }

  lemma PushLocalAlone(st: State, st': State, t: Tid)
    requires StepPushLocal(st, st', t)
    ensures st'.pages == st.pages
  {
  }

  lemma ReturnOneAlone(st: State, st': State, t: Tid)
    requires StepReturnOne(st, st', t)
    ensures st'.pages == st.pages
  {
  }

  /** A span that is in use is not changed by any step, merges of other threads included, unless its
      owner gives it back. */
  lemma InUseUndisturbed(st: State, st': State, l: Label, p: Ptr)
    requires Reachable(st) && Step(st, st', l)
    requires p in st.pages.spans && st.pages.spans[p].inUse && !GivesUp(st, ThreadOf(l), p)
    ensures p in st'.pages.spans && st'.pages.spans[p] == st.pages.spans[p]
  {
    hide Safe, Reachable, Core, PagesOk, RolesOk, Placed, LocksOk, ArgsOk, PcOk, StepMallocHit, StepMallocMiss, StepScan,
      StepTakeRun, StepFetchSpan, StepCarve, StepInsert, StepDeliver, StepMallocBig, StepFree, StepLookup, StepPushLocal,
      StepReleaseBig, StepLockBin, StepReturnOne, StepReleaseSpan, StepDone;
    var a := ReachableSafe(st);
    CoreOf(st, a, ThreadOf(l));
    PartsOf(st, a);
    match l
    case FetchSpan(t, os) => FetchLeaves(st, a, st', t, os, p);
    case MallocBig(t, size, os) => BigLeaves(st, a, st', t, size, os, p);
    case ReleaseBig(t) => ReleaseBigLeaves(st, a, st', t, p);
    case ReleaseSpan(t) => ReleaseSpanLeaves(st, a, st', t, p);
    case _ => PagesAlone(st, st', l);
  }

  /** While thread t carves a span, no other thread can reach or change it. */
  lemma CarvingIsPrivate(st: State, st': State, l: Label, t: Tid, p: Ptr)
    requires Reachable(st) && Step(st, st', l) && ThreadOf(l) != t
    requires (PcOf(st, t).Carving? || PcOf(st, t).Carved?) && PcOf(st, t).p == p
    ensures p in st.pages.spans && Uses(st.uses, p) == 0 && st.pages.spans[p].inUse
    ensures p in st'.pages.spans && st'.pages.spans[p] == st.pages.spans[p]
    ensures forall c :: p !in Bin(st, c)
  {
    hide Safe, Reachable, Core, Step, Placed, LocksOk, ArgsOk, Asking, PageThreshold, PagesOk, RolesOk;
    var a := ReachableSafe(st);
    CoreOf(st, a, t);
    PartsOf(st, a);
    PrivateFacts(st, a, t, p);
    assert !GivesUp(st, ThreadOf(l), p) by { CoreOf(st, a, ThreadOf(l)); }
    InUseUndisturbed(st, st', l, p);
  }

  lemma PrivateFacts(st: State, a: Aux, t: Tid, p: Ptr)
    requires Core(st, a) && OwnsSpan(a, t, p)
    ensures p in st.pages.spans && st.pages.spans[p].inUse && Uses(st.uses, p) == 0 && forall c :: p !in Bin(st, c)
  {
    hide Placed, GeometryOk, HeldOk, CachesOk, PagesOk;
    assert PagesOk(st.pages, st.mapped, a.v);
    assert p in st.pages.spans && p !in a.v.linked;
    MarkedIsNotLinked(st.pages, st.mapped, a.v, p);
  }
}
