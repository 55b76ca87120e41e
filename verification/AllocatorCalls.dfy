/** What each step of a call achieves, for every reachable state and whatever the other threads do: which tier serves
    a request, how many blocks move, where a freed block goes. */
module AllocatorCalls {
  import opened Common
  import opened SizeClasses
  import opened PageModel
  import opened PageInvariant
  import opened PageCreate
  import opened PageRecover
  import opened PageIntervals
  import opened Allocator
  import opened AllocatorBlocks
  import opened AllocatorSafety
  import opened AllocatorSteps
  import opened AllocatorFree
  import opened AllocatorReturn
  import opened AllocatorPages
  import opened AllocatorTheorems
  import R = PageRuns

  /** The least class that holds the request. */
  ghost predicate LeastClass(c: nat, size: nat) {
    IsClass(c) && size <= c && forall d :: IsClass(d) && size <= d ==> c <= d
  }

  lemma RoundUpIsLeast(size: nat)
    requires 1 <= size <= MAX_ALLOC_BYTES
    ensures LeastClass(RoundUp(size), size)
  {
    hide RoundUp, IsClass;
    assert IsClass(MAX_ALLOC_BYTES) by { LargestClass(); }
    RoundUpIsLeastClass(size, MAX_ALLOC_BYTES);
    forall d | IsClass(d) && size <= d
      ensures RoundUp(size) <= d
    {
      RoundUpIsLeastClass(size, d);
    }
  }

  lemma LargestClass()
    ensures IsClass(MAX_ALLOC_BYTES)
  {
    assert ClassSize(207) == MAX_ALLOC_BYTES;
  }

  /** Lists other than those named are as before. */
  ghost predicate OnlyLists(blocks: map<Place, seq<Addr>>, blocks': map<Place, seq<Addr>>, xs: set<Place>) {
    forall x :: x !in xs ==> On(blocks', x) == On(blocks, x)
  }

  // ----- allocating ------------------------------------------------------------------------

  /** A request is served from the thread's own list of the least class that fits, if that has a block: the first. */
  lemma HitServes(st: State, st': State, t: Tid, size: nat) returns (c: nat, b: Addr)
    requires Reachable(st) && Step(st, st', MallocHit(t, size))
    ensures PcOf(st, t) == Idle && LeastClass(c, size) && [b] + On(st'.blocks, Cached(t, c)) == On(st.blocks, Cached(t, c))
    ensures b !in st.held && st'.held == st.held[b := size]
    ensures OnlyLists(st.blocks, st'.blocks, {Cached(t, c)}) && st' == st.(blocks := st'.blocks, held := st'.held)
  {
    hide Reachable, RoundUp, LeastClass, Safe;
    RoundUpIsLeast(size);
    c := RoundUp(size);
    b := On(st.blocks, Cached(t, c))[0];
    var a := ReachableSafe(st);
    assert IsAt(st, b, Cached(t, c));
    ListFacts(st, a, Cached(t, c), b) by { hide PageThreshold; }
    PlaceIsAt(st, a, b, User);
  }

  /** Only if that list is empty the central cache is asked, for as many blocks as the apply count says but no more
      than the threshold; the apply count grows by one until it has passed the threshold. */
  lemma MissAsks(st: State, st': State, t: Tid, size: nat) returns (c: nat)
    requires Reachable(st) && Step(st, st', MallocMiss(t, size))
    ensures PcOf(st, t) == Idle && LeastClass(c, size) && On(st.blocks, Cached(t, c)) == []
    ensures PcOf(st', t) == Want(size, c, Min(Applies(st.apply, t, c), BlockThreshold(c)))
    ensures Applies(st'.apply, t, c) == Min(Applies(st.apply, t, c), BlockThreshold(c)) + 1
    ensures st' == st.(pcs := st.pcs[t := PcOf(st', t)], apply := st'.apply)
    ensures forall u: Tid, d: nat :: (u, d) != (t, c) ==> Applies(st'.apply, u, d) == Applies(st.apply, u, d)
  {
    hide Reachable, RoundUp, LeastClass, Safe, BlockThreshold;
    RoundUpIsLeast(size);
    c := RoundUp(size);
    var a := ReachableSafe(st);
    ApplyBound(st, a, t, c);
  }

  lemma ApplyBound(st: State, a: Aux, t: Tid, c: nat)
    requires Safe(st, a) && c >= 1
    ensures Applies(st.apply, t, c) <= BlockThreshold(c) + 1
  {
  }

  /** The page cache is asked exactly if no span of the bin has a block left; otherwise the blocks come from the first
      span that has one, with the bin locked. */
  lemma ScanDecides(st: State, st': State, t: Tid, size: nat, c: nat, k: nat) returns (i: nat)
    requires PcOf(st, t) == Want(size, c, k) && Step(st, st', Scan(t))
    ensures PcOf(st', t).Fetch? <==> forall p :: p in Bin(st, c) ==> On(st.blocks, Home(p)) == []
    ensures PcOf(st', t).Fetch? ==> st' == st.(pcs := st.pcs[t := Fetch(size, c, k)])
    ensures !PcOf(st', t).Fetch? ==>
              && i < |Bin(st, c)| && On(st.blocks, Home(Bin(st, c)[i])) != []
              && (forall j :: 0 <= j < i ==> On(st.blocks, Home(Bin(st, c)[j])) == [])
              && st' == st.(locks := st.locks[c := t], pcs := st.pcs[t := Taking(size, c, k, Bin(st, c)[i])])
  {
    i := Usable(Bin(st, c), st.blocks);
    assert c !in st.locks;
    hide Usable;
  }

  /** The run has as many blocks as were asked for, or all that the span has left; they are the first ones. */
  lemma TakeRunTakes(st: State, st': State, t: Tid, size: nat, c: nat, k: nat, p: Ptr) returns (run: seq<Addr>)
    requires PcOf(st, t) == Taking(size, c, k, p) && Step(st, st', TakeRun(t)) && Reachable(st)
    ensures run + On(st'.blocks, Home(p)) == On(st.blocks, Home(p)) && |run| == Min(k, |On(st.blocks, Home(p))|) && run != []
    ensures On(st'.blocks, Moving(t)) == run && OnlyLists(st.blocks, st'.blocks, {Home(p), Moving(t)})
    ensures Uses(st'.uses, p) == Uses(st.uses, p) + |run| && forall q :: q != p ==> Uses(st'.uses, q) == Uses(st.uses, q)
    ensures st' == st.(blocks := st'.blocks, uses := st'.uses, locks := st.locks - {c}, pcs := st.pcs[t := Got(size, c)])
  {
    hide Reachable, Safe, Core, LocksOk, ArgsOk, Placed, RoundUp, BlockThreshold;
    var a := ReachableSafe(st);
    CoreOf(st, a, t);
    run := On(st.blocks, Home(p))[..Min(k, |On(st.blocks, Home(p))|)];
  }

  /** The pages of a new span for class c: from the best free run, or a new one. */
  lemma FetchGets(st: State, st': State, t: Tid, os: Page, size: nat, c: nat, k: nat) returns (p: Ptr, i: Interval)
    requires Reachable(st) && PcOf(st, t) == Fetch(size, c, k) && Step(st, st', FetchSpan(t, os))
    ensures R.Gets(st.pages, st.mapped, PageThreshold(c), os, c, st'.pages, st'.mapped, p, i)
    ensures st' == st.(pages := st'.pages, mapped := st'.mapped, pcs := st.pcs[t := Carving(size, c, k, p)])
  {
    hide Reachable, Safe, PoolOk, HeadsOk, Create, OsPages, PageThreshold, R.Gets;
    var a := ReachableSafe(st);
    SafePages(st, a);
    var n := PageThreshold(c);
    var r := Create(st.pages, n, os);
    p, i := GetsAlone(st, a, n, os, c, r.0, r.1, st'.pages, st'.mapped);
  }

  lemma GetsAlone(st: State, a: Aux, n: nat, os: Page, blockSize: nat, pages1: Pages, q: Ptr, pages': Pages, mapped': set<Page>)
    returns (p: Ptr, i: Interval)
    requires PagesOk(st.pages, st.mapped, a.v) && n >= 1 && HeadsOk(st.pages) && PoolOk(st.pages)
    requires OsAnswers(st, os, OsPages(st.pages, n)) && (pages1, q) == Create(st.pages, n, os) && q in pages1.spans
    requires pages' == Mark(pages1, q, blockSize) && mapped' == st.mapped + Range(os, OsPages(st.pages, n))
    ensures p == q && R.Gets(st.pages, st.mapped, n, os, blockSize, pages', mapped', p, i)
  {
    hide Good, PoolOk, HeadsOk, Create, OsPages, R.Gets;
    p := q;
    i := R.GetIs(st.pages, a.v, n, os, blockSize, pages', mapped');
  }

  /** A request above 256 KB gets a span of its own, with the least number of pages that hold it. */
  lemma BigServes(st: State, st': State, t: Tid, size: nat, os: Page) returns (n: nat, p: Ptr, i: Interval)
    requires Reachable(st) && Step(st, st', MallocBig(t, size, os))
    ensures PcOf(st, t) == Idle && (n - 1) * PAGE < size <= n * PAGE
    ensures R.Gets(st.pages, st.mapped, n, os, MAX_ALLOC_BYTES + 1, st'.pages, st'.mapped, p, i)
    ensures i.first * PAGE !in st.held && st'.held == st.held[i.first * PAGE := size]
    ensures st' == st.(pages := st'.pages, mapped := st'.mapped, held := st'.held)
  {
    hide Reachable, Safe, PoolOk, HeadsOk, Create, OsPages, RoundUp, R.Gets;
    var a := ReachableSafe(st);
    SafePages(st, a);
    BigPages(size);
    n := RoundUp(size) / PAGE;
    var r := Create(st.pages, n, os);
    p, i := GetsAlone(st, a, n, os, MAX_ALLOC_BYTES + 1, r.0, r.1, st'.pages, st'.mapped);
    BigIsNew(st, a, st', t, size, os, n, p, i);
  }

  lemma BigPages(size: nat)
    requires MAX_ALLOC_BYTES < size && size + PAGE <= SIZE_VALUES
    ensures var n := RoundUp(size) / PAGE; n >= 1 && (n - 1) * PAGE < size <= n * PAGE
  {
    LargeRequestPages(size);
  }

  lemma InUseOf(spans: map<Ptr, Span>, spans': map<Ptr, Span>, p: Ptr, s: Span)
    requires p !in R.UsedOf(spans) && R.UsedOf(spans') == R.UsedOf(spans)[p := s]
    ensures p in spans' && spans'[p] == s
    ensures forall q :: q in spans && spans[q].inUse ==> q != p && q in spans' && spans'[q] == spans[q]
  {
    assert p in R.UsedOf(spans');
    forall q | q in spans && spans[q].inUse
      ensures q != p && q in spans' && spans'[q] == spans[q]
    {
      assert q in R.UsedOf(spans);
      assert q in R.UsedOf(spans');
    }
  }

  lemma LiveSpan(st: State, a: Aux, b: Addr) returns (q: Ptr)
    requires Safe(st, a) && b in st.held
    ensures q in st.pages.spans && st.pages.spans[q].inUse && st.pages.spans[q].count >= 1
    ensures Base(st.pages.spans[q]) <= b < Base(st.pages.spans[q]) + st.pages.spans[q].count * PAGE
  {
    hide Safe, Core, PagesOk, RolesOk, IsBlock;
    var room;
    q, room := HeldLies(st, a, b);
    CoreOf(st, a, 0);
    PartsOf(st, a);
    PositiveCount(st.pages, st.mapped, a.v, q);
    RoleInUse(st.pages, st.mapped, a.v, a.roles, q);
    if a.roles[q].InBin? { BlockSizePositive(st.pages.spans[q], b); }
  }

  lemma BlockSizePositive(s: Span, b: Addr)
    requires IsBlock(s, b)
    ensures s.blockSize >= 1
  {
  }

  lemma RoleInUse(pages: Pages, mapped: set<Page>, v: View, roles: map<Ptr, Role>, q: Ptr)
    requires PagesOk(pages, mapped, v) && RolesOk(pages.spans, v.linked, roles) && q in roles
    ensures q in pages.spans && pages.spans[q].inUse
  {
    hide PoolOk, BucketsOk, OwnersOk, TagsOk;
    assert q in pages.spans.Keys - v.linked;
  }

  lemma BigIsNew(st: State, a: Aux, st': State, t: Tid, size: nat, os: Page, n: nat, p: Ptr, i: Interval)
    requires Safe(st, a) && Step(st, st', MallocBig(t, size, os)) && n >= 1
    requires R.Gets(st.pages, st.mapped, n, os, MAX_ALLOC_BYTES + 1, st'.pages, st'.mapped, p, i)
    ensures p in st'.pages.spans && st'.pages.spans[p].first == i.first && i.first * PAGE !in st.held
  {
    InUseOf(st.pages.spans, st'.pages.spans, p, Span(i.first, n, MAX_ALLOC_BYTES + 1, true));
    hide Safe, Step, R.Gets, PagesOk;
    var b := i.first * PAGE;
    if b in st.held {
      var q := LiveSpan(st, a, b);
      var a' := StepKeeps(st, a, st', MallocBig(t, size, os));
      SafePages(st', a');
      SpansApart(st'.pages, st'.mapped, a'.v, p, q);
    }
  }

  /** The new span is cut into all blocks that fit, in address order. */
  lemma CarveMakes(st: State, st': State, t: Tid, size: nat, c: nat, k: nat, p: Ptr) returns (chain: seq<Addr>)
    requires Reachable(st) && PcOf(st, t) == Carving(size, c, k, p) && Step(st, st', Carve(t))
    ensures p in st.pages.spans && forall b :: b in chain <==> IsBlock(st.pages.spans[p], b)
    ensures forall i, j :: 0 <= i < j < |chain| ==> chain[i] + c <= chain[j]
    ensures st' == st.(pcs := st.pcs[t := Carved(size, c, k, p, chain)])
  {
    hide Reachable, Safe, Core, LocksOk, ArgsOk, Placed, RoundUp, BlockThreshold, PageThreshold, AllBlocks, BlockCount;
    var a := ReachableSafe(st);
    CoreOf(st, a, t);
    chain := AllBlocks(st.pages.spans[p]);
    AllBlocksExact(st.pages.spans[p]);
    AllBlocksAscend(st.pages.spans[p]);
  }

  lemma AllBlocksAscend(s: Span)
    requires s.blockSize >= 1
    ensures var r := AllBlocks(s); forall i, j :: 0 <= i < j < |r| ==> r[i] + s.blockSize <= r[j]
  {
    var r := AllBlocks(s);
    forall i, j | 0 <= i < j < |r|
      ensures r[i] + s.blockSize <= r[j]
    {
      BlocksApart(s, i, j);
    }
  }

  /** The carved span comes first in its bin, with all its blocks at home, and the thread takes from it. */
  lemma InsertShows(st: State, st': State, t: Tid, size: nat, c: nat, k: nat, p: Ptr, chain: seq<Addr>)
    requires Reachable(st) && PcOf(st, t) == Carved(size, c, k, p, chain) && Step(st, st', Insert(t))
    ensures st'.bins == st.bins[c := [p] + Bin(st, c)] && Uses(st'.uses, p) == 0
    ensures p in st.pages.spans && NoDup(chain) && forall b :: b in chain <==> IsBlock(st.pages.spans[p], b)
    ensures On(st'.blocks, Home(p)) == chain && OnlyLists(st.blocks, st'.blocks, {Home(p)})
    ensures st' == st.(bins := st'.bins, blocks := st'.blocks, locks := st.locks[c := t], pcs := st.pcs[t := Taking(size, c, k, p)])
  {
    hide Reachable, Safe, Core, LocksOk, ArgsOk, Placed, RoundUp, BlockThreshold, PageThreshold, AllBlocks, BlockCount;
    var a := ReachableSafe(st);
    CoreOf(st, a, t);
    AllBlocksExact(st.pages.spans[p]);
    UnusedPrivate(st, a, t, p);
  }

  lemma UnusedPrivate(st: State, a: Aux, t: Tid, p: Ptr)
    requires Core(st, a) && OwnsSpan(a, t, p)
    ensures Uses(st.uses, p) == 0
  {
    hide PagesOk, RolesOk, BinsOk, Placed, GeometryOk, HeldOk, CachesOk;
  }

  /** The first block of the run is the answer to the request; the others make up the thread's list. */
  lemma DeliverServes(st: State, st': State, t: Tid, size: nat, c: nat) returns (b: Addr)
    requires Reachable(st) && PcOf(st, t) == Got(size, c) && Step(st, st', Deliver(t))
    ensures LeastClass(c, size) && [b] + On(st'.blocks, Cached(t, c)) == On(st.blocks, Moving(t)) && On(st'.blocks, Moving(t)) == []
    ensures b !in st.held && st'.held == st.held[b := size]
    ensures OnlyLists(st.blocks, st'.blocks, {Cached(t, c), Moving(t)})
    ensures st' == st.(blocks := st'.blocks, held := st'.held, pcs := st.pcs[t := Idle])
  {
    hide Reachable, RoundUp, LeastClass, Safe, Core, LocksOk, ArgsOk, Placed, RunOf, BlockThreshold;
    var a := ReachableSafe(st);
    CoreOf(st, a, t);
    RoundUpIsLeast(size);
    b := On(st.blocks, Moving(t))[0];
    assert IsAt(st, b, Moving(t));
    ListFacts(st, a, Moving(t), b) by { hide PageThreshold; }
    PlaceIsAt(st, a, b, User);
    DeliverLists(st.blocks, Moving(t), Cached(t, c), st'.blocks);
  }

  lemma DeliverLists(blocks: map<Place, seq<Addr>>, x: Place, y: Place, blocks': map<Place, seq<Addr>>)
    requires x != y && On(blocks, x) != [] && On(blocks, y) == []
    requires blocks' == MoveFront(blocks[x := On(blocks, x)[1..]], x, y, |On(blocks, x)| - 1)
    ensures [On(blocks, x)[0]] + On(blocks', y) == On(blocks, x) && On(blocks', x) == [] && OnlyLists(blocks, blocks', {x, y})
  {
    var rest := On(blocks, x)[1..];
    assert On(blocks[x := rest], x) == rest && rest[..|rest|] == rest;
  }

  // ----- freeing -----------------------------------------------------------------------------

  /** The span that is looked up is the one in use that the address lies in; only at the start of a direct span the big
      branch is taken. */
  lemma LookupFinds(st: State, st': State, t: Tid, b: Addr) returns (p: Ptr)
    requires Reachable(st) && PcOf(st, t) == Freeing(b) && Step(st, st', Lookup(t))
    ensures p in st.pages.spans && st.pages.spans[p].inUse
    ensures Base(st.pages.spans[p]) <= b < Base(st.pages.spans[p]) + st.pages.spans[p].count * PAGE
    ensures if exists c :: p in Bin(st, c) then IsBlock(st.pages.spans[p], b) && st' == st.(pcs := st.pcs[t := FreeSmall(b, p)])
            else b == Base(st.pages.spans[p]) && st' == st.(pcs := st.pcs[t := FreeBig(p)])
  {
    hide Reachable, Safe, Core, LocksOk, ArgsOk, Placed, RoundUp, BlockThreshold, PageThreshold, PagesOk, RolesOk, IsBlock, BlockCount;
    var a := ReachableSafe(st);
    CoreOf(st, a, t);
    PartsOf(st, a);
    if b in a.own {
      BlockLookup(st, a, b);
      BlockOf(st, a, b);
      p := a.own[b].span;
      BlockInside(st.pages.spans[p], b);
      BlockSizePositive(st.pages.spans[p], b);
      InSomeBin(st, a, p);
    } else {
      DirectLookup(st, a, b, Private(t));
      p := a.v.own[b / PAGE];
      InNoBin(st, a, t, p);
      PositiveCount(st.pages, st.mapped, a.v, p);
    }
    RoleInUse(st.pages, st.mapped, a.v, a.roles, p);
  }

  lemma InSomeBin(st: State, a: Aux, p: Ptr)
    requires Core(st, a) && p in a.roles && a.roles[p].InBin?
    ensures p in Bin(st, a.roles[p].c)
  {
    hide PagesOk, RolesOk, Placed, GeometryOk, CountsOk, HeldOk, CachesOk;
  }

  lemma InNoBin(st: State, a: Aux, t: Tid, p: Ptr)
    requires Core(st, a) && OwnsSpan(a, t, p)
    ensures forall c :: p !in Bin(st, c)
  {
    hide PagesOk, RolesOk, Placed, GeometryOk, CountsOk, HeldOk, CachesOk;
  }

  /** A small block goes in front of the thread's list of its class. A list that reaches its apply count goes back to
      the central cache as a whole; a shorter one stays. */
  lemma PushDecides(st: State, st': State, t: Tid, b: Addr, p: Ptr) returns (c: nat, list: seq<Addr>)
    requires Reachable(st) && PcOf(st, t) == FreeSmall(b, p) && Step(st, st', PushLocal(t))
    ensures p in Bin(st, c) && IsBlock(st.pages.spans[p], b) && st.pages.spans[p].blockSize == c
    ensures list == [b] + On(st.blocks, Cached(t, c)) && OnlyLists(st.blocks, st'.blocks, {Cached(t, c), Moving(t)})
    ensures if |list| < Applies(st.apply, t, c)
            then On(st'.blocks, Cached(t, c)) == list && On(st'.blocks, Moving(t)) == [] && st' == st.(blocks := st'.blocks, pcs := st.pcs[t := Idle])
            else On(st'.blocks, Cached(t, c)) == [] && On(st'.blocks, Moving(t)) == list && st' == st.(blocks := st'.blocks, pcs := st.pcs[t := Return(c)])
  {
    hide Reachable, Safe, Core, LocksOk, ArgsOk, Placed, BlockThreshold, PageThreshold, IsBlock, BlockCount, CachesOk, MoveFront;
    var a := ReachableSafe(st);
    CoreOf(st, a, t);
    CachesOf(st, a);
    BlockLookup(st, a, b);
    BlockOf(st, a, b);
    InSomeBin(st, a, p);
    c := st.pages.spans[p].blockSize;
    list := [b] + On(st.blocks, Cached(t, c));
    CacheAt(st.blocks, st.apply, t, c);
    PushLists(st, st', t, b, p, c, list);
  }

  lemma PushLists(st: State, st': State, t: Tid, b: Addr, p: Ptr, c: nat, list: seq<Addr>)
    requires PcOf(st, t) == FreeSmall(b, p) && StepPushLocal(st, st', t) && On(st.blocks, Moving(t)) == []
    requires c == st.pages.spans[p].blockSize && list == [b] + On(st.blocks, Cached(t, c)) && |list| <= Applies(st.apply, t, c)
    ensures OnlyLists(st.blocks, st'.blocks, {Cached(t, c), Moving(t)})
    ensures if |list| < Applies(st.apply, t, c)
            then On(st'.blocks, Cached(t, c)) == list && On(st'.blocks, Moving(t)) == [] && st' == st.(blocks := st'.blocks, pcs := st.pcs[t := Idle])
            else On(st'.blocks, Cached(t, c)) == [] && On(st'.blocks, Moving(t)) == list && st' == st.(blocks := st'.blocks, pcs := st.pcs[t := Return(c)])
  {
    hide MoveFront;
    MoveAll(st.blocks, Cached(t, c), Moving(t), list);
  }

  lemma MoveAll(blocks: map<Place, seq<Addr>>, x: Place, y: Place, list: seq<Addr>)
    requires x != y && On(blocks, y) == []
    ensures On(blocks[x := list], x) == list
    ensures var blocks' := MoveFront(blocks[x := list], x, y, |list|);
            On(blocks', x) == [] && On(blocks', y) == list && OnlyLists(blocks, blocks', {x, y})
  {
    assert list[..|list|] + [] == list;
  }

  /** Each turn of the return loop puts the first block of the run back on its own span's chain; with the last block
      of a span out, the span leaves its bin instead, and the bin is unlocked. */
  lemma ReturnPuts(st: State, st': State, t: Tid, c: nat) returns (b: Addr, p: Ptr, i: nat)
    requires Reachable(st) && PcOf(st, t) == Returning(c) && Step(st, st', ReturnOne(t))
    ensures [b] + On(st'.blocks, Moving(t)) == On(st.blocks, Moving(t)) && OnlyLists(st.blocks, st'.blocks, {Home(p), Moving(t)})
    ensures i < |Bin(st, c)| && p == Bin(st, c)[i] && p in st.pages.spans && IsBlock(st.pages.spans[p], b)
    ensures Uses(st'.uses, p) == Uses(st.uses, p) - 1 && forall q :: q != p ==> Uses(st'.uses, q) == Uses(st.uses, q)
    ensures if Uses(st'.uses, p) > 0
            then On(st'.blocks, Home(p)) == [b] + On(st.blocks, Home(p)) && st' == st.(blocks := st'.blocks, uses := st'.uses)
            else st' == st.(blocks := st'.blocks, uses := st'.uses, bins := st.bins[c := Bin(st, c)[..i] + Bin(st, c)[i + 1..]],
                            locks := st.locks - {c}, pcs := st.pcs[t := GiveBack(c, p)])
  {
    hide Reachable, Safe, Core, LocksOk, ArgsOk, Placed, PageThreshold, IsBlock, BlockCount, RunOf, Without;
    var a := ReachableSafe(st);
    CoreOf(st, a, t);
    b := On(st.blocks, Moving(t))[0];
    p := st.pages.tags[b / PAGE];
    ReturnedBlock(st, a, t, c, b);
    BlockOf(st, a, b);
    InSomeBin(st, a, p);
    i := ReturnPlace(st, a, c, p);
    ReturnLists(st.blocks, Moving(t), p);
  }

  lemma ReturnPlace(st: State, a: Aux, c: nat, p: Ptr) returns (i: nat)
    requires Core(st, a) && p in Bin(st, c)
    ensures i < |Bin(st, c)| && p == Bin(st, c)[i] && Without(Bin(st, c), p) == Bin(st, c)[..i] + Bin(st, c)[i + 1..]
  {
    BinDistinct(st, a, c);
    hide Core;
    i :| 0 <= i < |Bin(st, c)| && Bin(st, c)[i] == p;
    WithoutAt(Bin(st, c), i);
  }

  lemma BinDistinct(st: State, a: Aux, c: nat)
    requires Core(st, a)
    ensures NoDup(Bin(st, c))
  {
    hide PagesOk, RolesOk, Placed, GeometryOk, CountsOk, HeldOk, CachesOk;
  }

  lemma ReturnLists(blocks: map<Place, seq<Addr>>, x: Place, p: Ptr)
    requires x != Home(p) && On(blocks, x) != []
    ensures var blocks' := MoveFront(blocks, x, Home(p), 1);
            && [On(blocks, x)[0]] + On(blocks', x) == On(blocks, x) && On(blocks', Home(p)) == [On(blocks, x)[0]] + On(blocks, Home(p))
            && OnlyLists(blocks, blocks', {Home(p), x})
            && On(blocks' - {Home(p)}, x) == On(blocks', x) && OnlyLists(blocks, blocks' - {Home(p)}, {Home(p), x})
  {
    assert On(blocks, x)[..1] == [On(blocks, x)[0]];
  }

  /** What a thread gives back under the page-cache lock joins the free runs next to it. */
  lemma GivesBackAlone(st: State, a: Aux, t: Tid, p: Ptr)
    requires Safe(st, a) && OwnsSpan(a, t, p)
    ensures p in st.pages.spans
    ensures R.GivesBack(st.pages, st.mapped, p, RecoverClean(st.pages, p), HeldAfter(st.mapped, st.pages.spans[p]))
  {
    hide Safe, Core, RecoverClean, HeldAfter, R.GivesBack, RolesOk, LocksOk, ArgsOk, PcOk, Good;
    CoreOf(st, a, t);
    PartsOf(st, a);
    RoleInUse(st.pages, st.mapped, a.v, a.roles, p);
    R.GiveBackMeans(st.pages, a.v, p, RecoverClean(st.pages, p), HeldAfter(st.mapped, st.pages.spans[p]));
  }

  lemma ReleaseJoins(st: State, st': State, t: Tid, c: nat, p: Ptr)
    requires Reachable(st) && PcOf(st, t) == GiveBack(c, p) && Step(st, st', ReleaseSpan(t))
    ensures R.GivesBack(st.pages, st.mapped, p, st'.pages, st'.mapped)
    ensures st' == st.(pages := st'.pages, mapped := st'.mapped, pcs := st.pcs[t := Return(c)])
  {
    hide Reachable, Safe, Core, RecoverClean, HeldAfter, R.GivesBack, LocksOk, ArgsOk, RunOf, Placed;
    var a := ReachableSafe(st);
    CoreOf(st, a, t);
    GivesBackAlone(st, a, t, p);
  }

  lemma BigJoins(st: State, st': State, t: Tid, p: Ptr)
    requires Reachable(st) && PcOf(st, t) == FreeBig(p) && Step(st, st', ReleaseBig(t))
    ensures R.GivesBack(st.pages, st.mapped, p, st'.pages, st'.mapped)
    ensures st' == st.(pages := st'.pages, mapped := st'.mapped, pcs := st.pcs[t := Idle])
  {
    hide Reachable, Safe, Core, RecoverClean, HeldAfter, R.GivesBack, LocksOk, ArgsOk, RunOf, Placed;
    var a := ReachableSafe(st);
    CoreOf(st, a, t);
    GivesBackAlone(st, a, t, p);
  }
}
