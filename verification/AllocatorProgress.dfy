/** The allocator cannot get stuck: whatever the other threads are doing, somebody inside a call can move. */
module AllocatorProgress {
  import opened Common
  import opened SizeClasses
  import opened PageModel
  import opened PageInvariant
  import opened PageCreate
  import opened PageRecover
  import opened Allocator
  import opened AllocatorBlocks
  import opened AllocatorSafety
  import opened AllocatorSteps
  import opened AllocatorFree
  import opened AllocatorReturn
  import opened AllocatorPages
  import opened AllocatorTheorems

  /** Thread t is about to lock a bin that another thread holds. */
  predicate Waiting(st: State, t: Tid) {
    match PcOf(st, t)
    case Want(_, c, _) => c in st.locks
    case Carved(_, c, _, _, _) => c in st.locks
    case Return(c) => c in st.locks
    case _ => false
  }

  /** The OS can always answer. */
  lemma {:induction false} Beyond(s: set<Page>) returns (m: Page)
    ensures m >= 1 && forall g :: g in s ==> g < m
  {
    if s == {} {
      m := 1;
    } else {
      var g :| g in s;
      var n := Beyond(s - {g});
      m := if g < n then n else g + 1;
      forall h | h in s
        ensures h < m
      {
        assert h == g || h in s - {g};
      }
    }
  }

  lemma OsCanAnswer(st: State, n: nat) returns (os: Page)
    ensures OsAnswers(st, os, n)
  {
    os := Beyond(st.mapped);
  }

  lemma CreatePossible(pages: Pages, mapped: set<Page>, v: View, n: nat, os: Page)
    requires PagesOk(pages, mapped, v) && n >= 1
    ensures HeadsOk(pages) && PoolOk(pages)
    ensures (OsPages(pages, n) > 0 ==> os >= 1 && Range(os, OsPages(pages, n)) !! mapped) ==>
              Create(pages, n, os).1 in Create(pages, n, os).0.spans
  {
    hide Create, Inv, OsPages;
    GoodHeads(pages, v, {}, {});
    PoolOf(pages, v);
    if OsPages(pages, n) > 0 ==> os >= 1 && Range(os, OsPages(pages, n)) !! mapped {
      var v', _ := CreateServes(pages, v, n, os, Create(pages, n, os).0, Create(pages, n, os).1);
    }
  }

  lemma PoolOf(pages: Pages, v: View)
    requires Good(pages, v)
    ensures PoolOk(pages)
  {
  }

  lemma FetchPossible(st: State, a: Aux, t: Tid, size: nat, c: nat, k: nat) returns (st': State, os: Page)
    requires Core(st, a) && PcOf(st, t) == Fetch(size, c, k) && 1 <= c <= MAX_ALLOC_BYTES
    ensures StepFetchSpan(st, st', t, os)
  {
    hide Core, PagesOk, PoolOk, HeadsOk, Create, OsPages, PageThreshold, OsAnswers;
    PartsOf(st, a);
    PageThresholdFits(c);
    var n := PageThreshold(c);
    CreatePossible(st.pages, st.mapped, a.v, n, 0);
    ListsOf(st.pages);
    os := OsCanAnswer(st, OsPages(st.pages, n));
    OsMeans(st, os, OsPages(st.pages, n));
    CreatePossible(st.pages, st.mapped, a.v, n, os);
    var (pages', p) := Create(st.pages, n, os);
    st' := st.(pages := Mark(pages', p, c), mapped := st.mapped + Range(os, OsPages(st.pages, n)),
               pcs := st.pcs[t := Carving(size, c, k, p)]);
  }

  lemma ListsOf(pages: Pages)
    requires HeadsOk(pages)
    ensures |pages.lists| == MAX_PAGE_COUNT
  {
  }

  lemma OsMeans(st: State, os: Page, n: nat)
    requires OsAnswers(st, os, n)
    ensures n > 0 ==> os >= 1 && Range(os, n) !! st.mapped
  {
  }

  lemma BigPossible(st: State, a: Aux, t: Tid, size: nat) returns (st': State, os: Page)
    requires Core(st, a) && PcOf(st, t) == Idle && MAX_ALLOC_BYTES < size && size + PAGE <= SIZE_VALUES
    ensures StepMallocBig(st, st', t, size, os)
  {
    hide Core, PagesOk, PoolOk, HeadsOk, Create, OsPages, RoundUp, OsAnswers;
    PartsOf(st, a);
    BigRequest(size);
    var n := RoundUp(size) / PAGE;
    CreatePossible(st.pages, st.mapped, a.v, n, 0);
    ListsOf(st.pages);
    os := OsCanAnswer(st, OsPages(st.pages, n));
    OsMeans(st, os, OsPages(st.pages, n));
    CreatePossible(st.pages, st.mapped, a.v, n, os);
    var (pages', p) := Create(st.pages, n, os);
    st' := st.(pages := Mark(pages', p, MAX_ALLOC_BYTES + 1), mapped := st.mapped + Range(os, OsPages(st.pages, n)),
               held := st.held[Base(pages'.spans[p]) := size]);
  }

  /** Every request of an idle thread has a next step: `tnc_malloc` of any positive size whose rounding fits
      into a word, `tnc_free` of any live allocation. */
  lemma RequestsAccepted(st: State, t: Tid, size: nat) returns (st': State, l: Label)
    requires Reachable(st) && PcOf(st, t) == Idle && 1 <= size && size + PAGE <= SIZE_VALUES
    ensures Step(st, st', l) && l.t == t && (l.MallocHit? || l.MallocMiss? || l.MallocBig?) && l.size == size
    ensures forall b :: b in st.held ==> exists st2 :: Step(st, st2, Free(t, b))
  {
    hide Safe, Reachable, Core, RoundUp, Placed, StepMallocBig, LocksOk, ArgsOk;
    var a := ReachableSafe(st);
    CoreOf(st, a, t);
    forall b | b in st.held
      ensures exists st2 :: Step(st, st2, Free(t, b))
    {
      assert Step(st, st.(held := st.held - {b}, pcs := st.pcs[t := Freeing(b)]), Free(t, b));
    }
    if size > MAX_ALLOC_BYTES {
      var os;
      st', os := BigPossible(st, a, t, size);
      l := MallocBig(t, size, os);
    } else {
      ClassOfRequest(size);
      var x := Cached(t, RoundUp(size));
      if On(st.blocks, x) != [] {
        st' := st.(blocks := st.blocks[x := On(st.blocks, x)[1..]], held := st.held[On(st.blocks, x)[0] := size]);
        l := MallocHit(t, size);
      } else {
        st', l := MissPossible(st, t, size);
      }
    }
  }

  lemma MissPossible(st: State, t: Tid, size: nat) returns (st': State, l: Label)
    requires PcOf(st, t) == Idle && 1 <= size <= MAX_ALLOC_BYTES && RoundUp(size) >= 1
    requires On(st.blocks, Cached(t, RoundUp(size))) == []
    ensures l == MallocMiss(t, size) && Step(st, st', l)
  {
    hide RoundUp, BlockThreshold;
    var c := RoundUp(size);
    var n := Applies(st.apply, t, c);
    var k := Min(n, BlockThreshold(c));
    st' := st.(pcs := st.pcs[t := Want(size, c, k)],
               apply := if k == n then st.apply[(t, c) := n + 1] else st.apply);
    l := MallocMiss(t, size);
  }

  /** A block that is not at home is counted as handed out. */
  lemma OutMeansUsed(st: State, a: Aux, b: Addr)
    requires Safe(st, a) && b in a.own && !a.own[b].place.Home?
    ensures Uses(st.uses, a.own[b].span) >= 1
  {
    hide Safe, Core;
    CoreOf(st, a, 0);
    BlockOf(st, a, b);
    var p := a.own[b].span;
    CountOf(st, a, p);
    if Uses(st.uses, p) == 0 {
      AllAtHome(st, a, p);
    }
  }

  lemma CountOf(st: State, a: Aux, p: Ptr)
    requires Core(st, a) && p in a.roles && a.roles[p].InBin?
    ensures p in st.pages.spans && st.pages.spans[p].blockSize >= 1
    ensures Uses(st.uses, p) + |On(st.blocks, Home(p))| == BlockCount(st.pages.spans[p])
  {
  }

  lemma AllAtHome(st: State, a: Aux, p: Ptr)
    requires Core(st, a) && p in a.roles && a.roles[p].InBin? && Uses(st.uses, p) == 0
    ensures forall b :: b in a.own && a.own[b].span == p ==> a.own[b].place == Home(p)
  {
    hide PagesOk, RolesOk, BinsOk, HeldOk, CachesOk;
    ZeroMeansHome(st.pages.spans, a.roles, st.uses, st.blocks, a.own, p);
    OnPlace(st.blocks, a.own, Home(p));
  }

  lemma ReturnPossible(st: State, a: Aux, t: Tid, c: nat) returns (st': State, l: Label)
    requires Safe(st, a) && PcOf(st, t) == Returning(c) && RunOf(st, a, t, c)
    ensures Step(st, st', l) && l.t == t
  {
    hide Safe, Without;
    var run := On(st.blocks, Moving(t));
    if run == [] {
      st', l := st.(locks := st.locks - {c}, pcs := st.pcs[t := Idle]), Done(t);
    } else {
      var b := run[0];
      BlockLookup(st, a, b);
      ListFacts(st, a, Moving(t), b);
      OutMeansUsed(st, a, b);
      var p := st.pages.tags[b / PAGE];
      var uses' := st.uses[p := Uses(st.uses, p) - 1];
      var blocks' := MoveFront(st.blocks, Moving(t), Home(p), 1);
      st' := if uses'[p] == 0
             then st.(uses := uses', blocks := blocks' - {Home(p)}, bins := st.bins[c := Without(Bin(st, c), p)],
                      locks := st.locks - {c}, pcs := st.pcs[t := GiveBack(c, p)])
             else st.(uses := uses', blocks := blocks');
      l := ReturnOne(t);
    }
  }

  lemma LookupPossible(st: State, a: Aux, t: Tid, b: Addr) returns (st': State)
    requires Safe(st, a) && PcOf(st, t) == Freeing(b) && PcOk(st, a, t)
    ensures Step(st, st', Lookup(t))
  {
    hide Safe, PageThreshold;
    if b in a.own {
      BlockLookup(st, a, b);
    } else {
      DirectLookup(st, a, b, Private(t));
    }
    var p := st.pages.tags[b / PAGE];
    st' := if st.pages.spans[p].blockSize > MAX_ALLOC_BYTES then st.(pcs := st.pcs[t := FreeBig(p)])
           else st.(pcs := st.pcs[t := FreeSmall(b, p)]);
  }

  lemma PushPossible(st: State, t: Tid, b: Addr, p: Ptr) returns (st': State)
    requires PcOf(st, t) == FreeSmall(b, p) && p in st.pages.spans
    ensures Step(st, st', PushLocal(t))
  {
    var c := st.pages.spans[p].blockSize;
    var x, n := Cached(t, c), Applies(st.apply, t, c);
    var pushed := st.blocks[x := [b] + On(st.blocks, x)];
    st' := if |On(pushed, x)| >= n then st.(blocks := MoveFront(pushed, x, Moving(t), n), pcs := st.pcs[t := Return(c)])
           else st.(blocks := pushed, pcs := st.pcs[t := Idle]);
  }

  lemma MallocMoves(st: State, a: Aux, t: Tid) returns (st': State, l: Label)
    requires Safe(st, a) && PcOk(st, a, t) && Core(st, a) && !Waiting(st, t)
    requires PcOf(st, t).Want? || PcOf(st, t).Taking? || PcOf(st, t).Fetch? || PcOf(st, t).Carving? || PcOf(st, t).Carved? || PcOf(st, t).Got?
    ensures Step(st, st', l) && l.t == t
  {
    hide Safe, Core, StepFetchSpan, AllBlocks, RoundUp, PageThreshold, BlockThreshold, RunOf, Usable;
    match PcOf(st, t)
    case Want(size, c, k) =>
      var i := Usable(Bin(st, c), st.blocks);
      l := Scan(t);
      st' := if i < |Bin(st, c)| then st.(locks := st.locks[c := t], pcs := st.pcs[t := Taking(size, c, k, Bin(st, c)[i])])
             else st.(pcs := st.pcs[t := Fetch(size, c, k)]);
    case Taking(size, c, k, p) =>
      var m := Min(k, |On(st.blocks, Home(p))|);
      l := TakeRun(t);
      st' := st.(blocks := MoveFront(st.blocks, Home(p), Moving(t), m), uses := st.uses[p := Uses(st.uses, p) + m],
                 locks := st.locks - {c}, pcs := st.pcs[t := Got(size, c)]);
    case Fetch(size, c, k) =>
      var os;
      st', os := FetchPossible(st, a, t, size, c, k);
      l := FetchSpan(t, os);
    case Carving(size, c, k, p) =>
      st' := st.(pcs := st.pcs[t := Carved(size, c, k, p, AllBlocks(st.pages.spans[p]))]);
      l := Carve(t);
    case Carved(size, c, k, p, chain) =>
      st' := st.(bins := st.bins[c := [p] + Bin(st, c)], blocks := st.blocks[Home(p) := chain],
                 locks := st.locks[c := t], pcs := st.pcs[t := Taking(size, c, k, p)]);
      l := Insert(t);
    case Got(size, c) =>
      var run := On(st.blocks, Moving(t));
      st' := st.(blocks := MoveFront(st.blocks[Moving(t) := run[1..]], Moving(t), Cached(t, c), |run| - 1),
                 held := st.held[run[0] := size], pcs := st.pcs[t := Idle]);
      l := Deliver(t);
  }

  lemma FreeMoves(st: State, a: Aux, t: Tid) returns (st': State, l: Label)
    requires Safe(st, a) && PcOk(st, a, t) && Core(st, a) && !Waiting(st, t)
    requires PcOf(st, t).Freeing? || PcOf(st, t).FreeSmall? || PcOf(st, t).FreeBig? || PcOf(st, t).Return? || PcOf(st, t).Returning? || PcOf(st, t).GiveBack?
    ensures Step(st, st', l) && l.t == t
  {
    hide Safe, Core, RunOf, RecoverClean, PagesOk, RolesOk;
    PartsOf(st, a);
    match PcOf(st, t)
    case Freeing(b) =>
      st' := LookupPossible(st, a, t, b);
      l := Lookup(t);
    case FreeSmall(b, p) =>
      BlockOf(st, a, b);
      st' := PushPossible(st, t, b, p);
      l := PushLocal(t);
    case FreeBig(p) =>
      OwnedSpan(st, a, t, p);
      st' := st.(pages := RecoverClean(st.pages, p), mapped := HeldAfter(st.mapped, st.pages.spans[p]), pcs := st.pcs[t := Idle]);
      l := ReleaseBig(t);
    case Return(c) =>
      st' := st.(locks := st.locks[c := t], pcs := st.pcs[t := Returning(c)]);
      l := LockBin(t);
    case Returning(c) =>
      st', l := ReturnPossible(st, a, t, c);
    case GiveBack(c, p) =>
      OwnedSpan(st, a, t, p);
      st' := st.(pages := RecoverClean(st.pages, p), mapped := HeldAfter(st.mapped, st.pages.spans[p]), pcs := st.pcs[t := Return(c)]);
      l := ReleaseSpan(t);
  }

  lemma OwnedSpan(st: State, a: Aux, t: Tid, p: Ptr)
    requires RolesOk(st.pages.spans, a.v.linked, a.roles) && OwnsSpan(a, t, p)
    ensures p in st.pages.spans
  {
  }

  /** A thread inside a call that is not waiting for a bin lock has a next step: no lookup fails, no
      assertion of the source is violated. */
  lemma InsideMoves(st: State, t: Tid) returns (st': State, l: Label)
    requires Reachable(st) && PcOf(st, t) != Idle && !Waiting(st, t)
    ensures Step(st, st', l) && l.t == t
  {
    hide Safe, Reachable, Core, Step, Placed, LocksOk, ArgsOk, PcOk;
    var a := ReachableSafe(st);
    CoreOf(st, a, t);
    match PcOf(st, t)
    case Freeing(_) => st', l := FreeMoves(st, a, t);
    case FreeSmall(_, _) => st', l := FreeMoves(st, a, t);
    case FreeBig(_) => st', l := FreeMoves(st, a, t);
    case Return(_) => st', l := FreeMoves(st, a, t);
    case Returning(_) => st', l := FreeMoves(st, a, t);
    case GiveBack(_, _) => st', l := FreeMoves(st, a, t);
    case _ => st', l := MallocMoves(st, a, t);
  }

  lemma HolderInside(st: State, a: Aux, c: nat)
    requires LocksOk(st) && c in st.locks
    ensures !Waiting(st, st.locks[c]) && PcOf(st, st.locks[c]) != Idle
  {
  }

  /** No deadlock: if thread t is inside a call, it can move, or the thread whose lock it waits for can. */
  lemma NoDeadlock(st: State, t: Tid) returns (st': State, l: Label)
    requires Reachable(st) && PcOf(st, t) != Idle
    ensures Step(st, st', l) && PcOf(st, l.t) != Idle
    ensures l.t != t ==> Waiting(st, t)
  {
    hide Safe, Reachable, Core, Step, Placed, LocksOk, ArgsOk, PcOk;
    if Waiting(st, t) {
      var a := ReachableSafe(st);
      CoreOf(st, a, t);
      var c := PcOf(st, t).c;
      HolderInside(st, a, c);
      st', l := InsideMoves(st, st.locks[c]);
    } else {
      st', l := InsideMoves(st, t);
    }
  }
}
