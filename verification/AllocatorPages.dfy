/** Every step of the allocator keeps its invariant: the steps that go to the page cache. */
module AllocatorPages {
  import opened SizeClasses
  import opened PageModel
  import opened PageInvariant
  import opened PageCreate
  import opened PageRecover
  import opened Allocator
  import opened AllocatorBlocks
  import opened AllocatorSafety
  import opened AllocatorSteps
  import opened AllocatorFree
  import opened AllocatorReturn

  /** The page cache changed and span p changed hands; nothing else did. Before and after, p is in no bin. */
  ghost predicate PagesStep(st: State, a: Aux, st': State, a': Aux, p: Ptr) {
    && PagesOk(st'.pages, st'.mapped, a'.v)
    && KeepsOthers(st.pages.spans, a.v.linked, st'.pages.spans, a'.v.linked, p)
    && (p in a.roles ==> !a.roles[p].InBin?) && (p in a'.roles ==> !a'.roles[p].InBin?)
    && (forall q {:trigger q in a.roles} {:trigger q in a'.roles} :: q != p ==>
          if q in a.roles then q in a'.roles && a'.roles[q] == a.roles[q] else q !in a'.roles)
    && a'.own == a.own && st'.bins == st.bins && st'.uses == st.uses && st'.blocks == st.blocks && st'.apply == st.apply
  }

  lemma SpanKept(st: State, a: Aux, st': State, a': Aux, p: Ptr, q: Ptr)
    requires RolesOk(st.pages.spans, a.v.linked, a.roles) && PagesStep(st, a, st', a', p) && q != p && q in a.roles
    ensures q in a'.roles && a'.roles[q] == a.roles[q]
    ensures q in st.pages.spans && q in st'.pages.spans && st'.pages.spans[q] == st.pages.spans[q]
    ensures forall g {:trigger a'.v.own[g]} {:trigger g in a'.v.own} :: Owns(st.pages.spans[q], g) ==> g in a'.v.own && a'.v.own[g] == q
  {
    hide PoolOk, BucketsOk, MarksOk, TagsOk;
  }

  lemma PositiveCount(pages: Pages, mapped: set<Page>, v: View, q: Ptr)
    requires PagesOk(pages, mapped, v) && q in pages.spans
    ensures Owns(pages.spans[q], pages.spans[q].first)
  {
  }

  /** A direct or private span that is not p is found as before. */
  lemma SpanAtKept(st: State, a: Aux, st': State, a': Aux, p: Ptr, b: Addr, r: Role)
    requires RolesOk(st.pages.spans, a.v.linked, a.roles) && PagesStep(st, a, st', a', p) && PagesOk(st.pages, st.mapped, a.v)
    requires SpanAt(st.pages.spans, a.roles, a.v, b, r) && a.v.own[b / PAGE] != p
    ensures SpanAt(st'.pages.spans, a'.roles, a'.v, b, r) && a'.v.own[b / PAGE] == a.v.own[b / PAGE]
    ensures st'.pages.spans[a.v.own[b / PAGE]] == st.pages.spans[a.v.own[b / PAGE]]
  {
    hide PagesOk, PagesStep, RolesOk;
    var q := a.v.own[b / PAGE];
    SpanKept(st, a, st', a', p, q);
    PositiveCount(st.pages, st.mapped, a.v, q);
  }

  lemma GeometryKept(spans: map<Ptr, Span>, roles: map<Ptr, Role>, spans': map<Ptr, Span>, roles': map<Ptr, Role>, own: map<Addr, Entry>)
    requires GeometryOk(spans, roles, own)
    requires forall q {:trigger q in roles} {:trigger q in roles'} :: q in roles && roles[q].InBin? <==> q in roles' && roles'[q].InBin?
    requires forall q {:trigger roles'[q]} {:trigger spans'[q]} :: q in roles' && roles'[q].InBin? ==>
               q in roles && roles'[q] == roles[q] && q in spans && q in spans' && spans'[q] == spans[q]
    ensures GeometryOk(spans', roles', own)
  {
  }

  lemma BinsKept(bins: map<nat, seq<Ptr>>, roles: map<Ptr, Role>, roles': map<Ptr, Role>)
    requires BinsOk(bins, roles)
    requires forall q {:trigger q in roles} {:trigger q in roles'} :: q in roles && roles[q].InBin? <==> q in roles' && roles'[q].InBin?
    requires forall q {:trigger roles'[q]} :: q in roles' && roles'[q].InBin? ==> q in roles && roles'[q] == roles[q]
    ensures BinsOk(bins, roles')
  {
  }

  lemma CountsKept(spans: map<Ptr, Span>, roles: map<Ptr, Role>, spans': map<Ptr, Span>, roles': map<Ptr, Role>,
                   uses: map<Ptr, nat>, blocks: map<Place, seq<Addr>>)
    requires CountsOk(spans, roles, uses, blocks)
    requires forall q {:trigger q in roles} {:trigger q in roles'} :: q in roles && roles[q].InBin? <==> q in roles' && roles'[q].InBin?
    requires forall q {:trigger roles'[q]} {:trigger spans'[q]} :: q in roles' && roles'[q].InBin? ==>
               q in roles && roles'[q] == roles[q] && q in spans && q in spans' && spans'[q] == spans[q]
    ensures CountsOk(spans', roles', uses, blocks)
  {
  }

  lemma BinnedKept(st: State, a: Aux, st': State, a': Aux, p: Ptr)
    requires RolesOk(st.pages.spans, a.v.linked, a.roles) && PagesStep(st, a, st', a', p)
    ensures forall q {:trigger q in a.roles} {:trigger q in a'.roles} ::
              q in a.roles && a.roles[q].InBin? <==> q in a'.roles && a'.roles[q].InBin?
    ensures forall q {:trigger a'.roles[q]} {:trigger st'.pages.spans[q]} :: q in a'.roles && a'.roles[q].InBin? ==>
              q in a.roles && a'.roles[q] == a.roles[q]
              && q in st.pages.spans && q in st'.pages.spans && st'.pages.spans[q] == st.pages.spans[q]
  {
    hide PagesOk;
  }

  /** Live allocations other than the one on span p. */
  lemma HeldKept(st: State, a: Aux, st': State, a': Aux, p: Ptr, b: Addr)
    requires Core(st, a) && PagesStep(st, a, st', a', p) && b in st.held && (p in a.roles ==> a.roles[p] != Direct)
    ensures HeldAs(st'.pages.spans, a'.roles, a'.v, a'.own, b, st.held[b])
  {
    assert a'.own == a.own && (p in a.roles ==> !a.roles[p].InBin?);
    hide PagesOk, PagesStep, RolesOk, BinsOk, Placed, CountsOk, CachesOk;
    var spans := st.pages.spans;
    assert HeldAs(spans, a.roles, a.v, a.own, b, st.held[b]);
    if HeldSmall(spans, a.own, b, st.held[b]) {
      var q := a.own[b].span;
      SpanKept(st, a, st', a', p, q);
    } else {
      SpanAtKept(st, a, st', a', p, b, Direct);
    }
  }

  lemma PagesCore(st: State, a: Aux, st': State, a': Aux, p: Ptr)
    requires Core(st, a) && PagesStep(st, a, st', a', p) && RolesOk(st'.pages.spans, a'.v.linked, a'.roles)
    requires p in a.roles ==> a.roles[p] != Direct
    requires forall b :: b in st.held ==> b in st'.held
    requires forall b {:trigger b in st'.held} :: b in st'.held ==>
               HeldAs(st'.pages.spans, a'.roles, a'.v, a'.own, b, st'.held[b]) || (b in st.held && st'.held[b] == st.held[b])
    ensures Core(st', a')
  {
    hide PagesOk, RolesOk, BinsOk, Placed, GeometryOk, CountsOk, CachesOk;
    BinnedKept(st, a, st', a', p);
    GeometryKept(st.pages.spans, a.roles, st'.pages.spans, a'.roles, a.own);
    BinsKept(st.bins, a.roles, a'.roles);
    CountsKept(st.pages.spans, a.roles, st'.pages.spans, a'.roles, st.uses, st.blocks);
    forall b | b in st'.held
      ensures HeldAs(st'.pages.spans, a'.roles, a'.v, a'.own, b, st'.held[b])
    {
      if !HeldAs(st'.pages.spans, a'.roles, a'.v, a'.own, b, st'.held[b]) {
        HeldKept(st, a, st', a', p, b);
      }
    }
  }

  /** Local, for a step that leaves all blocks and all spans but p in place. */
  lemma LocalSpans(st: State, a: Aux, st': State, a': Aux, p: Ptr, t: Tid)
    requires OnlyThread(st, st', t) && a'.own == a.own && st'.blocks == st.blocks
    requires p in a.roles ==> a.roles[p] == Private(t)
    requires forall b :: b in a.own ==> a.own[b].span != p
    requires forall q {:trigger q in a.roles} {:trigger a'.roles[q]} :: q != p && q in a.roles ==> q in a'.roles && a'.roles[q] == a.roles[q]
    requires forall q {:trigger q in st'.pages.spans} {:trigger a'.roles[q]} :: q != p && q in a.roles ==>
               q in st'.pages.spans && q in st.pages.spans && st'.pages.spans[q] == st.pages.spans[q]
    requires forall b: Addr, u: Tid {:trigger SpanAt(st.pages.spans, a.roles, a.v, b, Private(u))} ::
               u != t && SpanAt(st.pages.spans, a.roles, a.v, b, Private(u)) ==>
               SpanAt(st'.pages.spans, a'.roles, a'.v, b, Private(u)) && a'.v.own[b / PAGE] == a.v.own[b / PAGE]
    ensures Local(st, a, st', a', t)
  {
    assert !KeptFrom(st, Private(t), t);
    hide SpanAt, Touchable, KeptFrom;
  }

  lemma PagesLocal(st: State, a: Aux, st': State, a': Aux, p: Ptr, t: Tid)
    requires RolesOk(st.pages.spans, a.v.linked, a.roles) && PagesOk(st.pages, st.mapped, a.v)
    requires PagesStep(st, a, st', a', p) && OnlyThread(st, st', t)
    requires p in a.roles ==> a.roles[p] == Private(t)
    requires forall b :: b in a.own ==> a.own[b].span != p
    ensures Local(st, a, st', a', t)
  {
    assert a'.own == a.own && st'.blocks == st.blocks;
    hide PagesOk, PagesStep, RolesOk, OnlyThread, SpanAt, Local;
    forall q | q != p && q in a.roles
      ensures q in a'.roles && a'.roles[q] == a.roles[q] && q in st'.pages.spans && q in st.pages.spans && st'.pages.spans[q] == st.pages.spans[q]
    {
      SpanKept(st, a, st', a', p, q);
    }
    forall b: Addr, u: Tid | u != t && SpanAt(st.pages.spans, a.roles, a.v, b, Private(u))
      ensures SpanAt(st'.pages.spans, a'.roles, a'.v, b, Private(u)) && a'.v.own[b / PAGE] == a.v.own[b / PAGE]
    {
      SpanRole(st, a, b, Private(u));
      SpanAtKept(st, a, st', a', p, b, Private(u));
    }
    LocalSpans(st, a, st', a', p, t);
  }

  lemma SpanRole(st: State, a: Aux, b: Addr, r: Role)
    requires SpanAt(st.pages.spans, a.roles, a.v, b, r)
    ensures b / PAGE in a.v.own && a.v.own[b / PAGE] in a.roles && a.roles[a.v.own[b / PAGE]] == r
  {
  }

  // ----- obtaining a span -----------------------------------------------------------

  /** What a thread has after `create_pc_span(n)` and marking the span. */
  ghost predicate Obtained(pages: Pages, mapped: set<Page>, v: View, n: nat, blockSize: nat,
                           pages': Pages, mapped': set<Page>, v': View, p: Ptr) {
    && PagesOk(pages', mapped', v') && KeepsOthers(pages.spans, v.linked, pages'.spans, v'.linked, p)
    && (p in v.linked || p !in pages.spans)
    && p in pages'.spans && p !in v'.linked
    && pages'.spans[p].count == n && pages'.spans[p].blockSize == blockSize
  }

  lemma KeepsMark(spans: map<Ptr, Span>, linked: set<Ptr>, spans': map<Ptr, Span>, linked': set<Ptr>, p: Ptr, s: Span)
    requires KeepsOthers(spans, linked, spans', linked', p)
    ensures KeepsOthers(spans, linked, spans'[p := s], linked', p)
  {
  }

  lemma LooseIsNotLinked(pages: Pages, v: View, p: Ptr)
    requires Inv(pages, v, {p}, {})
    ensures p !in v.linked
  {
  }

  lemma NothingLoose(p: Ptr)
    ensures {p} - {p} == {}
  {
  }

  lemma Obtain(pages: Pages, mapped: set<Page>, v: View, n: nat, os: Page, blockSize: nat, pages1: Pages, p: Ptr,
               mapped': set<Page>)
    returns (v': View)
    requires PagesOk(pages, mapped, v) && n >= 1 && HeadsOk(pages) && PoolOk(pages)
    requires OsPages(pages, n) > 0 ==> os >= 1 && Range(os, OsPages(pages, n)) !! mapped
    requires mapped' == mapped + Range(os, OsPages(pages, n))
    requires (pages1, p) == Create(pages, n, os) && p in pages1.spans
    ensures Obtained(pages, mapped, v, n, blockSize, Mark(pages1, p, blockSize), mapped', v', p)
  {
    hide Inv, PoolOk, HeadsOk, Create, KeepsOthers, OsPages;
    var i;
    v', i := CreateServes(pages, v, n, os, pages1, p);
    LooseIsNotLinked(pages1, v', p);
    var s := pages1.spans[p].(inUse := true, blockSize := blockSize);
    MarkKeeps(pages1, Mark(pages1, p, blockSize), p, s, v', {p}, {});
    NothingLoose(p);
    KeepsMark(pages.spans, v.linked, pages1.spans, v'.linked, p, s);
  }

  lemma RolesAdd(spans: map<Ptr, Span>, linked: set<Ptr>, roles: map<Ptr, Role>, spans': map<Ptr, Span>, linked': set<Ptr>,
                 p: Ptr, r: Role)
    requires RolesOk(spans, linked, roles) && KeepsOthers(spans, linked, spans', linked', p)
    requires p !in roles && p in spans' && p !in linked'
    requires !r.InBin? && (r.Direct? ==> spans'[p].blockSize > MAX_ALLOC_BYTES)
    ensures RolesOk(spans', linked', roles[p := r])
  {
    assert forall q :: q in roles <==> q in spans && q !in linked;
    assert forall q :: q in roles[p := r] <==> q in spans' && q !in linked';
  }

  lemma RolesDrop(spans: map<Ptr, Span>, linked: set<Ptr>, roles: map<Ptr, Role>, spans': map<Ptr, Span>, linked': set<Ptr>, p: Ptr)
    requires RolesOk(spans, linked, roles) && KeepsOthers(spans, linked, spans', linked', p)
    requires p in spans' ==> p in linked'
    ensures RolesOk(spans', linked', roles - {p})
  {
    assert forall q :: q in roles <==> q in spans && q !in linked;
    assert forall q :: q in roles - {p} <==> q in spans' && q !in linked';
  }

  lemma NoRole(spans: map<Ptr, Span>, linked: set<Ptr>, roles: map<Ptr, Role>, p: Ptr)
    requires RolesOk(spans, linked, roles) && (p in linked || p !in spans)
    ensures p !in roles
  {
    assert p in roles <==> p in spans.Keys - linked;
  }

  lemma RolesDiffer(roles: map<Ptr, Role>, p: Ptr, r: Role)
    ensures forall q {:trigger q in roles} {:trigger q in roles[p := r]} :: q != p ==>
              if q in roles then q in roles[p := r] && roles[p := r][q] == roles[q] else q !in roles[p := r]
    ensures forall q {:trigger q in roles} {:trigger q in roles - {p}} :: q != p ==>
              if q in roles then q in roles - {p} && (roles - {p})[q] == roles[q] else q !in roles - {p}
  {
  }

  lemma PartsOf(st: State, a: Aux)
    requires Core(st, a)
    ensures RolesOk(st.pages.spans, a.v.linked, a.roles) && PagesOk(st.pages, st.mapped, a.v)
  {
  }

  /** Handing the new span p to its first owner. */
  lemma ObtainedStep(st: State, a: Aux, st': State, n: nat, blockSize: nat, v': View, p: Ptr, r: Role, a': Aux)
    requires Core(st, a) && Obtained(st.pages, st.mapped, a.v, n, blockSize, st'.pages, st'.mapped, v', p)
    requires a' == Aux(v', a.roles[p := r], a.own) && !r.InBin? && (r.Direct? ==> blockSize > MAX_ALLOC_BYTES)
    requires st'.bins == st.bins && st'.uses == st.uses && st'.blocks == st.blocks && st'.apply == st.apply
    ensures PagesStep(st, a, st', a', p) && RolesOk(st'.pages.spans, a'.v.linked, a'.roles) && p !in a.roles
    ensures forall b :: b in a.own ==> a.own[b].span != p
  {
    hide PagesOk, RolesOk, BinsOk, Placed, CountsOk, HeldOk, CachesOk, KeepsOthers;
    NoRole(st.pages.spans, a.v.linked, a.roles, p);
    RolesAdd(st.pages.spans, a.v.linked, a.roles, st'.pages.spans, v'.linked, p, r);
    RolesDiffer(a.roles, p, r);
  }

  lemma FetchSpanKeeps(st: State, a: Aux, st': State, t: Tid, os: Page) returns (a': Aux)
    requires Safe(st, a) && StepFetchSpan(st, st', t, os)
    ensures Safe(st', a')
  {
    hide Safe, ArgsOk, Core, Placed, LocksOk, Local, OnlyThread, RoundUp, PageThreshold, BlockThreshold, PoolOk, HeadsOk, Create, OsPages,
      PagesOk, RolesOk, PagesStep;
    CoreOf(st, a, t);
    PartsOf(st, a);
    match PcOf(st, t)
    case Fetch(size, c, k) =>
      ClassOfRequest(size);
      var n := PageThreshold(c);
      var (pages1, p) := Create(st.pages, n, os);
      var v' := Obtain(st.pages, st.mapped, a.v, n, os, c, pages1, p, st'.mapped);
      a' := Aux(v', a.roles[p := Private(t)], a.own);
      ObtainedStep(st, a, st', n, c, v', p, Private(t), a');
      PagesCore(st, a, st', a', p);
      NoLockMoved(st, st', t);
      PagesLocal(st, a, st', a', p, t);
      ArgsShrink(a.own, a'.own, t, PcOf(st, t), PcOf(st', t));
      Assemble(st, a, st', a', t);
  }

  /** A new direct span starts on a page boundary and no block lies there. */
  lemma NewDirect(st: State, a: Aux, st': State, a': Aux, p: Ptr, size: nat)
    requires Core(st, a) && PagesStep(st, a, st', a', p) && p in a'.roles && a'.roles[p] == Direct && p in st'.pages.spans
    requires forall b :: b in a.own ==> a.own[b].span != p
    requires size <= st'.pages.spans[p].count * PAGE
    ensures HeldAs(st'.pages.spans, a'.roles, a'.v, a'.own, Base(st'.pages.spans[p]), size)
  {
    hide RolesOk, BinsOk, Placed, CountsOk, HeldOk, CachesOk, PagesOk;
    var s := st'.pages.spans[p];
    var b := Base(s);
    PageStart(s.first);
    PositiveCount(st'.pages, st'.mapped, a'.v, p);
    OwnerOf(st'.pages, st'.mapped, a'.v, p, s.first);
    if b in a.own {
      var q := a.own[b].span;
      SpanKept(st, a, st', a', p, q);
      BlockInside(st.pages.spans[q], b);
    }
  }

  lemma PageStart(first: nat)
    ensures first * PAGE % PAGE == 0 && first * PAGE / PAGE == first
  {
  }

  lemma OwnerOf(pages: Pages, mapped: set<Page>, v: View, p: Ptr, g: Page)
    requires PagesOk(pages, mapped, v) && p in pages.spans && Owns(pages.spans[p], g)
    ensures g in v.own && v.own[g] == p
  {
  }

  lemma BigRequest(size: nat)
    requires MAX_ALLOC_BYTES < size && size + PAGE <= SIZE_VALUES
    ensures size <= RoundUp(size) / PAGE * PAGE && RoundUp(size) / PAGE >= 64
  {
    LargeRequestPages(size);
  }

  lemma MallocBigKeeps(st: State, a: Aux, st': State, t: Tid, size: nat, os: Page) returns (a': Aux)
    requires Safe(st, a) && StepMallocBig(st, st', t, size, os)
    ensures Safe(st', a')
  {
    hide Safe, ArgsOk, Core, Placed, LocksOk, Local, OnlyThread, RoundUp, PoolOk, HeadsOk, Create, OsPages, PagesOk, RolesOk, PagesStep;
    CoreOf(st, a, t);
    PartsOf(st, a);
    var n := RoundUp(size) / PAGE;
    var (pages1, p) := Create(st.pages, n, os);
    BigRequest(size);
    var v' := Obtain(st.pages, st.mapped, a.v, n, os, MAX_ALLOC_BYTES + 1, pages1, p, st'.mapped);
    a' := Aux(v', a.roles[p := Direct], a.own);
    ObtainedStep(st, a, st', n, MAX_ALLOC_BYTES + 1, v', p, Direct, a');
    NewDirect(st, a, st', a', p, size);
    PagesCore(st, a, st', a', p);
    NoLockMoved(st, st', t);
    PagesLocal(st, a, st', a', p, t);
    ArgsShrink(a.own, a'.own, t, PcOf(st, t), PcOf(st', t));
    Assemble(st, a, st', a', t);
  }

  // ----- giving a span back ---------------------------------------------------------

  lemma ReleasedStep(st: State, a: Aux, st': State, t: Tid, p: Ptr) returns (a': Aux)
    requires Core(st, a) && OwnsSpan(a, t, p) && p in st.pages.spans
    requires st'.pages == RecoverClean(st.pages, p) && st'.mapped == HeldAfter(st.mapped, st.pages.spans[p])
    requires st'.bins == st.bins && st'.uses == st.uses && st'.blocks == st.blocks && st'.apply == st.apply
    ensures PagesStep(st, a, st', a', p) && RolesOk(st'.pages.spans, a'.v.linked, a'.roles)
    ensures forall b :: b in a.own ==> a.own[b].span != p
    ensures a'.roles == a.roles - {p} && a'.own == a.own
  {
    hide BinsOk, Placed, CountsOk, HeldOk, CachesOk, KeepsOthers, Good, RecoverClean;
    var v' := RecoverCleanKeeps(st.pages, a.v, p, st'.pages);
    a' := Aux(v', a.roles - {p}, a.own);
    RolesDrop(st.pages.spans, a.v.linked, a.roles, st'.pages.spans, v'.linked, p);
    RolesDiffer(a.roles, p, Direct);
  }

  lemma ReleaseBigKeeps(st: State, a: Aux, st': State, t: Tid) returns (a': Aux)
    requires Safe(st, a) && StepReleaseBig(st, st', t)
    ensures Safe(st', a')
  {
    hide Safe, ArgsOk, Core, Placed, LocksOk, Local, OnlyThread, RecoverClean, PagesOk, RolesOk, PagesStep;
    CoreOf(st, a, t);
    PartsOf(st, a);
    match PcOf(st, t)
    case FreeBig(p) =>
      a' := ReleasedStep(st, a, st', t, p);
      PagesCore(st, a, st', a', p);
      NoLockMoved(st, st', t);
      PagesLocal(st, a, st', a', p, t);
      ArgsShrink(a.own, a'.own, t, PcOf(st, t), PcOf(st', t));
      Assemble(st, a, st', a', t);
  }

  lemma ReleaseSpanKeeps(st: State, a: Aux, st': State, t: Tid) returns (a': Aux)
    requires Safe(st, a) && StepReleaseSpan(st, st', t)
    ensures Safe(st', a')
  {
    hide Safe, ArgsOk, Core, Placed, LocksOk, Local, OnlyThread, RecoverClean, PagesOk, RolesOk, PagesStep;
    CoreOf(st, a, t);
    PartsOf(st, a);
    match PcOf(st, t)
    case GiveBack(c, p) =>
      a' := ReleasedStep(st, a, st', t, p);
      PagesCore(st, a, st', a', p);
      NoLockMoved(st, st', t);
      PagesLocal(st, a, st', a', p, t);
      ArgsShrink(a.own, a'.own, t, PcOf(st, t), PcOf(st', t));
      Assemble(st, a, st', a', t);
  }
}
