/** Every step of the allocator keeps its invariant: the steps of `tnc_free` up to the thread's free list. */
module AllocatorFree {
  import opened SizeClasses
  import opened PageModel
  import opened PageInvariant
  import opened PageCreate
  import opened PageRecover
  import opened Allocator
  import opened AllocatorBlocks
  import opened AllocatorSafety
  import opened AllocatorSteps

  /** A page of a span that is handed out and has at most 128 pages is mapped to it, and so is the
      first page of any span. */
  lemma LookupIsRight(st: State, v: View, p: Ptr, g: Page)
    requires PagesOk(st.pages, st.mapped, v) && p in st.pages.spans && p !in v.linked && Owns(st.pages.spans[p], g)
    requires st.pages.spans[p].count <= MAX_PAGE_COUNT || g == st.pages.spans[p].first
    ensures TagAt(st.pages.tags, g, p) && g in v.own && v.own[g] == p
  {
    hide PoolOk, BucketsOk, MarksOk;
    assert Tagged(st.pages.spans[p], p, st.pages.tags, false);
  }

  /** The map leads from a carved block to its span. */
  lemma BlockLookup(st: State, a: Aux, b: Addr)
    requires Safe(st, a) && b in a.own
    ensures var p := a.own[b].span;
            && p in a.roles && a.roles[p].InBin? && p in st.pages.spans && IsSpanOf(st.pages.spans[p], a.roles[p].c)
            && TagAt(st.pages.tags, b / PAGE, p) && b / PAGE in a.v.own && a.v.own[b / PAGE] == p
  {
    hide PagesOk, BinsOk, Placed, CountsOk, HeldOk, CachesOk, LocksOk, PcOk, PageThreshold;
    var p := a.own[b].span;
    var s := st.pages.spans[p];
    BlockInside(s, b);
    PageThresholdFits(s.blockSize);
    LookupIsRight(st, a.v, p, b / PAGE);
  }

  lemma DirectLookup(st: State, a: Aux, b: Addr, r: Role)
    requires Safe(st, a) && SpanAt(st.pages.spans, a.roles, a.v, b, r)
    ensures TagAt(st.pages.tags, b / PAGE, a.v.own[b / PAGE])
  {
    hide BinsOk, Placed, GeometryOk, CountsOk, HeldOk, CachesOk, LocksOk, PcOk, PoolOk, BucketsOk, MarksOk, TagsOk;
    var p := a.v.own[b / PAGE];
    assert Owns(st.pages.spans[p], b / PAGE);
    LookupIsRight(st, a.v, p, b / PAGE);
  }

  /** The branch of `tnc_free` is the right one: small for a block, with the block's own span, and big for
      a direct allocation. */
  lemma LookupPc(st: State, a: Aux, st': State, t: Tid)
    requires Safe(st, a) && StepLookup(st, st', t) && PcOk(st, a, t) && ArgsOk(a.own, t, PcOf(st, t))
    ensures PcOk(st', a, t) && ArgsOk(a.own, t, PcOf(st', t)) && PcOf(st, t).Freeing?
  {
    LookupPcKind(st, st', t);
    hide Safe, StepLookup, PcOk, ArgsOk;
    var b := PcOf(st, t).b;
    if b in a.own {
      LookupSmall(st, a, st', t, b);
      ArgsLooked(a.own, t, b, PcOf(st', t));
    } else {
      LookupBig(st, a, st', t, b);
      ArgsLooked(a.own, t, b, PcOf(st', t));
    }
  }

  lemma LookupPcKind(st: State, st': State, t: Tid)
    requires StepLookup(st, st', t)
    ensures PcOf(st, t).Freeing?
  {
  }

  lemma ArgsLooked(own: map<Addr, Entry>, t: Tid, b: Addr, pc: Pc)
    requires ArgsOk(own, t, Freeing(b)) && (b in own ==> pc.FreeSmall? && pc.b == b)
    ensures ArgsOk(own, t, pc)
  {
  }

  lemma LookupSmall(st: State, a: Aux, st': State, t: Tid, b: Addr)
    requires Safe(st, a) && StepLookup(st, st', t) && PcOf(st, t) == Freeing(b) && b in a.own && PcOk(st, a, t)
    ensures PcOk(st', a, t) && PcOf(st', t) == FreeSmall(b, a.own[b].span)
  {
    hide Safe, PageThreshold;
    BlockLookup(st, a, b);
  }

  lemma LookupBig(st: State, a: Aux, st': State, t: Tid, b: Addr)
    requires Safe(st, a) && StepLookup(st, st', t) && PcOf(st, t) == Freeing(b) && b !in a.own && PcOk(st, a, t)
    ensures PcOk(st', a, t)
  {
    hide Safe;
    DirectLookup(st, a, b, Private(t));
  }

  lemma LookupKeeps(st: State, a: Aux, st': State, t: Tid)
    requires Safe(st, a) && StepLookup(st, st', t)
    ensures Safe(st', a)
  {
    hide Safe, ArgsOk, Core, Placed, LocksOk, Local, OnlyThread, CachesOk, PcOk;
    CoreOf(st, a, t);
    CachesOf(st, a);
    CoreStill(st, a, st');
    LookupPc(st, a, st', t);
    NoLockMoved(st, st', t);
    LocalStill(st, a, st', t);
    Assemble(st, a, st', a, t);
  }

  /** Giving up a block: from the user to the argument of `tnc_free`. */
  lemma FreeBlockCore(st: State, a: Aux, st': State, t: Tid, b: Addr)
    requires Core(st, a) && StepFree(st, st', t, b) && b in a.own && a.own[b].place == User
    ensures Core(st', a.(own := Relocate(a.own, [b], Argument(t))))
  {
    hide PagesOk, RolesOk, BinsOk, Placed, GeometryOk, CountsOk, HeldOk, CachesOk;
    HandPlaced(st.blocks, a.own, b, Argument(t));
    GeometryMove(st.pages.spans, a.roles, a.own, [b], Argument(t));
    HeldGive(st.pages.spans, a.roles, a.v, a.own, st.held, b, Argument(t));
    CoreMoved(st, a, st', Relocate(a.own, [b], Argument(t)));
  }

  /** The span of a direct allocation passes from the user to thread t. */
  lemma FreeDirectCore(st: State, a: Aux, st': State, t: Tid, b: Addr, p: Ptr)
    requires Core(st, a) && StepFree(st, st', t, b) && b !in a.own
    requires SpanAt(st.pages.spans, a.roles, a.v, b, Direct) && p == a.v.own[b / PAGE]
    ensures Core(st', a.(roles := a.roles[p := Private(t)]))
    ensures st.pages.spans[p].blockSize > MAX_ALLOC_BYTES
  {
    hide PagesOk, BinsOk, Placed, GeometryOk, CountsOk, HeldOk, CachesOk;
    HeldGiveDirect(st.pages.spans, a.roles, a.v, a.own, st.held, b, t);
    RolePasses(st.pages.spans, a.roles, st.bins, a.own, st.uses, st.blocks, p, t);
  }

  /** Clauses about bins and blocks do not see a direct span change hands. */
  lemma RolePasses(spans: map<Ptr, Span>, roles: map<Ptr, Role>, bins: map<nat, seq<Ptr>>, own: map<Addr, Entry>,
                   uses: map<Ptr, nat>, blocks: map<Place, seq<Addr>>, p: Ptr, t: Tid)
    requires p in roles && !roles[p].InBin?
    requires BinsOk(bins, roles) && GeometryOk(spans, roles, own) && CountsOk(spans, roles, uses, blocks)
    ensures BinsOk(bins, roles[p := Private(t)]) && GeometryOk(spans, roles[p := Private(t)], own)
    ensures CountsOk(spans, roles[p := Private(t)], uses, blocks)
  {
  }

  lemma HeldGiveDirect(spans: map<Ptr, Span>, roles: map<Ptr, Role>, v: View, own: map<Addr, Entry>, held: map<Addr, nat>,
                       b: Addr, t: Tid)
    requires HeldOk(spans, roles, v, own, held) && b !in own && SpanAt(spans, roles, v, b, Direct)
    ensures HeldOk(spans, roles[v.own[b / PAGE] := Private(t)], v, own, held - {b})
  {
    var roles', held' := roles[v.own[b / PAGE] := Private(t)], held - {b};
    forall d | d in held'
      ensures HeldAs(spans, roles', v, own, d, held'[d])
    {
      assert HeldAs(spans, roles, v, own, d, held[d]);
    }
  }

  lemma HeldFacts(st: State, a: Aux, b: Addr)
    requires Core(st, a) && b in st.held
    ensures HeldAs(st.pages.spans, a.roles, a.v, a.own, b, st.held[b])
  {
  }

  lemma LocalRole(st: State, a: Aux, st': State, t: Tid, p: Ptr)
    requires OnlyThread(st, st', t) && st'.pages == st.pages && st'.blocks == st.blocks
    requires p in a.roles && a.roles[p] == Direct && Core(st, a)
    ensures Local(st, a, st', a.(roles := a.roles[p := Private(t)]), t)
  {
    hide PagesOk, RolesOk, BinsOk, Placed, CountsOk, HeldOk, CachesOk;
  }

  /** The block handed in is the only argument of thread t. */
  lemma ArgsHanded(own: map<Addr, Entry>, t: Tid, b: Addr)
    requires ArgsOk(own, t, Idle)
    ensures ArgsOk(Relocate(own, [b], Argument(t)), t, Freeing(b)) && ArgsOk(own, t, Freeing(b))
  {
  }

  lemma FreeBlockKeeps(st: State, a: Aux, st': State, t: Tid, b: Addr)
    requires Safe(st, a) && StepFree(st, st', t, b) && b in a.own && a.own[b].place == User
    ensures Safe(st', a.(own := Relocate(a.own, [b], Argument(t))))
  {
    hide Safe, ArgsOk, Core, Placed, LocksOk, Local, OnlyThread;
    var own' := Relocate(a.own, [b], Argument(t));
    CoreOf(st, a, t);
    NoLockMoved(st, st', t);
    FreeBlockCore(st, a, st', t, b);
    LocalMoved(st, a, st', own', t);
    ArgsHanded(a.own, t, b);
    Assemble(st, a, st', a.(own := own'), t);
  }

  lemma FreeDirectKeeps(st: State, a: Aux, st': State, t: Tid, b: Addr, p: Ptr)
    requires Safe(st, a) && StepFree(st, st', t, b) && b !in a.own
    requires SpanAt(st.pages.spans, a.roles, a.v, b, Direct) && p == a.v.own[b / PAGE]
    ensures Safe(st', a.(roles := a.roles[p := Private(t)]))
  {
    hide Safe, ArgsOk, Core, Placed, LocksOk, Local, OnlyThread;
    CoreOf(st, a, t);
    NoLockMoved(st, st', t);
    FreeDirectCore(st, a, st', t, b, p);
    LocalRole(st, a, st', t, p);
    ArgsHanded(a.own, t, b);
    Assemble(st, a, st', a.(roles := a.roles[p := Private(t)]), t);
  }

  lemma FreeKeeps(st: State, a: Aux, st': State, t: Tid, b: Addr) returns (a': Aux)
    requires Safe(st, a) && StepFree(st, st', t, b)
    ensures Safe(st', a')
  {
    hide Safe, ArgsOk, Core, Placed, LocksOk;
    CoreOf(st, a, t);
    HeldFacts(st, a, b);
    if b in a.own {
      a' := a.(own := Relocate(a.own, [b], Argument(t)));
      FreeBlockKeeps(st, a, st', t, b);
    } else {
      var p := a.v.own[b / PAGE];
      a' := a.(roles := a.roles[p := Private(t)]);
      FreeDirectKeeps(st, a, st', t, b, p);
    }
  }

  /** The block goes in front of the thread's list. */
  lemma PushClauses(st: State, a: Aux, t: Tid, b: Addr, p: Ptr, c: nat, blocks': map<Place, seq<Addr>>, own': map<Addr, Entry>)
    requires Core(st, a) && b in a.own && a.own[b] == Entry(p, Argument(t))
    requires p in st.pages.spans && c == st.pages.spans[p].blockSize
    requires blocks' == st.blocks[Cached(t, c) := [b] + On(st.blocks, Cached(t, c))] && own' == Relocate(a.own, [b], Cached(t, c))
    ensures Placed(blocks', own') && GeometryOk(st.pages.spans, a.roles, own')
    ensures CountsOk(st.pages.spans, a.roles, st.uses, blocks')
    ensures HeldOk(st.pages.spans, a.roles, a.v, own', st.held)
  {
    hide PagesOk, RolesOk, BinsOk, Placed, GeometryOk, CountsOk, HeldOk, CachesOk;
    PushPlaced(st.blocks, a.own, b, Cached(t, c));
    GeometryMove(st.pages.spans, a.roles, a.own, [b], Cached(t, c));
    HeldMove(st.pages.spans, a.roles, a.v, a.own, st.held, [b], Cached(t, c));
    CountsOther(st.pages.spans, a.roles, st.uses, st.blocks, blocks');
  }

  /** The whole list of class c moves to the run of thread t. */
  lemma ReleaseClauses(spans: map<Ptr, Span>, roles: map<Ptr, Role>, v: View, held: map<Addr, nat>, uses: map<Ptr, nat>,
                       blocks: map<Place, seq<Addr>>, own: map<Addr, Entry>, t: Tid, c: nat, n: nat)
    requires Placed(blocks, own) && GeometryOk(spans, roles, own) && CountsOk(spans, roles, uses, blocks)
    requires HeldOk(spans, roles, v, own, held) && n == |On(blocks, Cached(t, c))|
    ensures var blocks', own' := MoveFront(blocks, Cached(t, c), Moving(t), n), Relocate(own, On(blocks, Cached(t, c)), Moving(t));
            && Placed(blocks', own') && GeometryOk(spans, roles, own') && CountsOk(spans, roles, uses, blocks')
            && HeldOk(spans, roles, v, own', held)
  {
    hide Placed, GeometryOk, CountsOk, HeldOk;
    var x := Cached(t, c);
    var run := On(blocks, x);
    assert run[..n] == run;
    MovePlaced(blocks, own, x, Moving(t), n);
    GeometryMove(spans, roles, own, run, Moving(t));
    RunNotUser(blocks, own, x, run);
    HeldMove(spans, roles, v, own, held, run, Moving(t));
    CountsOther(spans, roles, uses, blocks, MoveFront(blocks, x, Moving(t), n));
  }

  /** Where the lists stand after a push: below the apply count, or released as a whole. */
  lemma PushCaches(blocks: map<Place, seq<Addr>>, apply: map<(Tid, nat), nat>, t: Tid, c: nat, b: Addr)
    requires CachesOk(blocks, apply) && c >= 1 && On(blocks, Moving(t)) == []
    ensures var x, n := Cached(t, c), Applies(apply, t, c);
            var pushed := blocks[x := [b] + On(blocks, x)];
            if |On(pushed, x)| >= n
            then |On(pushed, x)| == n && CachesOk(MoveFront(pushed, x, Moving(t), n), apply)
                 && On(MoveFront(pushed, x, Moving(t), n), Moving(t)) == On(pushed, x)
            else CachesOk(pushed, apply)
  {
  }

  /** The bookkeeping of a push. */
  function Pushed(blocks: map<Place, seq<Addr>>, own: map<Addr, Entry>, t: Tid, c: nat, n: nat, b: Addr): map<Addr, Entry> {
    var own1 := Relocate(own, [b], Cached(t, c));
    var list := [b] + On(blocks, Cached(t, c));
    if |list| >= n then Relocate(own1, list, Moving(t)) else own1
  }

  /** What the push does to the state. */
  lemma PushEffect(st: State, st': State, t: Tid, b: Addr, p: Ptr, c: nat)
    requires StepPushLocal(st, st', t) && PcOf(st, t) == FreeSmall(b, p) && c == st.pages.spans[p].blockSize
    ensures var pushed, n := st.blocks[Cached(t, c) := [b] + On(st.blocks, Cached(t, c))], Applies(st.apply, t, c);
            st' == st.(pcs := st'.pcs, blocks := if |On(pushed, Cached(t, c))| >= n then MoveFront(pushed, Cached(t, c), Moving(t), n) else pushed)
  {
    hide MoveFront;
  }

  /** The clauses about blocks after a push, and after the release that may follow. */
  lemma PushedClauses(st: State, a: Aux, t: Tid, b: Addr, p: Ptr, c: nat, n: nat, pushed: map<Place, seq<Addr>>, blocks': map<Place, seq<Addr>>)
    requires Core(st, a) && On(st.blocks, Moving(t)) == [] && b in a.own && a.own[b] == Entry(p, Argument(t))
    requires p in st.pages.spans && c == st.pages.spans[p].blockSize && c >= 1 && n == Applies(st.apply, t, c)
    requires pushed == st.blocks[Cached(t, c) := [b] + On(st.blocks, Cached(t, c))]
    requires blocks' == if |On(pushed, Cached(t, c))| >= n then MoveFront(pushed, Cached(t, c), Moving(t), n) else pushed
    ensures var own' := Pushed(st.blocks, a.own, t, c, n, b);
            && Placed(blocks', own') && GeometryOk(st.pages.spans, a.roles, own')
            && CountsOk(st.pages.spans, a.roles, st.uses, blocks')
            && HeldOk(st.pages.spans, a.roles, a.v, own', st.held) && CachesOk(blocks', st.apply)
  {
    CachesOf(st, a);
    hide Core, Placed, GeometryOk, CountsOk, HeldOk, CachesOk, MoveFront, Relocate;
    var x := Cached(t, c);
    assert On(pushed, x) == [b] + On(st.blocks, x);
    PushClauses(st, a, t, b, p, c, pushed, Relocate(a.own, [b], x));
    PushCaches(st.blocks, st.apply, t, c, b);
    if |On(pushed, x)| >= n {
      ReleaseClauses(st.pages.spans, a.roles, a.v, st.held, st.uses, pushed, Relocate(a.own, [b], x), t, c, n);
    }
  }

  lemma PushCore(st: State, a: Aux, st': State, t: Tid, b: Addr, p: Ptr, c: nat)
    requires Core(st, a) && StepPushLocal(st, st', t) && PcOf(st, t) == FreeSmall(b, p) && On(st.blocks, Moving(t)) == []
    requires b in a.own && a.own[b] == Entry(p, Argument(t)) && c == st.pages.spans[p].blockSize && c >= 1
    ensures Core(st', a.(own := Pushed(st.blocks, a.own, t, c, Applies(st.apply, t, c), b)))
  {
    PushEffect(st, st', t, b, p, c);
    hide Core, Placed, GeometryOk, CountsOk, HeldOk, CachesOk, MoveFront, Pushed, StepPushLocal;
    var pushed := st.blocks[Cached(t, c) := [b] + On(st.blocks, Cached(t, c))];
    PushedClauses(st, a, t, b, p, c, Applies(st.apply, t, c), pushed, st'.blocks);
    CoreMoved(st, a, st', Pushed(st.blocks, a.own, t, c, Applies(st.apply, t, c), b));
  }

  lemma PushRest(st: State, st': State, t: Tid, b: Addr, p: Ptr, c: nat)
    requires StepPushLocal(st, st', t) && PcOf(st, t) == FreeSmall(b, p) && c == st.pages.spans[p].blockSize
    ensures forall x :: x != Moving(t) && x != Cached(t, c) ==> On(st'.blocks, x) == On(st.blocks, x)
    ensures st'.pages == st.pages
  {
  }

  lemma SameClass(st: State, a: Aux, t: Tid, c: nat, b: Addr)
    requires Safe(st, a) && b in a.own
    ensures forall d :: d in On(st.blocks, Cached(t, c)) ==>
              d in a.own && a.own[d].place == Cached(t, c) && a.own[d].span in a.roles && a.roles[a.own[d].span] == InBin(c)
    ensures a.own[b].span in a.roles && a.own[b].span in st.pages.spans
    ensures a.roles[a.own[b].span] == InBin(st.pages.spans[a.own[b].span].blockSize)
    ensures 1 <= st.pages.spans[a.own[b].span].blockSize <= MAX_ALLOC_BYTES
  {
    hide Safe, PageThreshold;
    RunFrom(st, a, Cached(t, c), On(st.blocks, Cached(t, c)), c);
    BlockLookup(st, a, b);
  }

  lemma PushNext(st: State, st': State, t: Tid, b: Addr, p: Ptr, c: nat)
    requires StepPushLocal(st, st', t) && PcOf(st, t) == FreeSmall(b, p) && c == st.pages.spans[p].blockSize && c >= 1
    requires CachesOk(st.blocks, st.apply) && On(st.blocks, Moving(t)) == []
    ensures if |On(st.blocks, Cached(t, c))| + 1 >= Applies(st.apply, t, c)
            then PcOf(st', t) == Return(c) && On(st'.blocks, Moving(t)) == [b] + On(st.blocks, Cached(t, c))
            else PcOf(st', t) == Idle && On(st'.blocks, Moving(t)) == []
  {
    hide CachesOk, MoveFront;
    PushCaches(st.blocks, st.apply, t, c, b);
  }

  lemma PushPc(st: State, a: Aux, st': State, own': map<Addr, Entry>, t: Tid, b: Addr, p: Ptr, c: nat)
    requires Safe(st, a) && StepPushLocal(st, st', t) && PcOf(st, t) == FreeSmall(b, p) && PcOk(st, a, t)
    requires CachesOk(st.blocks, st.apply) && c == st.pages.spans[p].blockSize
    requires own' == Pushed(st.blocks, a.own, t, c, Applies(st.apply, t, c), b)
    ensures PcOk(st', a.(own := own'), t)
  {
    hide Safe, CachesOk, StepPushLocal;
    SameClass(st, a, t, c, b);
    PushNext(st, st', t, b, p, c);
  }

  lemma ArgsPushed(blocks: map<Place, seq<Addr>>, own: map<Addr, Entry>, t: Tid, c: nat, n: nat, b: Addr, p: Ptr, pc: Pc)
    requires ArgsOk(own, t, FreeSmall(b, p))
    ensures ArgsOk(Pushed(blocks, own, t, c, n, b), t, pc)
  {
  }

  lemma PushLocalPc(st: State, st': State, t: Tid) returns (b: Addr, p: Ptr)
    requires StepPushLocal(st, st', t)
    ensures PcOf(st, t) == FreeSmall(b, p) && p in st.pages.spans && st'.locks == st.locks
    ensures forall u: Tid :: u != t ==> PcOf(st', u) == PcOf(st, u)
    ensures forall u: Tid, c: nat :: u != t ==> Applies(st'.apply, u, c) == Applies(st.apply, u, c)
  {
    hide MoveFront;
    b, p := PcOf(st, t).b, PcOf(st, t).p;
  }

  lemma PushLocalKeeps(st: State, a: Aux, st': State, t: Tid) returns (a': Aux)
    requires Safe(st, a) && StepPushLocal(st, st', t)
    ensures Safe(st', a')
  {
    var b, p := PushLocalPc(st, st', t);
    hide Safe, ArgsOk, Core, Placed, LocksOk, Local, OnlyThread, CachesOk, RunOf, StepPushLocal, Pushed;
    CoreOf(st, a, t);
    CachesOf(st, a);
    var c := st.pages.spans[p].blockSize;
    a' := a.(own := Pushed(st.blocks, a.own, t, c, Applies(st.apply, t, c), b));
    PushPc(st, a, st', a'.own, t, b, p, c);
    SameClass(st, a, t, c, b);
    PushCore(st, a, st', t, b, p, c);
    NoLockMoved(st, st', t);
    PushLocalFrame(st, a, st', a'.own, t, b, p, c);
    ArgsPushed(st.blocks, a.own, t, c, Applies(st.apply, t, c), b, p, PcOf(st', t));
    Assemble(st, a, st', a', t) by { hide PcOk; }
  }

  lemma PushLocalFrame(st: State, a: Aux, st': State, own': map<Addr, Entry>, t: Tid, b: Addr, p: Ptr, c: nat)
    requires StepPushLocal(st, st', t) && PcOf(st, t) == FreeSmall(b, p) && c == st.pages.spans[p].blockSize
    requires b in a.own && a.own[b] == Entry(p, Argument(t)) && OnlyThread(st, st', t) && Placed(st.blocks, a.own)
    requires own' == Pushed(st.blocks, a.own, t, c, Applies(st.apply, t, c), b)
    ensures Local(st, a, st', a.(own := own'), t)
  {
    hide Local, OnlyThread, StepPushLocal, Placed;
    NoOtherLists(st.blocks, a.own);
    PushRest(st, st', t, b, p, c);
    OnPlace(st.blocks, a.own, Cached(t, c));
    LocalMoved(st, a, st', own', t);
  }
}
