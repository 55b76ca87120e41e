/** Every step of the allocator keeps its invariant: returning a released run to its spans. */
module AllocatorReturn {
  import opened SizeClasses
  import opened PageModel
  import opened PageInvariant
  import opened PageCreate
  import opened PageRecover
  import opened Allocator
  import opened AllocatorBlocks
  import opened AllocatorSafety
  import opened AllocatorSteps
  import opened AllocatorFree

  lemma ReturnedBlock(st: State, a: Aux, t: Tid, c: nat, b: Addr)
    requires Safe(st, a) && RunOf(st, a, t, c) && b in On(st.blocks, Moving(t)) && b / PAGE in st.pages.tags
    ensures b in a.own && a.own[b].place == Moving(t)
    ensures var p := st.pages.tags[b / PAGE]; p == a.own[b].span && p in a.roles && a.roles[p] == InBin(c)
  {
    hide Safe, PageThreshold;
    ListFacts(st, a, Moving(t), b);
    BlockLookup(st, a, b);
  }

  /** The block is back on the chain of its span. */
  function GivenBack(st: State, t: Tid, p: Ptr): State
    requires On(st.blocks, Moving(t)) != [] && Uses(st.uses, p) >= 1
  {
    st.(uses := st.uses[p := Uses(st.uses, p) - 1], blocks := MoveFront(st.blocks, Moving(t), Home(p), 1))
  }

  lemma GiveBackCore(st: State, a: Aux, t: Tid, p: Ptr, b: Addr)
    requires Core(st, a) && On(st.blocks, Moving(t)) != [] && Uses(st.uses, p) >= 1 && b == On(st.blocks, Moving(t))[0]
    requires b in a.own && a.own[b].span == p && a.own[b].place == Moving(t) && p in a.roles && a.roles[p].InBin?
    ensures Core(GivenBack(st, t, p), a.(own := Relocate(a.own, [b], Home(p))))
  {
    hide PagesOk, RolesOk, BinsOk, Placed, GeometryOk, CountsOk, HeldOk, CachesOk;
    var st1 := GivenBack(st, t, p);
    assert On(st.blocks, Moving(t))[..1] == [b];
    MovePlaced(st.blocks, a.own, Moving(t), Home(p), 1);
    GeometryMove(st.pages.spans, a.roles, a.own, [b], Home(p));
    HeldMove(st.pages.spans, a.roles, a.v, a.own, st.held, [b], Home(p));
    CountsOne(st.pages.spans, a.roles, st.uses, st.blocks, st1.uses, st1.blocks, p);
    CachesSame(st.blocks, st1.blocks, st.apply);
    CoreMoved(st, a, st1, Relocate(a.own, [b], Home(p)));
  }

  /** A span with no block handed out has all its blocks at home. */
  lemma ZeroMeansHome(spans: map<Ptr, Span>, roles: map<Ptr, Role>, uses: map<Ptr, nat>, blocks: map<Place, seq<Addr>>,
                      own: map<Addr, Entry>, p: Ptr)
    requires GeometryOk(spans, roles, own) && CountsOk(spans, roles, uses, blocks) && Placed(blocks, own)
    requires p in roles && roles[p].InBin? && Uses(uses, p) == 0
    ensures forall b :: b in On(blocks, Home(p)) <==> b in own && own[b].span == p
  {
    var s := spans[p];
    var home := On(blocks, Home(p));
    AllBlocksExact(s);
    forall b | b in home
      ensures b in AllBlocks(s) && b in own && own[b].span == p
    {
      assert own[b].place == Home(p);
      assert IsBlock(s, b);
    }
    AllHome(home, AllBlocks(s));
  }

  /** The idle span leaves its bin for thread t. */
  function Detached(st: State, p: Ptr, c: nat): State {
    st.(blocks := st.blocks - {Home(p)}, bins := st.bins[c := Without(Bin(st, c), p)])
  }

  function DetachedAux(a: Aux, home: seq<Addr>, p: Ptr, t: Tid): Aux {
    a.(roles := a.roles[p := Private(t)], own := a.own - Elements(home))
  }

  lemma DetachBins(bins: map<nat, seq<Ptr>>, roles: map<Ptr, Role>, p: Ptr, c: nat, t: Tid)
    requires BinsOk(bins, roles) && p in roles && roles[p] == InBin(c)
    ensures BinsOk(bins[c := Without(if c in bins then bins[c] else [], p)], roles[p := Private(t)])
  {
    WithoutNoDup(bins[c], p);
  }

  lemma DetachHeld(spans: map<Ptr, Span>, roles: map<Ptr, Role>, v: View, own: map<Addr, Entry>, held: map<Addr, nat>,
                   p: Ptr, t: Tid, gone: set<Addr>)
    requires HeldOk(spans, roles, v, own, held) && p in roles && roles[p].InBin?
    requires forall b :: b in gone ==> b in own && own[b].place != User
    ensures HeldOk(spans, roles[p := Private(t)], v, own - gone, held)
  {
    forall d | d in held
      ensures HeldAs(spans, roles[p := Private(t)], v, own - gone, d, held[d])
    {
      assert HeldAs(spans, roles, v, own, d, held[d]);
    }
  }

  lemma DetachGeometry(spans: map<Ptr, Span>, roles: map<Ptr, Role>, own: map<Addr, Entry>, p: Ptr, t: Tid, gone: set<Addr>)
    requires GeometryOk(spans, roles, own) && forall b :: b in gone <==> b in own && own[b].span == p
    ensures GeometryOk(spans, roles[p := Private(t)], own - gone)
  {
  }

  lemma DetachCounts(spans: map<Ptr, Span>, roles: map<Ptr, Role>, uses: map<Ptr, nat>, blocks: map<Place, seq<Addr>>,
                     p: Ptr, t: Tid)
    requires CountsOk(spans, roles, uses, blocks) && Uses(uses, p) == 0
    ensures CountsOk(spans, roles[p := Private(t)], uses, blocks - {Home(p)})
  {
    assert forall q :: q != p ==> On(blocks - {Home(p)}, Home(q)) == On(blocks, Home(q));
    assert On(blocks - {Home(p)}, Home(p)) == [];
  }

  lemma DetachCaches(blocks: map<Place, seq<Addr>>, apply: map<(Tid, nat), nat>, p: Ptr)
    requires CachesOk(blocks, apply)
    ensures CachesOk(blocks - {Home(p)}, apply)
  {
    assert forall t: Tid, c: nat :: On(blocks - {Home(p)}, Cached(t, c)) == On(blocks, Cached(t, c));
  }

  lemma DetachCore(st: State, a: Aux, t: Tid, p: Ptr, c: nat)
    requires Core(st, a) && p in a.roles && a.roles[p] == InBin(c) && Uses(st.uses, p) == 0
    ensures Core(Detached(st, p, c), DetachedAux(a, On(st.blocks, Home(p)), p, t))
    ensures forall b :: b in On(st.blocks, Home(p)) <==> b in a.own && a.own[b].span == p
    ensures forall b :: b in On(st.blocks, Home(p)) ==> b in a.own && a.own[b].place == Home(p)
  {
    hide PagesOk, BinsOk, Placed, GeometryOk, CountsOk, HeldOk, CachesOk;
    var home := On(st.blocks, Home(p));
    var gone := Elements(home);
    ZeroMeansHome(st.pages.spans, a.roles, st.uses, st.blocks, a.own, p);
    RunNotUser(st.blocks, a.own, Home(p), home);
    DetachBins(st.bins, a.roles, p, c, t);
    DropPlaced(st.blocks, a.own, p, gone);
    DetachGeometry(st.pages.spans, a.roles, a.own, p, t, gone);
    DetachCounts(st.pages.spans, a.roles, st.uses, st.blocks, p, t);
    DetachHeld(st.pages.spans, a.roles, a.v, a.own, st.held, p, t, gone);
    DetachCaches(st.blocks, st.apply, p);
  }

  lemma GivenBackLists(st: State, t: Tid, p: Ptr)
    requires On(st.blocks, Moving(t)) != [] && Uses(st.uses, p) >= 1
    ensures var st1 := GivenBack(st, t, p);
            && On(st1.blocks, Moving(t)) == On(st.blocks, Moving(t))[1..]
            && Uses(st1.uses, p) == Uses(st.uses, p) - 1
            && st1.pages == st.pages && st1.pcs == st.pcs && st1.locks == st.locks && st1.apply == st.apply
            && forall x :: x != Moving(t) && x != Home(p) ==> On(st1.blocks, x) == On(st.blocks, x)
  {
  }

  lemma DetachedLists(st: State, p: Ptr, c: nat)
    ensures forall x :: x != Home(p) ==> On(Detached(st, p, c).blocks, x) == On(st.blocks, x)
  {
  }

  /** Returning a block while others of its span are still out. */
  lemma ReturnSome(st: State, a: Aux, st': State, t: Tid, c: nat, p: Ptr, b: Addr)
    requires Safe(st, a) && PcOf(st, t) == Returning(c) && PcOk(st, a, t)
    requires On(st.blocks, Moving(t)) != [] && b == On(st.blocks, Moving(t))[0] && Uses(st.uses, p) >= 1
    requires b in a.own && a.own[b].span == p && a.own[b].place == Moving(t) && p in a.roles && a.roles[p] == InBin(c)
    requires st' == GivenBack(st, t, p)
    ensures Safe(st', a.(own := Relocate(a.own, [b], Home(p))))
  {
    hide Safe, ArgsOk, Core, Placed, LocksOk, Local, OnlyThread, GivenBack;
    var a' := a.(own := Relocate(a.own, [b], Home(p)));
    CoreOf(st, a, t);
    GiveBackCore(st, a, t, p, b);
    GivenBackLists(st, t, p);
    SameThreads(st, st', t);
    LocalMoved(st, a, st', a'.own, t);
    ArgsShrink(a.own, a'.own, t, PcOf(st, t), PcOf(st', t));
    Assemble(st, a, st', a', t);
  }

  lemma SameThreads(st: State, st': State, t: Tid)
    requires LocksOk(st) && st'.pcs == st.pcs && st'.locks == st.locks && st'.apply == st.apply
    ensures OnlyThread(st, st', t)
  {
  }

  /** What the bookkeeping knows after the last block of span p was returned: p and its blocks are gone
      from it, all else stands. */
  ghost predicate Forgotten(a: Aux, a': Aux, t: Tid, p: Ptr) {
    && a'.v == a.v && a'.roles == a.roles[p := Private(t)]
    && (forall d :: d in a.own && a.own[d].span == p ==>
          d !in a'.own && (a.own[d].place == Home(p) || a.own[d].place == Moving(t)))
    && (forall d :: d in a.own && a.own[d].span != p ==> d in a'.own && a'.own[d] == a.own[d])
    && (forall d :: d in a'.own ==> d in a.own)
  }

  lemma DetachForgets(a: Aux, t: Tid, p: Ptr, b: Addr, home: seq<Addr>)
    requires b in a.own && a.own[b].span == p && a.own[b].place == Moving(t)
    requires var own1 := Relocate(a.own, [b], Home(p));
             && (forall d :: d in home <==> d in own1 && own1[d].span == p)
             && (forall d :: d in home ==> d in own1 && own1[d].place == Home(p))
    ensures Forgotten(a, DetachedAux(a.(own := Relocate(a.own, [b], Home(p))), home, p, t), t, p)
  {
    var own1 := Relocate(a.own, [b], Home(p));
    forall d | d in a.own && a.own[d].span == p
      ensures d in Elements(home) && (a.own[d].place == Home(p) || a.own[d].place == Moving(t))
    {
      assert d in own1 && own1[d].span == p;
    }
  }

  lemma ReturnLastCore(st: State, a: Aux, t: Tid, c: nat, p: Ptr, b: Addr, st2: State) returns (a': Aux)
    requires Core(st, a)
    requires On(st.blocks, Moving(t)) != [] && b == On(st.blocks, Moving(t))[0] && Uses(st.uses, p) == 1
    requires b in a.own && a.own[b].span == p && a.own[b].place == Moving(t) && p in a.roles && a.roles[p] == InBin(c)
    requires st2 == Detached(GivenBack(st, t, p), p, c)
    ensures Core(st2, a') && Forgotten(a, a', t, p)
    ensures On(st2.blocks, Moving(t)) == On(st.blocks, Moving(t))[1..]
    ensures forall x :: x != Moving(t) && x != Home(p) ==> On(st2.blocks, x) == On(st.blocks, x)
    ensures st2.pages == st.pages && st2.apply == st.apply
  {
    hide Core, GivenBack, Forgotten, DetachedAux, Relocate;
    var st1, a1 := GivenBack(st, t, p), a.(own := Relocate(a.own, [b], Home(p)));
    GiveBackCore(st, a, t, p, b);
    GivenBackLists(st, t, p);
    assert Uses(st1.uses, p) == 0;
    DetachCore(st1, a1, t, p, c);
    DetachedLists(st1, p, c);
    DetachForgets(a, t, p, b, On(st1.blocks, Home(p)));
    a' := DetachedAux(a1, On(st1.blocks, Home(p)), p, t);
  }

  lemma ForgottenRole(a: Aux, a': Aux, t: Tid, p: Ptr)
    requires Forgotten(a, a', t, p)
    ensures OwnsSpan(a', t, p)
  {
  }

  lemma ArgsForgotten(a: Aux, a': Aux, t: Tid, p: Ptr, pc: Pc, pc': Pc)
    requires ArgsOk(a.own, t, pc) && !pc.Freeing? && !pc.FreeSmall? && Forgotten(a, a', t, p)
    ensures ArgsOk(a'.own, t, pc')
  {
  }

  /** Returning the last block: the span leaves the bin. */
  lemma ReturnLast(st: State, a: Aux, st': State, t: Tid, c: nat, p: Ptr, b: Addr) returns (a': Aux)
    requires Safe(st, a) && PcOf(st, t) == Returning(c) && PcOk(st, a, t)
    requires On(st.blocks, Moving(t)) != [] && b == On(st.blocks, Moving(t))[0] && Uses(st.uses, p) == 1
    requires b in a.own && a.own[b].span == p && a.own[b].place == Moving(t) && p in a.roles && a.roles[p] == InBin(c)
    requires st' == Detached(GivenBack(st, t, p), p, c).(locks := st.locks - {c}, pcs := st.pcs[t := GiveBack(c, p)])
    ensures Safe(st', a')
  {
    hide Safe, ArgsOk, Core, Placed, LocksOk, Local, OnlyThread, GivenBack, Detached, CachesOk, Forgotten, RunOf;
    CoreOf(st, a, t);
    var st2 := Detached(GivenBack(st, t, p), p, c);
    a' := ReturnLastCore(st, a, t, c, p, b, st2);
    CachesOf(st2, a');
    CoreStill(st2, a', st');
    LockDropped(st, st', t, c);
    ReturnLastLocal(st, a, st', t, c, p, a');
    RunForgets(st, a, st', a', t, c, p);
    ArgsForgotten(a, a', t, p, PcOf(st, t), PcOf(st', t));
    assert OwnsSpan(a', t, p) by { ForgottenRole(a, a', t, p); }
    Assemble(st, a, st', a', t);
  }

  /** The rest of the run belongs to other spans. */
  lemma RunForgets(st: State, a: Aux, st': State, a': Aux, t: Tid, c: nat, p: Ptr)
    requires RunOf(st, a, t, c) && Forgotten(a, a', t, p) && Placed(st'.blocks, a'.own)
    requires On(st.blocks, Moving(t)) != [] && On(st'.blocks, Moving(t)) == On(st.blocks, Moving(t))[1..]
    ensures RunOf(st', a', t, c)
  {
  }

  lemma ReturnLastLocal(st: State, a: Aux, st': State, t: Tid, c: nat, p: Ptr, a': Aux)
    requires OnlyThread(st, st', t) && st'.pages == st.pages && p in a.roles && a.roles[p] == InBin(c) && HasLock(st, t, c)
    requires forall x :: x != Moving(t) && x != Home(p) ==> On(st'.blocks, x) == On(st.blocks, x)
    requires Forgotten(a, a', t, p)
    ensures Local(st, a, st', a', t)
  {
  }

  lemma ReturnOneKeeps(st: State, a: Aux, st': State, t: Tid) returns (a': Aux)
    requires Safe(st, a) && StepReturnOne(st, st', t)
    ensures Safe(st', a')
  {
    hide Safe, RunOf;
    CoreOf(st, a, t) by { hide Core, Placed, LocksOk; }
    hide Core, Placed, LocksOk;
    match PcOf(st, t)
    case Returning(c) =>
      var b := On(st.blocks, Moving(t))[0];
      var p := st.pages.tags[b / PAGE];
      ReturnedBlock(st, a, t, c, b);
      if Uses(st.uses, p) == 1 {
        a' := ReturnLast(st, a, st', t, c, p, b);
      } else {
        a' := a.(own := Relocate(a.own, [b], Home(p)));
        ReturnSome(st, a, st', t, c, p, b);
      }
  }
}
