/** The invariant of the allocator and its preservation by every step. */
module AllocatorSafety {
  import opened Common
  import opened SizeClasses
  import opened PageModel
  import opened PageInvariant
  import opened PageCreate
  import opened PageRecover
  import opened Allocator
  import opened AllocatorBlocks

  /** Who owns a span that is not on a page-cache list: a bin of the central cache, one thread, or
      the user (a direct allocation). */
  datatype Role = InBin(c: nat) | Private(t: Tid) | Direct

  datatype Aux = Aux(v: View, roles: map<Ptr, Role>, own: map<Addr, Entry>)

  // ----- clauses --------------------------------------------------------------------

  ghost predicate IsSpanOf(s: Span, c: nat) {
    c >= 8 && s.blockSize == c && s.count == PageThreshold(c) && c <= MAX_ALLOC_BYTES
  }

  /** Every span has one owner, and bins link exactly the spans of their class, each once. */
  ghost predicate RolesOk(spans: map<Ptr, Span>, linked: set<Ptr>, roles: map<Ptr, Role>) {
    && roles.Keys == spans.Keys - linked
    && (forall p :: p in roles && roles[p].InBin? ==> IsSpanOf(spans[p], roles[p].c))
    && (forall p :: p in roles && roles[p].Direct? ==> spans[p].blockSize > MAX_ALLOC_BYTES)
  }

  ghost predicate BinsOk(bins: map<nat, seq<Ptr>>, roles: map<Ptr, Role>) {
    && (forall c :: c in bins ==> NoDup(bins[c]))
    && (forall c, p {:trigger p in bins[c]} :: c in bins && p in bins[c] ==> p in roles && roles[p] == InBin(c))
    && (forall p :: p in roles && roles[p].InBin? ==> roles[p].c in bins && p in bins[roles[p].c])
  }

  /** `own` knows exactly the blocks of the spans in the bins; a block goes home only to its span
      and is cached only under its class. */
  ghost predicate GeometryOk(spans: map<Ptr, Span>, roles: map<Ptr, Role>, own: map<Addr, Entry>) {
    && (forall b :: b in own ==>
          && var p := own[b].span;
             && p in roles && roles[p].InBin? && p in spans && IsBlock(spans[p], b)
             && (own[b].place.Home? ==> own[b].place.p == p)
             && (own[b].place.Cached? ==> own[b].place.c == spans[p].blockSize))
    && (forall p, b {:trigger IsBlock(spans[p], b)} :: p in roles && roles[p].InBin? && p in spans && IsBlock(spans[p], b) ==>
          b in own && own[b].span == p)
  }

  /** Span accounting: blocks at home plus blocks handed out make the whole span. */
  ghost predicate CountsOk(spans: map<Ptr, Span>, roles: map<Ptr, Role>, uses: map<Ptr, nat>, blocks: map<Place, seq<Addr>>) {
    forall p :: if p in roles && roles[p].InBin?
                then p in spans && spans[p].blockSize >= 1
                     && Uses(uses, p) + |On(blocks, Home(p))| == BlockCount(spans[p])
                else Uses(uses, p) == 0 && On(blocks, Home(p)) == []
  }

  /** A live allocation is a block the user has, or a direct span. */
  ghost predicate HeldSmall(spans: map<Ptr, Span>, own: map<Addr, Entry>, b: Addr, size: nat) {
    b in own && own[b].place == User && own[b].span in spans && size <= spans[own[b].span].blockSize
  }

  ghost predicate SpanAt(spans: map<Ptr, Span>, roles: map<Ptr, Role>, v: View, b: Addr, role: Role) {
    && b % PAGE == 0 && b / PAGE in v.own
    && var p := v.own[b / PAGE];
       p in roles && roles[p] == role && p in spans && spans[p].first == b / PAGE
  }

  ghost predicate HeldAs(spans: map<Ptr, Span>, roles: map<Ptr, Role>, v: View, own: map<Addr, Entry>, b: Addr, size: nat) {
    || HeldSmall(spans, own, b, size)
    || (SpanAt(spans, roles, v, b, Direct) && b !in own && size <= spans[v.own[b / PAGE]].count * PAGE)
  }

  ghost predicate HeldOk(spans: map<Ptr, Span>, roles: map<Ptr, Role>, v: View, own: map<Addr, Entry>, held: map<Addr, nat>) {
    && (forall b :: b in held ==> HeldAs(spans, roles, v, own, b, held[b]))
    && (forall b :: b in own && own[b].place == User ==> b in held)
  }

  /** Slow start: a free list stays below its apply count, which stays at most one above the threshold. */
  ghost predicate CachesOk(blocks: map<Place, seq<Addr>>, apply: map<(Tid, nat), nat>) {
    forall t: Tid, c: nat :: c >= 1 ==>
      |On(blocks, Cached(t, c))| < Applies(apply, t, c) <= BlockThreshold(c) + 1
  }

  /** Thread t is in a section of bin c. */
  predicate Inside(st: State, t: Tid, c: nat) {
    match PcOf(st, t)
    case Taking(_, d, _, _) => d == c
    case Returning(d) => d == c
    case _ => false
  }

  ghost predicate LocksOk(st: State) {
    forall c :: c in st.locks ==> Inside(st, st.locks[c], c)
  }

  /** The part of the invariant a thread relies on between its sections. */
  ghost predicate Asking(st: State, t: Tid, size: nat, c: nat, k: nat) {
    && 1 <= size <= MAX_ALLOC_BYTES && c == RoundUp(size) && c >= 1 && c <= MAX_ALLOC_BYTES
    && 1 <= k <= BlockThreshold(c) && k < Applies(st.apply, t, c)
    && On(st.blocks, Cached(t, c)) == [] && On(st.blocks, Moving(t)) == []
  }

  ghost predicate RunOf(st: State, a: Aux, t: Tid, c: nat) {
    c >= 1 && c <= MAX_ALLOC_BYTES && forall b :: b in On(st.blocks, Moving(t)) ==>
      b in a.own && a.own[b].span in a.roles && a.roles[a.own[b].span] == InBin(c)
  }

  ghost predicate OwnsSpan(a: Aux, t: Tid, p: Ptr) {
    p in a.roles && a.roles[p] == Private(t)
  }

  ghost predicate HasLock(st: State, t: Tid, c: nat) {
    c in st.locks && st.locks[c] == t
  }

  ghost predicate PcOk(st: State, a: Aux, t: Tid) {
    match PcOf(st, t)
    case Idle => On(st.blocks, Moving(t)) == []
    case Want(size, c, k) => Asking(st, t, size, c, k)
    case Taking(size, c, k, p) =>
      && Asking(st, t, size, c, k) && HasLock(st, t, c)
      && p in a.roles && a.roles[p] == InBin(c) && On(st.blocks, Home(p)) != []
    case Fetch(size, c, k) => Asking(st, t, size, c, k)
    case Carving(size, c, k, p) =>
      && Asking(st, t, size, c, k) && OwnsSpan(a, t, p)
      && p in st.pages.spans && IsSpanOf(st.pages.spans[p], c)
    case Carved(size, c, k, p, chain) =>
      && Asking(st, t, size, c, k) && OwnsSpan(a, t, p)
      && p in st.pages.spans && IsSpanOf(st.pages.spans[p], c) && chain == AllBlocks(st.pages.spans[p])
    case Got(size, c) =>
      && 1 <= size <= MAX_ALLOC_BYTES && c == RoundUp(size) && RunOf(st, a, t, c)
      && On(st.blocks, Cached(t, c)) == []
      && 1 <= |On(st.blocks, Moving(t))| < Applies(st.apply, t, c)
    case Freeing(b) =>
      && On(st.blocks, Moving(t)) == []
      && (if b in a.own then a.own[b].place == Argument(t)
          else SpanAt(st.pages.spans, a.roles, a.v, b, Private(t)) && st.pages.spans[a.v.own[b / PAGE]].blockSize > MAX_ALLOC_BYTES)
    case FreeSmall(b, p) =>
      && On(st.blocks, Moving(t)) == []
      && b in a.own && a.own[b] == Entry(p, Argument(t))
    case FreeBig(p) => On(st.blocks, Moving(t)) == [] && OwnsSpan(a, t, p)
    case Return(c) => RunOf(st, a, t, c)
    case Returning(c) => RunOf(st, a, t, c) && HasLock(st, t, c)
    case GiveBack(c, p) => RunOf(st, a, t, c) && OwnsSpan(a, t, p)
  }

  /** A block given to `tnc_free` is the one the thread is working on. */
  ghost predicate ArgsOk(own: map<Addr, Entry>, t: Tid, pc: Pc) {
    forall b :: b in own && own[b].place == Argument(t) ==> (pc.Freeing? || pc.FreeSmall?) && pc.b == b
  }

  ghost predicate PagesOk(pages: Pages, mapped: set<Page>, v: View) {
    Good(pages, v) && v.own.Keys == mapped
  }

  ghost predicate Safe(st: State, a: Aux) {
    && PagesOk(st.pages, st.mapped, a.v)
    && RolesOk(st.pages.spans, a.v.linked, a.roles)
    && BinsOk(st.bins, a.roles)
    && Placed(st.blocks, a.own)
    && GeometryOk(st.pages.spans, a.roles, a.own)
    && CountsOk(st.pages.spans, a.roles, st.uses, st.blocks)
    && HeldOk(st.pages.spans, a.roles, a.v, a.own, st.held)
    && CachesOk(st.blocks, st.apply)
    && LocksOk(st)
    && forall t: Tid :: PcOk(st, a, t) && ArgsOk(a.own, t, PcOf(st, t))
  }

  // ----- one clause at a time: moving blocks ----------------------------------------

  lemma GeometryMove(spans: map<Ptr, Span>, roles: map<Ptr, Role>, own: map<Addr, Entry>, moved: seq<Addr>, y: Place)
    requires GeometryOk(spans, roles, own)
    requires y.Home? ==> forall b :: b in moved && b in own ==> own[b].span == y.p
    requires y.Cached? ==> forall b :: b in moved && b in own ==> spans[own[b].span].blockSize == y.c
    ensures GeometryOk(spans, roles, Relocate(own, moved, y))
  {
  }

  lemma HeldMove(spans: map<Ptr, Span>, roles: map<Ptr, Role>, v: View, own: map<Addr, Entry>, held: map<Addr, nat>,
                 moved: seq<Addr>, y: Place)
    requires HeldOk(spans, roles, v, own, held) && y != User
    requires forall b :: b in moved && b in own ==> own[b].place != User
    ensures HeldOk(spans, roles, v, Relocate(own, moved, y), held)
  {
    var own' := Relocate(own, moved, y);
    forall b | b in held
      ensures HeldAs(spans, roles, v, own', b, held[b])
    {
      assert HeldAs(spans, roles, v, own, b, held[b]);
    }
  }

  /** The user receives block b. */
  lemma HeldTake(spans: map<Ptr, Span>, roles: map<Ptr, Role>, v: View, own: map<Addr, Entry>, held: map<Addr, nat>,
                 b: Addr, size: nat)
    requires HeldOk(spans, roles, v, own, held) && b in own && own[b].span in spans
    requires size <= spans[own[b].span].blockSize
    ensures HeldOk(spans, roles, v, Relocate(own, [b], User), held[b := size])
  {
    var own', held' := Relocate(own, [b], User), held[b := size];
    forall d | d in held'
      ensures HeldAs(spans, roles, v, own', d, held'[d])
    {
      if d != b {
        assert HeldAs(spans, roles, v, own, d, held[d]);
      }
    }
  }

  /** The user gives up block b. */
  lemma HeldGive(spans: map<Ptr, Span>, roles: map<Ptr, Role>, v: View, own: map<Addr, Entry>, held: map<Addr, nat>,
                 b: Addr, y: Place)
    requires HeldOk(spans, roles, v, own, held) && b in own && y != User
    ensures HeldOk(spans, roles, v, Relocate(own, [b], y), held - {b})
  {
    var own', held' := Relocate(own, [b], y), held - {b};
    forall d | d in held'
      ensures HeldAs(spans, roles, v, own', d, held'[d])
    {
      assert HeldAs(spans, roles, v, own, d, held[d]);
    }
  }

  /** Changing lists other than the chains of spans. */
  lemma CountsOther(spans: map<Ptr, Span>, roles: map<Ptr, Role>, uses: map<Ptr, nat>, blocks: map<Place, seq<Addr>>,
                    blocks': map<Place, seq<Addr>>)
    requires CountsOk(spans, roles, uses, blocks)
    requires forall p :: On(blocks', Home(p)) == On(blocks, Home(p))
    ensures CountsOk(spans, roles, uses, blocks')
  {
  }

  /** Changing the chain and the use count of one span together. */
  lemma CountsOne(spans: map<Ptr, Span>, roles: map<Ptr, Role>, uses: map<Ptr, nat>, blocks: map<Place, seq<Addr>>,
                  uses': map<Ptr, nat>, blocks': map<Place, seq<Addr>>, p: Ptr)
    requires CountsOk(spans, roles, uses, blocks) && p in roles && roles[p].InBin?
    requires forall q :: q != p ==> On(blocks', Home(q)) == On(blocks, Home(q)) && Uses(uses', q) == Uses(uses, q)
    requires Uses(uses', p) + |On(blocks', Home(p))| == Uses(uses, p) + |On(blocks, Home(p))|
    ensures CountsOk(spans, roles, uses', blocks')
  {
  }

  /** Only the free list of thread t and class c changes, within its bound. */
  lemma CachesOne(blocks: map<Place, seq<Addr>>, apply: map<(Tid, nat), nat>,
                  blocks': map<Place, seq<Addr>>, apply': map<(Tid, nat), nat>, t: Tid, c: nat)
    requires CachesOk(blocks, apply)
    requires forall u: Tid, d: nat :: (u, d) != (t, c) ==>
               On(blocks', Cached(u, d)) == On(blocks, Cached(u, d)) && Applies(apply', u, d) == Applies(apply, u, d)
    requires c >= 1 ==> |On(blocks', Cached(t, c))| < Applies(apply', t, c) <= BlockThreshold(c) + 1
    ensures CachesOk(blocks', apply')
  {
  }

  // ----- the other threads ----------------------------------------------------------

  /** Places a step of thread t may change: its own lists, and the chains of its own spans and of
      the bins it has locked. */
  ghost predicate Touchable(st: State, a: Aux, t: Tid, x: Place) {
    match x
    case Home(p) => p in a.roles && (a.roles[p] == Private(t) || (a.roles[p].InBin? && HasLock(st, t, a.roles[p].c)))
    case Cached(u, _) => u == t
    case Moving(u) => u == t
    case User => true
    case Argument(u) => u == t
  }

  /** What a step of t leaves alone: everything the other threads rely on. */
  ghost predicate Local(st: State, a: Aux, st': State, a': Aux, t: Tid) {
    && (forall u: Tid :: u != t ==> PcOf(st', u) == PcOf(st, u))
    && (forall u: Tid, c: nat :: u != t ==> Applies(st'.apply, u, c) == Applies(st.apply, u, c))
    && (forall u: Tid, c: nat :: u != t && HasLock(st, u, c) ==> HasLock(st', u, c))
    && (forall x :: !Touchable(st, a, t, x) ==> On(st'.blocks, x) == On(st.blocks, x))
    && (forall b :: b in a.own && !Touchable(st, a, t, a.own[b].place) ==>
          b in a'.own && a'.own[b] == a.own[b]
          && (a.own[b].span in a.roles ==> a.own[b].span in a'.roles && a'.roles[a.own[b].span] == a.roles[a.own[b].span]))
    && (forall b :: b in a'.own && !Touchable(st, a, t, a'.own[b].place) ==> b in a.own && a.own[b] == a'.own[b])
    && (forall p :: p in a.roles && KeptFrom(st, a.roles[p], t) ==>
          p in a'.roles && a'.roles[p] == a.roles[p]
          && (p in st.pages.spans ==> p in st'.pages.spans && st'.pages.spans[p] == st.pages.spans[p]))
    && (forall b: Addr, u: Tid :: u != t && SpanAt(st.pages.spans, a.roles, a.v, b, Private(u)) && b !in a.own ==>
          SpanAt(st'.pages.spans, a'.roles, a'.v, b, Private(u)) && a'.v.own[b / PAGE] == a.v.own[b / PAGE] && b !in a'.own)
  }

  /** Spans thread t has no business with: private to another thread, or in a bin t has not locked. */
  ghost predicate KeptFrom(st: State, r: Role, t: Tid) {
    match r
    case InBin(c) => !HasLock(st, t, c)
    case Private(u) => u != t
    case Direct => false
  }

  lemma AskingKeeps(st: State, st': State, u: Tid, size: nat, c: nat, k: nat)
    requires Asking(st, u, size, c, k)
    requires On(st'.blocks, Moving(u)) == On(st.blocks, Moving(u))
    requires On(st'.blocks, Cached(u, c)) == On(st.blocks, Cached(u, c))
    requires Applies(st'.apply, u, c) == Applies(st.apply, u, c)
    ensures Asking(st', u, size, c, k)
  {
  }

  lemma RunKeeps(st: State, a: Aux, st': State, a': Aux, t: Tid, u: Tid, c: nat)
    requires RunOf(st, a, u, c) && On(st'.blocks, Moving(u)) == On(st.blocks, Moving(u)) && u != t
    requires Placed(st.blocks, a.own) && Local(st, a, st', a', t)
    ensures RunOf(st', a', u, c)
  {
    forall b | b in On(st'.blocks, Moving(u))
      ensures b in a'.own && a'.own[b].span in a'.roles && a'.roles[a'.own[b].span] == InBin(c)
    {
      assert !Touchable(st, a, t, a.own[b].place);
    }
  }

  /** The lists and counters of another thread are untouched. */
  lemma MineKeep(st: State, a: Aux, st': State, a': Aux, t: Tid, u: Tid)
    requires Local(st, a, st', a', t) && u != t
    ensures PcOf(st', u) == PcOf(st, u)
    ensures On(st'.blocks, Moving(u)) == On(st.blocks, Moving(u))
    ensures forall c: nat :: On(st'.blocks, Cached(u, c)) == On(st.blocks, Cached(u, c))
    ensures forall c: nat :: Applies(st'.apply, u, c) == Applies(st.apply, u, c)
    ensures forall c: nat :: HasLock(st, u, c) ==> HasLock(st', u, c)
    ensures forall p :: OwnsSpan(a, u, p) ==>
              (OwnsSpan(a', u, p)
               && (p in st.pages.spans ==> p in st'.pages.spans && st'.pages.spans[p] == st.pages.spans[p]))
  {
    assert !Touchable(st, a, t, Moving(u));
    assert forall c: nat :: !Touchable(st, a, t, Cached(u, c));
    assert forall p :: OwnsSpan(a, u, p) ==> KeptFrom(st, a.roles[p], t);
  }

  lemma TakingKeeps(st: State, a: Aux, st': State, a': Aux, t: Tid, u: Tid, c: nat, p: Ptr)
    requires Local(st, a, st', a', t) && u != t && HasLock(st, u, c) && p in a.roles && a.roles[p] == InBin(c)
    ensures p in a'.roles && a'.roles[p] == InBin(c) && On(st'.blocks, Home(p)) == On(st.blocks, Home(p))
  {
    assert !HasLock(st, t, c);
    assert !Touchable(st, a, t, Home(p)) && KeptFrom(st, a.roles[p], t);
  }

  lemma ArgumentKeeps(st: State, a: Aux, st': State, a': Aux, t: Tid, u: Tid, b: Addr)
    requires Local(st, a, st', a', t) && u != t
    ensures b in a.own && a.own[b].place == Argument(u) ==> b in a'.own && a'.own[b] == a.own[b]
  {
    assert !Touchable(st, a, t, Argument(u));
  }

  lemma DirectKeeps(st: State, a: Aux, st': State, a': Aux, t: Tid, u: Tid, b: Addr)
    requires Local(st, a, st', a', t) && u != t && b !in a.own
    requires SpanAt(st.pages.spans, a.roles, a.v, b, Private(u))
    ensures b !in a'.own && SpanAt(st'.pages.spans, a'.roles, a'.v, b, Private(u))
    ensures st'.pages.spans[a'.v.own[b / PAGE]] == st.pages.spans[a.v.own[b / PAGE]]
  {
    MineKeep(st, a, st', a', t, u);
    assert OwnsSpan(a, u, a.v.own[b / PAGE]);
  }

  lemma OthersKeep(st: State, a: Aux, st': State, a': Aux, t: Tid, u: Tid)
    requires Local(st, a, st', a', t) && Placed(st.blocks, a.own) && u != t && PcOk(st, a, u)
    ensures PcOk(st', a', u)
  {
    hide Asking, RunOf, SpanAt, Local, Placed, OwnsSpan, HasLock;
    MineKeep(st, a, st', a', t, u);
    match PcOf(st, u)
    case Idle =>
    case Want(size, c, k) => AskingKeeps(st, st', u, size, c, k);
    case Taking(size, c, k, p) =>
      AskingKeeps(st, st', u, size, c, k);
      TakingKeeps(st, a, st', a', t, u, c, p);
    case Fetch(size, c, k) => AskingKeeps(st, st', u, size, c, k);
    case Carving(size, c, k, p) => AskingKeeps(st, st', u, size, c, k);
    case Carved(size, c, k, p, chain) => AskingKeeps(st, st', u, size, c, k);
    case Got(size, c) => RunKeeps(st, a, st', a', t, u, c);
    case Freeing(b) =>
      ArgumentKeeps(st, a, st', a', t, u, b);
      if b !in a.own { DirectKeeps(st, a, st', a', t, u, b); }
    case FreeSmall(b, p) => ArgumentKeeps(st, a, st', a', t, u, b);
    case FreeBig(p) =>
    case Return(c) => RunKeeps(st, a, st', a', t, u, c);
    case Returning(c) => RunKeeps(st, a, st', a', t, u, c);
    case GiveBack(c, p) => RunKeeps(st, a, st', a', t, u, c);
  }

  // ----- putting a step together ----------------------------------------------------

  /** Program counters, apply counts and locks change for thread t only. */
  ghost predicate OnlyThread(st: State, st': State, t: Tid) {
    && (forall u: Tid :: u != t ==> PcOf(st', u) == PcOf(st, u))
    && (forall u: Tid, c: nat :: u != t ==> Applies(st'.apply, u, c) == Applies(st.apply, u, c))
    && (forall u: Tid, c: nat :: u != t && HasLock(st, u, c) ==> HasLock(st', u, c))
    && (forall c :: c in st'.locks ==> (st'.locks[c] == t && Inside(st', t, c)) || (st'.locks[c] != t && c in st.locks && st.locks[c] == st'.locks[c]))
  }

  lemma LocksKeep(st: State, st': State, t: Tid)
    requires LocksOk(st) && OnlyThread(st, st', t)
    ensures LocksOk(st')
  {
  }

  /** All but what concerns threads and locks. */
  ghost predicate Core(st: State, a: Aux) {
    && PagesOk(st.pages, st.mapped, a.v)
    && RolesOk(st.pages.spans, a.v.linked, a.roles)
    && BinsOk(st.bins, a.roles)
    && Placed(st.blocks, a.own)
    && GeometryOk(st.pages.spans, a.roles, a.own)
    && CountsOk(st.pages.spans, a.roles, st.uses, st.blocks)
    && HeldOk(st.pages.spans, a.roles, a.v, a.own, st.held)
    && CachesOk(st.blocks, st.apply)
  }

  lemma ArgsKeep(st: State, a: Aux, st': State, a': Aux, t: Tid, u: Tid)
    requires Local(st, a, st', a', t) && u != t && ArgsOk(a.own, u, PcOf(st, u))
    ensures ArgsOk(a'.own, u, PcOf(st', u))
  {
    assert !Touchable(st, a, t, Argument(u));
  }

  /** Thread t was not freeing, and no block became its argument. */
  lemma ArgsShrink(own: map<Addr, Entry>, own': map<Addr, Entry>, t: Tid, pc: Pc, pc': Pc)
    requires ArgsOk(own, t, pc) && !pc.Freeing? && !pc.FreeSmall?
    requires forall b :: b in own' && own'[b].place == Argument(t) ==> b in own && own[b].place == Argument(t)
    ensures ArgsOk(own', t, pc')
  {
  }

  /** A step of t that keeps the shared clauses, leaves the other threads alone and leads t to a good
      point keeps the invariant. */
  lemma Assemble(st: State, a: Aux, st': State, a': Aux, t: Tid)
    requires Safe(st, a) && Core(st', a') && OnlyThread(st, st', t) && Local(st, a, st', a', t)
    requires PcOk(st', a', t) && ArgsOk(a'.own, t, PcOf(st', t))
    ensures Safe(st', a')
  {
    hide PagesOk, RolesOk, BinsOk, Placed, GeometryOk, CountsOk, HeldOk, CachesOk, LocksOk, OnlyThread, Local, PcOk, ArgsOk;
    LocksKeep(st, st', t);
    forall u: Tid | u != t
      ensures PcOk(st', a', u) && ArgsOk(a'.own, u, PcOf(st', u))
    {
      OthersKeep(st, a, st', a', t, u);
      ArgsKeep(st, a, st', a', t, u);
    }
  }

  /** A step that moves blocks between places of thread t and changes no page. */
  lemma LocalMoved(st: State, a: Aux, st': State, own': map<Addr, Entry>, t: Tid)
    requires OnlyThread(st, st', t) && st'.pages == st.pages && own'.Keys == a.own.Keys
    requires forall x :: !Touchable(st, a, t, x) ==> On(st'.blocks, x) == On(st.blocks, x)
    requires forall b :: b in a.own && !Touchable(st, a, t, a.own[b].place) ==> own'[b] == a.own[b]
    requires forall b :: b in own' && !Touchable(st, a, t, own'[b].place) ==> own'[b] == a.own[b]
    ensures Local(st, a, st', a.(own := own'), t)
  {
  }

  /** A step that moves nothing. */
  lemma LocalStill(st: State, a: Aux, st': State, t: Tid)
    requires OnlyThread(st, st', t) && st'.pages == st.pages
    requires forall z :: On(st'.blocks, z) == On(st.blocks, z)
    ensures Local(st, a, st', a, t)
  {
  }
}
