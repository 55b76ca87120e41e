/** The lists of the allocator as chains in one memory: each step of the transition system with the cells it writes
    and the list headers it sets, as the methods of FreeLists, ThreadCache, CentralCache and CentralReturn do. */
module AllocatorMemory {
  import opened Common
  import opened SizeClasses
  import opened PageModel
  import opened PageInvariant
  import opened PageCreate
  import opened PageRecover
  import opened Allocator
  import opened AllocatorBlocks
  import opened AllocatorSafety
  import opened AllocatorSteps
  import opened AllocatorFree
  import opened AllocatorReturn
  import opened AllocatorTheorems
  import F = FreeLists

  /** `next` is what a pointer-sized read of each address gives, used for starts of blocks only, which are at least
      eight bytes apart; `heads` has the header of every list. */
  datatype Mem = Mem(next: map<Addr, Addr>, heads: map<Place, Addr>)

  function Head(heads: map<Place, Addr>, x: Place): Addr { if x in heads then heads[x] else F.NULL }
  function Next(next: map<Addr, Addr>, a: Addr): Addr { if a in next then next[a] else F.NULL }

  /** Follow at most k - 1 links. */
  function Walk(next: map<Addr, Addr>, a: Addr, k: nat): Addr
    decreases k
  {
    if k <= 1 || Next(next, a) == F.NULL then a else Walk(next, Next(next, a), k - 1)
  }

  /** Link the blocks up, each to the next and the last to NULL. */
  function LinkUp(next: map<Addr, Addr>, chain: seq<Addr>): map<Addr, Addr> {
    if chain == [] then next else LinkUp(next, chain[1..])[chain[0] := F.HeadOf(chain[1..])]
  }

  // ----- what the steps write -------------------------------------------------------------

  /** `pop_front`. */
  function Pop(m: Mem, x: Place): Mem {
    m.(heads := m.heads[x := Next(m.next, Head(m.heads, x))])
  }

  /** `push_front`. */
  function Push(m: Mem, x: Place, b: Addr): Mem {
    Mem(m.next[b := Head(m.heads, x)], m.heads[x := b])
  }

  /** Up to k blocks are cut off list x and become list y: `pop_range`, and `alloc_to_thread`. */
  function Cut(m: Mem, x: Place, y: Place, k: nat): Mem {
    var end := Walk(m.next, Head(m.heads, x), k);
    Mem(m.next[end := F.NULL], m.heads[y := Head(m.heads, x)][x := Next(m.next, end)])
  }

  /** The run of `_m_alloc_from_central`: its first block is the caller's, the rest, if any, goes to list y by
      `push_range`. */
  function Accept(m: Mem, x: Place, y: Place, k: nat): Mem {
    var rest := Next(m.next, Head(m.heads, x));
    if rest == F.NULL then m.(heads := m.heads[x := F.NULL])
    else Mem(m.next[Walk(m.next, rest, k) := Head(m.heads, y)], m.heads[x := F.NULL][y := rest])
  }

  /** A turn of the return loop, line 79 as intended: the first block of list x goes in front of list y. */
  function MoveOne(m: Mem, x: Place, y: Place): Mem {
    var start := Head(m.heads, x);
    Mem(m.next[start := Head(m.heads, y)], m.heads[x := Next(m.next, start)][y := start])
  }

  function TakeRunWrites(st: State, m: Mem, t: Tid): Mem {
    match PcOf(st, t)
    case Taking(_, _, k, p) => Cut(m, Home(p), Moving(t), k)
    case _ => m
  }

  function CarveWrites(st: State, m: Mem, t: Tid): Mem {
    match PcOf(st, t)
    case Carving(_, _, _, p) =>
      if p in st.pages.spans && st.pages.spans[p].blockSize >= 1 then m.(next := LinkUp(m.next, AllBlocks(st.pages.spans[p]))) else m
    case _ => m
  }

  function InsertWrites(st: State, m: Mem, t: Tid): Mem {
    match PcOf(st, t)
    case Carved(_, _, _, p, chain) => m.(heads := m.heads[Home(p) := F.HeadOf(chain)])
    case _ => m
  }

  function DeliverWrites(st: State, m: Mem, t: Tid): Mem {
    match PcOf(st, t)
    case Got(_, c) => Accept(m, Moving(t), Cached(t, c), |On(st.blocks, Moving(t))|)
    case _ => m
  }

  function PushWrites(st: State, m: Mem, t: Tid): Mem {
    match PcOf(st, t)
    case FreeSmall(b, p) =>
      if p !in st.pages.spans then m
      else
        var c := st.pages.spans[p].blockSize;
        var n := Applies(st.apply, t, c);
        var m1 := Push(m, Cached(t, c), b);
        if |On(st.blocks, Cached(t, c))| + 1 >= n then Cut(m1, Cached(t, c), Moving(t), n) else m1
    case _ => m
  }

  /** The span is looked up by the address in the header; at use count 0 its own header is cleared. */
  function ReturnWrites(st: State, m: Mem, t: Tid): Mem {
    var start := Head(m.heads, Moving(t));
    if start / PAGE !in st.pages.tags then m
    else
      var p := st.pages.tags[start / PAGE];
      var m1 := MoveOne(m, Moving(t), Home(p));
      if Uses(st.uses, p) == 1 then m1.(heads := m1.heads[Home(p) := F.NULL]) else m1
  }

  /** The memory after a step. */
  function Effect(st: State, m: Mem, l: Label): Mem {
    match l
    case MallocHit(t, size) => Pop(m, Cached(t, RoundUp(size)))
    case TakeRun(t) => TakeRunWrites(st, m, t)
    case Carve(t) => CarveWrites(st, m, t)
    case Insert(t) => InsertWrites(st, m, t)
    case Deliver(t) => DeliverWrites(st, m, t)
    case PushLocal(t) => PushWrites(st, m, t)
    case ReturnOne(t) => ReturnWrites(st, m, t)
    case _ => m
  }

  // ----- chains -------------------------------------------------------------------------------

  /** Every list of the state is a chain of the memory that starts at its header. */
  ghost predicate Lists(blocks: map<Place, seq<Addr>>, m: Mem) {
    forall x :: F.Chain(m.next, Head(m.heads, x), On(blocks, x))
  }

  /** So is the chain of a span that is just being carved. */
  ghost predicate PrivateLists(st: State, next: map<Addr, Addr>) {
    forall t: Tid :: PcOf(st, t).Carved? ==> F.Chain(next, F.HeadOf(PcOf(st, t).chain), PcOf(st, t).chain)
  }

  ghost predicate Linked(st: State, m: Mem) {
    Lists(st.blocks, m) && PrivateLists(st, m.next)
  }

  /** Cells outside w are what they were. */
  ghost predicate Agree(next: map<Addr, Addr>, next': map<Addr, Addr>, w: set<Addr>) {
    forall a :: a in next && a !in w ==> a in next' && next'[a] == next[a]
  }

  lemma {:induction false} WalkIs(next: map<Addr, Addr>, head: Addr, s: seq<Addr>, k: nat)
    requires F.Chain(next, head, s) && s != [] && k >= 1
    ensures Walk(next, head, k) == s[Min(k, |s|) - 1]
    decreases k
  {
    if k > 1 && Next(next, head) != F.NULL {
      WalkIs(next, next[s[0]], s[1..], k - 1);
    } else if k > 1 {
      assert F.Chain(next, next[s[0]], s[1..]);
    }
  }

  /** A list with its cells outside w and its header untouched. */
  lemma ListStays(blocks: map<Place, seq<Addr>>, m: Mem, m': Mem, w: set<Addr>, x: Place)
    requires Lists(blocks, m) && Agree(m.next, m'.next, w) && Head(m'.heads, x) == Head(m.heads, x)
    requires forall b :: b in On(blocks, x) ==> b !in w
    ensures F.Chain(m'.next, Head(m'.heads, x), On(blocks, x))
  {
    F.ChainFrame(m.next, m'.next, Head(m.heads, x), On(blocks, x));
  }

  /** Blocks on one list are not on another. */
  lemma NotElsewhere(blocks: map<Place, seq<Addr>>, own: map<Addr, Entry>, b: Addr, x: Place)
    requires Placed(blocks, own) && b in own && own[b].place == x
    ensures forall y :: y != x ==> b !in On(blocks, y)
  {
  }

  lemma PopLists(blocks: map<Place, seq<Addr>>, m: Mem, x: Place)
    requires Lists(blocks, m) && On(blocks, x) != []
    ensures Lists(blocks[x := On(blocks, x)[1..]], Pop(m, x))
    ensures Head(m.heads, x) == On(blocks, x)[0]
  {
    var blocks', m' := blocks[x := On(blocks, x)[1..]], Pop(m, x);
    assert F.Chain(m.next, Head(m.heads, x), On(blocks, x));
    forall y
      ensures F.Chain(m'.next, Head(m'.heads, y), On(blocks', y))
    {
      if y != x { assert On(blocks', y) == On(blocks, y) && Head(m'.heads, y) == Head(m.heads, y); }
    }
  }

  lemma PushLists(blocks: map<Place, seq<Addr>>, own: map<Addr, Entry>, m: Mem, x: Place, b: Addr)
    requires Lists(blocks, m) && Placed(blocks, own) && b in own && !IsList(own[b].place) && b != F.NULL
    ensures Lists(blocks[x := [b] + On(blocks, x)], Push(m, x, b))
  {
    var blocks', m' := blocks[x := [b] + On(blocks, x)], Push(m, x, b);
    assert forall y :: b !in On(blocks, y);
    F.ChainHead(m.next, Head(m.heads, x), On(blocks, x), b) by { assert F.Chain(m.next, Head(m.heads, x), On(blocks, x)); }
    hide Placed;
    forall y
      ensures F.Chain(m'.next, Head(m'.heads, y), On(blocks', y))
    {
      if y != x {
        assert On(blocks', y) == On(blocks, y);
        ListStays(blocks, m, m', {b}, y);
      }
    }
  }

  lemma CutLists(blocks: map<Place, seq<Addr>>, own: map<Addr, Entry>, m: Mem, x: Place, y: Place, k: nat)
    requires Lists(blocks, m) && Placed(blocks, own) && On(blocks, x) != [] && On(blocks, y) == [] && x != y && k >= 1
    ensures Lists(MoveFront(blocks, x, y, Min(k, |On(blocks, x)|)), Cut(m, x, y, k))
  {
    var s, n := On(blocks, x), Min(k, |On(blocks, x)|);
    var blocks', m' := MoveFront(blocks, x, y, n), Cut(m, x, y, k);
    assert F.Chain(m.next, Head(m.heads, x), s);
    WalkIs(m.next, Head(m.heads, x), s, k);
    F.ChainCut(m.next, Head(m.heads, x), s, n);
    assert s[n - 1] in s && s[..n] + [] == s[..n];
    NotElsewhere(blocks, own, s[n - 1], x);
    hide Placed;
    forall z
      ensures F.Chain(m'.next, Head(m'.heads, z), On(blocks', z))
    {
      if z != x && z != y {
        assert On(blocks', z) == On(blocks, z);
        ListStays(blocks, m, m', {s[n - 1]}, z);
      }
    }
  }

  lemma MoveOneLists(blocks: map<Place, seq<Addr>>, own: map<Addr, Entry>, m: Mem, x: Place, y: Place)
    requires Lists(blocks, m) && Placed(blocks, own) && On(blocks, x) != [] && x != y
    ensures Lists(MoveFront(blocks, x, y, 1), MoveOne(m, x, y)) && Head(m.heads, x) == On(blocks, x)[0]
  {
    var s, r := On(blocks, x), On(blocks, y);
    var blocks', m' := MoveFront(blocks, x, y, 1), MoveOne(m, x, y);
    var b := s[0];
    assert F.Chain(m.next, Head(m.heads, x), s) && F.Chain(m.next, Head(m.heads, y), r);
    assert b in s && s[..1] == [b];
    NotElsewhere(blocks, own, b, x);
    assert b !in s[1..] by { assert NoDup(s); }
    F.ChainHead(m.next, Head(m.heads, y), r, b);
    F.ChainFrame(m.next, m'.next, m.next[b], s[1..]);
    hide Placed;
    forall z
      ensures F.Chain(m'.next, Head(m'.heads, z), On(blocks', z))
    {
      if z != x && z != y {
        assert On(blocks', z) == On(blocks, z);
        ListStays(blocks, m, m', {b}, z);
      }
    }
  }

  lemma AcceptLists(blocks: map<Place, seq<Addr>>, own: map<Addr, Entry>, m: Mem, x: Place, y: Place, run: seq<Addr>)
    requires Lists(blocks, m) && Placed(blocks, own) && run == On(blocks, x) && run != [] && On(blocks, y) == [] && x != y
    ensures Lists(MoveFront(blocks[x := run[1..]], x, y, |run| - 1), Accept(m, x, y, |run|))
  {
    var blocks', m' := MoveFront(blocks[x := run[1..]], x, y, |run| - 1), Accept(m, x, y, |run|);
    assert F.Chain(m.next, Head(m.heads, x), run) && F.Chain(m.next, Head(m.heads, y), []);
    var rest := run[1..];
    assert F.Chain(m.next, m.next[run[0]], rest);
    assert On(blocks', x) == [] && On(blocks', y) == rest;
    if rest != [] {
      WalkIs(m.next, rest[0], rest, |run|);
      F.ChainCell(m.next, rest[0], rest, |rest| - 1);
      assert rest[|rest|..] == [];
    }
    assert Agree(m.next, m'.next, {});
    hide Placed;
    forall z
      ensures F.Chain(m'.next, Head(m'.heads, z), On(blocks', z))
    {
      if z == y && rest != [] {
        F.ChainFrame(m.next, m'.next, rest[0], rest);
      } else if z != x && z != y {
        assert On(blocks', z) == On(blocks, z);
        ListStays(blocks, m, m', {}, z);
      }
    }
  }

  lemma {:induction false} LinkUpIs(next: map<Addr, Addr>, chain: seq<Addr>)
    requires NoDup(chain) && F.NULL !in chain
    ensures F.Chain(LinkUp(next, chain), F.HeadOf(chain), chain)
    ensures forall a :: a !in chain ==> (a in LinkUp(next, chain) <==> a in next) && (a in next ==> LinkUp(next, chain)[a] == next[a])
  {
    if chain != [] {
      var rest := chain[1..];
      assert forall b :: b in rest ==> b in chain;
      LinkUpIs(next, rest);
      assert chain[0] !in rest && chain[0] != F.NULL;
      F.ChainHead(LinkUp(next, rest), F.HeadOf(rest), rest, chain[0]);
      assert [chain[0]] + rest == chain;
    }
  }

  // ----- where blocks and private chains lie ------------------------------------------------------

  lemma PagePositive(pages: Pages, mapped: set<Page>, v: View, g: Page)
    requires PagesOk(pages, mapped, v) && g in v.own
    ensures g >= 1
  {
    hide PoolOk, BucketsOk, TagsOk;
    assert Owns(pages.spans[v.own[g]], g) && pages.spans[v.own[g]].first >= 1;
  }

  lemma AddressPositive(st: State, a: Aux, b: Addr)
    requires Safe(st, a) && b / PAGE in a.v.own
    ensures b != F.NULL
  {
    hide Safe;
    SafePages(st, a);
    PagePositive(st.pages, st.mapped, a.v, b / PAGE);
  }

  /** The blocks of a private span are known to nobody else. */
  lemma PrivateBlocks(st: State, a: Aux, t: Tid, p: Ptr)
    requires Safe(st, a) && OwnsSpan(a, t, p) && p in st.pages.spans && st.pages.spans[p].blockSize >= 1
    ensures NoDup(AllBlocks(st.pages.spans[p])) && F.NULL !in AllBlocks(st.pages.spans[p])
    ensures forall b :: b in AllBlocks(st.pages.spans[p]) ==> b !in a.own && b / PAGE in a.v.own && a.v.own[b / PAGE] == p
  {
    hide Safe, Core, AllBlocks;
    CoreOf(st, a, t);
    ChainIsNew(st, a, p, t);
    AllBlocksExact(st.pages.spans[p]);
    if F.NULL in AllBlocks(st.pages.spans[p]) {
      AddressPositive(st, a, F.NULL);
    }
  }

  lemma CarvedFacts(st: State, a: Aux, t: Tid)
    requires Safe(st, a) && (PcOf(st, t).Carved? || PcOf(st, t).Carving?)
    ensures OwnsSpan(a, t, PcOf(st, t).p) && PcOf(st, t).p in st.pages.spans && st.pages.spans[PcOf(st, t).p].blockSize >= 8
    ensures PcOf(st, t).Carved? ==> PcOf(st, t).chain == AllBlocks(st.pages.spans[PcOf(st, t).p])
  {
    hide Safe, Core, Placed, LocksOk, ArgsOk, Asking, PageThreshold, AllBlocks;
    CoreOf(st, a, t);
  }

  /** The private chains of all threads but t stand if only cells of known blocks were written. */
  lemma PrivateStays(st: State, a: Aux, st': State, t: Tid, next: map<Addr, Addr>, next': map<Addr, Addr>, w: set<Addr>)
    requires Safe(st, a) && PrivateLists(st, next) && Agree(next, next', w) && (forall b :: b in w ==> b in a.own)
    requires !PcOf(st', t).Carved? && forall u: Tid :: u != t ==> PcOf(st', u) == PcOf(st, u)
    ensures PrivateLists(st', next')
  {
    hide Safe, AllBlocks;
    forall u: Tid | PcOf(st', u).Carved?
      ensures F.Chain(next', F.HeadOf(PcOf(st', u).chain), PcOf(st', u).chain)
    {
      CarvedFacts(st, a, u);
      PrivateBlocks(st, a, u, PcOf(st, u).p);
      F.ChainFrame(next, next', F.HeadOf(PcOf(st, u).chain), PcOf(st, u).chain);
    }
  }

  /** Known blocks are not at address 0. */
  lemma KnownPositive(st: State, a: Aux, b: Addr)
    requires Safe(st, a) && b in a.own
    ensures b != F.NULL
  {
    hide Safe, PageThreshold;
    BlockLookup(st, a, b);
    AddressPositive(st, a, b);
  }

  // ----- step by step ---------------------------------------------------------------------------

  /** Only thread t moves on, and not to a private chain. */
  ghost predicate Ordinary(st: State, st': State, t: Tid) {
    !PcOf(st', t).Carved? && forall u: Tid :: u != t ==> PcOf(st', u) == PcOf(st, u)
  }

  lemma HitLinked(st: State, a: Aux, st': State, t: Tid, size: nat, m: Mem)
    requires Safe(st, a) && StepMallocHit(st, st', t, size) && Linked(st, m)
    ensures Linked(st', Pop(m, Cached(t, RoundUp(size))))
  {
    hide Safe, RoundUp, Lists, PrivateLists;
    PopLists(st.blocks, m, Cached(t, RoundUp(size)));
    PrivateStays(st, a, st', t, m.next, m.next, {});
  }

  lemma TakeRunIs(st: State, st': State, t: Tid)
    requires StepTakeRun(st, st', t)
    ensures PcOf(st, t).Taking? && Ordinary(st, st', t)
    ensures st'.blocks == MoveFront(st.blocks, Home(PcOf(st, t).p), Moving(t), Min(PcOf(st, t).k, |On(st.blocks, Home(PcOf(st, t).p))|))
  {
    hide MoveFront;
  }

  lemma TakingFacts(st: State, a: Aux, t: Tid)
    requires Safe(st, a) && PcOf(st, t).Taking?
    ensures On(st.blocks, Home(PcOf(st, t).p)) != [] && On(st.blocks, Moving(t)) == [] && PcOf(st, t).k >= 1
    ensures Placed(st.blocks, a.own)
  {
    hide Safe, Core, Placed, LocksOk, ArgsOk, RoundUp, BlockThreshold;
    CoreOf(st, a, t);
  }

  /** A cut writes one cell, that of a known block. */
  lemma CutKnown(st: State, a: Aux, m: Mem, x: Place, y: Place, k: nat) returns (w: set<Addr>)
    requires Safe(st, a) && Placed(st.blocks, a.own) && Lists(st.blocks, m)
    requires On(st.blocks, x) != [] && On(st.blocks, y) == [] && x != y && k >= 1
    ensures Lists(MoveFront(st.blocks, x, y, Min(k, |On(st.blocks, x)|)), Cut(m, x, y, k))
    ensures Agree(m.next, Cut(m, x, y, k).next, w) && forall b :: b in w ==> b in a.own
  {
    hide Safe, Placed, Lists, MoveFront;
    CutLists(st.blocks, a.own, m, x, y, k);
    WalkFrom(st.blocks, m, x, k);
    var s := On(st.blocks, x);
    var last := s[Min(k, |s|) - 1];
    assert last in s;
    ListFacts(st, a, x, last) by { hide PageThreshold; }
    w := {last};
  }

  lemma TakeRunLinked(st: State, a: Aux, st': State, t: Tid, m: Mem)
    requires Safe(st, a) && StepTakeRun(st, st', t) && Linked(st, m)
    ensures Linked(st', TakeRunWrites(st, m, t))
  {
    TakeRunIs(st, st', t);
    hide Safe, Placed, MoveFront, Lists, PrivateLists, StepTakeRun, Cut, Agree;
    TakingFacts(st, a, t);
    var p, k := PcOf(st, t).p, PcOf(st, t).k;
    var w := CutKnown(st, a, m, Home(p), Moving(t), k);
    PrivateStays(st, a, st', t, m.next, Cut(m, Home(p), Moving(t), k).next, w);
  }

  lemma WalkFrom(blocks: map<Place, seq<Addr>>, m: Mem, x: Place, k: nat)
    requires Lists(blocks, m) && On(blocks, x) != [] && k >= 1
    ensures Walk(m.next, Head(m.heads, x), k) == On(blocks, x)[Min(k, |On(blocks, x)|) - 1]
  {
    WalkIs(m.next, Head(m.heads, x), On(blocks, x), k);
  }

  lemma CarveIs(st: State, st': State, t: Tid)
    requires StepCarve(st, st', t)
    ensures PcOf(st, t).Carving? && st'.blocks == st.blocks && PcOf(st, t).p in st.pages.spans
    ensures st.pages.spans[PcOf(st, t).p].blockSize >= 1
    ensures PcOf(st', t).Carved? && PcOf(st', t).chain == AllBlocks(st.pages.spans[PcOf(st, t).p])
    ensures forall u: Tid :: u != t ==> PcOf(st', u) == PcOf(st, u)
  {
    hide AllBlocks;
  }

  lemma CarveLinked(st: State, a: Aux, st': State, t: Tid, m: Mem)
    requires Safe(st, a) && StepCarve(st, st', t) && Linked(st, m)
    ensures Linked(st', CarveWrites(st, m, t))
  {
    CarveIs(st, st', t);
    hide Safe, StepCarve, AllBlocks, OwnsSpan, Lists, PrivateLists, LinkUp, BlockCount;
    CarvedFacts(st, a, t);
    var p := PcOf(st, t).p;
    CarveAll(st, a, t, p, m);
    CarveKeepsPrivate(st, a, st', t, p, m.next);
  }

  lemma CarveAll(st: State, a: Aux, t: Tid, p: Ptr, m: Mem)
    requires Safe(st, a) && OwnsSpan(a, t, p) && p in st.pages.spans && st.pages.spans[p].blockSize >= 1 && Lists(st.blocks, m)
    ensures Lists(st.blocks, m.(next := LinkUp(m.next, AllBlocks(st.pages.spans[p]))))
  {
    hide Safe, Core, Placed, AllBlocks, Lists, LocksOk, PcOk, ArgsOk;
    PrivateBlocks(st, a, t, p);
    LinkUpIs(m.next, AllBlocks(st.pages.spans[p]));
    CoreOf(st, a, t);
    CarveKeepsLists(st.blocks, a.own, m, AllBlocks(st.pages.spans[p]));
  }

  lemma CarveKeepsLists(blocks: map<Place, seq<Addr>>, own: map<Addr, Entry>, m: Mem, chain: seq<Addr>)
    requires Lists(blocks, m) && Placed(blocks, own) && (forall b :: b in chain ==> b !in own)
    requires forall a :: a !in chain ==> (a in LinkUp(m.next, chain) <==> a in m.next) && (a in m.next ==> LinkUp(m.next, chain)[a] == m.next[a])
    ensures Lists(blocks, m.(next := LinkUp(m.next, chain)))
  {
    forall x
      ensures F.Chain(LinkUp(m.next, chain), Head(m.heads, x), On(blocks, x))
    {
      ListStays(blocks, m, m.(next := LinkUp(m.next, chain)), Elements(chain), x);
    }
  }

  lemma CarveKeepsPrivate(st: State, a: Aux, st': State, t: Tid, p: Ptr, next: map<Addr, Addr>)
    requires Safe(st, a) && PrivateLists(st, next) && OwnsSpan(a, t, p) && p in st.pages.spans && st.pages.spans[p].blockSize >= 1
    requires PcOf(st', t).Carved? && PcOf(st', t).chain == AllBlocks(st.pages.spans[p])
    requires forall u: Tid :: u != t ==> PcOf(st', u) == PcOf(st, u)
    ensures PrivateLists(st', LinkUp(next, AllBlocks(st.pages.spans[p])))
  {
    hide Safe, AllBlocks;
    var chain := AllBlocks(st.pages.spans[p]);
    PrivateBlocks(st, a, t, p);
    LinkUpIs(next, chain);
    forall u: Tid | PcOf(st', u).Carved?
      ensures F.Chain(LinkUp(next, chain), F.HeadOf(PcOf(st', u).chain), PcOf(st', u).chain)
    {
      if u != t {
        CarvedFacts(st, a, u);
        PrivateBlocks(st, a, u, PcOf(st, u).p);
        F.ChainFrame(next, LinkUp(next, chain), F.HeadOf(PcOf(st, u).chain), PcOf(st, u).chain);
      }
    }
  }

  lemma InsertLinked(st: State, a: Aux, st': State, t: Tid, m: Mem)
    requires Safe(st, a) && StepInsert(st, st', t) && Linked(st, m)
    ensures Linked(st', InsertWrites(st, m, t))
  {
    hide Safe, PrivateLists;
    var p, chain := PcOf(st, t).p, PcOf(st, t).chain;
    assert F.Chain(m.next, F.HeadOf(chain), chain) by { PrivateOf(st, m.next, t); }
    forall x
      ensures F.Chain(m.next, Head(m.heads[Home(p) := F.HeadOf(chain)], x), On(st'.blocks, x))
    {
      if x != Home(p) { assert On(st'.blocks, x) == On(st.blocks, x); }
    }
    PrivateStays(st, a, st', t, m.next, m.next, {});
  }

  lemma PrivateOf(st: State, next: map<Addr, Addr>, t: Tid)
    requires PrivateLists(st, next) && PcOf(st, t).Carved?
    ensures F.Chain(next, F.HeadOf(PcOf(st, t).chain), PcOf(st, t).chain)
  {
  }

  lemma DeliverIs(st: State, st': State, t: Tid)
    requires StepDeliver(st, st', t)
    ensures PcOf(st, t).Got? && Ordinary(st, st', t) && On(st.blocks, Moving(t)) != []
    ensures var run := On(st.blocks, Moving(t));
            st'.blocks == MoveFront(st.blocks[Moving(t) := run[1..]], Moving(t), Cached(t, PcOf(st, t).c), |run| - 1)
  {
    hide MoveFront;
  }

  lemma DeliverLinked(st: State, a: Aux, st': State, t: Tid, m: Mem)
    requires Safe(st, a) && StepDeliver(st, st', t) && Linked(st, m)
    ensures Linked(st', DeliverWrites(st, m, t))
  {
    DeliverIs(st, st', t);
    hide Safe, Core, Placed, LocksOk, ArgsOk, MoveFront, Lists, PrivateLists, StepDeliver, RoundUp, RunOf;
    CoreOf(st, a, t);
    var c, run := PcOf(st, t).c, On(st.blocks, Moving(t));
    AcceptLists(st.blocks, a.own, m, Moving(t), Cached(t, c), run);
    AcceptWrites(st.blocks, m, Moving(t), Cached(t, c), run);
    PrivateStays(st, a, st', t, m.next, Accept(m, Moving(t), Cached(t, c), |run|).next, {});
  }

  /** The last link of the run is NULL already, so nothing changes. */
  lemma AcceptWrites(blocks: map<Place, seq<Addr>>, m: Mem, x: Place, y: Place, run: seq<Addr>)
    requires Lists(blocks, m) && run == On(blocks, x) && run != [] && On(blocks, y) == []
    ensures Agree(m.next, Accept(m, x, y, |run|).next, {})
  {
    assert F.Chain(m.next, Head(m.heads, x), run) && F.Chain(m.next, Head(m.heads, y), []);
    var rest := run[1..];
    assert F.Chain(m.next, m.next[run[0]], rest);
    if rest != [] {
      WalkIs(m.next, rest[0], rest, |run|);
      F.ChainCell(m.next, rest[0], rest, |rest| - 1);
      assert rest[|rest|..] == [];
    }
  }

  /** A push writes the cell of the block that is freed. */
  lemma PushKnown(st: State, a: Aux, m: Mem, t: Tid, b: Addr, p: Ptr, x: Place)
    requires Safe(st, a) && PcOf(st, t) == FreeSmall(b, p) && Lists(st.blocks, m)
    ensures b in a.own && !IsList(a.own[b].place) && a.own[b].span == p && Placed(st.blocks, a.own)
    ensures On(st.blocks, Moving(t)) == [] && CachesOk(st.blocks, st.apply)
    ensures Lists(st.blocks[x := [b] + On(st.blocks, x)], Push(m, x, b)) && Agree(m.next, Push(m, x, b).next, {b})
  {
    hide Safe, Core, Placed, LocksOk, ArgsOk, Lists, CachesOk;
    CoreOf(st, a, t);
    CachesOf(st, a);
    KnownPositive(st, a, b);
    PushLists(st.blocks, a.own, m, x, b);
  }

  lemma PushAll(st: State, a: Aux, st': State, t: Tid, m: Mem, b: Addr, p: Ptr, c: nat, n: nat, pushed: map<Place, seq<Addr>>, m1: Mem)
    requires Safe(st, a) && Linked(st, m) && Ordinary(st, st', t) && PcOf(st, t) == FreeSmall(b, p) && n == Applies(st.apply, t, c)
    requires p in st.pages.spans && c == st.pages.spans[p].blockSize
    requires pushed == st.blocks[Cached(t, c) := [b] + On(st.blocks, Cached(t, c))] && m1 == Push(m, Cached(t, c), b)
    requires st'.blocks == if |On(st.blocks, Cached(t, c))| + 1 >= n then MoveFront(pushed, Cached(t, c), Moving(t), n) else pushed
    ensures Linked(st', if |On(st.blocks, Cached(t, c))| + 1 >= n then Cut(m1, Cached(t, c), Moving(t), n) else m1)
  {
    hide Safe, Placed, MoveFront, Lists, PrivateLists, CachesOk, Push, Cut, Agree, Ordinary;
    PushKnown(st, a, m, t, b, p, Cached(t, c));
    SameClass(st, a, t, c, b);
    var x := Cached(t, c);
    assert On(pushed, x) == [b] + On(st.blocks, x);
    if |On(pushed, x)| >= n {
      ReleaseLinked(st, a, st', t, b, x, n, m, pushed);
    } else {
      OrdinaryStays(st, a, st', t, m.next, m1.next, {b});
    }
  }

  lemma PushIs(st: State, st': State, t: Tid, b: Addr, p: Ptr, c: nat, n: nat, pushed: map<Place, seq<Addr>>)
    requires StepPushLocal(st, st', t) && PcOf(st, t) == FreeSmall(b, p) && p in st.pages.spans
    requires c == st.pages.spans[p].blockSize && n == Applies(st.apply, t, c)
    requires pushed == st.blocks[Cached(t, c) := [b] + On(st.blocks, Cached(t, c))]
    ensures |On(pushed, Cached(t, c))| == |On(st.blocks, Cached(t, c))| + 1
    ensures st'.blocks == if |On(st.blocks, Cached(t, c))| + 1 >= n then MoveFront(pushed, Cached(t, c), Moving(t), n) else pushed
  {
    PushEffect(st, st', t, b, p, c);
    hide StepPushLocal, MoveFront;
  }

  lemma PushWritesIs(st: State, m: Mem, t: Tid, b: Addr, p: Ptr, c: nat, n: nat)
    requires PcOf(st, t) == FreeSmall(b, p) && p in st.pages.spans
    requires c == st.pages.spans[p].blockSize && n == Applies(st.apply, t, c)
    ensures var m1 := Push(m, Cached(t, c), b);
            PushWrites(st, m, t) == if |On(st.blocks, Cached(t, c))| + 1 >= n then Cut(m1, Cached(t, c), Moving(t), n) else m1
  {
    hide Push, Cut;
  }

  lemma PushLinked(st: State, a: Aux, st': State, t: Tid, m: Mem)
    requires Safe(st, a) && StepPushLocal(st, st', t) && Linked(st, m)
    ensures Linked(st', PushWrites(st, m, t))
  {
    hide Safe, MoveFront, Linked, StepPushLocal, Push, Cut, Ordinary, Applies, PushWrites;
    var b, p := PushLocalPc(st, st', t);
    var c := st.pages.spans[p].blockSize;
    var n := Applies(st.apply, t, c);
    var pushed := st.blocks[Cached(t, c) := [b] + On(st.blocks, Cached(t, c))];
    PushIs(st, st', t, b, p, c, n, pushed);
    PushWritesIs(st, m, t, b, p, c, n);
    PushOrdinary(st, st', t);
    PushAll(st, a, st', t, m, b, p, c, n, pushed, Push(m, Cached(t, c), b));
  }

  lemma OrdinaryStays(st: State, a: Aux, st': State, t: Tid, next: map<Addr, Addr>, next': map<Addr, Addr>, w: set<Addr>)
    requires Safe(st, a) && PrivateLists(st, next) && Agree(next, next', w) && (forall b :: b in w ==> b in a.own)
    requires Ordinary(st, st', t)
    ensures PrivateLists(st', next')
  {
    hide Safe, PrivateLists, Agree;
    PrivateStays(st, a, st', t, next, next', w);
  }

  lemma PushOrdinary(st: State, st': State, t: Tid)
    requires StepPushLocal(st, st', t)
    ensures Ordinary(st, st', t)
  {
    hide MoveFront;
  }

  lemma ReleaseLinked(st: State, a: Aux, st': State, t: Tid, b: Addr, x: Place, n: nat, m: Mem, pushed: map<Place, seq<Addr>>)
    requires Safe(st, a) && Placed(st.blocks, a.own) && Linked(st, m) && Ordinary(st, st', t) && CachesOk(st.blocks, st.apply)
    requires x.Cached? && x.t == t && x.c >= 1 && n == Applies(st.apply, t, x.c) && On(st.blocks, Moving(t)) == []
    requires b in a.own && !IsList(a.own[b].place) && pushed == st.blocks[x := [b] + On(st.blocks, x)] && |On(pushed, x)| >= n
    requires Lists(pushed, Push(m, x, b)) && st'.blocks == MoveFront(pushed, x, Moving(t), n)
    ensures Linked(st', Cut(Push(m, x, b), x, Moving(t), n))
  {
    hide Safe, MoveFront, Lists, PrivateLists, Placed;
    CacheAt(st.blocks, st.apply, t, x.c);
    hide CachesOk;
    var s := On(pushed, x);
    assert s == [b] + On(st.blocks, x) && |s| == n;
    PushPlaced(st.blocks, a.own, b, x);
    assert On(pushed, Moving(t)) == [];
    CutLists(pushed, Relocate(a.own, [b], x), Push(m, x, b), x, Moving(t), n);
    WalkFrom(pushed, Push(m, x, b), x, n);
    var last := s[n - 1];
    assert last == b || last in On(st.blocks, x);
    if last != b { ListFacts(st, a, x, last); }
    PrivateStays(st, a, st', t, m.next, Cut(Push(m, x, b), x, Moving(t), n).next, {b, last});
  }

  lemma ReturnIs(st: State, st': State, t: Tid, p: Ptr)
    requires StepReturnOne(st, st', t) && On(st.blocks, Moving(t)) != [] && p == st.pages.tags[On(st.blocks, Moving(t))[0] / PAGE]
    ensures Ordinary(st, st', t) && Uses(st.uses, p) >= 1
    ensures var blocks1 := MoveFront(st.blocks, Moving(t), Home(p), 1);
            st'.blocks == if Uses(st.uses, p) == 1 then blocks1 - {Home(p)} else blocks1
  {
    hide MoveFront;
  }

  lemma DropLists(blocks: map<Place, seq<Addr>>, m: Mem, x: Place)
    requires Lists(blocks, m)
    ensures Lists(blocks - {x}, m.(heads := m.heads[x := F.NULL]))
  {
    forall z
      ensures F.Chain(m.next, Head(m.heads[x := F.NULL], z), On(blocks - {x}, z))
    {
      if z != x {
        assert On(blocks - {x}, z) == On(blocks, z);
        assert F.Chain(m.next, Head(m.heads, z), On(blocks, z));
      }
    }
  }

  lemma ReturnPlace(st: State, st': State, t: Tid)
    requires StepReturnOne(st, st', t)
    ensures PcOf(st, t).Returning? && On(st.blocks, Moving(t)) != [] && On(st.blocks, Moving(t))[0] / PAGE in st.pages.tags
  {
    hide MoveFront;
  }

  /** A turn of the return loop writes the cell of the block that is returned. */
  lemma ReturnKnown(st: State, a: Aux, m: Mem, t: Tid, b: Addr, p: Ptr)
    requires Safe(st, a) && Lists(st.blocks, m) && On(st.blocks, Moving(t)) != [] && b == On(st.blocks, Moving(t))[0]
    ensures b in a.own && Head(m.heads, Moving(t)) == b && Agree(m.next, MoveOne(m, Moving(t), Home(p)).next, {b})
    ensures Lists(MoveFront(st.blocks, Moving(t), Home(p), 1), MoveOne(m, Moving(t), Home(p)))
  {
    hide Safe, Core, Placed, LocksOk, ArgsOk, PcOk, MoveFront, Lists, PageThreshold;
    CoreOf(st, a, t);
    MoveOneLists(st.blocks, a.own, m, Moving(t), Home(p));
    ListFacts(st, a, Moving(t), b);
  }

  lemma ReturnAll(st: State, a: Aux, st': State, t: Tid, m: Mem, b: Addr, p: Ptr, last: bool, m1: Mem, blocks1: map<Place, seq<Addr>>)
    requires Safe(st, a) && Linked(st, m) && Ordinary(st, st', t) && On(st.blocks, Moving(t)) != [] && b == On(st.blocks, Moving(t))[0]
    requires m1 == MoveOne(m, Moving(t), Home(p)) && blocks1 == MoveFront(st.blocks, Moving(t), Home(p), 1)
    requires st'.blocks == if last then blocks1 - {Home(p)} else blocks1
    ensures Head(m.heads, Moving(t)) == b
    ensures Linked(st', if last then m1.(heads := m1.heads[Home(p) := F.NULL]) else m1)
  {
    hide Safe, MoveFront, Lists, PrivateLists, MoveOne, Agree, Ordinary;
    ReturnKnown(st, a, m, t, b, p);
    if last { DropLists(blocks1, m1, Home(p)); }
    OrdinaryStays(st, a, st', t, m.next, m1.next, {b});
  }

  lemma ReturnLinked(st: State, a: Aux, st': State, t: Tid, m: Mem)
    requires Safe(st, a) && StepReturnOne(st, st', t) && Linked(st, m)
    ensures Linked(st', ReturnWrites(st, m, t))
  {
    ReturnPlace(st, st', t);
    var b := On(st.blocks, Moving(t))[0];
    var p := st.pages.tags[b / PAGE];
    ReturnIs(st, st', t, p);
    hide Safe, MoveFront, Linked, StepReturnOne, MoveOne, Ordinary;
    ReturnAll(st, a, st', t, m, b, p, Uses(st.uses, p) == 1, MoveOne(m, Moving(t), Home(p)), MoveFront(st.blocks, Moving(t), Home(p), 1));
  }

  // ----- steps that write no cell -------------------------------------------------------------------

  predicate Writes(l: Label) {
    l.MallocHit? || l.TakeRun? || l.Carve? || l.Insert? || l.Deliver? || l.PushLocal? || l.ReturnOne?
  }

  ghost predicate Still(st: State, st': State, t: Tid) {
    st'.blocks == st.blocks && Ordinary(st, st', t)
  }

  lemma ScanStill(st: State, st': State, t: Tid)
    requires StepScan(st, st', t)
    ensures Still(st, st', t)
  {
    hide Usable;
  }

  lemma FetchStill(st: State, st': State, t: Tid, os: Page)
    requires StepFetchSpan(st, st', t, os)
    ensures Still(st, st', t)
  {
    hide Create, Mark, PageThreshold, HeadsOk, PoolOk, OsPages, OsAnswers;
  }

  lemma BigStill(st: State, st': State, t: Tid, size: nat, os: Page)
    requires StepMallocBig(st, st', t, size, os)
    ensures Still(st, st', t)
  {
    hide Create, Mark, RoundUp, HeadsOk, PoolOk, OsPages, OsAnswers;
  }

  lemma LookupStill(st: State, st': State, t: Tid)
    requires StepLookup(st, st', t)
    ensures Still(st, st', t)
  {
  }

  lemma ReleaseStill(st: State, st': State, t: Tid)
    requires StepReleaseBig(st, st', t)
    ensures Still(st, st', t)
  {
    hide RecoverClean, HeldAfter;
  }

  lemma SpanStill(st: State, st': State, t: Tid)
    requires StepReleaseSpan(st, st', t)
    ensures Still(st, st', t)
  {
    hide RecoverClean, HeldAfter;
  }

  lemma StillStep(st: State, st': State, l: Label)
    requires Step(st, st', l) && !Writes(l)
    ensures Still(st, st', l.t)
  {
    hide StepMallocHit, StepTakeRun, StepCarve, StepInsert, StepDeliver, StepPushLocal, StepReturnOne,
      StepScan, StepFetchSpan, StepMallocBig, StepLookup, StepReleaseBig, StepReleaseSpan, RoundUp, BlockThreshold;
    match l
    case Scan(t) => ScanStill(st, st', t);
    case FetchSpan(t, os) => FetchStill(st, st', t, os);
    case MallocBig(t, size, os) => BigStill(st, st', t, size, os);
    case Lookup(t) => LookupStill(st, st', t);
    case ReleaseBig(t) => ReleaseStill(st, st', t);
    case ReleaseSpan(t) => SpanStill(st, st', t);
    case _ =>
  }

  lemma StepLinked(st: State, a: Aux, st': State, l: Label, m: Mem)
    requires Safe(st, a) && Step(st, st', l) && Linked(st, m)
    ensures Linked(st', Effect(st, m, l))
  {
    hide Safe, Linked, Pop, TakeRunWrites, CarveWrites, InsertWrites, DeliverWrites, PushWrites, ReturnWrites,
      StepMallocHit, StepMallocMiss, StepScan, StepTakeRun, StepFetchSpan, StepCarve, StepInsert, StepDeliver,
      StepMallocBig, StepFree, StepLookup, StepPushLocal, StepReleaseBig, StepLockBin, StepReturnOne, StepReleaseSpan, StepDone;
    match l
    case MallocHit(t, size) => HitLinked(st, a, st', t, size, m);
    case TakeRun(t) => TakeRunLinked(st, a, st', t, m);
    case Carve(t) => CarveLinked(st, a, st', t, m);
    case Insert(t) => InsertLinked(st, a, st', t, m);
    case Deliver(t) => DeliverLinked(st, a, st', t, m);
    case PushLocal(t) => PushLinked(st, a, st', t, m);
    case ReturnOne(t) => ReturnLinked(st, a, st', t, m);
    case _ => StillLinked(st, a, st', l, m);
  }

  lemma StillLinked(st: State, a: Aux, st': State, l: Label, m: Mem)
    requires Safe(st, a) && Step(st, st', l) && Linked(st, m) && !Writes(l)
    ensures Linked(st', m)
  {
    StillStep(st, st', l);
    hide Safe, Step, PrivateLists, Lists, Ordinary;
    OrdinaryStays(st, a, st', l.t, m.next, m.next, {});
  }

  // ----- what others write ----------------------------------------------------------------------------

  /** Not all of the eight bytes at d are the allocator's: some are part of a live allocation or not mapped. */
  ghost predicate Foreign(st: State, d: Addr) {
    || (exists b :: b in st.held && !Apart(b, st.held[b], d, 8))
    || d / PAGE !in st.mapped || (d + 7) / PAGE !in st.mapped
  }

  /** The user may write anything into live allocations, and new pages may come with any contents. */
  ghost predicate OthersWrite(st: State, next: map<Addr, Addr>, next': map<Addr, Addr>) {
    forall d {:trigger Foreign(st, d)} ::
      !Foreign(st, d) && d in next ==> d in next' && next'[d] == next[d]
  }

  /** A block that is not with the user is not on foreign bytes, nor is one of a span that is being carved. */
  lemma NotForeign(st: State, a: Aux, p: Ptr, d: Addr)
    requires Safe(st, a) && p in st.pages.spans && IsBlock(st.pages.spans[p], d) && st.pages.spans[p].blockSize >= 8
    requires p in a.roles && !a.roles[p].Direct? && (a.roles[p].InBin? ==> d in a.own && a.own[d].place != User)
    ensures !Foreign(st, d)
  {
    hide Safe, IsBlock, Core, PagesOk, BlockCount;
    SafePages(st, a);
    BlockInside(st.pages.spans[p], d);
    PageOfSpan(st.pages, st.mapped, a.v, p, d);
    PageOfSpan(st.pages, st.mapped, a.v, p, d + 7);
    forall b | b in st.held
      ensures Apart(b, st.held[b], d, 8)
    {
      HeldElsewhere(st, a, p, d, b);
    }
  }

  lemma HeldElsewhere(st: State, a: Aux, p: Ptr, d: Addr, b: Addr)
    requires Safe(st, a) && p in st.pages.spans && IsBlock(st.pages.spans[p], d) && st.pages.spans[p].blockSize >= 8
    requires p in a.roles && !a.roles[p].Direct? && (a.roles[p].InBin? ==> d in a.own && a.own[d].place != User)
    requires b in st.held
    ensures Apart(b, st.held[b], d, 8)
  {
    hide Safe, IsBlock, Core, PagesOk, BlockCount;
    var q, room := HeldLies(st, a, b);
    if p != q {
      SafePages(st, a);
      SpansApart(st.pages, st.mapped, a.v, p, q);
      BlockInside(st.pages.spans[p], d);
    } else {
      PlaceIsAt(st, a, d, User);
      BlocksDisjoint(st.pages.spans[p], b, d);
    }
  }

  lemma OthersLinked(st: State, a: Aux, m: Mem, next': map<Addr, Addr>)
    requires Safe(st, a) && Linked(st, m) && OthersWrite(st, m.next, next')
    ensures Linked(st, m.(next := next'))
  {
    hide Safe, Foreign, AllBlocks, IsBlock;
    forall x
      ensures F.Chain(next', Head(m.heads, x), On(st.blocks, x))
    {
      forall d | d in On(st.blocks, x)
        ensures !Foreign(st, d)
      {
        ListFacts(st, a, x, d);
        NotForeign(st, a, a.own[d].span, d);
      }
      F.ChainFrame(m.next, next', Head(m.heads, x), On(st.blocks, x));
    }
    forall t: Tid | PcOf(st, t).Carved?
      ensures F.Chain(next', F.HeadOf(PcOf(st, t).chain), PcOf(st, t).chain)
    {
      CarvedFacts(st, a, t);
      var p := PcOf(st, t).p;
      AllBlocksExact(st.pages.spans[p]);
      forall d | d in PcOf(st, t).chain
        ensures !Foreign(st, d)
      {
        NotForeign(st, a, p, d);
      }
      F.ChainFrame(m.next, next', F.HeadOf(PcOf(st, t).chain), PcOf(st, t).chain);
    }
  }

  // ----- runs -----------------------------------------------------------------------------------------

  datatype Event = Act(l: Label) | Write(next: map<Addr, Addr>)

  ghost predicate MemStep(st: State, m: Mem, st': State, m': Mem, e: Event) {
    match e
    case Act(l) => Step(st, st', l) && m' == Effect(st, m, l)
    case Write(next) => st' == st && OthersWrite(st, m.next, next) && m' == m.(next := next)
  }

  /** A run on a memory with any contents at first: steps of threads and writes of others. */
  ghost predicate MemRun(states: seq<State>, mems: seq<Mem>, events: seq<Event>) {
    && |states| == |mems| == |events| + 1 && states[0] == Init() && mems[0].heads == map[]
    && forall i :: 0 <= i < |events| ==> MemStep(states[i], mems[i], states[i + 1], mems[i + 1], events[i])
  }

  lemma InitLinked(m: Mem)
    requires m.heads == map[]
    ensures Linked(Init(), m)
  {
  }

  lemma {:induction false} RunLinked(states: seq<State>, mems: seq<Mem>, events: seq<Event>) returns (a: Aux)
    requires MemRun(states, mems, events)
    ensures Safe(states[|events|], a) && Linked(states[|events|], mems[|events|])
    decreases |events|
  {
    hide Safe, Linked, Step, Effect, OthersWrite;
    if events == [] {
      a := InitSafe();
      InitLinked(mems[0]);
    } else {
      var n := |events| - 1;
      a := RunLinked(states[..n + 1], mems[..n + 1], events[..n]);
      assert MemStep(states[n], mems[n], states[n + 1], mems[n + 1], events[n]);
      match events[n]
      case Act(l) =>
        StepLinked(states[n], a, states[n + 1], l, mems[n]);
        a := StepKeeps(states[n], a, states[n + 1], l);
      case Write(next) => OthersLinked(states[n], a, mems[n], next);
    }
  }

  /** At the end of every run, following the links from the header of a list gives that list, and no other. */
  lemma ListsAreChains(states: seq<State>, mems: seq<Mem>, events: seq<Event>, x: Place, s: seq<Addr>)
    requires MemRun(states, mems, events)
    ensures var n := |events|;
            F.Chain(mems[n].next, Head(mems[n].heads, x), s) <==> s == On(states[n].blocks, x)
  {
    hide Safe, MemRun, PrivateLists;
    var n := |events|;
    RunLengths(states, mems, events);
    var a := RunLinked(states, mems, events);
    var m := mems[n];
    assert F.Chain(m.next, Head(m.heads, x), On(states[n].blocks, x));
    if F.Chain(m.next, Head(m.heads, x), s) {
      F.ChainUnique(m.next, Head(m.heads, x), s, On(states[n].blocks, x));
    }
  }

  lemma RunLengths(states: seq<State>, mems: seq<Mem>, events: seq<Event>)
    requires MemRun(states, mems, events)
    ensures |states| == |mems| == |events| + 1
  {
  }

  /** Every run of the transition system is one on a memory, whatever that contains at first. */
  lemma {:induction false} EveryRunHasMemory(states: seq<State>, labels: seq<Label>, next: map<Addr, Addr>)
    returns (mems: seq<Mem>)
    requires Run(states, labels)
    ensures MemRun(states, mems, seq(|labels|, i requires 0 <= i < |labels| => Act(labels[i]))) && mems[0].next == next
    decreases |labels|
  {
    hide Step, Effect;
    if labels == [] {
      mems := [Mem(next, map[])];
    } else {
      var n := |labels| - 1;
      var before := EveryRunHasMemory(states[..n + 1], labels[..n], next);
      mems := before + [Effect(states[n], before[n], labels[n])];
      var events := seq(|labels|, i requires 0 <= i < |labels| => Act(labels[i]));
      var earlier := seq(n, i requires 0 <= i < n => Act(labels[..n][i]));
      forall i | 0 <= i < |events|
        ensures MemStep(states[i], mems[i], states[i + 1], mems[i + 1], events[i])
      {
        if i < n {
          assert MemStep(states[..n + 1][i], before[i], states[..n + 1][i + 1], before[i + 1], earlier[i]);
        }
      }
    }
  }
}
