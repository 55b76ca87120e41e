/** The whole allocator as a transition system: any number of threads run `tnc_malloc` and
    `tnc_free`, interleaved between the points where a lock is taken or dropped.

    Sources: memory_pool/include/alloc.h, thread_cache.cpp, central_cache.cpp, page_cache.cpp.
    Five lines follow the evident intent instead of the letter (see README.md). */
module Allocator {
  import opened Common
  import opened SizeClasses
  import opened PageModel
  import opened PageInvariant
  import opened PageCreate
  import opened PageRecover

  type Tid = nat
  type Addr = nat

  /** The lists a free block can be on: the chain of its span, the free list of a thread, or the
      run a thread is just moving. `User` is the place of an allocated block, `Argument(t)` that of
      the block thread t has just passed to `tnc_free`. */
  datatype Place = Home(p: Ptr) | Cached(t: Tid, c: nat) | Moving(t: Tid) | User | Argument(t: Tid)

  /** Where a thread is between two locked sections. */
  datatype Pc =
    | Idle
    | Want(size: nat, c: nat, k: nat)               // free list empty; about to lock bin c for up to k blocks
    | Taking(size: nat, c: nat, k: nat, p: Ptr)     // bin c locked, span p has a block
    | Fetch(size: nat, c: nat, k: nat)              // bin c unlocked again, about to lock the page cache
    | Carving(size: nat, c: nat, k: nat, p: Ptr)    // span p obtained, no lock held
    | Carved(size: nat, c: nat, k: nat, p: Ptr, chain: seq<Addr>) // chained up, about to lock bin c
    | Got(size: nat, c: nat)                        // run in hand
    | Freeing(b: Addr)                              // tnc_free(b) entered
    | FreeSmall(b: Addr, p: Ptr)                    // looked up: a block of span p
    | FreeBig(p: Ptr)                               // looked up: a direct span
    | Return(c: nat)                                // run in hand, about to lock bin c
    | Returning(c: nat)                             // bin c locked
    | GiveBack(c: nat, p: Ptr)                      // span p unlinked, bin c unlocked

  datatype State = State(
    pages: Pages,                   // page cache
    mapped: set<Page>,              // pages obtained from the OS
    bins: map<nat, seq<Ptr>>,       // central cache: the spans of each class
    uses: map<Ptr, nat>,            // _use_count
    locks: map<nat, Tid>,           // bin locks that are held, and by whom
    blocks: map<Place, seq<Addr>>,  // contents of every block list
    apply: map<(Tid, nat), nat>,    // _m_apply_count of every free list
    pcs: map<Tid, Pc>,
    held: map<Addr, nat>)           // live allocations and their requested sizes

  function Bin(st: State, c: nat): seq<Ptr> { if c in st.bins then st.bins[c] else [] }
  function Uses(uses: map<Ptr, nat>, p: Ptr): nat { if p in uses then uses[p] else 0 }
  function On(blocks: map<Place, seq<Addr>>, x: Place): seq<Addr> { if x in blocks then blocks[x] else [] }
  function Applies(apply: map<(Tid, nat), nat>, t: Tid, c: nat): nat { if (t, c) in apply then apply[(t, c)] else 1 }
  function PcOf(st: State, t: Tid): Pc { if t in st.pcs then st.pcs[t] else Idle }

  function Init(): State { State(Empty(), {}, map[], map[], map[], map[], map[], map[], map[]) }

  // ----- blocks of a span ----------------------------------------------------------

  function Base(s: Span): Addr { s.first * PAGE }

  function BlockCount(s: Span): nat
    requires s.blockSize >= 1
  {
    s.count * PAGE / s.blockSize
  }

  function BlockAt(s: Span, i: int): int { Base(s) + i * s.blockSize }

  /** All blocks that fit into the span, in address order. */
  function AllBlocks(s: Span): (r: seq<Addr>)
    requires s.blockSize >= 1
    ensures |r| == BlockCount(s)
  {
    seq(BlockCount(s), i => BlockAt(s, i))
  }

  // ----- moves between lists --------------------------------------------------------

  /** The first k blocks of list x go to the front of list y. */
  function MoveFront(blocks: map<Place, seq<Addr>>, x: Place, y: Place, k: nat): map<Place, seq<Addr>>
    requires k <= |On(blocks, x)|
  {
    blocks[x := On(blocks, x)[k..]][y := On(blocks, x)[..k] + On(blocks, y)]
  }

  /** The first span of a bin that has a block left. */
  function Usable(bin: seq<Ptr>, blocks: map<Place, seq<Addr>>): (i: nat)
    ensures i <= |bin| && (i < |bin| ==> On(blocks, Home(bin[i])) != [])
    ensures forall j :: 0 <= j < i ==> On(blocks, Home(bin[j])) == []
  {
    if bin == [] || On(blocks, Home(bin[0])) != [] then 0 else 1 + Usable(bin[1..], blocks)
  }

  // ----- transitions ----------------------------------------------------------------

  datatype Label =
    | MallocHit(t: Tid, size: nat)
    | MallocMiss(t: Tid, size: nat)
    | Scan(t: Tid)
    | TakeRun(t: Tid)
    | FetchSpan(t: Tid, os: Page)
    | Carve(t: Tid)
    | Insert(t: Tid)
    | Deliver(t: Tid)
    | MallocBig(t: Tid, size: nat, os: Page)
    | Free(t: Tid, b: Addr)
    | Lookup(t: Tid)
    | PushLocal(t: Tid)
    | ReleaseBig(t: Tid)
    | LockBin(t: Tid)
    | ReturnOne(t: Tid)
    | ReleaseSpan(t: Tid)
    | Done(t: Tid)

  /** `tnc_malloc` with a block in the thread's free list. */
  ghost predicate StepMallocHit(st: State, st': State, t: Tid, size: nat) {
    && PcOf(st, t) == Idle && 1 <= size <= MAX_ALLOC_BYTES
    && var x := Cached(t, RoundUp(size));
       && On(st.blocks, x) != []
       && st' == st.(blocks := st.blocks[x := On(st.blocks, x)[1..]], held := st.held[On(st.blocks, x)[0] := size])
  }

  /** `tnc_malloc` with an empty free list: slow start decides how many blocks to ask for. */
  ghost predicate StepMallocMiss(st: State, st': State, t: Tid, size: nat) {
    && PcOf(st, t) == Idle && 1 <= size <= MAX_ALLOC_BYTES
    && var c := RoundUp(size);
       && c >= 1 && On(st.blocks, Cached(t, c)) == []
       && var n := Applies(st.apply, t, c);
          var k := Min(n, BlockThreshold(c));
          st' == st.(pcs := st.pcs[t := Want(size, c, k)],
                     apply := if k == n then st.apply[(t, c) := n + 1] else st.apply)
  }

  /** Lock the bin; keep the lock if some span has a block, otherwise drop it to fetch a span. */
  ghost predicate StepScan(st: State, st': State, t: Tid) {
    match PcOf(st, t)
    case Want(size, c, k) =>
       && c !in st.locks
       && var i := Usable(Bin(st, c), st.blocks);
          if i < |Bin(st, c)|
          then st' == st.(locks := st.locks[c := t], pcs := st.pcs[t := Taking(size, c, k, Bin(st, c)[i])])
          else st' == st.(pcs := st.pcs[t := Fetch(size, c, k)])
    case _ => false
  }

  /** Cut at most k blocks off the span's chain and unlock the bin. */
  ghost predicate StepTakeRun(st: State, st': State, t: Tid) {
    match PcOf(st, t)
    case Taking(size, c, k, p) =>
       && var m := Min(k, |On(st.blocks, Home(p))|);
          st' == st.(blocks := MoveFront(st.blocks, Home(p), Moving(t), m),
                     uses := st.uses[p := Uses(st.uses, p) + m],
                     locks := st.locks - {c},
                     pcs := st.pcs[t := Got(size, c)])
    case _ => false
  }

  /** What the OS promises about a new run. */
  predicate OsAnswers(st: State, os: Page, n: nat) {
    n > 0 ==> os >= 1 && Range(os, n) !! st.mapped
  }

  /** Under the page-cache lock: obtain a span, mark it, note its block size. */
  ghost predicate StepFetchSpan(st: State, st': State, t: Tid, os: Page) {
    match PcOf(st, t)
    case Fetch(size, c, k) =>
       && c >= 1 && HeadsOk(st.pages) && PoolOk(st.pages)
       && var n := PageThreshold(c);
          && n >= 1 && OsAnswers(st, os, OsPages(st.pages, n))
          && var (pages', p) := Create(st.pages, n, os);
             && p in pages'.spans
             && st' == st.(pages := Mark(pages', p, c), mapped := st.mapped + Range(os, OsPages(st.pages, n)),
                           pcs := st.pcs[t := Carving(size, c, k, p)])
    case _ => false
  }

  function Mark(pages: Pages, p: Ptr, blockSize: nat): Pages
    requires p in pages.spans
  {
    pages.(spans := pages.spans[p := pages.spans[p].(inUse := true, blockSize := blockSize)])
  }

  /** Chain up the blocks of the private span. */
  ghost predicate StepCarve(st: State, st': State, t: Tid) {
    match PcOf(st, t)
    case Carving(size, c, k, p) =>
       && p in st.pages.spans && st.pages.spans[p].blockSize >= 1
       && st' == st.(pcs := st.pcs[t := Carved(size, c, k, p, AllBlocks(st.pages.spans[p]))])
    case _ => false
  }

  /** Lock the bin again and put the span in front. */
  ghost predicate StepInsert(st: State, st': State, t: Tid) {
    match PcOf(st, t)
    case Carved(size, c, k, p, chain) =>
       && c !in st.locks
       && st' == st.(bins := st.bins[c := [p] + Bin(st, c)], blocks := st.blocks[Home(p) := chain],
                     locks := st.locks[c := t], pcs := st.pcs[t := Taking(size, c, k, p)])
    case _ => false
  }

  /** The first block of the run goes to the user, the rest to the thread's free list. */
  ghost predicate StepDeliver(st: State, st': State, t: Tid) {
    match PcOf(st, t)
    case Got(size, c) =>
       && var run := On(st.blocks, Moving(t));
          && run != []
          && var blocks1 := st.blocks[Moving(t) := run[1..]];
             st' == st.(blocks := MoveFront(blocks1, Moving(t), Cached(t, c), |run| - 1),
                        held := st.held[run[0] := size], pcs := st.pcs[t := Idle])
    case _ => false
  }

  /** A request above 256 KB: a span of its own, tagged as such by its block size and marked. */
  ghost predicate StepMallocBig(st: State, st': State, t: Tid, size: nat, os: Page) {
    && PcOf(st, t) == Idle && MAX_ALLOC_BYTES < size && size + PAGE <= SIZE_VALUES
    && HeadsOk(st.pages) && PoolOk(st.pages)
    && var n := RoundUp(size) / PAGE;
       && n >= 1 && OsAnswers(st, os, OsPages(st.pages, n))
       && var (pages', p) := Create(st.pages, n, os);
          && p in pages'.spans
          && st' == st.(pages := Mark(pages', p, MAX_ALLOC_BYTES + 1),
                        mapped := st.mapped + Range(os, OsPages(st.pages, n)),
                        held := st.held[Base(pages'.spans[p]) := size])
  }

  ghost predicate StepFree(st: State, st': State, t: Tid, b: Addr) {
    && PcOf(st, t) == Idle && b in st.held
    && st' == st.(held := st.held - {b}, pcs := st.pcs[t := Freeing(b)])
  }

  /** Under the page-cache lock: find the span; then branch on its tag. */
  ghost predicate StepLookup(st: State, st': State, t: Tid) {
    match PcOf(st, t)
    case Freeing(b) =>
       && b / PAGE in st.pages.tags
       && var p := st.pages.tags[b / PAGE];
          && p in st.pages.spans
          && if st.pages.spans[p].blockSize > MAX_ALLOC_BYTES
             then st' == st.(pcs := st.pcs[t := FreeBig(p)])
             else st' == st.(pcs := st.pcs[t := FreeSmall(b, p)])
    case _ => false
  }

  /** Push the block; when the free list reaches its apply count, release that many. */
  ghost predicate StepPushLocal(st: State, st': State, t: Tid) {
    match PcOf(st, t)
    case FreeSmall(b, p) =>
       && p in st.pages.spans
       && var c := st.pages.spans[p].blockSize;
          var x, n := Cached(t, c), Applies(st.apply, t, c);
          var pushed := st.blocks[x := [b] + On(st.blocks, x)];
          if |On(pushed, x)| >= n
          then st' == st.(blocks := MoveFront(pushed, x, Moving(t), n), pcs := st.pcs[t := Return(c)])
          else st' == st.(blocks := pushed, pcs := st.pcs[t := Idle])
    case _ => false
  }

  ghost predicate StepReleaseBig(st: State, st': State, t: Tid) {
    match PcOf(st, t)
    case FreeBig(p) =>
       && p in st.pages.spans
       && st' == st.(pages := RecoverClean(st.pages, p), mapped := HeldAfter(st.mapped, st.pages.spans[p]),
                     pcs := st.pcs[t := Idle])
    case _ => false
  }

  ghost predicate StepLockBin(st: State, st': State, t: Tid) {
    match PcOf(st, t)
    case Return(c) =>
       && c !in st.locks
       && st' == st.(locks := st.locks[c := t], pcs := st.pcs[t := Returning(c)])
    case _ => false
  }

  /** Give one block back to its span; a span whose blocks are all home leaves the bin. */
  ghost predicate StepReturnOne(st: State, st': State, t: Tid) {
    match PcOf(st, t)
    case Returning(c) =>
       && var run := On(st.blocks, Moving(t));
          && run != [] && run[0] / PAGE in st.pages.tags
          && var p := st.pages.tags[run[0] / PAGE];
             && Uses(st.uses, p) >= 1
             && var uses' := st.uses[p := Uses(st.uses, p) - 1];
                var blocks' := MoveFront(st.blocks, Moving(t), Home(p), 1);
                if uses'[p] == 0
                then st' == st.(uses := uses', blocks := blocks' - {Home(p)},
                                bins := st.bins[c := Without(Bin(st, c), p)], locks := st.locks - {c},
                                pcs := st.pcs[t := GiveBack(c, p)])
                else st' == st.(uses := uses', blocks := blocks')
    case _ => false
  }

  /** Under the page-cache lock: the span goes back and is merged with its neighbours. */
  ghost predicate StepReleaseSpan(st: State, st': State, t: Tid) {
    match PcOf(st, t)
    case GiveBack(c, p) =>
       && p in st.pages.spans
       && st' == st.(pages := RecoverClean(st.pages, p), mapped := HeldAfter(st.mapped, st.pages.spans[p]),
                     pcs := st.pcs[t := Return(c)])
    case _ => false
  }

  ghost predicate StepDone(st: State, st': State, t: Tid) {
    && PcOf(st, t).Returning? && On(st.blocks, Moving(t)) == []
    && st' == st.(locks := st.locks - {PcOf(st, t).c}, pcs := st.pcs[t := Idle])
  }

  ghost predicate Step(st: State, st': State, l: Label) {
    match l
    case MallocHit(t, size) => StepMallocHit(st, st', t, size)
    case MallocMiss(t, size) => StepMallocMiss(st, st', t, size)
    case Scan(t) => StepScan(st, st', t)
    case TakeRun(t) => StepTakeRun(st, st', t)
    case FetchSpan(t, os) => StepFetchSpan(st, st', t, os)
    case Carve(t) => StepCarve(st, st', t)
    case Insert(t) => StepInsert(st, st', t)
    case Deliver(t) => StepDeliver(st, st', t)
    case MallocBig(t, size, os) => StepMallocBig(st, st', t, size, os)
    case Free(t, b) => StepFree(st, st', t, b)
    case Lookup(t) => StepLookup(st, st', t)
    case PushLocal(t) => StepPushLocal(st, st', t)
    case ReleaseBig(t) => StepReleaseBig(st, st', t)
    case LockBin(t) => StepLockBin(st, st', t)
    case ReturnOne(t) => StepReturnOne(st, st', t)
    case ReleaseSpan(t) => StepReleaseSpan(st, st', t)
    case Done(t) => StepDone(st, st', t)
  }

  /** The states reachable from the start. */
  ghost predicate Run(states: seq<State>, labels: seq<Label>) {
    && |states| == |labels| + 1 && states[0] == Init()
    && forall i :: 0 <= i < |labels| ==> Step(states[i], states[i + 1], labels[i])
  }
}
