/** The thread cache (`memory_pool/src/thread_cache.cpp`): one free list per size class, on the shared
    heap of next pointers. What the central cache hands over or takes back is passed in and out. */
module ThreadCache {
  import opened SizeClasses
  import opened FreeLists

  /** The list that serves requests of `size` bytes: that of the least class that fits. */
  function ListOf(size: nat): (i: nat)
    requires 1 <= size <= MAX_ALLOC_BYTES
    ensures i < FREE_LIST_SIZE && size <= ClassSize(i)
    ensures forall j: nat :: j < i ==> ClassSize(j) < size
  {
    LeastClassIndex(size);
    Index(size)
  }

  lemma LeastClassIndex(size: nat)
    requires 1 <= size <= MAX_ALLOC_BYTES
    ensures Index(size) < FREE_LIST_SIZE && size <= ClassSize(Index(size))
    ensures forall j: nat :: j < Index(size) ==> ClassSize(j) < size
  {
    RoundUpIsClassOfIndex(size);
    RoundUpCovers(size);
    forall j: nat | j < Index(size)
      ensures ClassSize(j) < size
    {
      PreviousClassTooSmall(size);
      if j < Index(size) - 1 {
        ClassSizeIncreasing(j, Index(size) - 1);
      }
    }
  }

  class ThreadCache {
    const mem: Memory
    const lists: seq<Freelist> // _m_free_lists

    /** Every list is sound, no block is on two lists, and slow start keeps each list below its apply count. */
    ghost predicate Valid()
      reads this, mem, lists
    {
      && |lists| == FREE_LIST_SIZE
      && (forall i, j :: 0 <= i < j < |lists| ==> lists[i] != lists[j])
      && (forall i :: 0 <= i < |lists| ==> lists[i].mem == mem && lists[i].Valid() && Bounded(i))
      && (forall i, j {:trigger lists[i].list, lists[j].list} :: 0 <= i < j < |lists| ==> Disjoint(lists[i].list, lists[j].list))
    }

    ghost predicate Bounded(i: nat)
      requires i < |lists| && |lists| == FREE_LIST_SIZE
      reads lists
    {
      lists[i].size < lists[i].applyCount <= BlockThreshold(ClassSize(i)) + 1
    }

    constructor (m: Memory)
      ensures Valid() && mem == m && fresh(lists)
      ensures forall i :: 0 <= i < |lists| ==> lists[i].list == [] && lists[i].applyCount == 1
    {
      var made: seq<Freelist> := [];
      while |made| < FREE_LIST_SIZE
        invariant |made| <= FREE_LIST_SIZE && fresh(made)
        invariant forall i, j :: 0 <= i < j < |made| ==> made[i] != made[j]
        invariant forall i :: 0 <= i < |made| ==>
                    made[i].mem == m && made[i].Valid() && made[i].list == [] && made[i].applyCount == 1
      {
        var l := new Freelist(m);
        made := made + [l];
      }
      mem, lists := m, made;
      new;
      forall i | 0 <= i < |lists|
        ensures Bounded(i)
      {
        BlockThresholdRange(ClassSize(i));
      }
    }

    /** Lists other than i are as before, heap cells included. */
    twostate predicate OthersSame(i: nat)
      requires i < |lists|
      reads this, lists
    {
      forall j :: 0 <= j < |lists| && j != i ==>
        && lists[j].list == old(lists[j].list) && lists[j].head == old(lists[j].head)
        && lists[j].size == old(lists[j].size) && lists[j].applyCount == old(lists[j].applyCount)
    }

    twostate lemma StillValid(i: nat)
      requires old(Valid()) && i < |lists| && OthersSame(i)
      requires lists[i].Valid() && Bounded(i)
      requires forall j :: 0 <= j < |lists| && j != i ==> Disjoint(lists[i].list, lists[j].list)
      requires forall j, b :: 0 <= j < |lists| && j != i && b in lists[j].list && b in old(mem.next) ==>
                 b in mem.next && mem.next[b] == old(mem.next)[b]
      ensures Valid()
    {
      forall j | 0 <= j < |lists| && j != i
        ensures lists[j].Valid() && Bounded(j)
      {
        assert old(lists[j].Valid()) && old(Bounded(j));
        ChainFrame(old(mem.next), mem.next, lists[j].head, lists[j].list);
      }
    }

    /** `allocate` with a block in the list: the first one. */
    method AllocateHit(size: nat) returns (obj: Addr)
      requires Valid() && 1 <= size <= MAX_ALLOC_BYTES && lists[ListOf(size)].list != []
      modifies lists[ListOf(size)]
      ensures Valid() && OthersSame(ListOf(size)) && mem.next == old(mem.next)
      ensures lists[ListOf(size)].applyCount == old(lists[ListOf(size)].applyCount)
      ensures [obj] + lists[ListOf(size)].list == old(lists[ListOf(size)].list)
    {
      var i := ListOf(size);
      assert Bounded(i);
      obj := lists[i].PopFront();
      forall j | 0 <= j < |lists| && j != i
        ensures Disjoint(lists[i].list, lists[j].list)
      {
        assert forall b :: b in lists[i].list ==> b in old(lists[i].list);
        assert if i < j then old(Disjoint(lists[i].list, lists[j].list)) else old(Disjoint(lists[j].list, lists[i].list));
      }
      StillValid(i);
    }

    /** First half of `_m_alloc_from_central`: how many blocks to ask for; ask for one more next time as
        long as the threshold is not exceeded. */
    method BlocksToRequest(i: nat) returns (k: nat)
      requires Valid() && i < FREE_LIST_SIZE && lists[i].list == []
      modifies lists[i]
      ensures Valid() && OthersSame(i) && lists[i].list == []
      ensures 1 <= k <= BlockThreshold(ClassSize(i)) && k < lists[i].applyCount
      ensures k == if old(lists[i].applyCount) <= BlockThreshold(ClassSize(i)) then old(lists[i].applyCount) else BlockThreshold(ClassSize(i))
      ensures lists[i].applyCount == old(lists[i].applyCount) + if k == old(lists[i].applyCount) then 1 else 0
    {
      assert Bounded(i);
      var c := ClassSize(i);
      BlockThresholdRange(c);
      k := if lists[i].applyCount <= BlockThreshold(c) then lists[i].applyCount else BlockThreshold(c);
      if k == lists[i].applyCount {
        lists[i].Increment();
      }
      StillValid(i);
    }

    /** Second half: the first block of the run is the caller's, the rest goes into the list. */
    method AcceptRun(i: nat, start: Addr, end: Addr, count: nat, ghost run: seq<Addr>) returns (obj: Addr)
      requires Valid() && i < FREE_LIST_SIZE && lists[i].list == []
      requires Chain(mem.next, start, run) && 1 <= |run| == count < lists[i].applyCount && run[count - 1] == end
      requires forall j, b :: 0 <= j < |lists| && b in run ==> b !in lists[j].list
      modifies lists[i], mem
      ensures Valid() && OthersSame(i) && obj == run[0] && lists[i].list == run[1..]
      ensures lists[i].applyCount == old(lists[i].applyCount)
    {
      ChainIsSegment(mem.next, start, run);
      assert Bounded(i);
      if count == 1 {
        obj := start;
        StillValid(i);
      } else {
        assert run[1..][count - 2] == end;
        assert forall b :: b in run[1..] ==> b in run;
        lists[i].PushRange(mem.next[start], end, count - 1, run[1..]);
        assert run[1..] + [] == run[1..];
        StillValid(i);
        obj := start;
      }
    }

    /** `deallocate`: the block goes in front; a list that reaches its apply count is released as a whole, and
        `released` is the chain that goes to the central cache (NULL if none). */
    method Deallocate(obj: Addr, i: nat) returns (released: Addr)
      requires Valid() && i < FREE_LIST_SIZE && obj != NULL
      requires forall j :: 0 <= j < |lists| ==> obj !in lists[j].list
      modifies lists[i], mem
      ensures Valid() && OthersSame(i) && lists[i].applyCount == old(lists[i].applyCount)
      ensures if |old(lists[i].list)| + 1 == lists[i].applyCount
              then lists[i].list == [] && Chain(mem.next, released, [obj] + old(lists[i].list))
              else lists[i].list == [obj] + old(lists[i].list) && released == NULL
    {
      assert Bounded(i);
      ghost var was := lists[i].list;
      lists[i].PushFront(obj);
      released := NULL;
      assert forall j :: 0 <= j < |lists| && j != i ==> Disjoint(was, lists[j].list);
      if lists[i].size >= lists[i].applyCount {
        var end;
        released, end := lists[i].PopRange(lists[i].applyCount);
        assert ([obj] + was)[..|was| + 1] == [obj] + was;
      }
      StillValid(i);
    }
  }

  ghost predicate Disjoint(s: seq<Addr>, r: seq<Addr>) {
    forall b :: b in s ==> b !in r
  }
}
