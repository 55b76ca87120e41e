/** The pool that span objects and thread caches come from (`memory_pool/include/fixed_mem_pool.h`): objects of
    one size are cut off chunks of 128 KB and reused through a free list, whose links lie in the deleted objects. */
module FixedPool {
  import opened FreeLists
  import Bits

  const CHUNK: nat := 128 * 1024
  const LINK_SIZE: nat := 8

  predicate Apart(a: Addr, b: Addr, size: nat) { a + size <= b || b + size <= a }

  /** Object a does not reach into the bytes [mem, mem + remain). */
  predicate Outside(a: Addr, size: nat, mem: Addr, remain: nat) { a + size <= mem || mem + remain <= a }

  ghost predicate AllApart(objects: set<Addr>, size: nat) {
    forall a, b :: a in objects && b in objects && a != b ==> Apart(a, b, size)
  }

  ghost predicate AllOutside(objects: set<Addr>, size: nat, mem: Addr, remain: nat) {
    forall a :: a in objects ==> Outside(a, size, mem, remain)
  }

  /** Memory range [a, a + size) lies inside a chunk. */
  ghost predicate InChunk(chunks: set<Addr>, a: Addr, size: nat) {
    exists k :: k in chunks && k <= a && a + size <= k + CHUNK
  }

  /** The OS answers with memory that it has not handed out before. */
  ghost predicate NewChunk(chunks: set<Addr>, os: Addr) {
    os != NULL && forall k :: k in chunks ==> k + CHUNK <= os || os + CHUNK <= k
  }

  lemma OutsideNewChunk(chunks: set<Addr>, objects: set<Addr>, size: nat, os: Addr)
    requires NewChunk(chunks, os) && size >= 1 && forall a :: a in objects ==> InChunk(chunks, a, size)
    ensures AllOutside(objects, size, os, CHUNK) && os !in chunks
  {
  }

  /** Room for one object less. */
  lemma OneLess(remain: nat, size: nat)
    requires 1 <= size <= remain
    ensures (remain - size) / size == remain / size - 1
  {
    var q := remain / size;
    assert remain == q * size + remain % size;
    assert remain - size == (q - 1) * size + remain % size;
    Bits.DivModUnique(remain - size, size, q - 1, remain % size);
  }

  lemma NoRoom(remain: nat, size: nat)
    requires remain < size
    ensures remain / size == 0
  {
    Bits.DivModUnique(remain, size, 0, remain);
  }

  lemma OneMore(chunks: nat, each: nat)
    ensures (chunks + 1) * each == chunks * each + each
  {
  }

  lemma AddApart(objects: set<Addr>, a: Addr, size: nat)
    requires AllApart(objects, size) && forall b :: b in objects ==> Apart(a, b, size)
    ensures AllApart(objects + {a}, size)
  {
  }

  /** Objects of `size` bytes, used or free, do not overlap each other or the rest [mem, mem + remain) of the last
      chunk. All of them lie in chunks, and the chunks have no more room than for them and those to come. */
  ghost predicate Layout(objects: set<Addr>, chunks: set<Addr>, size: nat, mem: Addr, remain: nat)
    requires size >= 1
  {
    && NULL !in objects && (mem == NULL ==> remain == 0) && remain <= CHUNK
    && AllApart(objects, size) && AllOutside(objects, size, mem, remain)
    && (forall a :: a in objects ==> InChunk(chunks, a, size))
    && (remain > 0 ==> InChunk(chunks, mem, remain))
    && |objects| + remain / size == |chunks| * (CHUNK / size)
  }

  lemma CutLayout(objects: set<Addr>, chunks: set<Addr>, size: nat, mem: Addr, remain: nat)
    requires 1 <= size <= remain && Layout(objects, chunks, size, mem, remain)
    ensures Layout(objects + {mem}, chunks, size, mem + size, remain - size) && mem !in objects && mem != NULL
    ensures forall a :: a in objects ==> Apart(a, mem, size)
  {
    assert forall a :: a in objects ==> Apart(mem, a, size) && a != mem;
    AddApart(objects, mem, size);
    OneLess(remain, size);
    hide AllApart;
  }

  lemma ChunkLayout(objects: set<Addr>, chunks: set<Addr>, size: nat, mem: Addr, remain: nat, os: Addr)
    requires 1 <= size && remain < size && Layout(objects, chunks, size, mem, remain) && NewChunk(chunks, os)
    ensures Layout(objects, chunks + {os}, size, os, CHUNK)
  {
    NoRoom(remain, size);
    OutsideNewChunk(chunks, objects, size, os);
    OneMore(|chunks|, CHUNK / size);
    hide AllApart, AllOutside;
    forall a | a in objects
      ensures InChunk(chunks + {os}, a, size)
    {
      assert InChunk(chunks, a, size);
    }
  }

  lemma OthersApart(objects: set<Addr>, chunks: set<Addr>, size: nat, mem: Addr, remain: nat, p: Addr)
    requires size >= 1 && Layout(objects, chunks, size, mem, remain) && p in objects
    ensures forall a :: a in objects && a != p ==> Apart(a, p, size)
  {
  }

  /** Taking the first object off the free list. */
  lemma FirstOff(live: set<Addr>, free: seq<Addr>)
    requires free != [] && (forall a :: a in free ==> a !in live) && forall i, j :: 0 <= i < j < |free| ==> free[i] != free[j]
    ensures live + {free[0]} + (set a | a in free[1..]) == live + (set a | a in free)
    ensures free[0] !in live && forall a :: a in free[1..] ==> a !in live + {free[0]}
  {
    assert free == [free[0]] + free[1..];
  }

  /** Putting an object in front of the free list. */
  lemma FirstOn(live: set<Addr>, free: seq<Addr>, p: Addr)
    requires p in live && forall a :: a in free ==> a !in live
    ensures live - {p} + (set a | a in [p] + free) == live + (set a | a in free)
    ensures forall a :: a in [p] + free ==> a !in live - {p}
  {
  }

  class FixedMemPool {
    const memory: Memory
    const sizeOf: nat          // sizeof(T)
    var mem: Addr              // _m_mem
    var remain: nat            // _m_remain_bytes
    var freeList: Addr         // _m_free_list
    ghost var free: seq<Addr>  // the deleted objects, last deleted first
    ghost var live: set<Addr>  // objects handed out
    ghost var chunks: set<Addr> // chunks taken from the OS

    /** Every object has room for the free-list link. */
    function ObjectSize(): (r: nat)
      ensures r >= LINK_SIZE && r >= sizeOf
    {
      if sizeOf < LINK_SIZE then LINK_SIZE else sizeOf
    }

    ghost function Known(): set<Addr>
      reads this
    {
      live + (set a | a in free)
    }

    /** The free objects are linked up from the header, and none of them is handed out. */
    ghost predicate Valid()
      reads this, memory
    {
      && Chain(memory.next, freeList, free)
      && (forall a :: a in free ==> a !in live)
      && 1 <= sizeOf <= CHUNK && (sizeOf < LINK_SIZE ==> remain % LINK_SIZE == 0)
      && Layout(Known(), chunks, ObjectSize(), mem, remain)
    }

    constructor (m: Memory, size: nat)
      requires 1 <= size <= CHUNK
      ensures Valid() && live == {} && free == [] && sizeOf == size && memory == m && chunks == {}
    {
      memory, sizeOf := m, size;
      mem, remain, freeList, free, live, chunks := NULL, 0, NULL, [], {}, {};
      NoRoom(0, if size < LINK_SIZE then LINK_SIZE else size);
    }

    /** `os`: the address of the chunk the OS would answer with. It is taken only if no object is free and the rest
        of the last chunk is too short. */
    method New(os: Addr) returns (p: Addr)
      requires Valid() && NewChunk(chunks, os)
      modifies this
      ensures Valid() && p !in old(live) && live == old(live) + {p}
      ensures forall a :: a in old(live) ==> Apart(a, p, ObjectSize())
      ensures old(free) != [] ==> [p] + free == old(free) && mem == old(mem) && remain == old(remain) && chunks == old(chunks)
      ensures old(free) == [] && old(remain) >= sizeOf ==>
                free == [] && p == old(mem) && remain == old(remain) - ObjectSize() && chunks == old(chunks)
      ensures old(free) == [] && old(remain) < sizeOf ==>
                free == [] && p == os && remain == CHUNK - ObjectSize() && chunks == old(chunks) + {os}
    {
      hide Layout;
      if freeList != NULL {
        p := Reuse();
        return;
      }
      if remain < sizeOf {
        ChunkLayout(Known(), chunks, ObjectSize(), mem, remain, os);
        remain := CHUNK;
        mem := os;
        chunks := chunks + {os};
      }
      p := CutOff();
    }

    /** The object deleted last. */
    method Reuse() returns (p: Addr)
      requires Valid() && free != []
      modifies this`freeList, this`free, this`live
      ensures Valid() && [p] + free == old(free) && live == old(live) + {p} && p !in old(live)
      ensures forall a :: a in old(live) ==> Apart(a, p, ObjectSize())
    {
      hide Layout, Apart;
      p := freeList;
      ChainIsSegment(memory.next, p, free);
      FirstOff(live, free);
      OthersApart(Known(), chunks, ObjectSize(), mem, remain, p);
      freeList := memory.next[freeList];
      free := free[1..];
      live := live + {p};
    }

    /** The next object of the chunk. */
    method CutOff() returns (p: Addr)
      requires Valid() && free == [] && remain >= sizeOf
      modifies this`mem, this`remain, this`live
      ensures Valid() && p == old(mem) && remain == old(remain) - ObjectSize() && live == old(live) + {p} && p !in old(live)
      ensures forall a :: a in old(live) ==> Apart(a, p, ObjectSize())
    {
      hide Layout, Apart;
      p := mem;
      var size := ObjectSize();
      assert Known() == live;
      CutLayout(live, chunks, size, mem, remain);
      mem := mem + size;
      remain := remain - size;
      live := live + {p};
      assert Known() == live;
    }

    method Delete(p: Addr)
      requires Valid() && p in live
      modifies this`freeList, this`free, this`live, memory
      ensures Valid() && free == [p] + old(free) && live == old(live) - {p}
      ensures memory.next == old(memory.next)[p := HeadOf(old(free))]
    {
      assert p != NULL by { assert p in Known(); }
      hide Layout;
      ChainHead(memory.next, freeList, free, p);
      FirstOn(live, free, p);
      memory.next := memory.next[p := freeList];
      freeList := p;
      free := [p] + free;
      live := live - {p};
    }

    /** The owner of an object, its constructor included, writes a word x somewhere into it. */
    method Use(p: Addr, c: Addr, x: Addr)
      requires Valid() && p in live && p <= c && c + LINK_SIZE <= p + ObjectSize()
      modifies memory
      ensures Valid() && memory.next == old(memory.next)[c := x]
    {
      forall a | a in free
        ensures a != c
      {
        assert Apart(a, p, ObjectSize()) by { assert a in Known() && p in Known() && a != p; }
      }
      ChainFrame(memory.next, memory.next[c := x], freeList, free);
      memory.next := memory.next[c := x];
    }
  }
}
