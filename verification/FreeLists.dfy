/** Intrusive free lists (`memory_pool/src/freelist.cpp`): the link to the next free block is stored in
    the block itself, so the lists live in a heap of next pointers. */
module FreeLists {
  type Addr = nat

  const NULL: Addr := 0

  /** The memory as the lists see it: what a pointer-sized read of each address gives. */
  class Memory {
    var next: map<Addr, Addr>

    constructor ()
      ensures next == map[]
    {
      next := map[];
    }
  }

  function HeadOf(s: seq<Addr>): Addr { if s == [] then NULL else s[0] }

  /** From `head`, following next pointers to NULL, one meets exactly the blocks `s`. */
  ghost predicate Chain(next: map<Addr, Addr>, head: Addr, s: seq<Addr>)
    decreases |s|
  {
    head == HeadOf(s) && (s != [] ==> s[0] != NULL && s[0] in next && Chain(next, next[s[0]], s[1..]))
  }

  /** `s` is linked up from first to last; the last link is not looked at. */
  ghost predicate Segment(next: map<Addr, Addr>, s: seq<Addr>) {
    && (forall i :: 0 <= i < |s| ==> s[i] != NULL && s[i] in next)
    && (forall i :: 0 <= i < |s| - 1 ==> next[s[i]] == s[i + 1])
    && (forall i, j :: 0 <= i < j < |s| ==> s[i] != s[j])
  }

  // ----- facts about chains ---------------------------------------------------------

  /** A chain depends on its own cells only. */
  lemma {:induction false} ChainFrame(next: map<Addr, Addr>, next': map<Addr, Addr>, head: Addr, s: seq<Addr>)
    requires Chain(next, head, s)
    requires forall b :: b in s && b in next ==> b in next' && next'[b] == next[b]
    ensures Chain(next', head, s)
    decreases |s|
  {
    if s != [] {
      ChainFrame(next, next', next[s[0]], s[1..]);
    }
  }

  lemma {:induction false} ChainCell(next: map<Addr, Addr>, head: Addr, s: seq<Addr>, i: nat)
    requires Chain(next, head, s) && i < |s|
    ensures s[i] != NULL && s[i] in next && next[s[i]] == HeadOf(s[i + 1..])
    ensures Chain(next, s[i], s[i..]) && Chain(next, next[s[i]], s[i + 1..])
    decreases i
  {
    if i == 0 {
      assert s[0..] == s;
    } else {
      ChainCell(next, next[s[0]], s[1..], i - 1);
      assert s[1..][i - 1..] == s[i..] && s[1..][i..] == s[i + 1..];
    }
  }

  /** From one address there is only one chain. */
  lemma {:induction false} ChainUnique(next: map<Addr, Addr>, head: Addr, s: seq<Addr>, r: seq<Addr>)
    requires Chain(next, head, s) && Chain(next, head, r)
    ensures s == r
    decreases |s|
  {
    if s != [] && r != [] {
      ChainUnique(next, next[s[0]], s[1..], r[1..]);
    }
  }

  /** A list that ends in NULL has no cycle: all its blocks are distinct. */
  lemma {:induction false} ChainIsSegment(next: map<Addr, Addr>, head: Addr, s: seq<Addr>)
    requires Chain(next, head, s)
    ensures Segment(next, s)
  {
    forall i | 0 <= i < |s|
      ensures s[i] != NULL && s[i] in next && next[s[i]] == HeadOf(s[i + 1..])
    {
      ChainCell(next, head, s, i);
    }
    forall i, j | 0 <= i < j < |s|
      ensures s[i] != s[j]
    {
      ChainCell(next, head, s, i);
      ChainCell(next, head, s, j);
      if s[i] == s[j] {
        ChainUnique(next, s[i], s[i..], s[j..]);
      }
    }
  }

  /** Joining a segment to a chain. */
  lemma {:induction false} SegmentJoins(next: map<Addr, Addr>, r: seq<Addr>, head: Addr, s: seq<Addr>)
    requires Segment(next, r) && Chain(next, head, s)
    requires r != [] ==> next[r[|r| - 1]] == head
    ensures Chain(next, if r == [] then head else r[0], r + s)
    decreases |r|
  {
    if r == [] {
      assert r + s == s;
    } else {
      assert (r + s)[1..] == r[1..] + s;
      if |r| > 1 {
        assert r[1..][|r| - 2] == r[|r| - 1];
        assert next[r[0]] == r[1];
      }
      SegmentJoins(next, r[1..], head, s);
    }
  }

  lemma ChainHead(next: map<Addr, Addr>, head: Addr, s: seq<Addr>, b: Addr)
    requires Chain(next, head, s) && b !in s && b != NULL
    ensures Chain(next[b := head], b, [b] + s)
  {
    ChainFrame(next, next[b := head], head, s);
    assert ([b] + s)[1..] == s;
  }

  /** Cutting a chain after its first n blocks. */
  lemma ChainCut(next: map<Addr, Addr>, head: Addr, s: seq<Addr>, n: nat)
    requires Chain(next, head, s) && 1 <= n <= |s|
    ensures Chain(next[s[n - 1] := NULL], s[0], s[..n])
    ensures Chain(next[s[n - 1] := NULL], HeadOf(s[n..]), s[n..])
    ensures s[n - 1] in next && next[s[n - 1]] == HeadOf(s[n..])
  {
    var next' := next[s[n - 1] := NULL];
    ChainIsSegment(next, head, s);
    ChainCell(next, head, s, n - 1);
    ChainFrame(next, next', HeadOf(s[n..]), s[n..]);
    SegmentJoins(next', s[..n], NULL, []);
    assert s[..n] + [] == s[..n];
  }

  // ----- the class ------------------------------------------------------------------

  class Freelist {
    const mem: Memory
    var head: Addr         // _m_freelist_header
    var applyCount: nat    // _m_apply_count
    var size: nat          // _m_size
    ghost var list: seq<Addr> // the blocks on the list

    ghost predicate Valid()
      reads this, mem
    {
      Chain(mem.next, head, list) && size == |list|
    }

    constructor (m: Memory)
      ensures Valid() && list == [] && applyCount == 1 && mem == m
    {
      mem := m;
      head, applyCount, size, list := NULL, 1, 0, [];
    }

    method Empty() returns (r: bool)
      requires Valid()
      ensures r <==> list == []
    {
      if list != [] {
        ChainCell(mem.next, head, list, 0);
      }
      r := head == NULL;
    }

    method PushFront(obj: Addr)
      requires Valid() && obj != NULL && obj !in list
      modifies this`head, this`size, this`list, mem
      ensures Valid() && list == [obj] + old(list)
      ensures mem.next == old(mem.next)[obj := HeadOf(old(list))]
    {
      ChainHead(mem.next, head, list, obj);
      mem.next := mem.next[obj := head];
      head := obj;
      size := size + 1;
      list := [obj] + list;
    }

    /** The blocks r, linked up from `start` to `end`, go in front. */
    method PushRange(start: Addr, end: Addr, n: nat, ghost r: seq<Addr>)
      requires Valid() && n == |r| && n >= 1 && r[0] == start && r[n - 1] == end
      requires Segment(mem.next, r) && forall b :: b in r ==> b !in list
      modifies this`head, this`size, this`list, mem
      ensures Valid() && list == r + old(list)
      ensures mem.next == old(mem.next)[end := HeadOf(old(list))]
    {
      ghost var next' := mem.next[end := head];
      ChainFrame(mem.next, next', head, list);
      SegmentJoins(next', r, head, list);
      mem.next := mem.next[end := head];
      head := start;
      size := size + n;
      list := r + list;
    }

    /** Split the first n blocks off; they form a chain of their own from `start` to `end`. With n = 0
        the source's loop counter would wrap around, so n = 0 is excluded. */
    method PopRange(n: nat) returns (start: Addr, end: Addr)
      requires Valid() && 1 <= n <= size
      modifies this`head, this`size, this`list, mem
      ensures Valid() && list == old(list)[n..] && size == old(size) - n
      ensures start == old(list)[0] && end == old(list)[n - 1]
      ensures Chain(mem.next, start, old(list)[..n])
      ensures mem.next == old(mem.next)[end := NULL]
    {
      size := size - n;
      start, end := head, head;
      var k := n - 1;
      while k != 0
        invariant 0 <= k < n && size + n == |list| && end == list[n - 1 - k]
        invariant Chain(mem.next, head, list)
        invariant mem.next == old(mem.next) && list == old(list) && head == old(head)
      {
        ChainCell(mem.next, head, list, n - 1 - k);
        end := mem.next[end];
        k := k - 1;
      }
      ChainCut(mem.next, head, list, n);
      head := mem.next[end];
      mem.next := mem.next[end := NULL];
      list := list[n..];
    }

    method PopFront() returns (obj: Addr)
      requires Valid() && list != []
      modifies this`head, this`size, this`list
      ensures Valid() && [obj] + list == old(list) && mem.next == old(mem.next)
    {
      obj := head;
      head := mem.next[obj];
      size := size - 1;
      list := list[1..];
    }

    method Increment()
      modifies this`applyCount
      ensures applyCount == old(applyCount) + 1
    {
      applyCount := applyCount + 1;
    }
  }

  /** `push_range` of what `pop_range` took restores every cell of the memory and the head. */
  lemma PushAfterPop(next: map<Addr, Addr>, head: Addr, s: seq<Addr>, n: nat)
    requires Chain(next, head, s) && 1 <= n <= |s|
    ensures next[s[n - 1] := NULL][s[n - 1] := HeadOf(s[n..])] == next
    ensures s[..n] + s[n..] == s && HeadOf(s[..n] + s[n..]) == head
  {
    ChainCell(next, head, s, n - 1);
    Rewrite(next, s[n - 1], NULL);
  }

  lemma Rewrite(next: map<Addr, Addr>, b: Addr, x: Addr)
    requires b in next
    ensures next[b := x][b := next[b]] == next
  {
  }

  /** The other way round: `pop_range` of what `push_range` put in gives back the same run and the same list. */
  lemma PopAfterPush(next: map<Addr, Addr>, head: Addr, s: seq<Addr>, r: seq<Addr>)
    requires Chain(next, head, s) && Segment(next, r) && r != [] && forall b :: b in r ==> b !in s
    ensures var next' := next[r[|r| - 1] := head];
            && Chain(next', r[0], r + s)
            && (r + s)[..|r|] == r && (r + s)[|r|..] == s
            && Chain(next'[r[|r| - 1] := NULL], head, s)
            && next'[r[|r| - 1] := NULL] == next[r[|r| - 1] := NULL]
  {
    var next' := next[r[|r| - 1] := head];
    ChainFrame(next, next', head, s);
    SegmentJoins(next', r, head, s);
    ChainFrame(next, next'[r[|r| - 1] := NULL], head, s);
  }
}
