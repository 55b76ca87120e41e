/** The circular doubly linked list of spans with a sentinel (`memory_pool/include/span.h`). The links are
    stored in the spans, so the list works on a memory of next and prev pointers. */
module SpanLists {
  import opened Common

  type Ptr = nat

  class Links {
    var next: map<Ptr, Ptr> // _next
    var prev: map<Ptr, Ptr> // _prev

    constructor ()
      ensures next == map[] && prev == map[]
    {
      next, prev := map[], map[];
    }
  }

  /** b comes after a. */
  ghost predicate Linked(next: map<Ptr, Ptr>, prev: map<Ptr, Ptr>, a: Ptr, b: Ptr) {
    a in next && next[a] == b && b in prev && prev[b] == a
  }

  ghost predicate Path(next: map<Ptr, Ptr>, prev: map<Ptr, Ptr>, r: seq<Ptr>) {
    forall i :: 0 <= i < |r| - 1 ==> Linked(next, prev, r[i], r[i + 1])
  }

  /** Going along next from r[0] one meets r in order and is back at r[0]; prev is the way back. */
  ghost predicate Ring(next: map<Ptr, Ptr>, prev: map<Ptr, Ptr>, r: seq<Ptr>) {
    r != [] && NoDup(r) && Path(next, prev, r) && Linked(next, prev, r[|r| - 1], r[0])
  }

  lemma PathJoins(next: map<Ptr, Ptr>, prev: map<Ptr, Ptr>, x: seq<Ptr>, y: seq<Ptr>)
    requires Path(next, prev, x) && Path(next, prev, y)
    requires x != [] && y != [] ==> Linked(next, prev, x[|x| - 1], y[0])
    ensures Path(next, prev, x + y)
  {
    var r := x + y;
    forall i | 0 <= i < |r| - 1
      ensures Linked(next, prev, r[i], r[i + 1])
    {
      if i < |x| - 1 {
        assert r[i] == x[i] && r[i + 1] == x[i + 1];
      } else if i >= |x| {
        assert r[i] == y[i - |x|] && r[i + 1] == y[i - |x| + 1];
      }
    }
  }

  lemma PathParts(next: map<Ptr, Ptr>, prev: map<Ptr, Ptr>, r: seq<Ptr>, k: nat)
    requires Path(next, prev, r) && k <= |r|
    ensures Path(next, prev, r[..k]) && Path(next, prev, r[k..])
    ensures 1 <= k < |r| ==> Linked(next, prev, r[k - 1], r[k])
  {
    forall i | 0 <= i < |r[k..]| - 1
      ensures Linked(next, prev, r[k..][i], r[k..][i + 1])
    {
      assert Linked(next, prev, r[k + i], r[k + i + 1]);
    }
  }

  /** A path is not disturbed by changes at its open ends. */
  lemma PathFrame(next: map<Ptr, Ptr>, prev: map<Ptr, Ptr>, next': map<Ptr, Ptr>, prev': map<Ptr, Ptr>, r: seq<Ptr>)
    requires Path(next, prev, r)
    requires forall i :: 0 <= i < |r| - 1 ==> r[i] in next ==> r[i] in next' && next'[r[i]] == next[r[i]]
    requires forall i :: 0 < i < |r| ==> r[i] in prev ==> r[i] in prev' && prev'[r[i]] == prev[r[i]]
    ensures Path(next', prev', r)
  {
    forall i | 0 <= i < |r| - 1
      ensures Linked(next', prev', r[i], r[i + 1])
    {
      assert Linked(next, prev, r[i], r[i + 1]);
    }
  }

  lemma NoDupParts(r: seq<Ptr>, k: nat)
    requires NoDup(r) && k <= |r|
    ensures NoDup(r[..k]) && NoDup(r[k..])
    ensures forall x :: x in r[..k] ==> x !in r[k..]
  {
  }

  lemma NoDupJoins(x: seq<Ptr>, y: seq<Ptr>)
    requires NoDup(x) && NoDup(y) && forall a :: a in x ==> a !in y
    ensures NoDup(x + y)
  {
    forall i, j | 0 <= i < j < |x + y|
      ensures (x + y)[i] != (x + y)[j]
    {
      if i < |x| <= j { assert x[i] in x && y[j - |x|] in y; }
    }
  }

  /** Linking s between the two parts of a ring; b is the first node after it. */
  lemma RingInsert(next: map<Ptr, Ptr>, prev: map<Ptr, Ptr>, x: seq<Ptr>, y: seq<Ptr>, s: Ptr, a: Ptr, b: Ptr)
    requires Ring(next, prev, x + y) && x != [] && s !in x + y
    requires a == x[|x| - 1] && b == (x + y)[if y == [] then 0 else |x|]
    ensures Linked(next, prev, a, b)
    ensures Ring(next[a := s][s := b], prev[s := a][b := s], x + [s] + y)
  {
    var r := x + y;
    var next', prev' := next[a := s][s := b], prev[s := a][b := s];
    PathParts(next, prev, r, |x|);
    NoDupParts(r, |x|);
    assert r[..|x|] == x && r[|x|..] == y;
    PathFrame(next, prev, next', prev', x);
    PathFrame(next, prev, next', prev', y);
    assert s !in x && s !in y by { assert forall z :: z in x || z in y ==> z in r; }
    PathJoins(next', prev', x, [s]);
    PathJoins(next', prev', x + [s], y);
    NoDupJoins(x, [s]);
    NoDupJoins(x + [s], y);
  }

  /** Taking s out of a ring: its neighbours are linked with each other. */
  lemma RingErase(next: map<Ptr, Ptr>, prev: map<Ptr, Ptr>, x: seq<Ptr>, y: seq<Ptr>, s: Ptr, a: Ptr, b: Ptr)
    requires Ring(next, prev, x + [s] + y) && x != []
    requires a == x[|x| - 1] && b == (x + y)[if y == [] then 0 else |x|]
    ensures Linked(next, prev, a, s) && Linked(next, prev, s, b) && s !in x && s !in y
    ensures Ring(next[a := b], prev[b := a], x + y)
  {
    var r := x + [s] + y;
    var next', prev' := next[a := b], prev[b := a];
    EraseParts(next, prev, x, y, s);
    PathsKept(next, prev, next', prev', x, y, a, b);
    hide Path, NoDup;
    assert Linked(next', prev', a, b);
    if y == [] {
      assert x + y == x;
    } else {
      PathJoins(next', prev', x, y);
      LastKept(next, prev, next', prev', y[|y| - 1], x[0], a, b);
    }
    NoDupJoins(x, y);
  }

  lemma EraseParts(next: map<Ptr, Ptr>, prev: map<Ptr, Ptr>, x: seq<Ptr>, y: seq<Ptr>, s: Ptr)
    requires Ring(next, prev, x + [s] + y) && x != []
    ensures Path(next, prev, x) && Path(next, prev, y) && NoDup(x) && NoDup(y)
    ensures s !in x && s !in y && forall z :: z in x ==> z !in y
    ensures Linked(next, prev, x[|x| - 1], s) && Linked(next, prev, s, (x + y)[if y == [] then 0 else |x|])
    ensures y != [] ==> Linked(next, prev, y[|y| - 1], x[0])
  {
    var r := x + [s] + y;
    PathParts(next, prev, r, |x|);
    PathParts(next, prev, r, |x| + 1);
    NoDupParts(r, |x|);
    NoDupParts(r, |x| + 1);
    assert r[..|x|] == x && r[|x| + 1..] == y && r[..|x| + 1] == x + [s];
    hide Path, NoDup;
    assert s in r[|x|..] by { assert r[|x|..][0] == s; }
    assert forall z :: z in x ==> z in r[..|x| + 1];
  }

  lemma PathsKept(next: map<Ptr, Ptr>, prev: map<Ptr, Ptr>, next': map<Ptr, Ptr>, prev': map<Ptr, Ptr>,
                  x: seq<Ptr>, y: seq<Ptr>, a: Ptr, b: Ptr)
    requires Path(next, prev, x) && Path(next, prev, y) && NoDup(x) && NoDup(y) && forall z :: z in x ==> z !in y
    requires x != [] && a == x[|x| - 1] && b == (if y == [] then x[0] else y[0])
    requires next' == next[a := b] && prev' == prev[b := a]
    ensures Path(next', prev', x) && Path(next', prev', y)
  {
    assert forall i :: 0 <= i < |x| ==> x[i] in x;
    assert forall i :: 0 <= i < |y| ==> y[i] in y;
    PathFrame(next, prev, next', prev', x);
    PathFrame(next, prev, next', prev', y);
  }

  /** The link that closes the ring is another one. */
  lemma LastKept(next: map<Ptr, Ptr>, prev: map<Ptr, Ptr>, next': map<Ptr, Ptr>, prev': map<Ptr, Ptr>, l: Ptr, h: Ptr, a: Ptr, b: Ptr)
    requires Linked(next, prev, l, h) && next' == next[a := b] && prev' == prev[b := a] && l != a && h != b
    ensures Linked(next', prev', l, h)
  {
  }

  /** The links of all nodes but those given are what they were. */
  ghost predicate SameOutside(links: map<Ptr, Ptr>, links': map<Ptr, Ptr>, nodes: seq<Ptr>) {
    forall z :: z !in nodes ==> (z in links' <==> z in links) && (z in links ==> links'[z] == links[z])
  }

  /** A list of other nodes in the same memory stands. */
  lemma OtherListStands(next: map<Ptr, Ptr>, prev: map<Ptr, Ptr>, next': map<Ptr, Ptr>, prev': map<Ptr, Ptr>,
                        nodes: seq<Ptr>, r: seq<Ptr>)
    requires Ring(next, prev, r) && forall z :: z in r ==> z !in nodes
    requires SameOutside(next, next', nodes) && SameOutside(prev, prev', nodes)
    ensures Ring(next', prev', r)
  {
    assert forall i :: 0 <= i < |r| ==> r[i] !in nodes;
  }

  /** The node after the sentinel. */
  lemma First(next: map<Ptr, Ptr>, prev: map<Ptr, Ptr>, h: Ptr, list: seq<Ptr>)
    requires Ring(next, prev, [h] + list)
    ensures h in next && next[h] == (if list == [] then h else list[0]) && (list != [] ==> list[0] != h)
  {
    var r := [h] + list;
    if list != [] {
      assert Linked(next, prev, r[0], r[1]);
    }
  }

  /** The node before and the node after the place between x and y belong to them. */
  lemma Around(x: seq<Ptr>, y: seq<Ptr>, s: Ptr, b: Ptr, r: seq<Ptr>)
    requires x != [] && b == (x + y)[if y == [] then 0 else |x|] && (r == x + [s] + y || (r == x + y && s in x))
    ensures x[|x| - 1] in r && s in r && b in r
  {
    assert y != [] ==> y[0] in y;
  }

  class SpanList {
    const mem: Links
    const header: Ptr      // address of the sentinel
    ghost var list: seq<Ptr>

    ghost predicate Valid()
      reads this, mem
    {
      Ring(mem.next, mem.prev, [header] + list)
    }

    constructor (m: Links, h: Ptr)
      modifies m
      ensures Valid() && list == [] && mem == m && header == h
      ensures m.next == old(m.next)[h := h] && m.prev == old(m.prev)[h := h]
    {
      mem, header, list := m, h, [];
      new;
      mem.next, mem.prev := mem.next[h := h], mem.prev[h := h];
    }

    method Empty() returns (r: bool)
      requires Valid()
      ensures r <==> list == []
    {
      First(mem.next, mem.prev, header, list);
      r := header == mem.next[header];
    }

    /** `insert(pos, span)`: in front of the k-th span, or behind the last one if pos is the sentinel. */
    method Insert(pos: Ptr, span: Ptr, ghost k: nat)
      requires Valid() && span != header && span !in list
      requires k <= |list| && pos == if k == |list| then header else list[k]
      modifies this`list, mem
      ensures Valid() && list == old(list)[..k] + [span] + old(list)[k..]
      ensures SameOutside(old(mem.next), mem.next, [header] + list) && SameOutside(old(mem.prev), mem.prev, [header] + list)
    {
      ghost var x, y := [header] + list[..k], list[k..];
      assert x + y == [header] + list;
      RingInsert(mem.next, mem.prev, x, y, span, x[|x| - 1], pos);
      assert x + [span] + y == [header] + (list[..k] + [span] + list[k..]);
      Around(x, y, span, pos, [header] + (list[..k] + [span] + list[k..]));
      hide Ring;
      var before := mem.prev[pos];
      mem.next := mem.next[before := span];
      mem.prev := mem.prev[span := before];
      mem.next := mem.next[span := pos];
      mem.prev := mem.prev[pos := span];
      list := list[..k] + [span] + list[k..];
    }

    /** `erase(span)`; the links of the erased span itself stay. */
    method Erase(span: Ptr, ghost k: nat)
      requires Valid() && k < |list| && span == list[k]
      modifies this`list, mem
      ensures Valid() && list == old(list)[..k] + old(list)[k + 1..]
      ensures SameOutside(old(mem.next), mem.next, [header] + list) && SameOutside(old(mem.prev), mem.prev, [header] + list)
    {
      ghost var x, y := [header] + list[..k], list[k + 1..];
      assert x + [span] + y == [header] + list;
      ghost var b := (x + y)[if y == [] then 0 else |x|];
      RingErase(mem.next, mem.prev, x, y, span, x[|x| - 1], b);
      assert x + y == [header] + (list[..k] + list[k + 1..]);
      assert x[|x| - 1] in x;
      Around(x, y, x[|x| - 1], b, x + y);
      hide Ring;
      mem.next := mem.next[mem.prev[span] := mem.next[span]];
      mem.prev := mem.prev[mem.next[span] := mem.prev[span]];
      list := list[..k] + list[k + 1..];
    }

    method PopFront() returns (span: Ptr)
      requires Valid() && list != []
      modifies this`list, mem
      ensures Valid() && [span] + list == old(list)
      ensures SameOutside(old(mem.next), mem.next, [header] + list) && SameOutside(old(mem.prev), mem.prev, [header] + list)
    {
      First(mem.next, mem.prev, header, list);
      span := mem.next[header];
      Erase(span, 0);
    }

    method PushFront(span: Ptr)
      requires Valid() && span != header && span !in list
      modifies this`list, mem
      ensures Valid() && list == [span] + old(list)
      ensures SameOutside(old(mem.next), mem.next, [header] + list) && SameOutside(old(mem.prev), mem.prev, [header] + list)
    {
      ghost var b := ([header] + list)[if list == [] then 0 else 1];
      RingInsert(mem.next, mem.prev, [header], list, span, header, b);
      assert [header] + [span] + list == [header] + ([span] + list);
      assert mem.next[header] == b;
      hide Ring;
      mem.prev := mem.prev[span := header];
      mem.next := mem.next[span := mem.next[header]];
      mem.prev := mem.prev[mem.next[header] := span];
      mem.next := mem.next[header := span];
      assert mem.next == old(mem.next)[header := span][span := b];
      list := [span] + list;
    }

    /** The central cache inserts at `begin()`, which for an empty list is the sentinel: the span comes first. */
    method InsertAtBegin(span: Ptr)
      requires Valid() && span != header && span !in list
      modifies this`list, mem
      ensures Valid() && list == [span] + old(list)
      ensures SameOutside(old(mem.next), mem.next, [header] + list) && SameOutside(old(mem.prev), mem.prev, [header] + list)
    {
      First(mem.next, mem.prev, header, list);
      Insert(mem.next[header], span, 0);
    }
  }
}
