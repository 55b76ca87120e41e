/** The three-level radix tree from page numbers to pointers (`TCMalloc_PageMap3` in
    `memory_pool/include/common.h`), with 256 root slots, 256 leaves per slot and 2^leafBits values per
    leaf. */
module RadixTree {
  import opened Common
  import opened Bits

  type Ptr = nat

  const NULL: Ptr := 0
  const LENGTH: nat := 256 // ROOT_LENGTH and MID_LENGTH

  datatype Leaf = Leaf(values: seq<Ptr>)
  datatype Mid = Mid(leafs: seq<Option<Leaf>>)

  // ----- splitting a key --------------------------------------------------------------

  /** k shifted right by as many bits as p is a power of two. */
  function Div(k: nat, p: nat): (q: nat)
    requires p >= 1
  {
    QuotientAtLeast(k, p, 0);
    k / p
  }

  function Mod(k: nat, p: nat): (r: nat)
    requires p >= 1
    ensures r < p
  {
    k % p
  }

  lemma DivMod(k: nat, p: nat)
    requires p >= 1
    ensures k == Div(k, p) * p + Mod(k, p)
  {
  }

  lemma DivModIs(k: nat, p: nat, q: nat, r: nat)
    requires p >= 1 && r < p && k == q * p + r
    ensures Div(k, p) == q && Mod(k, p) == r
  {
    DivModUnique(k, p, q, r);
  }

  /** `k >> (MID_BITS + LEAF_BITS)`. */
  function RootIndex(k: nat, leafBits: nat): nat { Div(k, Pow2(8 + leafBits)) }

  /** `(k >> LEAF_BITS) & (MID_LENGTH - 1)`. */
  function MidIndex(k: nat, leafBits: nat): nat { And(Div(k, Pow2(leafBits)), LENGTH - 1) }

  /** `k & (LEAF_LENGTH - 1)`. */
  function LeafIndex(k: nat, leafBits: nat): nat { And(k, Pow2(leafBits) - 1) }

  /** Number of the leaf of key k, counted through all root slots. */
  function LeafOf(k: nat, leafBits: nat): nat { Div(k, Pow2(leafBits)) }

  function OffsetOf(k: nat, leafBits: nat): (r: nat)
    ensures r < Pow2(leafBits)
  {
    Mod(k, Pow2(leafBits))
  }

  lemma Regroup(q: int, s: int, a: int)
    ensures (q * LENGTH + s) * a == q * (LENGTH * a) + s * a
  {
    assert (q * LENGTH + s) * a == q * LENGTH * a + s * a;
    assert q * LENGTH * a == q * (LENGTH * a);
  }

  lemma DigitsBelow(s: int, a: int, r: int)
    requires 0 <= s < LENGTH && 0 <= r < a
    ensures 0 <= s * a + r < LENGTH * a
  {
    Monotone(0, s, a);
    Monotone(s, LENGTH - 1, a);
  }

  lemma Monotone(a: int, b: int, p: int)
    requires a <= b && p >= 0
    ensures a * p <= b * p
  {
  }

  lemma DivDiv(k: nat, a: nat, b: nat, q: nat, s: nat, r: nat)
    requires a >= 1 && b == LENGTH * a && k == (q * LENGTH + s) * a + r && s < LENGTH && r < a
    ensures b >= 1 && Div(k, b) == q
  {
    Regroup(q, s, a);
    DigitsBelow(s, a, r);
    DivModIs(k, b, q, s * a + r);
  }

  /** The three indices are the digits of the key: they determine it, and stay in range for keys in range. */
  lemma SplitIsBijection(k: nat, leafBits: nat)
    ensures RootIndex(k, leafBits) == LeafOf(k, leafBits) / LENGTH
    ensures MidIndex(k, leafBits) == LeafOf(k, leafBits) % LENGTH
    ensures LeafIndex(k, leafBits) == OffsetOf(k, leafBits)
    ensures k == (RootIndex(k, leafBits) * LENGTH + MidIndex(k, leafBits)) * Pow2(leafBits) + LeafIndex(k, leafBits)
  {
    var p, q, r := Pow2(leafBits), LeafOf(k, leafBits), OffsetOf(k, leafBits);
    var i1, i2 := q / LENGTH, q % LENGTH;
    RootBits(leafBits);
    DivMod(k, p);
    MidBits(q);
    LowMask(k, leafBits);
    ModIs(k, p);
    hide Div, Mod, And, Pow2;
    assert q == i1 * LENGTH + i2;
    DivDiv(k, p, Pow2(8 + leafBits), i1, i2, r);
  }

  lemma RootBits(leafBits: nat)
    ensures Pow2(8 + leafBits) == LENGTH * Pow2(leafBits)
  {
    assert Pow2(8) == LENGTH;
    Pow2Sum(8, leafBits);
  }

  lemma MidBits(q: nat)
    ensures And(q, LENGTH - 1) == q % LENGTH
  {
    assert Pow2(8) == LENGTH;
    LowMask(q, 8);
  }

  lemma ModIs(k: nat, p: nat)
    requires p >= 1
    ensures Mod(k, p) == k % p
  {
  }

  /** Conversely, every triple of digits is the split of one key. */
  lemma DigitsAreSplit(i1: nat, i2: nat, i3: nat, leafBits: nat)
    requires i2 < LENGTH && i3 < Pow2(leafBits)
    ensures var k := (i1 * LENGTH + i2) * Pow2(leafBits) + i3;
            k >= 0 && RootIndex(k, leafBits) == i1 && MidIndex(k, leafBits) == i2 && LeafIndex(k, leafBits) == i3
  {
    var p, q := Pow2(leafBits), i1 * LENGTH + i2;
    Product(q, p);
    var k := q * p + i3;
    SplitIsBijection(k, leafBits);
    DivModIs(k, p, q, i3);
    hide Div, Mod, And, Pow2, RootIndex, MidIndex, LeafIndex;
    assert q / LENGTH == i1 && q % LENGTH == i2;
  }

  lemma Product(a: nat, b: nat)
    ensures a * b >= 0
  {
  }

  // ----- the tree as a value ------------------------------------------------------------

  ghost predicate Shape(root: seq<Option<Mid>>, leafBits: nat) {
    && |root| == LENGTH
    && (forall i {:trigger root[i]} :: 0 <= i < LENGTH && root[i].Some? ==> |root[i].value.leafs| == LENGTH)
    && (forall i, j {:trigger root[i].value.leafs[j]} :: 0 <= i < LENGTH && root[i].Some? && 0 <= j < LENGTH && root[i].value.leafs[j].Some? ==>
          |root[i].value.leafs[j].value.values| == Pow2(leafBits))
  }

  /** The leaf with number q exists. */
  ghost predicate HasLeaf(root: seq<Option<Mid>>, q: nat) {
    && q / LENGTH < |root| && root[q / LENGTH].Some?
    && q % LENGTH < |root[q / LENGTH].value.leafs| && root[q / LENGTH].value.leafs[q % LENGTH].Some?
  }

  ghost function LeafAt(root: seq<Option<Mid>>, q: nat): Leaf
    requires HasLeaf(root, q)
  {
    root[q / LENGTH].value.leafs[q % LENGTH].value
  }

  /** The map the tree stands for; keys beyond the last leaf are mapped to NULL. */
  ghost function Value(root: seq<Option<Mid>>, leafBits: nat, k: nat): Ptr
    requires Shape(root, leafBits)
  {
    var q := LeafOf(k, leafBits);
    if HasLeaf(root, q) then LeafAt(root, q).values[OffsetOf(k, leafBits)] else NULL
  }

  function Zeros(n: nat): (r: seq<Ptr>)
    ensures |r| == n && forall i :: 0 <= i < n ==> r[i] == NULL
  {
    seq(n, _ => NULL)
  }

  /** Leaf q is made if it is missing. */
  function WithLeaf(root: seq<Option<Mid>>, q: nat, leafBits: nat): (r: seq<Option<Mid>>)
    requires |root| == LENGTH && q / LENGTH < LENGTH
    requires root[q / LENGTH].Some? ==> |root[q / LENGTH].value.leafs| == LENGTH
    ensures |r| == LENGTH
  {
    var i, j := q / LENGTH, q % LENGTH;
    var leafs := if root[i].Some? then root[i].value.leafs else seq(LENGTH, _ => None);
    root[i := Some(Mid(if leafs[j].Some? then leafs else leafs[j := Some(Leaf(Zeros(Pow2(leafBits))))]))]
  }

  lemma SameLeaf(q: nat, r: nat)
    requires q / LENGTH == r / LENGTH && q % LENGTH == r % LENGTH
    ensures q == r
  {
    assert q == q / LENGTH * LENGTH + q % LENGTH;
    assert r == r / LENGTH * LENGTH + r % LENGTH;
  }

  /** Making a leaf adds that leaf and changes no value. */
  lemma WithLeafKeeps(root: seq<Option<Mid>>, q: nat, leafBits: nat)
    requires Shape(root, leafBits) && q / LENGTH < LENGTH
    ensures var root' := WithLeaf(root, q, leafBits);
            && Shape(root', leafBits)
            && (forall r: nat :: HasLeaf(root', r) <==> HasLeaf(root, r) || r == q)
            && (forall r: nat :: HasLeaf(root, r) ==> HasLeaf(root', r) && LeafAt(root', r) == LeafAt(root, r))
            && (!HasLeaf(root, q) ==> LeafAt(root', q).values == Zeros(Pow2(leafBits)))
  {
    var root' := WithLeaf(root, q, leafBits);
    forall r: nat
      ensures HasLeaf(root', r) <==> HasLeaf(root, r) || r == q
    {
      if r / LENGTH == q / LENGTH && r % LENGTH == q % LENGTH { SameLeaf(q, r); }
    }
  }

  lemma ValuesKept(root: seq<Option<Mid>>, q: nat, leafBits: nat, k: nat)
    requires Shape(root, leafBits) && q / LENGTH < LENGTH && Shape(WithLeaf(root, q, leafBits), leafBits)
    ensures Value(WithLeaf(root, q, leafBits), leafBits, k) == Value(root, leafBits, k)
  {
    WithLeafKeeps(root, q, leafBits);
    hide WithLeaf, HasLeaf, Shape, LeafAt;
  }

  /** Value v at position i of the existing leaf q. */
  function WithValue(root: seq<Option<Mid>>, q: nat, i: nat, v: Ptr): (r: seq<Option<Mid>>)
    requires |root| == LENGTH && q / LENGTH < LENGTH && root[q / LENGTH].Some? && |root[q / LENGTH].value.leafs| == LENGTH
    requires root[q / LENGTH].value.leafs[q % LENGTH].Some? && i < |root[q / LENGTH].value.leafs[q % LENGTH].value.values|
  {
    var mid := root[q / LENGTH].value;
    root[q / LENGTH := Some(Mid(mid.leafs[q % LENGTH := Some(Leaf(mid.leafs[q % LENGTH].value.values[i := v]))]))]
  }

  lemma WithValueKeeps(root: seq<Option<Mid>>, leafBits: nat, q: nat, i: nat, v: Ptr)
    requires Shape(root, leafBits) && HasLeaf(root, q) && i < Pow2(leafBits)
    ensures var root' := WithValue(root, q, i, v);
            && Shape(root', leafBits)
            && (forall r: nat :: HasLeaf(root', r) <==> HasLeaf(root, r))
            && (forall r: nat :: HasLeaf(root, r) ==> LeafAt(root', r) == if r == q then Leaf(LeafAt(root, q).values[i := v]) else LeafAt(root, r))
  {
    var root' := WithValue(root, q, i, v);
    forall r: nat | HasLeaf(root, r)
      ensures HasLeaf(root', r) && LeafAt(root', r) == if r == q then Leaf(LeafAt(root, q).values[i := v]) else LeafAt(root, r)
    {
      if r / LENGTH == q / LENGTH && r % LENGTH == q % LENGTH { SameLeaf(q, r); }
    }
  }

  lemma ValueStored(root: seq<Option<Mid>>, leafBits: nat, k: nat, v: Ptr, j: nat)
    requires Shape(root, leafBits) && HasLeaf(root, LeafOf(k, leafBits))
    requires Shape(WithValue(root, LeafOf(k, leafBits), OffsetOf(k, leafBits), v), leafBits)
    ensures Value(WithValue(root, LeafOf(k, leafBits), OffsetOf(k, leafBits), v), leafBits, j) == if j == k then v else Value(root, leafBits, j)
  {
    var p := Pow2(leafBits);
    WithValueKeeps(root, leafBits, LeafOf(k, leafBits), OffsetOf(k, leafBits), v);
    ShapeOf(root, leafBits, LeafOf(k, leafBits));
    DivMod(j, p);
    DivMod(k, p);
    hide Div, Mod, WithValue, HasLeaf, Shape, LeafAt;
  }

  lemma ShapeOf(root: seq<Option<Mid>>, leafBits: nat, q: nat)
    requires Shape(root, leafBits) && HasLeaf(root, q)
    ensures |LeafAt(root, q).values| == Pow2(leafBits)
  {
  }

  // ----- strides ----------------------------------------------------------------------

  const KEYS: nat := 0x1_0000_0000_0000_0000 // values of the key type; the tree's keys have fewer than 64 bits

  /** `start + n - 1`. */
  function LastKey(start: nat, n: nat): nat { (start + n + KEYS - 1) % KEYS }

  /** Leaf q is one that the loop of `Ensure` stops at, for a range from leaf q0 to leaf q1. */
  predicate Visited(q: nat, q0: nat, q1: nat, asWritten: bool) {
    q0 <= q <= q1 && (!asWritten || q == q0 || q % LENGTH == 0)
  }

  /** The leaf after leaf q at which the loop stops next. */
  function NextLeaf(q: nat, asWritten: bool): nat {
    if asWritten then (q / LENGTH + 1) * LENGTH else q + 1
  }

  /** The first key of leaf q: the leaf number shifted left. */
  function LeafStart(q: nat, leafBits: nat): nat {
    Product(q, Pow2(leafBits));
    q * Pow2(leafBits)
  }

  function NextKey(key: nat, leafBits: nat, asWritten: bool): nat {
    if asWritten then LeafStart(RootIndex(key, leafBits) + 1, 8 + leafBits) else LeafStart(LeafOf(key, leafBits) + 1, leafBits)
  }

  lemma NextKeyIs(key: nat, leafBits: nat, asWritten: bool)
    ensures NextKey(key, leafBits, asWritten) == LeafStart(NextLeaf(LeafOf(key, leafBits), asWritten), leafBits)
  {
    var p, q0 := Pow2(leafBits), LeafOf(key, leafBits);
    SplitIsBijection(key, leafBits);
    RootBits(leafBits);
    Regroup(q0 / LENGTH + 1, 0, p);
    hide Div, Mod, And, Pow2, RootIndex, MidIndex, LeafIndex, LeafOf, OffsetOf;
  }

  lemma StartOfLeaf(q: nat, leafBits: nat)
    ensures LeafOf(LeafStart(q, leafBits), leafBits) == q
  {
    Product(q, Pow2(leafBits));
    DivModIs(q * Pow2(leafBits), Pow2(leafBits), q, 0);
  }

  lemma StartBeyond(key: nat, q: nat, leafBits: nat)
    requires q > LeafOf(key, leafBits)
    ensures LeafStart(q, leafBits) > key
  {
    DivMod(key, Pow2(leafBits));
    Monotone(LeafOf(key, leafBits) + 1, q, Pow2(leafBits));
    assert (LeafOf(key, leafBits) + 1) * Pow2(leafBits) == LeafOf(key, leafBits) * Pow2(leafBits) + Pow2(leafBits);
    hide Div, Mod, Pow2;
  }

  lemma NextKeyLeaf(key: nat, leafBits: nat, asWritten: bool)
    ensures var q, key' := NextLeaf(LeafOf(key, leafBits), asWritten), NextKey(key, leafBits, asWritten);
            && key' == LeafStart(q, leafBits) && LeafOf(key', leafBits) == q && key' > key && q > LeafOf(key, leafBits)
  {
    var q := NextLeaf(LeafOf(key, leafBits), asWritten);
    hide LeafOf, LeafStart, NextKey;
    NextKeyIs(key, leafBits, asWritten);
    StartOfLeaf(q, leafBits);
    StartBeyond(key, q, leafBits);
  }

  /** A leaf starts within the range up to `last` exactly if it is not beyond the leaf of `last`. */
  lemma LeafWithin(q: nat, last: nat, leafBits: nat)
    ensures LeafStart(q, leafBits) <= last <==> q <= LeafOf(last, leafBits)
  {
    QuotientAtLeast(last, Pow2(leafBits), q);
  }

  lemma LeafOrder(k: nat, l: nat, leafBits: nat)
    requires k <= l
    ensures LeafOf(k, leafBits) <= LeafOf(l, leafBits)
  {
    QuotientAtLeast(l, Pow2(leafBits), LeafOf(k, leafBits));
    DivMod(k, Pow2(leafBits));
  }

  lemma VisitedStep(q: nat, q0: nat, q1: nat, asWritten: bool, r: nat)
    requires q0 <= q <= q1 && (q == q0 || !asWritten || q % LENGTH == 0)
    ensures (r < NextLeaf(q, asWritten) && Visited(r, q0, q1, asWritten)) <==> (r < q && Visited(r, q0, q1, asWritten)) || r == q
  {
  }

  /** As written, on a tree without a leaf in the range, `Ensure` reaches every leaf of the range exactly if the
      range lies in one leaf, or in two of which the second begins a root slot. */
  lemma StrideAsWritten(q0: nat, q1: nat)
    requires q0 <= q1
    ensures (forall q: nat :: q0 <= q <= q1 ==> Visited(q, q0, q1, true)) <==> q1 == q0 || (q1 == q0 + 1 && q1 % LENGTH == 0)
    ensures forall q: nat :: q0 <= q <= q1 ==> Visited(q, q0, q1, false)
  {
    if q1 >= q0 + 1 && (q1 > q0 + 1 || q1 % LENGTH != 0) {
      if (q0 + 1) % LENGTH != 0 {
        assert !Visited(q0 + 1, q0, q1, true);
      } else {
        assert !Visited(q0 + 2, q0, q1, true);
      }
    }
  }

  // ----- the class ------------------------------------------------------------------

  class PageMap3 {
    const leafBits: nat
    var root: seq<Option<Mid>> // root_->mids

    ghost predicate Valid()
      reads this
    {
      Shape(root, leafBits)
    }

    /** The tree without the leaves that the source's constructor preallocates by `Ensure`. */
    constructor (bits: nat)
      requires bits <= 47 // BITS < 64
      ensures Valid() && leafBits == bits
      ensures forall k: nat :: Value(root, leafBits, k) == NULL
    {
      leafBits := bits;
      root := seq(LENGTH, _ => None);
    }

    method Get(k: nat) returns (v: Ptr)
      requires Valid()
      ensures v == Value(root, leafBits, k)
    {
      SplitIsBijection(k, leafBits);
      var i1, i2, i3 := RootIndex(k, leafBits), MidIndex(k, leafBits), LeafIndex(k, leafBits);
      if i1 >= LENGTH || root[i1].None? || root[i1].value.leafs[i2].None? {
        return NULL;
      }
      v := root[i1].value.leafs[i2].value.values[i3];
    }

    /** The source asserts that the key is in range. */
    method Set(k: nat, v: Ptr)
      requires Valid() && RootIndex(k, leafBits) < LENGTH
      modifies this
      ensures Valid() && Value(root, leafBits, k) == v
      ensures forall j: nat :: j != k ==> Value(root, leafBits, j) == Value(old(root), leafBits, j)
    {
      SplitIsBijection(k, leafBits);
      ghost var q, i := LeafOf(k, leafBits), OffsetOf(k, leafBits);
      MakeLeaf(LeafOf(k, leafBits));
      ghost var root1 := root;
      var i1, i2, i3 := RootIndex(k, leafBits), MidIndex(k, leafBits), LeafIndex(k, leafBits);
      var mid := root[i1].value;
      root := root[i1 := Some(Mid(mid.leafs[i2 := Some(Leaf(mid.leafs[i2].value.values[i3 := v]))]))];
      assert root == WithValue(root1, q, i, v);
      WithValueKeeps(root1, leafBits, q, i, v);
      forall j: nat
        ensures Value(root, leafBits, j) == if j == k then v else Value(root1, leafBits, j)
      {
        ValueStored(root1, leafBits, k, v, j);
      }
    }

    method MakeLeaf(q: nat)
      requires Valid() && q / LENGTH < LENGTH
      modifies this
      ensures Valid() && root == WithLeaf(old(root), q, leafBits) && HasLeaf(root, q)
      ensures forall r: nat :: HasLeaf(root, r) <==> HasLeaf(old(root), r) || r == q
      ensures forall k: nat :: Value(root, leafBits, k) == Value(old(root), leafBits, k)
    {
      WithLeafKeeps(root, q, leafBits);
      forall k: nat
        ensures Value(WithLeaf(root, q, leafBits), leafBits, k) == Value(root, leafBits, k)
      {
        ValuesKept(root, q, leafBits, k);
      }
      root := WithLeaf(root, q, leafBits);
    }

    /** `Ensure(start, n)`. As written, the loop strides by a root slot; the comment beside it says by a leaf. For
        n == 0 or beyond the end of the key type the last key wraps around. */
    method Ensure(start: nat, n: nat, asWritten: bool) returns (ok: bool)
      requires Valid() && start < KEYS && n < KEYS
      modifies this
      ensures Valid() && forall k: nat :: Value(root, leafBits, k) == Value(old(root), leafBits, k)
      ensures ok <==> (start <= LastKey(start, n) ==> LeafOf(LastKey(start, n), leafBits) / LENGTH < LENGTH)
      ensures forall q: nat :: HasLeaf(root, q) <==>
                HasLeaf(old(root), q) || (start <= LastKey(start, n) && q / LENGTH < LENGTH
                                          && Visited(q, LeafOf(start, leafBits), LeafOf(LastKey(start, n), leafBits), asWritten))
    {
      var last := LastKey(start, n);
      if last < start { return true; }
      ghost var q0, q1, q := LeafOf(start, leafBits), LeafOf(last, leafBits), LeafOf(start, leafBits);
      LeafOrder(start, last, leafBits);
      assert forall r: nat :: Visited(r, q0, q1, asWritten) ==> q0 <= r <= q1;
      hide LeafOf, LeafStart, NextKey, HasLeaf, Shape, Value, RootIndex, NextLeaf, Visited, LastKey;
      var key := start;
      while key <= last
        invariant Valid() && forall k: nat :: Value(root, leafBits, k) == Value(old(root), leafBits, k)
        invariant q == LeafOf(key, leafBits) && q0 <= q && q0 <= q1 && (q == q0 || !asWritten || q % LENGTH == 0)
        invariant key <= last <==> q <= q1
        invariant forall r: nat :: HasLeaf(root, r) <==> HasLeaf(old(root), r) || (r < q && Visited(r, q0, q1, asWritten))
        invariant forall r: nat :: r < q && Visited(r, q0, q1, asWritten) ==> r / LENGTH < LENGTH
        invariant q > q1 ==> q1 / LENGTH < LENGTH
        decreases last + 1 - key
      {
        SplitIsBijection(key, leafBits);
        if RootIndex(key, leafBits) >= LENGTH {
          return false;
        }
        MakeLeaf(LeafOf(key, leafBits));
        NextKeyLeaf(key, leafBits, asWritten);
        forall r: nat
          ensures (r < NextLeaf(q, asWritten) && Visited(r, q0, q1, asWritten)) <==> (r < q && Visited(r, q0, q1, asWritten)) || r == q
        {
          VisitedStep(q, q0, q1, asWritten, r);
        }
        key := NextKey(key, leafBits, asWritten);
        NextInRoot(q, q1, asWritten);
        q := NextLeaf(q, asWritten);
        LeafWithin(q, last, leafBits);
      }
      ok := true;
    }
  }

  /** A range that ends before the next stop ends in the same root slot, or ends there. */
  lemma NextInRoot(q: nat, q1: nat, asWritten: bool)
    requires q <= q1
    ensures NextLeaf(q, asWritten) > q1 ==> q1 / LENGTH == q / LENGTH
    ensures NextLeaf(q, asWritten) > q && (asWritten ==> NextLeaf(q, asWritten) % LENGTH == 0)
  {
  }
}
