/** Bitwise "and" on unsigned machine words, and what masking means in arithmetic.

    The allocator rounds sizes with `x & ~(a - 1)`, the ring queue wraps its indices
    with `x & (size - 1)` and the radix tree splits page numbers with shifts and masks.
    Words are naturals below `Pow2(w)`; the operators are defined bit by bit. */
module Bits {

  function Pow2(k: nat): (p: nat)
    ensures p >= 1
  {
    if k == 0 then 1 else 2 * Pow2(k - 1)
  }

  /** Bitwise and. */
  function And(x: nat, y: nat): (r: nat)
    ensures r <= x && r <= y
    decreases x
  {
    if x == 0 || y == 0 then 0
    else 2 * And(x / 2, y / 2) + (if x % 2 == 1 && y % 2 == 1 then 1 else 0)
  }

  /** Bitwise complement of a word, where `m` is the number of word values. */
  function Not(m: nat, x: nat): nat
    requires x < m
  {
    m - 1 - x
  }

  lemma {:induction false} Pow2Sum(a: nat, b: nat)
    ensures Pow2(a + b) == Pow2(a) * Pow2(b)
  {
    if a != 0 {
      Pow2Sum(a - 1, b);
      assert Pow2(a + b) == 2 * Pow2(a - 1 + b);
      assert (2 * Pow2(a - 1)) * Pow2(b) == 2 * (Pow2(a - 1) * Pow2(b));
    }
  }

  lemma {:induction false} Pow2Monotone(a: nat, b: nat)
    requires a <= b
    ensures Pow2(a) <= Pow2(b)
  {
    if a < b {
      Pow2Monotone(a, b - 1);
    }
  }

  lemma {:induction false} AndComm(x: nat, y: nat)
    ensures And(x, y) == And(y, x)
    decreases x
  {
    if x != 0 && y != 0 {
      AndComm(x / 2, y / 2);
    }
  }

  /** Division and remainder by `2 * m` seen through halving. */
  lemma HalfMod(x: nat, m: nat)
    requires m >= 1
    ensures x % (2 * m) == 2 * (x / 2 % m) + x % 2
    ensures x / (2 * m) == x / 2 / m
  {
    var h := x / 2;
    var q, r := h / m, h % m;
    assert h == q * m + r;
    assert x == q * (2 * m) + (2 * r + x % 2) by {
      assert x == 2 * h + x % 2;
      assert 2 * (q * m) == q * (2 * m);
    }
    DivModUnique(x, 2 * m, q, 2 * r + x % 2);
  }

  lemma DivModUnique(x: nat, m: nat, q: nat, r: nat)
    requires m >= 1 && r < m && x == q * m + r
    ensures x / m == q && x % m == r
  {
    var d := q - x / m;
    assert d * m == q * m - x / m * m;
    MultipleNearZero(d, m);
  }

  lemma MultipleNearZero(d: int, m: int)
    requires m >= 0
    ensures -m < d * m < m ==> d == 0
  {
    if d >= 1 {
      assert d * m >= m;
    } else if d <= -1 {
      assert d * m <= -m;
    }
  }

  lemma QuotientAtLeast(n: nat, c: nat, k: nat)
    requires c >= 1
    ensures n / c >= k <==> n >= k * c
  {
    var d := n / c - k;
    assert d * c == n / c * c - k * c;
    if d >= 0 {
      assert d * c >= 0;
    } else {
      assert d * c <= -1 * c;
    }
  }

  /** Masking with `2^k - 1` keeps the low `k` bits: it is the remainder modulo `2^k`. */
  lemma {:induction false} LowMask(x: nat, k: nat)
    ensures And(x, Pow2(k) - 1) == x % Pow2(k)
    decreases k
  {
    if k == 0 {
      AndComm(x, 0);
    } else if x != 0 {
      var m := Pow2(k - 1);
      LowMask(x / 2, k - 1);
      HalfMod(x, m);
      assert (Pow2(k) - 1) / 2 == m - 1 && (Pow2(k) - 1) % 2 == 1;
    }
  }

  /** A mask and its complement split a word in two. */
  lemma {:induction false} MaskSplit(x: nat, y: nat, w: nat)
    requires x < Pow2(w) && y < Pow2(w)
    ensures And(x, y) + And(x, Not(Pow2(w), y)) == x
    decreases w
  {
    if w != 0 && x != 0 {
      MaskSplit(x / 2, y / 2, w - 1);
      assert Not(Pow2(w), y) / 2 == Not(Pow2(w - 1), y / 2);
      assert Not(Pow2(w), y) % 2 == 1 - y % 2;
    }
  }

  /** Masking with the complement of `2^k - 1` clears the low `k` bits. */
  lemma HighMask(x: nat, k: nat, w: nat)
    requires k <= w && x < Pow2(w)
    ensures Pow2(k) <= Pow2(w)
    ensures And(x, Not(Pow2(w), Pow2(k) - 1)) == x - x % Pow2(k)
  {
    Pow2Monotone(k, w);
    MaskSplit(x, Pow2(k) - 1, w);
    LowMask(x, k);
  }

  ghost predicate IsPow2(x: nat) {
    exists k: nat :: x == Pow2(k)
  }

  /** The test `(x & (x - 1)) == 0` accepts exactly the powers of two and zero (whose
      predecessor is the all-ones word). */
  lemma {:induction false} PowerOfTwoTest(x: nat)
    requires x >= 1
    ensures And(x, x - 1) == 0 <==> IsPow2(x)
    decreases x
  {
    if x == 1 {
      assert x == Pow2(0);
    } else if x % 2 == 0 {
      PowerOfTwoTest(x / 2);
      assert (x - 1) / 2 == x / 2 - 1;
      if IsPow2(x / 2) {
        var k: nat :| x / 2 == Pow2(k);
        assert x == Pow2(k + 1);
      }
      if IsPow2(x) {
        var k: nat :| x == Pow2(k);
        assert x / 2 == Pow2(k - 1);
      }
    } else {
      assert And(x / 2, (x - 1) / 2) == x / 2 by {
        AndSelf(x / 2);
      }
      forall k: nat
        ensures x != Pow2(k)
      {
        assert k != 0 ==> Pow2(k) == 2 * Pow2(k - 1);
      }
    }
  }

  lemma {:induction false} AndSelf(x: nat)
    ensures And(x, x) == x
    decreases x
  {
    if x != 0 {
      AndSelf(x / 2);
    }
  }
}
