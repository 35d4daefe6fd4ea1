/** The machine arithmetic of concurrentqueue.h: unsigned words of a fixed width wrap around. The other modules let
    indices grow without bound; here is why their comparisons and lookups are those of the wrapped code. */
module Circular {
  import opened ModArith
  import opened BlockMath

  function Pow2(k: nat): (r: nat)
    ensures r > 0
  {
    if k == 0 then 1 else 2 * Pow2(k - 1)
  }

  ghost predicate IsPow2(x: nat) { exists k :: x == Pow2(k) }

  lemma {:induction false} Pow2Sum(a: nat, b: nat)
    ensures Pow2(a + b) == Pow2(a) * Pow2(b)
  {
    if b > 0 {
      Pow2Sum(a, b - 1);
      assert Pow2(a) * (2 * Pow2(b - 1)) == 2 * (Pow2(a) * Pow2(b - 1));
    }
  }

  /** The value of an integer in an unsigned word of w bits. */
  function Word(x: int, w: nat): (r: nat)
    ensures r < Pow2(w)
  {
    x % Pow2(w)
  }

  // ---------------------------------------------------------------- comparison

  /** circular_less_than */
  predicate CircularLess(a: nat, b: nat, w: nat)
    requires w > 0
  {
    Word(a - b, w) > Pow2(w - 1)
  }

  lemma WordOfDifference(x: int, y: int, w: nat)
    ensures Word(Word(x, w) - Word(y, w), w) == Word(x - y, w)
  {
    var m := Pow2(w);
    ModShift(x, -(y % m), m);
    var q := y / m;
    ModUnique(x - y % m, m, (x - y % m) / m, (x - y % m) % m);
    assert x - y == (x - y % m) - m * q;
    ModAdd(x - y % m, -q, m);
  }

  lemma ModAdd(x: int, k: int, m: int)
    requires m > 0
    ensures (x + m * k) % m == x % m
  {
    ModUnique(x + m * k, m, x / m + k, x % m);
  }

  /** For indices less than a full range apart, the wrapped comparison is the true one if and only if they are
      no more than half a range apart, the half itself included on one side only. */
  lemma CircularLessExact(x: int, y: int, w: nat)
    requires w > 0 && y < x + Pow2(w) && x < y + Pow2(w)
    ensures (CircularLess(Word(x, w), Word(y, w), w) <==> x < y) <==> y < x + Pow2(w - 1) && x <= y + Pow2(w - 1)
  {
    WordOfDifference(x, y, w);
    var m, d := Pow2(w), x - y;
    if d >= 0 {
      ModUnique(d, m, 0, d);
    } else {
      ModUnique(d, m, -1, d + m);
    }
  }

  // ---------------------------------------------------------------- masks

  /** The bitwise and of two words. */
  function And(a: nat, b: nat): nat
    decreases a
  {
    if a == 0 then 0 else 2 * And(a / 2, b / 2) + (a % 2) * (b % 2)
  }

  lemma HalfMod(a: nat, m: nat)
    requires m > 0
    ensures a % (2 * m) == 2 * (a / 2 % m) + a % 2
  {
    var q, r := a / 2 / m, a / 2 % m;
    assert a / 2 == q * m + r;
    assert q * (2 * m) == 2 * (q * m);
    ModUnique(a, 2 * m, q, 2 * r + a % 2);
  }

  /** Masking with one less than a power of two is the remainder. */
  lemma {:induction false} MaskLow(a: nat, k: nat)
    ensures And(a, Pow2(k) - 1) == a % Pow2(k)
    decreases k
  {
    if k == 0 {
      AndZero(a);
    } else if a > 0 {
      MaskLow(a / 2, k - 1);
      HalfMod(a, Pow2(k - 1));
      AndOdd(a, Pow2(k - 1) - 1);
    } else {
      ModUnique(0, Pow2(k), 0, 0);
    }
  }

  lemma {:induction false} AndZero(a: nat)
    ensures And(a, 0) == 0
    decreases a
  {
    if a > 0 {
      AndZero(a / 2);
    }
  }

  lemma {:induction false} Pow2Monotone(a: nat, b: nat)
    requires a <= b
    ensures Pow2(a) <= Pow2(b)
    decreases b
  {
    if a < b {
      Pow2Monotone(a, b - 1);
    }
  }

  /** ~(2^k - 1) in a word of w bits */
  function HighMask(k: nat, w: nat): nat
    requires k <= w
  {
    Pow2Monotone(k, w);
    Pow2(w) - Pow2(k)
  }

  /** Masking a word with the complement of that mask leaves the rest. */
  lemma {:induction false} MaskHigh(a: nat, k: nat, w: nat)
    requires k <= w && a < Pow2(w)
    ensures And(a, HighMask(k, w)) == a - a % Pow2(k)
    decreases w
  {
    if a == 0 {
      ModUnique(0, Pow2(k), 0, 0);
    } else if k == 0 {
      MaskLow(a, w);
      ModUnique(a, Pow2(w), 0, a);
    } else {
      MaskHigh(a / 2, k - 1, w - 1);
      HalfMod(a, Pow2(k - 1));
      Pow2Monotone(k - 1, w - 1);
      var h := HighMask(k - 1, w - 1);
      assert HighMask(k, w) == 2 * h;
      AndDouble(a, h);
    }
  }

  lemma AndOdd(a: nat, h: nat)
    requires a > 0
    ensures And(a, 2 * h + 1) == 2 * And(a / 2, h) + a % 2
  {
    assert (2 * h + 1) / 2 == h && (2 * h + 1) % 2 == 1;
  }

  lemma AndDouble(a: nat, h: nat)
    requires a > 0
    ensures And(a, 2 * h) == 2 * And(a / 2, h)
  {
    assert 2 * h / 2 == h && 2 * h % 2 == 0;
  }

  // ---------------------------------------------------------------- the block index lookup

  /** The entry for an index, computed on words of w bits with masks: the signed offset is converted to
      unsigned before the division, because BLOCK_SIZE is unsigned. */
  function WrappedSlot(front: nat, frontBase: nat, index: nat, b: nat, s: nat, w: nat): nat
    requires b <= w
  {
    var blockBase := And(index, HighMask(b, w));
    var offset := Word(blockBase - frontBase, w) / Pow2(b);
    And(Word(front + offset, w), Pow2(s) - 1)
  }

  lemma ModOfMod(x: int, m: nat, c: nat)
    requires m > 0 && c > 0
    ensures m * c > 0 && x % (m * c) % m == x % m
  {
    var q := x / (m * c);
    assert x == q * (m * c) + x % (m * c);
    assert q * (m * c) == m * (q * c);
    ModAdd(x % (m * c), q * c, m);
  }

  lemma MultipleMod(d: int, bs: nat, n: nat)
    requires bs > 0 && n > 0
    ensures n * bs > 0 && d * bs % (n * bs) == d % n * bs
  {
    var q, r := d / n, d % n;
    assert d == q * n + r;
    assert d * bs == q * (n * bs) + r * bs;
    var e := n - 1 - r;
    assert n * bs == r * bs + bs + e * bs;
    ModUnique(d * bs, n * bs, q, r * bs);
  }

  /** Rounding a word down to a block base is the word of the rounded index. */
  lemma FloorOfMod(x: nat, bs: nat, n: nat)
    requires bs > 0 && n > 0
    ensures n * bs > 0
    ensures x % (n * bs) - x % (n * bs) % bs == x / bs * bs % (n * bs)
  {
    ModOfMod(x, bs, n);
    assert bs * n == n * bs;
    var k, r := x / bs, x % bs;
    DivBounds(x, bs);
    MultipleMod(k, bs, n);
    var q := k / n;
    assert k == q * n + k % n;
    assert x == q * (n * bs) + (k % n * bs + r) by { assert k * bs == q * (n * bs) + k % n * bs; }
    var e := n - 1 - k % n;
    assert n * bs == k % n * bs + bs + e * bs;
    ModUnique(x, n * bs, q, k % n * bs + r);
  }

  lemma WrappedOffset(newest: nat, index: nat, b: nat, w: nat)
    requires b <= w
    ensures Word(And(Word(index, w), HighMask(b, w)) - Word(newest * Pow2(b), w), w) / Pow2(b)
            == (index / Pow2(b) - newest) % Pow2(w - b)
  {
    var bs, n := Pow2(b), Pow2(w - b);
    Pow2Sum(w - b, b);
    MaskHigh(Word(index, w), b, w);
    FloorOfMod(index, bs, n);
    hide Pow2;
    OffsetOf(newest, index / bs, bs, n, w);
  }

  lemma OffsetOf(newest: int, k: int, bs: nat, n: nat, w: nat)
    requires bs > 0 && n > 0 && Pow2(w) == n * bs
    ensures Word(Word(k * bs, w) - Word(newest * bs, w), w) / bs == (k - newest) % n
  {
    WordOfDifference(k * bs, newest * bs, w);
    assert k * bs - newest * bs == (k - newest) * bs;
    MultipleMod(k - newest, bs, n);
    MulDiv((k - newest) % n, bs);
  }

  lemma WrappedSlotIs(front: nat, newest: nat, index: nat, b: nat, s: nat, w: nat)
    requires b <= w
    ensures WrappedSlot(front, Word(newest * Pow2(b), w), Word(index, w), b, s, w)
            == Word(front + (index / Pow2(b) - newest) % Pow2(w - b), w) % Pow2(s)
  {
    WrappedOffset(newest, index, b, w);
    MaskLow(Word(front + (index / Pow2(b) - newest) % Pow2(w - b), w), s);
  }

  /** Because index size times block size divides the range of a word, the wrapped lookup finds the slot that
      the lookup on unbounded indices finds, whichever way and however far the index is from the front. */
  lemma WrappedLookup(front: nat, newest: nat, index: nat, b: nat, s: nat, w: nat)
    requires s + b <= w && front == newest % Pow2(s)
    ensures WrappedSlot(front, Word(newest * Pow2(b), w), Word(index, w), b, s, w) == index / Pow2(b) % Pow2(s)
    ensures LookupSlot(front, newest * Pow2(b), index, Pow2(b), Pow2(s)) == index / Pow2(b) % Pow2(s)
  {
    hide WrappedSlot, LookupSlot, Word;
    WrappedSlotIs(front, newest, index, b, s, w);
    var offset := (index / Pow2(b) - newest) % Pow2(w - b);
    LookupFinds(front, newest, index, Pow2(b), Pow2(s));
    Pow2Sum(w - b, b);
    Pow2Sum(s, w - b - s);
    hide Pow2;
    SlotOf(front, newest, index / Pow2(b), offset, Pow2(s), Pow2(w - b - s), Pow2(b), w);
  }

  lemma SlotOf(front: int, newest: int, k: int, offset: int, size: nat, c: nat, bs: nat, w: nat)
    requires size > 0 && c > 0 && bs > 0 && Pow2(w) == size * c * bs && front == newest % size
    requires offset == (k - newest) % (size * c)
    ensures Word(front + offset, w) % size == k % size
  {
    assert size * c * bs == size * (c * bs);
    ModOfMod(front + offset, size, c * bs);
    ModOfMod(k - newest, size, c);
    ModShift(offset, front, size);
    ModShift(k - newest, front, size);
    ModShift(newest, k - newest, size);
  }

  // ---------------------------------------------------------------- rounding up

  /** The bitwise or of two words. */
  function Or(a: nat, b: nat): nat
    decreases a + b
  {
    if a == 0 then b else if b == 0 then a else 2 * Or(a / 2, b / 2) + (if a % 2 == 1 || b % 2 == 1 then 1 else 0)
  }

  lemma {:induction false} OrBelow(a: nat, b: nat, n: nat)
    requires a < Pow2(n) && b < Pow2(n)
    ensures Or(a, b) < Pow2(n)
    decreases n
  {
    if a != 0 && b != 0 {
      OrBelow(a / 2, b / 2, n - 1);
    }
  }

  /** With b below 2^j, the bits of a from j up are kept, and those of b are there. */
  lemma {:induction false} OrAbove(a: nat, b: nat, j: nat)
    requires b < Pow2(j)
    ensures Or(a, b) >= a - a % Pow2(j) + b
    decreases j
  {
    if a == 0 {
      ModUnique(0, Pow2(j), 0, 0);
    } else if b != 0 {
      OrAbove(a / 2, b / 2, j - 1);
      HalfMod(a, Pow2(j - 1));
    }
  }

  /** The top m of the n bits of x are ones. */
  predicate TopOnes(x: nat, m: nat, n: nat)
  {
    x < Pow2(n) && (m <= n ==> x >= Pow2(n) - Pow2(n - m)) && (m > n ==> x == Pow2(n) - 1)
  }

  /** x | x >> m */
  function Smear(x: nat, m: nat): nat {
    DivNat(x, Pow2(m));
    Or(x, x / Pow2(m))
  }

  /** That doubles the number of ones at the top. */
  lemma SmearDoubles(x: nat, m: nat, n: nat)
    requires TopOnes(x, m, n) && m > 0
    ensures TopOnes(Smear(x, m), 2 * m, n)
  {
    if m >= n {
      AllOnes(x, m, n);
    } else {
      ShiftTop(x, m, n);
      Pow2Monotone(n - m, n);
      hide Pow2;
      var z := x / Pow2(m);
      OrBelow(x, z, n);
      OrAbove(x, z, n - m);
      TopPart(x, m, n);
    }
  }

  lemma AllOnes(x: nat, m: nat, n: nat)
    requires TopOnes(x, m, n) && m >= n
    ensures x + 1 == Pow2(n) && Smear(x, m) == x
  {
    Pow2Monotone(n, m);
    ModUnique(x, Pow2(m), 0, x);
  }

  lemma TopPart(x: nat, m: nat, n: nat)
    requires m < n && TopOnes(x, m, n)
    ensures x - x % Pow2(n - m) == Pow2(n) - Pow2(n - m)
  {
    var p := Pow2(n - m);
    Pow2Sum(m, n - m);
    assert (Pow2(m) - 1) * p == Pow2(n) - p;
    ModUnique(x, p, Pow2(m) - 1, x - (Pow2(n) - p));
  }

  lemma ShiftTop(x: nat, m: nat, n: nat)
    requires m < n && TopOnes(x, m, n)
    ensures x / Pow2(m) < Pow2(n - m)
    ensures 2 * m <= n ==> x / Pow2(m) >= Pow2(n - m) - Pow2(n - 2 * m)
    ensures 2 * m > n ==> x / Pow2(m) >= Pow2(n - m) - 1
  {
    Pow2Sum(n - m, m);
    DivBelow(x, Pow2(n - m), Pow2(m));
    if 2 * m <= n {
      Pow2Sum(n - 2 * m, m);
      TopQuotient(x, Pow2(m), Pow2(n - m), Pow2(n - 2 * m));
    } else {
      Pow2Monotone(n - m, m);
      TopQuotient(x, Pow2(m), Pow2(n - m), 1);
    }
  }

  lemma TopQuotient(x: nat, p: nat, q: nat, t: nat)
    requires p > 0 && x >= q * p - q && q <= t * p
    ensures x / p >= q - t
  {
    assert (q - t) * p == q * p - t * p;
    DivAbove(x, q - t, p);
  }

  lemma DivBelow(x: nat, q: nat, p: nat)
    requires p > 0 && x < q * p
    ensures x / p < q
  {
    BlockAbove(q, x, p);
  }

  lemma DivAbove(x: nat, q: int, p: nat)
    requires p > 0 && x >= q * p
    ensures x / p >= q
  {
    MulDiv(q, p);
    DivMonotone(q * p, x, p);
  }

  /** The number of bits of x. */
  function Bits(x: nat): (n: nat)
    ensures x < Pow2(n) && (n > 0 ==> Pow2(n - 1) <= x)
  {
    if x == 0 then 0 else Bits(x / 2) + 1
  }

  /** ceil_to_pow_2 on words of `size` bytes: the smallest power of two that is not less than x, unless that
      does not fit; zero for zero. */
  method CeilToPow2(x: nat, size: nat) returns (r: nat)
    requires size > 0 && x < Pow2(8 * size)
    ensures x == 0 ==> r == 0
    ensures x > 0 ==> exists n :: IsCeil(x, n) && r == Word(Pow2(n), 8 * size)
  {
    var w := 8 * size;
    r := Word(x - 1, w);
    ghost var n := Bits(r);
    StartBits(x, w);
    hide Pow2, Word, Bits, TopOnes, Smear, IsCeil;
    SmearDoubles(r, 1, n);
    r := Smear(r, 1);
    SmearDoubles(r, 2, n);
    r := Smear(r, 2);
    SmearDoubles(r, 4, n);
    r := Smear(r, 4);
    var i := 1;
    while i < size
      invariant i >= 1 && TopOnes(r, 8 * i, n)
    {
      SmearDoubles(r, 8 * i, n);
      r := Smear(r, 8 * i);
      i := 2 * i;
    }
    AllOnes(r, 8 * i, n);
    r := Word(r + 1, w);
  }

  lemma StartBits(x: nat, w: nat)
    requires x < Pow2(w)
    ensures var n := Bits(Word(x - 1, w));
            && n <= w && TopOnes(Word(x - 1, w), 1, n)
            && (if x > 0 then IsCeil(x, n) else Word(Pow2(n), w) == 0)
  {
    var r := Word(x - 1, w);
    WordBits(r, w);
    if x > 0 {
      ModUnique(x - 1, Pow2(w), 0, x - 1);
    } else {
      ModUnique(-1, Pow2(w), -1, Pow2(w) - 1);
      BitsOfAllOnes(r, w);
      ModUnique(Pow2(w), Pow2(w), 1, 0);
    }
  }

  /** 2^n is the smallest power of two that is not less than x. */
  predicate IsCeil(x: nat, n: nat) { x <= Pow2(n) && (n > 0 ==> Pow2(n - 1) < x) }

  lemma IsCeilLeast(x: nat, n: nat, k: nat)
    requires IsCeil(x, n) && x <= Pow2(k)
    ensures n <= k
  {
    if k < n {
      Pow2Monotone(k, n - 1);
    }
  }

  lemma WordBits(x: nat, w: nat)
    requires x < Pow2(w)
    ensures Bits(x) <= w
  {
    if Bits(x) > 0 {
      ExponentBelow(Bits(x) - 1, w);
    }
  }

  lemma ExponentBelow(a: nat, b: nat)
    requires Pow2(a) < Pow2(b)
    ensures a < b
  {
    if b <= a {
      Pow2Monotone(b, a);
    }
  }

  lemma BitsOfAllOnes(x: nat, w: nat)
    requires x + 1 == Pow2(w)
    ensures Bits(x) == w
  {
    WordBits(x, w);
    ExponentBelow(w, Bits(x) + 1);
  }
}
