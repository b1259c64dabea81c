/** How the window reads the runner's integers. */
module WindowNumbers {
  import opened ActiveRunModel

  function Pow2(k: nat): nat {
    if k == 0 then 1 else 2 * Pow2(k - 1)
  }

  /** An integer with at most 53 significant bits, which a JavaScript number holds. */
  ghost predicate IsDouble(x: nat) {
    exists bits: nat, shift: nat :: Scaled(bits, shift) == x && bits < 0x20_0000_0000_0000
  }

  function Scaled(bits: nat, shift: nat): nat {
    bits * Pow2(shift)
  }

  function Distance(a: nat, b: nat): nat {
    if a < b then b - a else a - b
  }

  /** `n` stands `q` gaps of size 2^`shift` up and a rest, and `q` has 53 bits unless the gap is 1. */
  lemma {:induction false} GapMeans(n: nat) returns (shift: nat)
    ensures Gap(n) == Pow2(shift)
    ensures n < 0x20_0000_0000_0000 * Gap(n)
    ensures shift > 0 ==> 0x10_0000_0000_0000 * Gap(n) <= n
  {
    if n < EXACT {
      shift := 0;
    } else {
      var half := GapMeans(n / 2);
      shift := half + 1;
    }
  }

  lemma DivideBy(n: nat, gap: nat)
    requires gap >= 1
    ensures n == n / gap * gap + n % gap && 0 <= n % gap < gap
  {
  }

  /** The two multiples of the gap around `n` are its nearest ones. */
  lemma MultipleFar(n: nat, q: nat, other: nat, gap: nat)
    requires gap >= 1 && q * gap <= n < q * gap + gap
    ensures other <= q ==> other * gap <= q * gap
    ensures other < q ==> other * gap + gap <= q * gap
    ensures other > q ==> q * gap + gap <= other * gap
    ensures other > q + 1 ==> q * gap + 2 * gap <= other * gap
  {
    if other < q {
      Grows(other + 1, q, gap);
    } else if other > q + 1 {
      Grows(q + 2, other, gap);
    }
  }

  lemma Grows(a: nat, b: nat, gap: nat)
    requires a <= b
    ensures a * gap <= b * gap
  {
  }

  lemma {:induction false} Pow2Split(big: nat, small: nat)
    requires small <= big
    ensures Pow2(big) == Pow2(big - small) * Pow2(small)
    decreases small
  {
    if small > 0 {
      Pow2Split(big, small - 1);
      assert Pow2(big - small + 1) == 2 * Pow2(big - small);
      Rearrange(Pow2(big - small), Pow2(small - 1));
    }
  }

  lemma Rearrange(a: nat, b: nat)
    ensures 2 * a * b == a * (2 * b)
  {
  }

  lemma {:induction false} Pow2Grows(small: nat, big: nat)
    requires small <= big
    ensures 1 <= Pow2(small) <= Pow2(big)
    decreases big
  {
    if small < big {
      Pow2Grows(small, big - 1);
    } else if small > 0 {
      Pow2Grows(small - 1, small - 1);
    }
  }

  /** Among the numbers in question those no finer than the gap are multiples of it; a finer one lies below. */
  lemma MultipleOrBelow(bits: nat, k: nat, shift: nat) returns (q: nat)
    requires bits < 0x20_0000_0000_0000
    ensures Scaled(bits, k) == q * Pow2(shift)
         || (shift > 0 && Scaled(bits, k) < 0x10_0000_0000_0000 * Pow2(shift))
  {
    if k >= shift {
      Pow2Split(k, shift);
      q := bits * Pow2(k - shift);
      assert bits * (Pow2(k - shift) * Pow2(shift)) == q * Pow2(shift) by {
        Associate(bits, Pow2(k - shift), Pow2(shift));
      }
    } else {
      q := 0;
      Pow2Grows(k, shift - 1);
      Below(bits, Pow2(k), Pow2(shift - 1));
    }
  }

  lemma Below(bits: nat, small: nat, half: nat)
    requires bits < 0x20_0000_0000_0000 && 1 <= small <= half
    ensures bits * small < 0x10_0000_0000_0000 * (2 * half)
  {
    assert bits * small <= bits * half;
    assert bits * half < 0x20_0000_0000_0000 * half;
  }

  lemma Associate(a: nat, b: nat, c: nat)
    ensures a * (b * c) == (a * b) * c
  {
  }

  lemma MultipleIsDouble(q: nat, shift: nat)
    requires q <= 0x20_0000_0000_0000
    ensures IsDouble(q * Pow2(shift))
  {
    if q < 0x20_0000_0000_0000 {
      assert Scaled(q, shift) == q * Pow2(shift);
    } else {
      var half := 0x10_0000_0000_0000;
      assert Scaled(half, shift + 1) == half * (2 * Pow2(shift));
    }
  }

  lemma EvenMultiple(q: nat, gap: nat)
    requires gap >= 1 && q % 2 == 0
    ensures q * gap % (2 * gap) == 0
  {
    var half := q / 2;
    assert q * gap == half * (2 * gap) by {
      Rearrange(half, gap);
    }
    NoRest(half, 2 * gap);
  }

  lemma {:induction false} NoRest(n: nat, gap: nat)
    requires gap >= 1
    ensures n * gap % gap == 0
  {
    if n > 0 {
      NoRest(n - 1, gap);
      assert n * gap == (n - 1) * gap + gap;
      OneMoreGap((n - 1) * gap, gap);
    }
  }

  lemma OneMoreGap(a: nat, gap: nat)
    requires gap >= 1 && a % gap == 0
    ensures (a + gap) % gap == 0
  {
    DivideBy(a, gap);
    DivideBy(a + gap, gap);
    OnlyQuotient(a + gap, a / gap + 1, (a + gap) / gap, gap);
  }

  lemma OnlyQuotient(n: nat, q: nat, p: nat, gap: nat)
    requires gap >= 1 && n == q * gap && p * gap <= n < p * gap + gap
    ensures p == q
  {
    OneGapMore(p, gap);
    if p < q {
      Grows(p + 1, q, gap);
    }
    LessQuotient(q, p + 1, gap);
  }

  /** The nearer of the two multiples around `n`, the even one of two equally near. */
  lemma NearestMeans(n: nat, gap: nat) returns (q: nat)
    requires gap >= 1
    ensures q == n / gap && q * gap <= n < q * gap + gap
    ensures Nearest(n, gap) == q * gap || Nearest(n, gap) == (q + 1) * gap
    ensures Nearest(n, gap) == q * gap ==> n - q * gap <= q * gap + gap - n
    ensures Nearest(n, gap) == (q + 1) * gap ==> q * gap + gap - n <= n - q * gap
    ensures n - q * gap == q * gap + gap - n ==> Nearest(n, gap) % (2 * gap) == 0
  {
    q := n / gap;
    DivideBy(n, gap);
    assert (q + 1) * gap == q * gap + gap;
    if q % 2 == 0 {
      EvenMultiple(q, gap);
    } else {
      EvenMultiple(q + 1, gap);
    }
  }

  lemma LessQuotient(q: nat, top: nat, gap: nat)
    requires q * gap < top * gap
    ensures q < top
  {
    if q >= top {
      Grows(top, q, gap);
    }
  }

  lemma OneGapMore(q: nat, gap: nat)
    ensures (q + 1) * gap == q * gap + gap
  {
  }

  lemma QuotientBelow(n: nat, q: nat, top: nat, gap: nat)
    requires q * gap <= n < top * gap
    ensures q < top
  {
    LessQuotient(q, top, gap);
  }

  lemma QuotientAbove(n: nat, q: nat, low: nat, gap: nat)
    requires low * gap <= n < q * gap + gap
    ensures low * gap <= q * gap
  {
    OneGapMore(q, gap);
    LessQuotient(low, q + 1, gap);
    Grows(low, q, gap);
  }

  /** Of the two multiples around `n` the nearer one is nearer than anything further out. */
  lemma NearestWins(n: nat, low: nat, gap: nat, read: nat, x: nat)
    requires low <= n < low + gap && (read == low || read == low + gap)
    requires if read == low then n - low <= low + gap - n else low + gap - n <= n - low
    requires x <= low || x == low + gap || x >= low + 2 * gap
    ensures Distance(read, n) <= Distance(x, n)
    ensures Distance(read, n) == Distance(x, n) && x != read ==> n - low == low + gap - n
  {
  }

  /** What the window reads of a number is a number it can hold, and none it can hold is nearer; of two
      equally near ones it takes the one whose last bit is zero. */
  lemma ReadIsNearest(n: nat, bits: nat, k: nat)
    requires bits < 0x20_0000_0000_0000
    ensures IsDouble(Read(n))
    ensures Distance(Read(n), n) <= Distance(Scaled(bits, k), n)
    ensures Distance(Read(n), n) == Distance(Scaled(bits, k), n) && Scaled(bits, k) != Read(n) ==>
              Read(n) % (2 * Gap(n)) == 0
  {
    hide Gap, Pow2, IsDouble, Nearest, Scaled, Distance;
    var shift := GapMeans(n);
    var q := NearestMeans(n, Gap(n));
    ReadIsDouble(n, q, shift);
    NeverBetween(n, q, shift, bits, k);
    OneGapMore(q, Gap(n));
    NearestWins(n, q * Gap(n), Gap(n), Read(n), Scaled(bits, k));
  }

  lemma ReadIsDouble(n: nat, q: nat, shift: nat)
    requires q * Pow2(shift) <= n < 0x20_0000_0000_0000 * Pow2(shift)
    requires Read(n) == q * Pow2(shift) || Read(n) == (q + 1) * Pow2(shift)
    ensures IsDouble(Read(n))
  {
    hide Pow2, IsDouble, Read;
    QuotientBelow(n, q, 0x20_0000_0000_0000, Pow2(shift));
    if Read(n) == q * Pow2(shift) {
      MultipleIsDouble(q, shift);
    } else {
      MultipleIsDouble(q + 1, shift);
    }
  }

  lemma NeverBetween(n: nat, q: nat, shift: nat, bits: nat, k: nat)
    requires bits < 0x20_0000_0000_0000 && Pow2(shift) >= 1
    requires q * Pow2(shift) <= n < q * Pow2(shift) + Pow2(shift)
    requires shift > 0 ==> 0x10_0000_0000_0000 * Pow2(shift) <= n
    ensures var x, low, gap := Scaled(bits, k), q * Pow2(shift), Pow2(shift);
            x <= low || x == low + gap || x >= low + 2 * gap
  {
    hide Pow2, Scaled;
    var other := MultipleOrBelow(bits, k, shift);
    if Scaled(bits, k) == other * Pow2(shift) {
      MultipleFar(n, q, other, Pow2(shift));
      OneGapMore(q, Pow2(shift));
    } else {
      QuotientAbove(n, q, 0x10_0000_0000_0000, Pow2(shift));
    }
  }
}
