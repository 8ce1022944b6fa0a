/**
 The sizes the allocator serves, and how a builder chooses its next tail
 allocation (src/bytes/fragmented_buffer_builder.cc).
 */
module SizeClasses {
  import opened Units

  const MAX_POOLED: nat := 0x4000   // 16 KiB
  const MINIMUM_CELL: nat := 8
  const ALIGNMENT: nat := 16

  function Pow2(n: nat): (r: nat)
    ensures r > 0
  {
    if n == 0 then 1 else 2 * Pow2(n - 1)
  }

  /** The position of the highest set bit. */
  function Log2(n: nat): (r: nat)
    requires n > 0
    ensures Pow2(r) <= n < 2 * Pow2(r)
  {
    if n == 1 then 0 else Log2(n / 2) + 1
  }

  /** The class of a pooled size with highest bit `log`: four evenly spaced classes between two
      powers of two. */
  function ClassIndex(size: nat, log: nat): nat
    requires size > 0 && log >= 2
  {
    4 * log - 3 + (size - 1) / Pow2(log - 2)
  }

  function ClassSize(index: nat): nat {
    (4 + index % 4) * Pow2(index / 4) / 4
  }

  /** What the allocator serves for a request. */
  function Served(size: nat): nat {
    if size == 0 then 0
    else
      var n := Max(size, MINIMUM_CELL);
      if n > MAX_POOLED then
        var span := Pow2(Log2(n));
        if span == n || Log2(n) >= 63 then n else 2 * span
      else
        Log2AtLeast(n, 3);
        var served := ClassSize(ClassIndex(n, Log2(n)));
        if served > ALIGNMENT then (served + ALIGNMENT - 1) / ALIGNMENT * ALIGNMENT else served
  }

  // ----- what that arithmetic amounts to -----

  lemma {:induction false} Pow2Monotone(a: nat, b: nat)
    requires a <= b
    ensures Pow2(a) <= Pow2(b)
    decreases b - a
  {
    if a < b {
      Pow2Monotone(a, b - 1);
    }
  }

  lemma {:induction false} Log2AtLeast(n: nat, k: nat)
    requires n > 0 && Pow2(k) <= n
    ensures k <= Log2(n)
  {
    if Log2(n) < k {
      Pow2Monotone(Log2(n) + 1, k);
    }
  }

  lemma Log2Below(n: nat, k: nat)
    requires 0 < n < Pow2(k)
    ensures Log2(n) < k
  {
    if Log2(n) >= k {
      Pow2Monotone(k, Log2(n));
    }
  }

  lemma Log2Monotone(a: nat, b: nat)
    requires 0 < a <= b
    ensures Log2(a) <= Log2(b)
  {
    Log2AtLeast(b, Log2(a));
  }

  lemma {:induction false} MulMonotone(a: nat, b: nat, unit: nat)
    requires a <= b
    ensures a * unit <= b * unit
    decreases b - a
  {
    if a < b {
      MulMonotone(a, b - 1, unit);
      assert b * unit == (b - 1) * unit + unit;
    }
  }

  lemma Quotient(n: nat, unit: nat, k: nat)
    requires unit > 0 && k * unit <= n < k * unit + unit
    ensures n / unit == k
  {
    var q := n / unit;
    assert q * unit <= n < q * unit + unit;
    if q < k {
      MulMonotone(q + 1, k, unit);
    } else if q > k {
      MulMonotone(k + 1, q, unit);
    }
  }

  /** The least multiple of the unit that is not below n. */
  function Ceil(n: nat, unit: nat): (r: nat)
    requires unit > 0
    ensures n <= r < n + unit
  {
    if n == 0 then 0 else if n <= unit then unit else unit + Ceil(n - unit, unit)
  }

  lemma {:induction false} CeilMonotone(a: nat, b: nat, unit: nat)
    requires a <= b && unit > 0
    ensures Ceil(a, unit) <= Ceil(b, unit)
  {
    if a > unit {
      CeilMonotone(a - unit, b - unit, unit);
    }
  }

  lemma {:induction false} CeilIdempotent(n: nat, unit: nat)
    requires unit > 0
    ensures Ceil(Ceil(n, unit), unit) == Ceil(n, unit)
  {
    if n > unit {
      CeilIdempotent(n - unit, unit);
    }
  }

  lemma {:induction false} CeilAligns(n: nat)
    ensures Ceil(n, ALIGNMENT) == (n + ALIGNMENT - 1) / ALIGNMENT * ALIGNMENT
  {
    if n > ALIGNMENT {
      CeilAligns(n - ALIGNMENT);
    }
  }

  /** Rounding to a multiple of 16 leaves a coarser rounding as it is. */
  lemma {:induction false} CeilAligned(n: nat, unit: nat)
    requires unit > 0 && unit % ALIGNMENT == 0
    ensures Ceil(n, unit) % ALIGNMENT == 0 && Ceil(Ceil(n, unit), ALIGNMENT) == Ceil(n, unit)
  {
    if n > unit {
      CeilAligned(n - unit, unit);
    }
    CeilAligns(Ceil(n, unit));
  }

  /** The distance between classes above a power of two; powers of two are themselves classes. */
  function Spacing(log: nat): (r: nat)
    ensures r > 0
  {
    if log <= 3 then 2
    else if log <= 5 then 16
    else if log <= 13 then Pow2(log - 2)
    else if log < 63 then Pow2(log)
    else 1
  }

  lemma {:induction false} CeilOne(n: nat)
    ensures Ceil(n, 1) == n
  {
    if n > 1 {
      CeilOne(n - 1);
    }
  }

  /** A power of two is a class, so nothing between it and the next is served more than the next. */
  lemma Pow2IsClass(log: nat)
    requires log >= 3
    ensures Ceil(Pow2(log), Spacing(log)) == Pow2(log)
    ensures Ceil(2 * Pow2(log), Spacing(log)) == 2 * Pow2(log)
  {
    if log >= 63 {
      CeilOne(Pow2(log));
      CeilOne(2 * Pow2(log));
    } else {
      var unit := Spacing(log);
      SpacingDivides(log);
      SmallMultiples(unit);
      if Pow2(log) == unit {
        assert 2 * Pow2(log) == 2 * unit;
      } else if Pow2(log) == 2 * unit {
        assert 2 * Pow2(log) == 4 * unit;
      } else {
        assert 2 * Pow2(log) == 8 * unit;
      }
    }
  }

  lemma SmallMultiples(unit: nat)
    requires unit > 0
    ensures Ceil(unit, unit) == unit && Ceil(2 * unit, unit) == 2 * unit
    ensures Ceil(4 * unit, unit) == 4 * unit && Ceil(8 * unit, unit) == 8 * unit
  {
    MultipleIsClass(1, unit);
    MultipleIsClass(2, unit);
    MultipleIsClass(4, unit);
    MultipleIsClass(8, unit);
  }

  lemma SpacingDivides(log: nat)
    requires 3 <= log < 63
    ensures var unit := Spacing(log); Pow2(log) == unit || Pow2(log) == 2 * unit || Pow2(log) == 4 * unit
  {
    if log <= 5 {
      assert Pow2(3) == 8 && Pow2(4) == 16 && Pow2(5) == 32;
    } else if log <= 13 {
      assert Pow2(log) == 2 * Pow2(log - 1) == 4 * Pow2(log - 2);
    }
  }

  lemma {:induction false} MultipleIsClass(k: nat, unit: nat)
    requires unit > 0
    ensures Ceil(k * unit, unit) == k * unit
  {
    if k > 0 {
      assert k * unit == (k - 1) * unit + unit;
      MultipleIsClass(k - 1, unit);
    }
  }

  lemma CeilBetween(n: nat, unit: nat, k: nat)
    requires unit > 0 && k * unit < n <= k * unit + unit
    ensures Ceil(n, unit) == k * unit + unit
  {
    assert (k + 1) * unit == k * unit + unit;
    MultipleIsClass(k + 1, unit);
    CeilMonotone(n, (k + 1) * unit, unit);
    MultipleIsClass(k, unit);
    CeilSteps(n, unit, k);
  }

  lemma {:induction false} CeilSteps(n: nat, unit: nat, k: nat)
    requires unit > 0 && k * unit < n
    ensures Ceil(n, unit) >= k * unit + unit
  {
    if k > 0 {
      assert k * unit == (k - 1) * unit + unit;
      CeilSteps(n - unit, unit, k - 1);
    }
  }

  /** n is in the k-th step of this width, counting from nothing. */
  ghost predicate InStep(n: nat, unit: nat, k: nat) {
    k * unit < n <= k * unit + unit
  }

  /** The class arithmetic of a pooled size is rounding up to a quarter of its power of two. */
  lemma PooledClass(n: nat, log: nat, unit: nat, k: nat)
    requires log >= 2 && unit == Pow2(log - 2) && 3 <= k <= 7 && n > 0 && InStep(n, unit, k)
    ensures ClassSize(ClassIndex(n, log)) == Ceil(n, unit)
  {
    Quotient(n - 1, unit, k);
    CeilBetween(n, unit, k);
    ClassAt(log, k);
  }

  lemma ClassOf(log: nat, r: nat)
    requires log >= 2 && r < 4
    ensures ClassSize(4 * log + r) == (4 + r) * Pow2(log - 2)
  {
    var unit := Pow2(log - 2);
    assert Pow2(log) == 2 * Pow2(log - 1) == 4 * unit;
    assert ClassSize(4 * log + r) == (4 + r) * Pow2(log) / 4 by {
      assert (4 * log + r) / 4 == log && (4 * log + r) % 4 == r;
    }
    if r == 0 {
      assert 4 * (4 * unit) / 4 == 4 * unit;
    } else if r == 1 {
      assert 5 * (4 * unit) / 4 == 5 * unit;
    } else if r == 2 {
      assert 6 * (4 * unit) / 4 == 6 * unit;
    } else {
      assert 7 * (4 * unit) / 4 == 7 * unit;
    }
  }

  lemma ClassAt(log: nat, k: nat)
    requires log >= 2 && 3 <= k <= 7
    ensures ClassSize(4 * log - 3 + k) == k * Pow2(log - 2) + Pow2(log - 2)
  {
    if k < 7 {
      ClassOf(log, k - 3);
      assert (k + 1) * Pow2(log - 2) == k * Pow2(log - 2) + Pow2(log - 2);
    } else {
      ClassOf(log + 1, 0);
      assert Pow2(log - 1) == 2 * Pow2(log - 2);
    }
  }

  lemma QuarterOf(n: nat) returns (log: nat, unit: nat, k: nat)
    requires n >= MINIMUM_CELL
    ensures log == Log2(n) >= 3 && unit == Pow2(log - 2) && 3 <= k <= 7 && InStep(n, unit, k)
  {
    assert Pow2(3) == 8;
    Log2AtLeast(n, 3);
    log := Log2(n);
    unit := Pow2(log - 2);
    assert Pow2(log) == 2 * Pow2(log - 1) == 4 * unit;
    k := if n <= 4 * unit then 3
         else if n <= 5 * unit then 4
         else if n <= 6 * unit then 5
         else if n <= 7 * unit then 6
         else 7;
  }

  lemma PooledCeil(n: nat)
    requires n >= MINIMUM_CELL
    ensures Log2(n) >= 3 && ClassSize(ClassIndex(n, Log2(n))) == Ceil(n, Pow2(Log2(n) - 2))
  {
    var log, unit, k := QuarterOf(n);
    PooledClass(n, log, unit, k);
  }

  lemma BigClass(n: nat)
    requires n > MAX_POOLED
    ensures Log2(n) >= 14 && Served(n) == Ceil(n, Spacing(Log2(n)))
  {
    assert Pow2(14) == MAX_POOLED;
    Log2AtLeast(n, 14);
    if Log2(n) >= 63 {
      CeilOne(n);
    }
  }

  lemma {:induction false} AlignedPow2(log: nat)
    requires log >= 4
    ensures Pow2(log) % ALIGNMENT == 0
  {
    if log == 4 {
      assert Pow2(4) == 16;
    } else {
      AlignedPow2(log - 1);
      assert Pow2(log) == 2 * Pow2(log - 1);
    }
  }

  lemma SmallClass(n: nat)
    requires MINIMUM_CELL <= n <= MAX_POOLED
    ensures Log2(n) >= 3 && Served(n) == Ceil(n, Spacing(Log2(n)))
  {
    PooledServed(n);
    AlignedSpacing(n, Log2(n));
  }

  lemma AlignedSpacing(n: nat, log: nat)
    requires log >= 3 && Pow2(log) <= n < 2 * Pow2(log) && n <= MAX_POOLED
    ensures Aligned(Ceil(n, Pow2(log - 2))) == Ceil(n, Spacing(log))
  {
    if log <= 5 {
      LowClass(n, log, Pow2(log - 2));
    } else {
      MidClass(n, log);
    }
  }

  lemma MidClass(n: nat, log: nat)
    requires log > 5 && Pow2(log) <= n <= MAX_POOLED
    ensures Aligned(Ceil(n, Pow2(log - 2))) == Ceil(n, Spacing(log))
  {
    AlignedPow2(log - 2);
    CeilAligned(n, Pow2(log - 2));
    if log > 13 {
      TopClass(n, log);
    }
  }

  function Aligned(n: nat): nat {
    if n > ALIGNMENT then Ceil(n, ALIGNMENT) else n
  }

  lemma PooledServed(n: nat)
    requires MINIMUM_CELL <= n <= MAX_POOLED
    ensures Log2(n) >= 3 && Served(n) == Aligned(Ceil(n, Pow2(Log2(n) - 2)))
  {
    PooledCeil(n);
    CeilAligns(ClassSize(ClassIndex(n, Log2(n))));
  }

  lemma TopClass(n: nat, log: nat)
    requires log > 13 && Pow2(log) <= n <= MAX_POOLED
    ensures log == 14 && n == Pow2(14) && Ceil(n, Pow2(12)) == n == Ceil(n, Pow2(14))
  {
    assert Pow2(14) == MAX_POOLED && Pow2(15) == 2 * MAX_POOLED && Pow2(12) == 4096;
    Pow2Monotone(if log == 14 then 14 else 15, log);
    MultipleIsClass(4, Pow2(12));
  }

  lemma SmallAligned(n: nat)
    requires 0 < n <= 64
    ensures Ceil(n, ALIGNMENT) == if n <= 16 then 16 else if n <= 32 then 32 else if n <= 48 then 48 else 64
  {
  }

  lemma LowClass(n: nat, log: nat, unit: nat)
    requires 3 <= log <= 5 && unit == Pow2(log - 2) && Pow2(log) <= n < 2 * Pow2(log)
    ensures Aligned(Ceil(n, unit)) == Ceil(n, Spacing(log))
  {
    assert Pow2(1) == 2 && Pow2(2) == 4 && Pow2(3) == 8 && Pow2(4) == 16 && Pow2(5) == 32;
    MultipleIsClass(4, unit);
    MultipleIsClass(6, unit);
    MultipleIsClass(8, unit);
    CeilMonotone(n, if n <= 4 * unit then 4 * unit else if n <= 6 * unit then 6 * unit else 8 * unit, unit);
    SmallAligned(Ceil(n, unit));
    SmallAligned(n);
  }

  /** Everything the allocator serves, from the smallest cell up, is a request rounded up to the
      spacing of its power of two. */
  lemma ServedIsCeil(n: nat)
    requires n >= MINIMUM_CELL
    ensures Log2(n) >= 3 && Served(n) == Ceil(n, Spacing(Log2(n)))
  {
    if n > MAX_POOLED {
      BigClass(n);
    } else {
      SmallClass(n);
    }
  }

  /** A served size is below twice the request, and no more than the next power of two. */
  lemma ServedBounds(n: nat)
    requires n >= MINIMUM_CELL
    ensures n <= Served(n) < 2 * n
    ensures Served(n) <= 2 * Pow2(Log2(n))
  {
    ServedIsCeil(n);
    var log := Log2(n);
    Pow2IsClass(log);
    CeilMonotone(n, 2 * Pow2(log), Spacing(log));
    SpacingSmall(log);
  }

  lemma SpacingSmall(log: nat)
    requires log >= 3
    ensures Spacing(log) <= Pow2(log)
  {
    assert Pow2(3) == 8 && Pow2(4) == 16 && Pow2(5) == 32;
    Pow2Monotone(if log <= 5 then 3 else log - 2, log);
  }

  /** A larger request is never served less. */
  lemma ServedMonotone(a: nat, b: nat)
    requires a <= b
    ensures Served(a) <= Served(b)
  {
    var x, y := Max(a, MINIMUM_CELL), Max(b, MINIMUM_CELL);
    if a > 0 {
      assert Served(a) == Served(x) && Served(b) == Served(y);
      ServedBounds(x);
      ServedBounds(y);
      Log2Monotone(x, y);
      if Log2(x) < Log2(y) {
        Pow2Monotone(Log2(x) + 1, Log2(y));
      } else {
        ServedIsCeil(x);
        ServedIsCeil(y);
        CeilMonotone(x, y, Spacing(Log2(x)));
      }
    }
  }

  lemma SameLog(n: nat, log: nat)
    requires Pow2(log) <= n < 2 * Pow2(log)
    ensures Log2(n) == log
  {
    Log2AtLeast(n, log);
    Log2Below(n, log + 1);
  }

  /** What the allocator serves it also serves exactly. */
  lemma ServedIdempotent(n: nat)
    ensures Served(Served(n)) == Served(n)
  {
    if n > 0 {
      var m := Max(n, MINIMUM_CELL);
      var s, log := Served(m), Log2(m);
      assert Served(n) == s;
      ServedBounds(m);
      ServedIsCeil(m);
      ServedIsCeil(s);
      if s < 2 * Pow2(log) {
        SameLog(s, log);
        CeilIdempotent(m, Spacing(log));
      } else {
        SameLog(s, log + 1);
        Pow2IsClass(log + 1);
      }
    }
  }
}
