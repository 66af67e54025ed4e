/** Facts about products, quotients and powers of two that the interval proofs need. */
module Arithmetic {
  lemma MulMonotone(a: int, b: int, unit: nat)
    ensures a <= b ==> a * unit <= b * unit
  {
  }

  lemma Distribute(a: int, b: int, unit: int)
    ensures (a + b) * unit == a * unit + b * unit
    ensures unit * (a + b) == unit * a + unit * b
  {
  }

  lemma Associate(a: int, b: int, c: int)
    ensures a * (b * c) == (a * b) * c == (a * c) * b
  {
  }

  /** The largest multiple of `size` that is at most v. */
  function Floor(v: nat, size: nat): (r: nat)
    requires size > 0
    ensures r <= v < r + size
  {
    if v < size then 0 else size + Floor(v - size, size)
  }

  lemma {:induction false} FloorIsMultiple(v: nat, size: nat) returns (k: nat)
    requires size > 0
    ensures Floor(v, size) == k * size
  {
    if v < size {
      k := 0;
    } else {
      k := FloorIsMultiple(v - size, size);
      Distribute(k, 1, size);
      k := k + 1;
    }
  }

  /** A multiple of `size` is the floor of everything less than `size` above it. */
  lemma {:induction false} FloorUnique(k: nat, size: nat, v: nat)
    requires size > 0 && k * size <= v < k * size + size
    ensures Floor(v, size) == k * size
  {
    if k > 0 {
      Distribute(k - 1, 1, size);
      FloorUnique(k - 1, size, v - size);
    }
  }

  lemma SameFloor(v: nat, w: nat, size: nat)
    requires size > 0
    ensures Floor(v, size) == Floor(w, size) <==> Floor(w, size) <= v < Floor(w, size) + size
  {
    var k := FloorIsMultiple(w, size);
    if Floor(w, size) <= v < Floor(w, size) + size {
      FloorUnique(k, size, v);
    }
  }

  /** Aligned blocks that meet are nested: the smaller lies inside the larger. */
  lemma CoarserBlock(size: nat, times: nat, x: nat)
    requires size > 0 && times > 0 && size * times > 0
    ensures Floor(x, size * times) <= Floor(x, size)
    ensures Floor(x, size) + size <= Floor(x, size * times) + size * times
  {
    var k := FloorIsMultiple(x, size);
    var j := FloorIsMultiple(x, size * times);
    Associate(j, size, times);
    NextMultiple(k, j * times, size);
    NextMultiple(j * times + times, k + 1, size);
    Distribute(j * times, times, size);
    Distribute(k, 1, size);
    MulMonotone(j * times, k, size);
    MulMonotone(k + 1, j * times + times, size);
  }

  /** Multiples are a whole unit apart. */
  lemma NextMultiple(a: int, b: int, unit: nat)
    ensures a < b ==> a * unit + unit <= b * unit
  {
    Distribute(a, 1, unit);
    MulMonotone(a + 1, b, unit);
  }

  function Pow2(n: nat): (r: nat)
    ensures r > 0
  {
    if n == 0 then 1 else 2 * Pow2(n - 1)
  }

  lemma {:induction false} Pow2Sum(a: nat, b: nat)
    ensures Pow2(a + b) == Pow2(a) * Pow2(b)
  {
    if a > 0 {
      Pow2Sum(a - 1, b);
      Associate(2, Pow2(a - 1), Pow2(b));
    }
  }

  lemma Pow2Monotone(a: nat, b: nat)
    requires a <= b
    ensures Pow2(a) <= Pow2(b)
  {
    Pow2Sum(a, b - a);
    MulMonotone(1, Pow2(b - a), Pow2(a));
  }

  lemma SmallPowers()
    ensures Pow2(0) == 1 && Pow2(1) == 2 && Pow2(2) == 4 && Pow2(3) == 8 && Pow2(4) == 16
    ensures Pow2(5) == 32 && Pow2(6) == 64 && Pow2(7) == 128 && Pow2(8) == 256
  {
  }
}
