/** Option, integer helpers and the counting lemmas shared by the protocol proofs. */
module Common {
  import opened Arithmetic

  datatype Option<+T> = None | Some(value: T)

  function Min(a: int, b: int): int {
    if a <= b then a else b
  }

  function Max(a: int, b: int): int {
    if a >= b then a else b
  }

  /** Go's integer division: the quotient is truncated toward zero. */
  function TruncDiv(a: int, b: int): int
    requires b > 0
  {
    if a >= 0 then a / b else -((-a) / b)
  }

  /** A set on which `rank` is injective with values in 1..bound has at most `bound` elements. */
  lemma {:induction false} InjectiveBound(s: set<nat>, rank: map<nat, int>, bound: int)
    requires s <= rank.Keys
    requires forall x :: x in s ==> 1 <= rank[x] <= bound
    requires forall x, y :: x in s && y in s && rank[x] == rank[y] ==> x == y
    ensures |s| <= Max(0, bound)
  {
    if s != {} {
      if top :| top in s && rank[top] == bound {
        InjectiveBound(s - {top}, rank, bound - 1);
      } else {
        var x :| x in s;
        InjectiveBound(s, rank, bound - 1);
      }
    }
  }

  /** The members of `s` that carry tag `k`. */
  ghost function Fiber<K(!new)>(s: set<nat>, tag: map<nat, K>, k: K): set<nat>
    requires s <= tag.Keys
  {
    set x | x in s && tag[x] == k
  }

  lemma AddBounds(first: nat, rest: nat, count: nat, unit: nat, bound: int)
    requires count > 0 && unit * first <= bound && unit * rest <= (count - 1) * bound
    ensures unit * (first + rest) <= count * bound
  {
    Distribute(first, rest, unit);
    Distribute(count - 1, 1, bound);
  }

  lemma WithoutFiber<K(!new)>(s: set<nat>, tag: map<nat, K>, k: K)
    requires s <= tag.Keys
    ensures var rest := s - Fiber(s, tag, k);
            && |s| == |Fiber(s, tag, k)| + |rest|
            && (forall x :: x in rest ==> tag[x] != k)
            && (forall j :: j != k ==> Fiber(rest, tag, j) == Fiber(s, tag, j))
  {
    assert s == Fiber(s, tag, k) + (s - Fiber(s, tag, k));
  }

  /**
   Summing a bound per tag: when every fibre weighs at most `bound`, the whole set weighs at most |labels| * bound.
   */
  lemma {:induction false} FiberBound<K(!new)>(s: set<nat>, tag: map<nat, K>, labels: set<K>, unit: nat, bound: int)
    requires s <= tag.Keys
    requires forall x :: x in s ==> tag[x] in labels
    requires forall k :: k in labels ==> unit * |Fiber(s, tag, k)| <= bound
    ensures unit * |s| <= |labels| * bound
  {
    if labels == {} {
      assert s == {};
    } else {
      var k :| k in labels;
      var fiber := Fiber(s, tag, k);
      WithoutFiber(s, tag, k);
      FiberBound(s - fiber, tag, labels - {k}, unit, bound);
      AddBounds(|fiber|, |s - fiber|, |labels|, unit, bound);
    }
  }

  /** The integers lo..hi, both included. */
  function Range(lo: int, hi: int): (r: set<int>)
    ensures forall x :: x in r <==> lo <= x <= hi
    ensures |r| == Max(0, hi - lo + 1)
    decreases hi - lo
  {
    if lo > hi then {} else Range(lo, hi - 1) + {hi}
  }
}
