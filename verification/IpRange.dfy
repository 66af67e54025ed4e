/**
 Matching an address against an address or a CIDR range, bit by bit under a prefix mask, and what that means:
 membership of an aligned integer interval (section 3.1 of RFC 4632 and section 2.3 of RFC 4291).
 IPv4 and IPv6 are two families told apart by length.
 */
module IpRange {
  import opened Common
  import opened Arithmetic

  /** An address as its bits, most significant first. */
  type Address = a: seq<bool> | |a| == 32 || |a| == 128 witness seq(32, _ => false)

  /** What a pattern parses to: a single address, or a range given by an address and its number of leading one bits. */
  datatype Pattern = Single(address: Address) | Prefix(address: Address, ones: nat) {
    predicate WellFormed() {
      Prefix? ==> ones <= |address|
    }
  }

  /** The text parsers of Go's net package, which are not part of this model. */
  datatype Parser = Parser(cidr: string -> Option<(Address, nat)>, ip: string -> Option<Address>)

  ghost predicate ParsesSoundly(p: Parser) {
    forall s :: p.cidr(s).Some? ==> p.cidr(s).value.1 <= |p.cidr(s).value.0|
  }

  /** A pattern is tried as a range first, then as an address; anything else matches nothing. */
  function ParsePattern(p: Parser, s: string): Option<Pattern> {
    match p.cidr(s)
    case Some((address, ones)) => Some(Prefix(address, ones))
    case None =>
      match p.ip(s)
      case Some(address) => Some(Single(address))
      case None => None
  }

  // ----- Masks -----

  /** The mask of `ones` leading one bits. */
  function Mask(ones: nat, n: nat): (m: seq<bool>)
    ensures |m| == n
  {
    seq(n, i requires 0 <= i < n => i < ones)
  }

  function And(a: seq<bool>, m: seq<bool>): (r: seq<bool>)
    requires |a| == |m|
    ensures |r| == |a|
  {
    seq(|a|, i requires 0 <= i < |a| => a[i] && m[i])
  }

  /** The network as it is kept: the address with the bits after the prefix cleared. */
  function Network(p: Pattern): (n: Address)
    requires p.Prefix?
    ensures |n| == |p.address|
  {
    And(p.address, Mask(p.ones, |p.address|))
  }

  predicate Matches(a: Address, p: Pattern) {
    match p
    case Single(address) => a == address
    case Prefix(address, ones) =>
      var n, m := Network(p), Mask(ones, |address|);
      |a| == |n| && forall i :: 0 <= i < |a| ==> (n[i] && m[i]) == (a[i] && m[i])
  }

  /** Comparing under the mask is comparing the leading bits. */
  lemma MatchesIsSamePrefix(a: Address, p: Pattern)
    requires p.WellFormed() && p.Prefix? && |a| == |p.address|
    ensures Matches(a, p) <==> a[..p.ones] == p.address[..p.ones]
  {
    var n, m := Network(p), Mask(p.ones, |a|);
    assert forall i :: 0 <= i < p.ones ==> m[i] && n[i] == p.address[i];
    if Matches(a, p) {
      forall i | 0 <= i < p.ones
        ensures a[i] == p.address[i]
      {
        assert (n[i] && m[i]) == (a[i] && m[i]);
      }
    } else if a[..p.ones] == p.address[..p.ones] {
      forall i | 0 <= i < |a|
        ensures (n[i] && m[i]) == (a[i] && m[i])
      {
        if i < p.ones {
          assert a[..p.ones][i] == p.address[..p.ones][i];
        }
      }
    }
  }

  // ----- Addresses as numbers -----

  /** The bits read as one number. */
  function Number(a: seq<bool>): nat {
    if a == [] then 0 else 2 * Number(a[..|a| - 1]) + if a[|a| - 1] then 1 else 0
  }

  function Bits(v: nat, n: nat): (a: seq<bool>)
    ensures |a| == n
  {
    if n == 0 then [] else Bits(v / 2, n - 1) + [v % 2 == 1]
  }

  lemma {:induction false} BitsNumber(v: nat, n: nat)
    requires v < Pow2(n)
    ensures Number(Bits(v, n)) == v
  {
    if n > 0 {
      BitsNumber(v / 2, n - 1);
      assert Bits(v, n)[..n - 1] == Bits(v / 2, n - 1);
    }
  }

  lemma {:induction false} NumberRange(a: seq<bool>)
    ensures Number(a) < Pow2(|a|)
  {
    if a != [] {
      NumberRange(a[..|a| - 1]);
    }
  }

  lemma {:induction false} NumberInjective(a: seq<bool>, b: seq<bool>)
    requires |a| == |b|
    ensures Number(a) == Number(b) <==> a == b
  {
    if a != [] {
      var n := |a| - 1;
      NumberInjective(a[..n], b[..n]);
      assert a == a[..n] + [a[n]] && b == b[..n] + [b[n]];
    }
  }

  /** The leading k bits give the multiple of 2^(n - k), the others the rest. */
  lemma {:induction false} NumberSplit(a: seq<bool>, k: nat)
    requires k <= |a|
    ensures Number(a) == Number(a[..k]) * Pow2(|a| - k) + Number(a[k..])
    ensures Number(a[k..]) < Pow2(|a| - k)
  {
    NumberRange(a[k..]);
    if k == |a| {
      assert a[..k] == a && a[k..] == [];
    } else {
      var n := |a| - 1;
      NumberSplit(a[..n], k);
      assert a[..n][..k] == a[..k];
      assert a[k..][..n - k] == a[..n][k..];
      Associate(Number(a[..k]), 2, Pow2(n - k));
    }
  }

  lemma PrefixIsFloor(a: seq<bool>, k: nat)
    requires k <= |a|
    ensures Floor(Number(a), Pow2(|a| - k)) == Number(a[..k]) * Pow2(|a| - k)
  {
    NumberSplit(a, k);
    FloorUnique(Number(a[..k]), Pow2(|a| - k), Number(a));
  }

  // ----- Matching is membership of an aligned interval -----

  function Size(p: Pattern): nat
    requires p.WellFormed()
  {
    if p.Single? then 1 else Pow2(|p.address| - p.ones)
  }

  function First(p: Pattern): nat
    requires p.WellFormed()
  {
    Floor(Number(p.address), Size(p))
  }

  /** Matching by masking is membership of the interval of numbers [First, First + Size), in the pattern's family. */
  lemma MatchesIsInterval(a: Address, p: Pattern)
    requires p.WellFormed()
    ensures Matches(a, p) <==> |a| == |p.address| && First(p) <= Number(a) < First(p) + Size(p)
  {
    if |a| == |p.address| {
      if p.Single? {
        NumberInjective(a, p.address);
        FloorUnique(Number(p.address), 1, Number(p.address));
      } else {
        PrefixIsInterval(a, p);
      }
    }
  }

  /** The interval is aligned: it starts at a multiple of its length, which is a power of two. */
  lemma IntervalIsAligned(p: Pattern)
    requires p.WellFormed()
    ensures exists k: nat :: First(p) == k * Size(p)
    ensures exists bits: nat :: Size(p) == Pow2(bits)
  {
    var k := FloorIsMultiple(Number(p.address), Size(p));
    SizeOfBits(p);
  }

  /** Two addresses share their leading bits exactly when their numbers round down to the same multiple. */
  lemma SamePrefixIsSameFloor(a: seq<bool>, b: seq<bool>, k: nat)
    requires |a| == |b| && k <= |a|
    ensures a[..k] == b[..k] <==> Floor(Number(a), Pow2(|a| - k)) == Floor(Number(b), Pow2(|a| - k))
  {
    PrefixIsFloor(a, k);
    PrefixIsFloor(b, k);
    NumberInjective(a[..k], b[..k]);
    NextMultiple(Number(a[..k]), Number(b[..k]), Pow2(|a| - k));
    NextMultiple(Number(b[..k]), Number(a[..k]), Pow2(|a| - k));
  }

  lemma PrefixIsInterval(a: Address, p: Pattern)
    requires p.WellFormed() && p.Prefix? && |a| == |p.address|
    ensures Matches(a, p) <==> First(p) <= Number(a) < First(p) + Size(p)
  {
    MatchesIsSamePrefix(a, p);
    SamePrefixIsSameFloor(a, p.address, p.ones);
    SameFloor(Number(a), Number(p.address), Size(p));
  }

  // ----- Two ranges -----

  /** Every address that `q` matches is matched by `p`. */
  ghost predicate Covers(p: Pattern, q: Pattern) {
    forall a: Address :: Matches(a, q) ==> Matches(a, p)
  }

  ghost predicate Disjoint(p: Pattern, q: Pattern) {
    forall a: Address :: !(Matches(a, q) && Matches(a, p))
  }

  function PrefixLength(p: Pattern): nat {
    if p.Single? then |p.address| else p.ones
  }

  lemma SizeOfBits(p: Pattern)
    requires p.WellFormed()
    ensures PrefixLength(p) <= |p.address| && Size(p) == Pow2(|p.address| - PrefixLength(p))
  {
  }

  /** The interval of `q` lies inside that of `p`. */
  predicate Contains(p: Pattern, q: Pattern)
    requires p.WellFormed() && q.WellFormed()
  {
    |p.address| == |q.address| && First(p) <= First(q) && First(q) + Size(q) <= First(p) + Size(p)
  }

  /** The two intervals share no number. */
  predicate Apart(p: Pattern, q: Pattern)
    requires p.WellFormed() && q.WellFormed()
  {
    |p.address| != |q.address| || First(p) + Size(p) <= First(q) || First(q) + Size(q) <= First(p)
  }

  lemma AddressOfNumber(v: nat, n: nat)
    requires n == 32 || n == 128
    requires v < Pow2(n)
    ensures exists a: Address :: |a| == n && Number(a) == v
  {
    BitsNumber(v, n);
    var a: Address := Bits(v, n);
  }

  lemma AddressIn(q: Pattern, v: nat)
    requires q.WellFormed() && First(q) <= v < First(q) + Size(q)
    ensures exists a: Address :: Matches(a, q) && |a| == |q.address| && Number(a) == v
  {
    BlockFits(q);
    AddressOfNumber(v, |q.address|);
    var a: Address :| |a| == |q.address| && Number(a) == v;
    MatchesIsInterval(a, q);
  }

  /** Covering is containment of the intervals. */
  lemma CoversIsContainment(p: Pattern, q: Pattern)
    requires p.WellFormed() && q.WellFormed()
    ensures Covers(p, q) <==> Contains(p, q)
  {
    if Covers(p, q) {
      AddressIn(q, First(q));
      AddressIn(q, First(q) + Size(q) - 1);
      var lo: Address :| Matches(lo, q) && |lo| == |q.address| && Number(lo) == First(q);
      var hi: Address :| Matches(hi, q) && |hi| == |q.address| && Number(hi) == First(q) + Size(q) - 1;
      MatchesIsInterval(lo, p);
      MatchesIsInterval(hi, p);
    }
    if Contains(p, q) {
      forall a: Address
        ensures Matches(a, q) ==> Matches(a, p)
      {
        MatchesIsInterval(a, q);
        MatchesIsInterval(a, p);
      }
    }
  }

  /** Matching no address in common is having disjoint intervals. */
  lemma DisjointIsApart(p: Pattern, q: Pattern)
    requires p.WellFormed() && q.WellFormed()
    ensures Disjoint(p, q) <==> Apart(p, q)
  {
    if Apart(p, q) {
      forall a: Address
        ensures !(Matches(a, q) && Matches(a, p))
      {
        MatchesIsInterval(a, q);
        MatchesIsInterval(a, p);
      }
    } else {
      var v := Max(First(p), First(q));
      AddressIn(q, v);
      var a: Address :| Matches(a, q) && |a| == |q.address| && Number(a) == v;
      MatchesIsInterval(a, p);
    }
  }

  /** Aligned intervals of one family that share a number are nested, the one with the longer prefix inside. */
  lemma IntervalsNest(p: Pattern, q: Pattern, x: nat)
    requires p.WellFormed() && q.WellFormed() && |p.address| == |q.address| && PrefixLength(p) <= PrefixLength(q)
    requires First(p) <= x < First(p) + Size(p) && First(q) <= x < First(q) + Size(q)
    ensures Contains(p, q)
  {
    SizeOfBits(p);
    SizeOfBits(q);
    Pow2Sum(|q.address| - PrefixLength(q), PrefixLength(q) - PrefixLength(p));
    SameFloor(x, Number(p.address), Size(p));
    SameFloor(x, Number(q.address), Size(q));
    CoarserBlock(Size(q), Pow2(PrefixLength(q) - PrefixLength(p)), x);
  }

  /** Any two patterns are nested or disjoint, and which it is can be read off the intervals. */
  lemma NestedOrDisjoint(p: Pattern, q: Pattern)
    requires p.WellFormed() && q.WellFormed()
    ensures Contains(p, q) || Contains(q, p) || Apart(p, q)
    ensures Covers(p, q) || Covers(q, p) || Disjoint(p, q)
  {
    CoversIsContainment(p, q);
    CoversIsContainment(q, p);
    DisjointIsApart(p, q);
    if !Apart(p, q) {
      var x := Max(First(p), First(q));
      if PrefixLength(p) <= PrefixLength(q) {
        IntervalsNest(p, q, x);
      } else {
        IntervalsNest(q, p, x);
      }
    }
  }

  /** Covering can be read off the two patterns: same family, no longer a prefix, and the covered address matches. */
  lemma CoversIff(p: Pattern, q: Pattern)
    requires p.WellFormed() && q.WellFormed()
    ensures Covers(p, q) <==> |p.address| == |q.address| && PrefixLength(p) <= PrefixLength(q) && Matches(q.address, p)
  {
    MatchesIsInterval(q.address, p);
    MatchesIsInterval(q.address, q);
    CoversIsContainment(p, q);
    if Covers(p, q) {
      if PrefixLength(p) > PrefixLength(q) {
        LongerHalves(p, q);
      }
    } else if |p.address| == |q.address| && PrefixLength(p) <= PrefixLength(q) && Matches(q.address, p) {
      IntervalsNest(p, q, Number(q.address));
    }
  }

  /** A longer prefix leaves at most half as many addresses. */
  lemma LongerHalves(p: Pattern, q: Pattern)
    requires p.WellFormed() && q.WellFormed() && |p.address| == |q.address| && PrefixLength(p) > PrefixLength(q)
    ensures Size(q) >= 2 * Size(p)
  {
    SizeOfBits(p);
    SizeOfBits(q);
    Pow2Monotone(|q.address| - PrefixLength(p) + 1, |q.address| - PrefixLength(q));
  }

  lemma BlockFits(q: Pattern)
    requires q.WellFormed()
    ensures First(q) + Size(q) <= Pow2(|q.address|)
  {
    var n := |q.address|;
    SizeOfBits(q);
    NumberRange(q.address);
    Pow2Sum(n - PrefixLength(q), PrefixLength(q));
    FloorUnique(0, Pow2(n), Number(q.address));
    CoarserBlock(Size(q), Pow2(PrefixLength(q)), Number(q.address));
  }

  // ----- Covering by many patterns -----

  /** One half of a range: the range of those addresses whose next bit is `bit`. */
  function Half(p: Pattern, bit: bool): (h: Pattern)
    requires p.Prefix? && p.ones < |p.address|
    ensures h.WellFormed() && |h.address| == |p.address| && PrefixLength(h) == PrefixLength(p) + 1
  {
    Prefix(p.address[p.ones := bit], p.ones + 1)
  }

  lemma HalfPrefix(p: Pattern, bit: bool, a: Address)
    requires p.Prefix? && p.ones < |p.address| == |a|
    ensures (a[..p.ones + 1] == Half(p, bit).address[..p.ones + 1])
            == (a[..p.ones] == p.address[..p.ones] && a[p.ones] == bit)
  {
    var k := p.ones;
    var left, right := a[..k + 1], Half(p, bit).address[..k + 1];
    assert left == a[..k] + [a[k]] && right == p.address[..k] + [bit];
    assert left[..k] == a[..k] && right[..k] == p.address[..k] && left[k] == a[k] && right[k] == bit;
  }

  lemma Halves(p: Pattern, a: Address)
    requires p.Prefix? && p.ones < |p.address|
    ensures Matches(a, p) <==> Matches(a, Half(p, false)) || Matches(a, Half(p, true))
  {
    if |a| == |p.address| {
      MatchesIsSamePrefix(a, p);
      forall bit
        ensures Matches(a, Half(p, bit)) <==> a[..p.ones] == p.address[..p.ones] && a[p.ones] == bit
      {
        HalfPrefix(p, bit, a);
        MatchesIsSamePrefix(a, Half(p, bit));
      }
    }
  }

  /**
   Do the patterns together match everything that `p` does?  Decided by halving until one contains the rest or all are
   apart from it.
   */
  predicate CoveredBy(p: Pattern, qs: seq<Pattern>)
    requires p.WellFormed() && forall i :: 0 <= i < |qs| ==> qs[i].WellFormed()
    decreases |p.address| - PrefixLength(p)
  {
    || (exists i :: 0 <= i < |qs| && Contains(qs[i], p))
    || (&& PrefixLength(p) < |p.address|
        && (exists i :: 0 <= i < |qs| && !Apart(qs[i], p))
        && CoveredBy(Half(p, false), qs) && CoveredBy(Half(p, true), qs))
  }

  ghost predicate MatchedByAny(a: Address, qs: seq<Pattern>) {
    exists i :: 0 <= i < |qs| && Matches(a, qs[i])
  }

  /**
   A range that no pattern contains, and that is one address or apart from all of them, has an address none matches.
   */
  lemma OwnAddressLeft(p: Pattern, qs: seq<Pattern>)
    requires p.WellFormed() && forall i :: 0 <= i < |qs| ==> qs[i].WellFormed() && !Contains(qs[i], p)
    requires PrefixLength(p) == |p.address| || forall i :: 0 <= i < |qs| ==> Apart(qs[i], p)
    ensures Matches(p.address, p) && !MatchedByAny(p.address, qs)
  {
    MatchesIsInterval(p.address, p);
    forall i | 0 <= i < |qs|
      ensures !Matches(p.address, qs[i])
    {
      CoversIff(qs[i], p);
      CoversIsContainment(qs[i], p);
      DisjointIsApart(qs[i], p);
      SizeOfBits(qs[i]);
      MatchesIsInterval(p.address, qs[i]);
    }
  }

  lemma {:induction false} CoveredByIff(p: Pattern, qs: seq<Pattern>)
    requires p.WellFormed() && forall i :: 0 <= i < |qs| ==> qs[i].WellFormed()
    ensures CoveredBy(p, qs) <==> forall a: Address :: Matches(a, p) ==> MatchedByAny(a, qs)
    decreases |p.address| - PrefixLength(p)
  {
    if i :| 0 <= i < |qs| && Contains(qs[i], p) {
      CoversIsContainment(qs[i], p);
    } else if PrefixLength(p) == |p.address| || forall i :: 0 <= i < |qs| ==> Apart(qs[i], p) {
      OwnAddressLeft(p, qs);
    } else {
      CoveredByIff(Half(p, false), qs);
      CoveredByIff(Half(p, true), qs);
      forall a: Address
        ensures Matches(a, p) <==> Matches(a, Half(p, false)) || Matches(a, Half(p, true))
      {
        Halves(p, a);
      }
    }
  }
}
