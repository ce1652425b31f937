/**
 * The tensor-pair iterators of `src/tensor_iter.rs`.
 *
 * For a buffer of 2^dimension amplitudes and a bit position `site`, both
 * iterators walk the pairs of indices (lo, hi) that differ only in bit
 * `site`. They keep two counters: `lowerIndex` runs fastest over
 * [0, 2^site) and `upperIndex` runs slowest over [0, 2^(dimension-site-1)).
 * The pair at counters (l, u) is
 *   lo = l + lowerBits * (2 * u),   hi = l + lowerBits * (2 * u + 1).
 *
 * The reference for this arithmetic is PairAt: the k-th pair is k with a 0,
 * resp. a 1, inserted at bit `site`.
 */
module TensorIterators {
  import opened Bits
  import opened Options
  import opened Types

  /** The k-th pair of the enumeration for bit `site`. */
  function PairAt(site: nat, k: nat): (nat, nat)
  {
    (InsertBit(k, site, false), InsertBit(k, site, true))
  }

  /** The low index `next` computes from its counters. */
  function LoIndex(lowerBits: nat, lower: nat, upper: nat): nat
  {
    lower + lowerBits * (2 * upper)
  }

  /** The high index `next` computes from its counters. */
  function HiIndex(lowerBits: nat, lower: nat, upper: nat): nat
  {
    lower + lowerBits * (2 * upper + 1)
  }

  /**
   * The counter arithmetic of `next` computes the reference pair: at counters
   * (lower, upper) it yields pair number lower + 2^site * upper, and the high
   * index lies exactly 2^site above the low one.
   */
  lemma CountersGivePairAt(site: nat, lower: nat, upper: nat)
    requires lower < Pow2(site)
    ensures (LoIndex(Pow2(site), lower, upper), HiIndex(Pow2(site), lower, upper))
            == PairAt(site, lower + Pow2(site) * upper)
    ensures HiIndex(Pow2(site), lower, upper) == LoIndex(Pow2(site), lower, upper) + Pow2(site)
  {
    InsertBitSplit(lower, upper, site, false);
    InsertBitSplit(lower, upper, site, true);
    assert Pow2(site) * (2 * upper + 1) == Pow2(site) * (2 * upper) + Pow2(site);
  }

  /** The two indices of a pair differ in bit `site` and in no other bit. */
  lemma PairDiffersOnlyAtSite(site: nat, k: nat)
    ensures !Bit(PairAt(site, k).0, site) && Bit(PairAt(site, k).1, site)
    ensures forall j :: j != site ==> Bit(PairAt(site, k).0, j) == Bit(PairAt(site, k).1, j)
    ensures PairAt(site, k).0 != PairAt(site, k).1
  {
    InsertBitBits(k, site, false, site);
    InsertBitBits(k, site, true, site);
    forall j | j != site
      ensures Bit(PairAt(site, k).0, j) == Bit(PairAt(site, k).1, j)
    {
      InsertBitBits(k, site, false, j);
      InsertBitBits(k, site, true, j);
    }
  }

  /** Deleting bit `site` from either index of the k-th pair gives k: pairs come in order. */
  lemma PairDeleteSite(site: nat, k: nat)
    ensures DeleteBit(PairAt(site, k).0, site) == k
    ensures DeleteBit(PairAt(site, k).1, site) == k
  {
    DeleteInsert(k, site, false);
    DeleteInsert(k, site, true);
  }

  /** There are 2^site * 2^(dimension-site-1) = 2^(dimension-1) pairs. */
  lemma PairCount(site: nat, dimension: nat)
    requires site < dimension
    ensures Pow2(site) * Pow2(dimension - site - 1) == Pow2(dimension - 1)
  {
    Pow2Add(site, dimension - site - 1);
  }

  /** Every pair of the enumeration lies inside a buffer of 2^dimension entries. */
  lemma PairInBounds(site: nat, dimension: nat, k: nat)
    requires site < dimension && k < Pow2(dimension - 1)
    ensures PairAt(site, k).0 < Pow2(dimension) && PairAt(site, k).1 < Pow2(dimension)
  {
    InsertBitBound(k, site, false, dimension - 1);
    InsertBitBound(k, site, true, dimension - 1);
  }

  /** The high index of the last pair is 2^dimension - 1, the last entry of the buffer. */
  lemma LastPairHi(site: nat, dimension: nat)
    requires site < dimension
    ensures PairAt(site, Pow2(dimension - 1) - 1).1 == Pow2(dimension) - 1
  {
    var l, u := Pow2(site), Pow2(dimension - site - 1);
    PairCount(site, dimension);
    LastCountersArith(l, u);
    InsertBitSplit(l - 1, u - 1, site, true);
  }

  lemma LastCountersArith(l: nat, u: nat)
    requires l >= 1 && u >= 1
    ensures (l - 1) + l * (u - 1) == l * u - 1
    ensures (l - 1) + l * (2 * (u - 1) + 1) == 2 * (l * u) - 1
  {
    assert l * (u - 1) == l * u - l;
    assert l * (2 * (u - 1) + 1) == 2 * (l * u) - l;
  }

  /**
   * Every index of a buffer of 2^dimension entries belongs to a pair: index x
   * is the low or high member (as bit `site` of x is clear or set) of pair
   * number DeleteBit(x, site).
   */
  lemma PairsCover(site: nat, dimension: nat, x: nat)
    requires site < dimension && x < Pow2(dimension)
    ensures DeleteBit(x, site) < Pow2(dimension - 1)
    ensures x == if Bit(x, site) then PairAt(site, DeleteBit(x, site)).1
                 else PairAt(site, DeleteBit(x, site)).0
  {
    DeleteBitBound(x, site, dimension - 1);
    InsertDelete(x, site);
  }

  /** Distinct pairs share no index; no low index is ever a high index. */
  lemma PairsDisjoint(site: nat, k1: nat, k2: nat)
    ensures PairAt(site, k1).0 != PairAt(site, k2).1
    ensures k1 != k2 ==> PairAt(site, k1).0 != PairAt(site, k2).0
    ensures k1 != k2 ==> PairAt(site, k1).1 != PairAt(site, k2).1
  {
    PairDiffersOnlyAtSite(site, k1);
    PairDiffersOnlyAtSite(site, k2);
    if k1 != k2 {
      if PairAt(site, k1).0 == PairAt(site, k2).0 {
        InsertBitInjective(k1, k2, site, false);
      }
      if PairAt(site, k1).1 == PairAt(site, k2).1 {
        InsertBitInjective(k1, k2, site, true);
      }
    }
  }

  /** The first n pairs of the enumeration for bit `site`. */
  function Enumeration(site: nat, n: nat): seq<(nat, nat)>
  {
    seq(n, k requires 0 <= k => PairAt(site, k))
  }

  /** The literal enumerations expected for dimensions 1 to 3. */
  lemma SmallEnumerations()
    ensures Enumeration(0, 1) == [(0, 1)]
    ensures Enumeration(0, 2) == [(0, 1), (2, 3)]
    ensures Enumeration(1, 2) == [(0, 2), (1, 3)]
    ensures Enumeration(0, 4) == [(0, 1), (2, 3), (4, 5), (6, 7)]
    ensures Enumeration(1, 4) == [(0, 2), (1, 3), (4, 6), (5, 7)]
    ensures Enumeration(2, 4) == [(0, 4), (1, 5), (2, 6), (3, 7)]
  {
  }

  /** One step of the two counters adds one to the number of pairs yielded. */
  lemma StepCounters(lowerBits: nat, lower: nat, upper: nat)
    requires lower < lowerBits
    ensures lower + 1 < lowerBits ==> (lower + 1) + lowerBits * upper == lower + lowerBits * upper + 1
    ensures lower + 1 >= lowerBits ==> 0 + lowerBits * (upper + 1) == lower + lowerBits * upper + 1
  {
    assert lowerBits * (upper + 1) == lowerBits * upper + lowerBits;
  }

  lemma MulLeMono(a: nat, b: nat, c: nat)
    requires b <= c
    ensures a * b <= a * c
  {
  }

  /**
   * Facts shared by both iterators: with counters in range, the number of
   * pairs already yielded is at most 2^(dimension-1), and the counters are
   * exhausted exactly when all of them have been yielded.
   */
  lemma CountersBound(site: nat, dimension: nat, lower: nat, upper: nat)
    requires site < dimension
    requires lower < Pow2(site) && upper <= Pow2(dimension - site - 1)
    requires upper == Pow2(dimension - site - 1) ==> lower == 0
    ensures lower + Pow2(site) * upper <= Pow2(dimension - 1)
    ensures upper >= Pow2(dimension - site - 1) <==> lower + Pow2(site) * upper == Pow2(dimension - 1)
  {
    var l, u := Pow2(site), Pow2(dimension - site - 1);
    PairCount(site, dimension);
    if upper < u {
      MulLeMono(l, upper + 1, u);
      assert l * (upper + 1) == l * upper + l;
    }
  }

  /** `TensorIter`: the read-only iterator over a borrowed slice. */
  class TensorIter<T> {
    const buf: seq<T>
    const lowerBits: nat
    const upperBits: nat
    var lowerIndex: nat
    var upperIndex: nat
    /** The bit position and dimension the iterator was built for; the source keeps only their powers. */
    ghost const site: nat
    ghost const dimension: nat

    ghost predicate Valid()
      reads this
    {
      && site < dimension
      && lowerBits == Pow2(site)
      && upperBits == Pow2(dimension - site - 1)
      && lowerIndex < lowerBits
      && upperIndex <= upperBits
      && (upperIndex == upperBits ==> lowerIndex == 0)
    }

    /** The number of pairs yielded so far. */
    ghost function Count(): nat
      reads this
    {
      lowerIndex + lowerBits * upperIndex
    }

    predicate Exhausted()
      reads this
    {
      upperIndex >= upperBits
    }

    /**
     * `TensorIter::new`: it checks only `dimension > site`. The shifts
     * `1 << site` and `1 << (dimension - site - 1)` are defined for shift
     * amounts below the word size.
     */
    constructor (buf: seq<T>, site: nat, dimension: nat)
      requires site < dimension && site < UsizeBits && dimension - site - 1 < UsizeBits
      ensures Valid() && Count() == 0
      ensures this.buf == buf && this.site == site && this.dimension == dimension
    {
      this.buf := buf;
      lowerBits := Pow2(site);
      upperBits := Pow2(dimension - site - 1);
      lowerIndex, upperIndex := 0, 0;
      this.site, this.dimension := site, dimension;
    }

    /** `next` reads `buf` at the pair it yields, so the pair must lie inside the slice. */
    method Next() returns (r: Option<(T, T)>)
      requires Valid()
      requires !Exhausted() ==> PairAt(site, Count()).0 < |buf| && PairAt(site, Count()).1 < |buf|
      modifies this
      ensures Valid()
      ensures Count() <= Pow2(dimension - 1)
      ensures Exhausted() <==> Count() == Pow2(dimension - 1)
      ensures old(Exhausted()) ==>
        r == None && lowerIndex == old(lowerIndex) && upperIndex == old(upperIndex)
      ensures !old(Exhausted()) ==>
        && Count() == old(Count()) + 1
        && r == Some((buf[PairAt(site, old(Count())).0], buf[PairAt(site, old(Count())).1]))
      ensures !old(Exhausted()) ==>
        if old(lowerIndex) + 1 < lowerBits
        then lowerIndex == old(lowerIndex) + 1 && upperIndex == old(upperIndex)
        else lowerIndex == 0 && upperIndex == old(upperIndex) + 1
    {
      if upperIndex >= upperBits {
        CountersBound(site, dimension, lowerIndex, upperIndex);
        return None;
      }
      CountersGivePairAt(site, lowerIndex, upperIndex);
      StepCounters(lowerBits, lowerIndex, upperIndex);
      var x := buf[LoIndex(lowerBits, lowerIndex, upperIndex)];
      var y := buf[HiIndex(lowerBits, lowerIndex, upperIndex)];
      lowerIndex := lowerIndex + 1;
      if lowerIndex >= lowerBits {
        upperIndex := upperIndex + 1;
        lowerIndex := 0;
      }
      r := Some((x, y));
      CountersBound(site, dimension, lowerIndex, upperIndex);
    }
  }

  /**
   * `TensorIter::new(buf, site, dimension).collect()`: the pairs of values at
   * the enumeration's indices, 2^(dimension-1) of them, in order. The slice
   * must hold 2^dimension entries, since the last pair reads entry
   * 2^dimension - 1 (LastPairHi).
   */
  method Collect<T>(buf: seq<T>, site: nat, dimension: nat) returns (pairs: seq<(T, T)>)
    requires site < dimension && site < UsizeBits && dimension - site - 1 < UsizeBits
    requires |buf| >= Pow2(dimension)
    ensures |pairs| == Pow2(dimension - 1)
    ensures forall k :: 0 <= k < |pairs| ==>
      && PairAt(site, k).0 < |buf| && PairAt(site, k).1 < |buf|
      && pairs[k] == (buf[PairAt(site, k).0], buf[PairAt(site, k).1])
  {
    var it := new TensorIter(buf, site, dimension);
    pairs := [];
    while true
      invariant it.Valid() && it.buf == buf && it.site == site && it.dimension == dimension
      invariant it.Count() <= Pow2(dimension - 1)
      invariant |pairs| == it.Count()
      invariant forall k :: 0 <= k < |pairs| ==>
        && PairAt(site, k).0 < |buf| && PairAt(site, k).1 < |buf|
        && pairs[k] == (buf[PairAt(site, k).0], buf[PairAt(site, k).1])
      decreases Pow2(dimension - 1) - it.Count()
    {
      if !it.Exhausted() {
        CountersBound(site, dimension, it.lowerIndex, it.upperIndex);
        PairInBounds(site, dimension, it.Count());
      }
      var r := it.Next();
      match r {
        case None =>
          break;
        case Some(p) =>
          PairInBounds(site, dimension, |pairs|);
          pairs := pairs + [p];
      }
    }
  }

  /**
   * `TensorIterMut`: the iterator over a mutably borrowed slice. Each step
   * hands out write access to two entries at once; here it yields the two
   * indices, and the caller writes through them (WriteBoth).
   */
  class TensorIterMut<T> {
    const buf: array<T>
    const lowerBits: nat
    const upperBits: nat
    var lowerIndex: nat
    var upperIndex: nat
    ghost const site: nat
    ghost const dimension: nat

    ghost predicate Valid()
      reads this
    {
      && site < dimension
      && lowerBits == Pow2(site)
      && upperBits == Pow2(dimension - site - 1)
      && lowerIndex < lowerBits
      && upperIndex <= upperBits
      && (upperIndex == upperBits ==> lowerIndex == 0)
    }

    ghost function Count(): nat
      reads this
    {
      lowerIndex + lowerBits * upperIndex
    }

    predicate Exhausted()
      reads this
    {
      upperIndex >= upperBits
    }

    /**
     * `TensorIterMut::new`: the same check and shifts as `TensorIter::new`;
     * in particular, the length of `buf` is not checked against 2^dimension.
     */
    constructor (buf: array<T>, site: nat, dimension: nat)
      requires site < dimension && site < UsizeBits && dimension - site - 1 < UsizeBits
      ensures Valid() && Count() == 0
      ensures this.buf == buf && this.site == site && this.dimension == dimension
    {
      this.buf := buf;
      lowerBits := Pow2(site);
      upperBits := Pow2(dimension - site - 1);
      lowerIndex, upperIndex := 0, 0;
      this.site, this.dimension := site, dimension;
    }

    /**
     * `next`: the same pair as TensorIter's, as two distinct in-bounds
     * indices. Only the counters change; the buffer is not touched.
     */
    method Next() returns (r: Option<(nat, nat)>)
      requires Valid()
      requires !Exhausted() ==> PairAt(site, Count()).0 < buf.Length && PairAt(site, Count()).1 < buf.Length
      modifies this
      ensures Valid()
      ensures Count() <= Pow2(dimension - 1)
      ensures Exhausted() <==> Count() == Pow2(dimension - 1)
      ensures old(Exhausted()) ==>
        r == None && lowerIndex == old(lowerIndex) && upperIndex == old(upperIndex)
      ensures !old(Exhausted()) ==>
        && Count() == old(Count()) + 1
        && r == Some(PairAt(site, old(Count())))
        && r.value.0 != r.value.1
        && r.value.0 < buf.Length && r.value.1 < buf.Length
      ensures !old(Exhausted()) ==>
        if old(lowerIndex) + 1 < lowerBits
        then lowerIndex == old(lowerIndex) + 1 && upperIndex == old(upperIndex)
        else lowerIndex == 0 && upperIndex == old(upperIndex) + 1
    {
      if upperIndex >= upperBits {
        CountersBound(site, dimension, lowerIndex, upperIndex);
        return None;
      }
      CountersGivePairAt(site, lowerIndex, upperIndex);
      StepCounters(lowerBits, lowerIndex, upperIndex);
      var indexLo := LoIndex(lowerBits, lowerIndex, upperIndex);
      var indexHi := HiIndex(lowerBits, lowerIndex, upperIndex);
      lowerIndex := lowerIndex + 1;
      if lowerIndex >= lowerBits {
        upperIndex := upperIndex + 1;
        lowerIndex := 0;
      }
      r := Some((indexLo, indexHi));
      CountersBound(site, dimension, lowerIndex, upperIndex);
    }
  }

  /**
   * `TensorIterMut::next` as written turns its indices into references with
   * `buf_ptr.offset(index)` without comparing them to the length of the
   * slice, and `new` does not check that length either. Over a slice shorter
   * than 2^dimension, the last pair of the enumeration has a high index at or
   * past the end of the slice, so the step that yields it fails Next's
   * precondition: in the source it hands out a reference outside the buffer.
   */
  lemma ShortBufferOverrun(site: nat, dimension: nat, len: nat)
    requires site < dimension && len < Pow2(dimension)
    ensures PairAt(site, Pow2(dimension - 1) - 1).1 >= len
  {
    LastPairHi(site, dimension);
  }

  /**
   * The smallest such input: a mutable iterator for site 0 and dimension 2
   * over a buffer of 2 entries. After the first step, the pair the second
   * step would hand out is (2, 3), both past the end of the buffer.
   */
  method ShortBufferSecondStep() returns (it: TensorIterMut<int>)
    ensures !it.Exhausted() && it.buf.Length == 2
    ensures PairAt(it.site, it.Count()) == (2, 3)
  {
    var buf := new int[2](i => i);
    it := new TensorIterMut(buf, 0, 2);
    var first := it.Next();
  }

  /**
   * Writing through both members of one yielded pair: both writes land, and
   * nothing else in the buffer changes. This is sound only because the two
   * indices differ.
   */
  method WriteBoth<T>(buf: array<T>, lo: nat, hi: nat, x: T, y: T)
    requires lo < buf.Length && hi < buf.Length && lo != hi
    modifies buf
    ensures buf[..] == old(buf[..])[lo := x][hi := y]
    ensures buf[lo] == x && buf[hi] == y
  {
    buf[lo] := x;
    buf[hi] := y;
  }

  /**
   * `TensorIterMut::new(buf, site, dimension).collect()`: the enumeration's
   * index pairs, 2^(dimension-1) of them, each two distinct in-bounds
   * indices; the buffer itself is left as it is.
   */
  method CollectMut<T>(buf: array<T>, site: nat, dimension: nat) returns (pairs: seq<(nat, nat)>)
    requires site < dimension && site < UsizeBits && dimension - site - 1 < UsizeBits
    requires buf.Length >= Pow2(dimension)
    ensures |pairs| == Pow2(dimension - 1)
    ensures forall k :: 0 <= k < |pairs| ==> pairs[k] == PairAt(site, k)
    ensures pairs == Enumeration(site, Pow2(dimension - 1))
    ensures forall k :: 0 <= k < |pairs| ==> pairs[k].0 != pairs[k].1 && pairs[k].0 < buf.Length && pairs[k].1 < buf.Length
  {
    var it := new TensorIterMut(buf, site, dimension);
    pairs := [];
    while true
      invariant it.Valid() && it.buf == buf && it.site == site && it.dimension == dimension
      invariant it.Count() <= Pow2(dimension - 1)
      invariant |pairs| == it.Count()
      invariant forall k :: 0 <= k < |pairs| ==> pairs[k] == PairAt(site, k)
      invariant forall k :: 0 <= k < |pairs| ==> pairs[k].0 != pairs[k].1 && pairs[k].0 < buf.Length && pairs[k].1 < buf.Length
      decreases Pow2(dimension - 1) - it.Count()
    {
      if !it.Exhausted() {
        CountersBound(site, dimension, it.lowerIndex, it.upperIndex);
        PairInBounds(site, dimension, it.Count());
      }
      var r := it.Next();
      match r {
        case None =>
          break;
        case Some(p) =>
          pairs := pairs + [p];
      }
    }
  }

  /**
   * Writing 77 and 99 through the fourth pair of the mutable enumeration of
   * bit 2 over the buffer 0..8 changes entries 3 and 7 only.
   */
  method IterMutMutability() returns (reg: array<nat>)
    ensures reg[..] == [0, 1, 2, 77, 4, 5, 6, 99]
  {
    reg := new nat[8](i => i);
    assert Pow2(3) == 8;
    var pairs := CollectMut(reg, 2, 3);
    assert pairs[3] == (3, 7);
    WriteBoth(reg, pairs[3].0, pairs[3].1, 77, 99);
  }
}
