/**
 * Bit-level reference definitions for basis-state indices.
 *
 * An index into an amplitude buffer of 2^n entries is an n-bit number whose
 * bit k is the classical value of qubit k. The definitions here are
 * structural (one bit at a time, by halving), so that they can serve as an
 * independent reference for the closed-form index arithmetic the tensor-pair
 * iterator uses.
 */
module Bits {

  /** 2^k, i.e. `1 << k` without a word-size limit. */
  function Pow2(k: nat): (r: nat)
    ensures r >= 1
    ensures k > 0 ==> r % 2 == 0
  {
    if k == 0 then 1 else 2 * Pow2(k - 1)
  }

  lemma {:induction false} Pow2Add(a: nat, b: nat)
    ensures Pow2(a + b) == Pow2(a) * Pow2(b)
  {
    if a > 0 {
      Pow2Add(a - 1, b);
      assert Pow2(a + b) == 2 * Pow2(a - 1 + b);
      assert Pow2(a) * Pow2(b) == 2 * (Pow2(a - 1) * Pow2(b));
    }
  }

  /** Bit j of x: true when it is set. */
  function Bit(x: nat, j: nat): bool
  {
    if j == 0 then x % 2 == 1 else Bit(x / 2, j - 1)
  }

  /**
   * x with the bit b inserted at position s: the s low bits of x stay where
   * they are, bit s becomes b, and the remaining bits of x move up by one.
   */
  function InsertBit(x: nat, s: nat, b: bool): nat
  {
    if s == 0 then 2 * x + (if b then 1 else 0)
    else 2 * InsertBit(x / 2, s - 1, b) + x % 2
  }

  /** x with bit s removed: the bits above s move down by one. */
  function DeleteBit(x: nat, s: nat): nat
  {
    if s == 0 then x / 2
    else 2 * DeleteBit(x / 2, s - 1) + x % 2
  }

  /** Bit by bit, InsertBit(x, s, b) is x below s, b at s and x shifted above s. */
  lemma {:induction false} InsertBitBits(x: nat, s: nat, b: bool, j: nat)
    ensures Bit(InsertBit(x, s, b), j) ==
            if j < s then Bit(x, j) else if j == s then b else Bit(x, j - 1)
  {
    var y := InsertBit(x, s, b);
    if s == 0 {
      assert y / 2 == x;
    } else if j > 0 {
      var y' := InsertBit(x / 2, s - 1, b);
      assert y / 2 == y';
      InsertBitBits(x / 2, s - 1, b, j - 1);
    }
  }

  /** Deleting the inserted bit gives back the original number. */
  lemma {:induction false} DeleteInsert(x: nat, s: nat, b: bool)
    ensures DeleteBit(InsertBit(x, s, b), s) == x
  {
    if s > 0 {
      var y := InsertBit(x, s, b);
      assert y / 2 == InsertBit(x / 2, s - 1, b) && y % 2 == x % 2;
      DeleteInsert(x / 2, s - 1, b);
    }
  }

  /** Re-inserting the deleted bit gives back the original number. */
  lemma {:induction false} InsertDelete(x: nat, s: nat)
    ensures InsertBit(DeleteBit(x, s), s, Bit(x, s)) == x
  {
    if s > 0 {
      var d := DeleteBit(x, s);
      assert d / 2 == DeleteBit(x / 2, s - 1) && d % 2 == x % 2;
      InsertDelete(x / 2, s - 1);
    }
  }

  /** InsertBit is injective in the number it inserts into. */
  lemma InsertBitInjective(x: nat, y: nat, s: nat, b: bool)
    requires InsertBit(x, s, b) == InsertBit(y, s, b)
    ensures x == y
  {
    DeleteInsert(x, s, b);
    DeleteInsert(y, s, b);
  }

  /** Inserting a bit into a number of n bits gives a number of n + 1 bits. */
  lemma {:induction false} InsertBitBound(x: nat, s: nat, b: bool, n: nat)
    requires s <= n && x < Pow2(n)
    ensures InsertBit(x, s, b) < Pow2(n + 1)
  {
    if s > 0 {
      assert x / 2 < Pow2(n - 1);
      InsertBitBound(x / 2, s - 1, b, n - 1);
    }
  }

  /** Deleting a bit from a number of n + 1 bits gives a number of n bits. */
  lemma {:induction false} DeleteBitBound(x: nat, s: nat, n: nat)
    requires s <= n && x < Pow2(n + 1)
    ensures DeleteBit(x, s) < Pow2(n)
  {
    if s > 0 {
      assert x / 2 < Pow2(n);
      DeleteBitBound(x / 2, s - 1, n - 1);
    }
  }

  /**
   * The closed form of InsertBit: for a < 2^s, inserting b at position s
   * into a + 2^s * m gives a + 2^s * (2 * m + b).
   */
  lemma {:induction false} InsertBitSplit(a: nat, m: nat, s: nat, b: bool)
    requires a < Pow2(s)
    ensures InsertBit(a + Pow2(s) * m, s, b) == a + Pow2(s) * (2 * m + (if b then 1 else 0))
  {
    var bit := if b then 1 else 0;
    if s == 0 {
      assert a == 0 && Pow2(s) == 1;
    } else {
      var p := Pow2(s - 1);
      assert Pow2(s) == 2 * p;
      var c := p * m;
      var x := a + Pow2(s) * m;
      assert x == a + 2 * c by { MulTwice(p, m); }
      HalveEven(a, c);
      assert a / 2 < p;
      InsertBitSplit(a / 2, m, s - 1, b);
      var c' := p * (2 * m + bit);
      assert InsertBit(x, s, b) == 2 * (a / 2 + c') + a % 2;
      assert Pow2(s) * (2 * m + bit) == 2 * c' by { MulTwice(p, 2 * m + bit); }
    }
  }

  lemma MulTwice(p: nat, m: nat)
    ensures (2 * p) * m == 2 * (p * m)
  {
  }

  lemma HalveEven(a: nat, c: nat)
    ensures (a + 2 * c) / 2 == a / 2 + c && (a + 2 * c) % 2 == a % 2
  {
  }
}
