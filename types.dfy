/** Machine integer widths and the amplitude type shared by the registers. */
module Types {

  newtype u16 = x: int | 0 <= x < 0x1_0000
  newtype u64 = x: int | 0 <= x < 0x1_0000_0000_0000_0000

  /** The qubit count of a register is a `NonZeroU16`. */
  type NonZeroU16 = x: u16 | 1 <= x witness 1

  /** Width of `usize` on the 64-bit targets the crate is built for. */
  const UsizeBits: nat := 64

  /**
   * A complex amplitude. Only the exact values 0 and 1 are ever written by
   * the modelled code, so the floating-point parameter of the source is
   * modelled by exact reals.
   */
  datatype Complex = Complex(re: real, im: real)

  const Zero: Complex := Complex(0.0, 0.0)
  const One: Complex := Complex(1.0, 0.0)

  /** |c|^2, the probability mass of one amplitude. */
  function NormSq(c: Complex): real
  {
    c.re * c.re + c.im * c.im
  }

  /** The sum of |amplitude|^2 over a buffer. */
  function TotalProbability(s: seq<Complex>): real
  {
    if |s| == 0 then 0.0 else NormSq(s[0]) + TotalProbability(s[1..])
  }

  lemma {:induction false} AllZeroTotal(s: seq<Complex>)
    requires forall j :: 0 <= j < |s| ==> s[j] == Zero
    ensures TotalProbability(s) == 0.0
  {
    if |s| > 0 {
      AllZeroTotal(s[1..]);
    }
  }

  /**
   * A definite basis state (amplitude 1 at one index, 0 elsewhere), such as
   * the all-zero state a new register starts in, has total probability 1.
   */
  lemma {:induction false} BasisStateTotal(s: seq<Complex>, i: nat)
    requires i < |s| && s[i] == One
    requires forall j :: 0 <= j < |s| && j != i ==> s[j] == Zero
    ensures TotalProbability(s) == 1.0
  {
    if i == 0 {
      AllZeroTotal(s[1..]);
    } else {
      BasisStateTotal(s[1..], i - 1);
    }
  }
}
