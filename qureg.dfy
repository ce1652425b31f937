/**
 * `Qureg` (`src/qureg.rs`): a register of n qubits holding the 2^n complex
 * amplitudes of the computational basis states, without a random source.
 */
module Quregs {
  import opened Bits
  import opened Options
  import opened Types
  import Qubits

  class Qureg {
    const numQubits: NonZeroU16
    const amp: array<Complex>

    /** The buffer holds one amplitude per basis state. */
    ghost predicate Valid()
      reads this
    {
      amp.Length == Pow2(numQubits as nat)
    }

    /**
     * `Qureg::new`: 2^n amplitudes in the all-zero basis state. `num_qubits()`
     * is the constant field `numQubits`, so it stays the constructor argument.
     */
    constructor (numQubits: NonZeroU16)
      requires numQubits as nat < UsizeBits
      ensures Valid() && fresh(amp)
      ensures this.numQubits == numQubits
      ensures amp.Length == Pow2(numQubits as nat)
      ensures amp[0] == One
      ensures forall i :: 1 <= i < amp.Length ==> amp[i] == Zero
      ensures TotalProbability(amp[..]) == 1.0
    {
      var a := new Complex[Pow2(numQubits as nat)](_ => Zero);
      a[0] := One;
      BasisStateTotal(a[..], 0);
      this.numQubits := numQubits;
      this.amp := a;
    }

    /** `as_slice`: the amplitudes, one per basis state. */
    function AsSlice(): (s: seq<Complex>)
      requires Valid()
      reads this, amp
      ensures |s| == Pow2(numQubits as nat)
      ensures forall i :: 0 <= i < |s| ==> s[i] == amp[i]
    {
      amp[..]
    }

    /** `as_mut_slice`: the register's own buffer, so writes through it are seen by AsSlice. */
    method AsMutSlice() returns (s: array<Complex>)
      requires Valid()
      ensures s == amp && s.Length == Pow2(numQubits as nat)
    {
      s := amp;
    }

    /** `qubit`: `None` exactly when the index is not below the qubit count. */
    method Qubit(index: u16) returns (q: Option<Qubits.Qubit<Qureg>>)
      ensures q.None? <==> index >= numQubits
      ensures q.Some? ==> q.value.index == index && q.value.lock.guarded == this
    {
      q := Qubits.New(this, numQubits, index);
    }

    /** `qubit_pair`: `None` exactly when an index is out of range or the two are equal. */
    method QubitPair(index1: u16, index2: u16) returns (p: Option<(Qubits.Qubit<Qureg>, Qubits.Qubit<Qureg>)>)
      ensures p.None? <==> (index1 >= numQubits || index2 >= numQubits || index1 == index2)
      ensures p.Some? ==> p.value.0.index == index1 && p.value.1.index == index2
      ensures p.Some? ==> Qubits.Siblings(p.value.0, p.value.1) && p.value.0.lock.guarded == this
    {
      p := Qubits.NewPair(this, numQubits, index1, index2);
    }
  }

  /** Writing one entry through `as_mut_slice` changes exactly that entry of `as_slice`. */
  method WriteThroughMutSlice(qureg: Qureg, i: nat, v: Complex)
    requires qureg.Valid() && i < qureg.amp.Length
    modifies qureg.amp
    ensures qureg.Valid()
    ensures qureg.AsSlice() == old(qureg.AsSlice())[i := v]
  {
    var s := qureg.AsMutSlice();
    s[i] := v;
  }
}
