/**
 * `Register` (`src/reg.rs`): a register of n qubits holding the 2^n complex
 * amplitudes of the computational basis states and a seeded random source.
 */
module Registers {
  import opened Bits
  import opened Options
  import opened Types
  import Qubits

  /**
   * The state of the ChaCha8 generator seeded from a `u64`. Its algorithm is
   * not modelled; only the seed it starts from is recorded.
   */
  datatype Rng = ChaCha8(seed: u64)

  class Register {
    var rng: Rng
    const numQubits: NonZeroU16
    const amp: array<Complex>

    /** The buffer holds one amplitude per basis state. */
    ghost predicate Valid()
      reads this
    {
      amp.Length == Pow2(numQubits as nat)
    }

    /**
     * `Register::new`: 2^n amplitudes in the all-zero basis state and a
     * generator seeded with `seed`. `num_qubits()` is the constant field
     * `numQubits`, so it stays the constructor argument.
     */
    constructor (numQubits: NonZeroU16, seed: u64)
      requires numQubits as nat < UsizeBits
      ensures Valid() && fresh(amp)
      ensures this.numQubits == numQubits && rng == ChaCha8(seed)
      ensures amp.Length == Pow2(numQubits as nat)
      ensures amp[0] == One
      ensures forall i :: 1 <= i < amp.Length ==> amp[i] == Zero
      ensures TotalProbability(amp[..]) == 1.0
    {
      var a := new Complex[Pow2(numQubits as nat)](_ => Zero);
      a[0] := One;
      BasisStateTotal(a[..], 0);
      this.rng := ChaCha8(seed);
      this.numQubits := numQubits;
      this.amp := a;
    }

    /** `as_slice`: the amplitudes, one per basis state. */
    function AsSlice(): (s: seq<Complex>)
      requires Valid()
      reads this, amp
      ensures |s| == Pow2(numQubits as nat)
      ensures forall i :: 0 <= i < |s| ==> s[i] == amp[i]
    {
      amp[..]
    }

    /** `as_mut_slice`: the register's own buffer, so writes through it are seen by AsSlice. */
    method AsMutSlice() returns (s: array<Complex>)
      requires Valid()
      ensures s == amp && s.Length == Pow2(numQubits as nat)
    {
      s := amp;
    }

    /** `qubit`: `None` exactly when the index is not below the qubit count. */
    method Qubit(index: u16) returns (q: Option<Qubits.Qubit<Register>>)
      ensures q.None? <==> index >= numQubits
      ensures q.Some? ==> q.value.index == index && q.value.lock.guarded == this
    {
      q := Qubits.New(this, numQubits, index);
    }

    /** `qubit_pair`: `None` exactly when an index is out of range or the two are equal. */
    method QubitPair(index1: u16, index2: u16) returns (p: Option<(Qubits.Qubit<Register>, Qubits.Qubit<Register>)>)
      ensures p.None? <==> (index1 >= numQubits || index2 >= numQubits || index1 == index2)
      ensures p.Some? ==> p.value.0.index == index1 && p.value.1.index == index2
      ensures p.Some? ==> Qubits.Siblings(p.value.0, p.value.1) && p.value.0.lock.guarded == this
    {
      p := Qubits.NewPair(this, numQubits, index1, index2);
    }

    /**
     * `qubit_iter`: one handle per bit position, in order, all behind one
     * lock on this register.
     */
    method QubitIter() returns (qs: seq<Qubits.Qubit<Register>>)
      ensures |qs| == numQubits as nat
      ensures forall k :: 0 <= k < |qs| ==> qs[k].index as nat == k
      ensures forall k :: 0 <= k < |qs| ==> Qubits.Siblings(qs[k], qs[0]) && qs[k].lock.guarded == this
    {
      var lock := new Qubits.Lock(this);
      qs := seq(numQubits as nat, k requires 0 <= k < numQubits as nat => Qubits.Qubit(lock, k as u16));
    }
  }

  /** Writing one entry through `as_mut_slice` changes exactly that entry of `as_slice`. */
  method WriteThroughMutSlice(reg: Register, i: nat, v: Complex)
    requires reg.Valid() && i < reg.amp.Length
    modifies reg.amp
    ensures reg.Valid()
    ensures reg.AsSlice() == old(reg.AsSlice())[i := v]
  {
    var s := reg.AsMutSlice();
    s[i] := v;
  }
}
