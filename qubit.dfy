/**
 * Qubit handles (`src/qubit.rs`).
 *
 * A handle names one bit position of a register and reaches the register
 * through a shared lock. Handles made by one call share that call's lock
 * object; the mutual exclusion the lock provides is not modelled, only the
 * identity of the lock object that the handles share.
 *
 * The module is generic in the register type R: `Qubit::new` and
 * `Qubit::new_pair` take a `&mut Qureg` (src/qubit.rs:21, 42), and `Register`
 * passes itself to them (src/reg.rs:102, 117). The register's `num_qubits()`
 * is passed in by the caller.
 */
module Qubits {
  import opened Options
  import opened Types

  /** The `Arc<Mutex<&mut R>>` around a borrowed register. */
  class Lock<R> {
    const guarded: R

    constructor (reg: R)
      ensures guarded == reg
    {
      guarded := reg;
    }
  }

  /**
   * A qubit handle. `index()` is the field `index`, fixed when the handle is
   * built, since a datatype value never changes.
   */
  datatype Qubit<R> = Qubit(lock: Lock<R>, index: u16)

  /** Two handles are siblings when they share one lock instance. */
  predicate Siblings<R>(a: Qubit<R>, b: Qubit<R>)
  {
    a.lock == b.lock
  }

  /**
   * `Qubit::new`: `None` exactly when the index is not below the register's
   * qubit count; otherwise a handle with that index behind a new lock on
   * `reg`.
   */
  method New<R>(reg: R, numQubits: u16, index: u16) returns (q: Option<Qubit<R>>)
    ensures q.None? <==> index >= numQubits
    ensures q.Some? ==> q.value.index == index && q.value.lock.guarded == reg
    ensures q.Some? ==> fresh(q.value.lock)
  {
    if index >= numQubits {
      q := None;
    } else {
      var lock := new Lock(reg);
      q := Some(Qubit(lock, index));
    }
  }

  /**
   * `Qubit::new_pair`: `None` exactly when either index is out of range or
   * the two are equal; otherwise two handles, in argument order, that share
   * one new lock on `reg`.
   */
  method NewPair<R>(reg: R, numQubits: u16, index1: u16, index2: u16)
    returns (p: Option<(Qubit<R>, Qubit<R>)>)
    ensures p.None? <==> (index1 >= numQubits || index2 >= numQubits || index1 == index2)
    ensures p.Some? ==> p.value.0.index == index1 && p.value.1.index == index2
    ensures p.Some? ==> Siblings(p.value.0, p.value.1) && p.value.0.lock.guarded == reg
    ensures p.Some? ==> fresh(p.value.0.lock)
  {
    if index1 >= numQubits || index2 >= numQubits || index1 == index2 {
      return None;
    }
    var lock := new Lock(reg);
    var qb1 := Qubit(lock, index1);
    var qb2 := Qubit(lock, index2);
    p := Some((qb1, qb2));
  }

  /**
   * Handles from one `new_pair` call are siblings; handles from two
   * separate calls never are, even on the same register.
   */
  method TwoPairsAreNotSiblings<R>(reg1: R, reg2: R, numQubits: u16, index1: u16, index2: u16)
    returns (p: Option<(Qubit<R>, Qubit<R>)>, q: Option<(Qubit<R>, Qubit<R>)>)
    ensures p.Some? <==> q.Some?
    ensures p.Some? ==> Siblings(p.value.0, p.value.1) && Siblings(q.value.0, q.value.1)
    ensures p.Some? ==> !Siblings(p.value.0, q.value.0) && !Siblings(p.value.1, q.value.1)
    ensures p.Some? ==> !Siblings(p.value.0, q.value.1) && !Siblings(p.value.1, q.value.0)
  {
    p := NewPair(reg1, numQubits, index1, index2);
    q := NewPair(reg2, numQubits, index1, index2);
  }
}
