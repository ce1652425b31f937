# qn register, qubit handles and tensor-pair iterators in Dafny

This project models the data-structure core of the `qn` quantum-register
simulator:

- **Tensor-pair iterators** (`TensorIter`, `TensorIterMut`). For an amplitude
  buffer of 2^dimension entries and a bit position `site`, they enumerate the
  index pairs `(lo, hi)` that differ only in bit `site`. Two counters drive
  the enumeration: `lowerIndex` varies fastest and `upperIndex` slowest. The
  model is a pair of classes with those counters as fields and a `Next`
  method. Its index arithmetic is proved equal to an independent reference:
  the k-th pair is k with a 0 (resp. a 1) inserted at bit `site`
  (`Bits.InsertBit`). `Collect` and `CollectMut` run an iterator to the end,
  like `.collect()`, and are proved to return exactly the 2^(dimension-1)
  pairs of the reference enumeration, in order.
- **Registers** (`Register`, and its older twin `Qureg`). Each is a class
  with a constant qubit count and a constant array of 2^n complex
  amplitudes. The array starts in the all-zero basis state, and `as_mut_slice`
  hands the same array out for in-place writes. The handle factories
  `qubit`, `qubit_pair` and `qubit_iter` are methods with no `modifies`
  clause, so Dafny proves that they change neither the buffer nor the
  qubit count.
- **Qubit handles** (`Qubit::new`, `Qubit::new_pair`). A handle is an
  immutable value made of a lock object and a bit index, so `index()` is its
  field `index`. Sharing `Arc<Mutex<..>>` is modelled as two handles holding
  the same `Lock` reference (`Qubits.Siblings`). Every construction allocates
  a fresh lock.

Modules: `Types` (machine integers, `Complex`, total probability), `Options`,
`Bits` (reference bit operations), `TensorIterators`, `Qubits`, `Quregs`,
`Registers`.

Points where the code does something other than its interface suggests:

- Neither tensor-iterator constructor checks the length of the buffer
  against 2^dimension. Both check only `dimension > site`
  (src/tensor_iter.rs:15, 62). `TensorIter::next` indexes the slice, so a
  short slice makes the read of the offending pair panic. `TensorIterMut::next`
  performs no check at all: it turns its indices into references through a
  raw pointer (src/tensor_iter.rs:88-91). The model therefore puts the bounds
  condition on each `Next`. `Collect` and `CollectMut` require a buffer of
  2^dimension entries, which is exactly what the last pair needs
  (`LastPairHi`). The unchecked mutable case is recorded under Findings.
- Some tests call `TensorIter::new` with two arguments. The model follows the
  three-argument signature of src/tensor_iter.rs:10-14.
- `Qubit::new` and `Qubit::new_pair` take a `Qureg` (src/qubit.rs:20-45),
  while `Register` passes itself to them (src/reg.rs:102, 117). The
  `Qubits` module is therefore generic in the register type, and the caller
  passes in the register's `num_qubits()`.

## Model

| member | source | states |
|---|---|---|
| `Bits.InsertBitSplit` | src/tensor_iter.rs:34-37 | for a < 2^s, inserting bit b at position s into a + 2^s*m gives a + 2^s*(2m + b), the closed form `next` uses |
| `Bits.DeleteInsert` | tests/tensor/mod.rs:208-223 | deleting the bit inserted at position s gives back the original number |
| `Bits.InsertDelete` | tests/tensor/mod.rs:208-223 | re-inserting bit s of x after deleting it gives back x |
| `Bits.InsertBitBits` | src/tensor_iter.rs:34-37 | bit by bit, InsertBit(x, s, b) keeps the bits of x below s, has b at s, and holds bit j-1 of x at each j > s |
| `TensorIterators.CountersGivePairAt` | src/tensor_iter.rs:34-37 | at counters (lower, upper), the indices `next` computes are the reference pair number lower + 2^site*upper, and hi = lo + 2^site |
| `TensorIterators.PairDiffersOnlyAtSite` | src/tensor_iter.rs:34-37 | bit `site` is clear in lo and set in hi, every other bit agrees, and lo != hi |
| `TensorIterators.PairDeleteSite` | tests/tensor/mod.rs:208-223 | deleting bit `site` from either index of the k-th pair gives k, so pairs come out in enumeration order |
| `TensorIterators.PairCount` | src/tensor_iter.rs:18-19 | lower_bits * upper_bits = 2^site * 2^(dimension-site-1) = 2^(dimension-1) |
| `TensorIterators.PairInBounds` | src/tensor_iter.rs:34-37 | every pair k < 2^(dimension-1) has both indices below 2^dimension |
| `TensorIterators.LastPairHi` | src/tensor_iter.rs:36-37 | the high index of the last pair is 2^dimension - 1 |
| `TensorIterators.PairsCover` | tests/tensor/mod.rs:188-206 | every index below 2^dimension is the low or high member of pair DeleteBit(x, site), which is below 2^(dimension-1) |
| `TensorIterators.PairsDisjoint` | src/tensor_iter.rs:81-93 | no low index equals any high index, and distinct pairs have distinct low and distinct high indices |
| `TensorIterators.SmallEnumerations` | tests/tensor/mod.rs:8-96 | the literal pair lists for dimensions 1 to 3 and every site |
| `TensorIterators.CountersBound` | src/tensor_iter.rs:30-32 | with counters in range, at most 2^(dimension-1) pairs have been yielded, and the iterator is exhausted exactly when all of them have |
| `TensorIterators.TensorIter.constructor` | src/tensor_iter.rs:10-23 | requires dimension > site (and both shift amounts below the word size); sets lower_bits = 2^site and upper_bits = 2^(dimension-site-1), with both counters at 0 |
| `TensorIterators.TensorIter.Next` | src/tensor_iter.rs:29-45 | when exhausted, returns None and leaves the counters unchanged; otherwise yields (buf[lo], buf[hi]) of the reference pair numbered by the count so far, advances the count by one (lower_index advances and wraps to 0 while bumping upper_index), and keeps the counter invariant |
| `TensorIterators.Collect` | tests/tensor/mod.rs:188-197 | collecting a TensorIter over 2^dimension entries gives exactly 2^(dimension-1) pairs, and entry k is the values at the reference pair k |
| `TensorIterators.TensorIterMut.constructor` | src/tensor_iter.rs:57-70 | same initial state as TensorIter's, over a mutable buffer |
| `TensorIterators.TensorIterMut.Next` | src/tensor_iter.rs:76-102 | the same pair sequence as TensorIter, handed out as two distinct in-bounds indices; lower_index advances by one and wraps to 0 while bumping upper_index; only the counters change |
| `TensorIterators.WriteBoth` | src/tensor_iter.rs:88-93 | writing through both members of a pair sets exactly buf[lo] and buf[hi] and nothing else; both writes survive because lo != hi |
| `TensorIterators.ShortBufferOverrun` | src/tensor_iter.rs:57-102 | over a buffer shorter than 2^dimension, the high index of the last pair the mutable iterator yields is at or past the end of the buffer |
| `TensorIterators.ShortBufferSecondStep` | src/tensor_iter.rs:57-102 | a mutable iterator for site 0 and dimension 2 over 2 entries is accepted, and after one step its next pair is (2, 3), outside the buffer |
| `TensorIterators.CollectMut` | tests/tensor/mod.rs:241-251 | collecting a TensorIterMut over 2^dimension entries gives 2^(dimension-1) index pairs, the sequence being exactly the reference enumeration `Enumeration(site, 2^(dimension-1))` whose small cases `SmallEnumerations` lists, each two distinct in-bounds indices |
| `TensorIterators.IterMutMutability` | tests/tensor/mod.rs:278-292 | writing 77 and 99 through the fourth pair for site 2 over the buffer 0..8 changes entries 3 and 7 only |
| `Types.BasisStateTotal` | src/reg.rs:58-59 | a buffer holding 1 at one index and 0 elsewhere has total probability 1 |
| `Qubits.New` | src/qubit.rs:20-32 | None iff index >= num_qubits; otherwise a handle with that index behind a fresh lock on the register |
| `Qubits.NewPair` | src/qubit.rs:41-63 | None iff an index is out of range or the two are equal; otherwise two handles in argument order sharing one fresh lock on the register |
| `Qubits.TwoPairsAreNotSiblings` | src/qubit.rs:53-61 | the handles of one pair share a lock, and no handle of one call shares a lock with a handle of another call |
| `Quregs.Qureg.constructor` | src/qureg.rs:19-26 | 2^n amplitudes, amp[0] = 1 and all others 0 (total probability 1), num_qubits fixed to the argument |
| `Quregs.Qureg.AsSlice` | src/qureg.rs:36-38 | the slice has 2^n entries, entry i being amplitude i |
| `Quregs.Qureg.AsMutSlice` | src/qureg.rs:42-44 | the mutable slice is the register's own buffer, of 2^n entries |
| `Quregs.Qureg.Qubit` | src/qureg.rs:49-54 | None iff index >= num_qubits; otherwise a handle with that index on this register |
| `Quregs.Qureg.QubitPair` | src/qureg.rs:63-69 | None iff an index is out of range or the two are equal; otherwise sibling handles with the two indices in order |
| `Quregs.WriteThroughMutSlice` | tests/unit/qureg.rs:35-50 | a write through as_mut_slice is seen by as_slice at that entry, and every other entry and the length are unchanged |
| `Registers.Register.constructor` | src/reg.rs:54-65 | 2^n amplitudes, amp[0] = 1 and all others 0 (total probability 1), num_qubits fixed to the argument, generator seeded with `seed` |
| `Registers.Register.AsSlice` | src/reg.rs:85-87 | the slice has 2^n entries, entry i being amplitude i |
| `Registers.Register.AsMutSlice` | src/reg.rs:91-93 | the mutable slice is the register's own buffer, of 2^n entries |
| `Registers.Register.Qubit` | src/reg.rs:98-103 | None iff index >= num_qubits; otherwise a handle with that index on this register |
| `Registers.Register.QubitPair` | src/reg.rs:112-118 | None iff an index is out of range or the two are equal; otherwise sibling handles with the two indices in order |
| `Registers.Register.QubitIter` | src/reg.rs:121-123 | one handle per bit position 0..n-1 in order, all sharing one lock on this register |
| `Registers.WriteThroughMutSlice` | tests/reg/unit.rs:35-50 | a write through as_mut_slice is seen by as_slice at that entry, and every other entry and the length are unchanged |

## Findings

| source | as written | input that shows it | evidently intended | confidence | as-written member | corrected member |
|---|---|---|---|---|---|---|
| src/tensor_iter.rs:57-93 | `TensorIterMut::new` checks only `dimension > site`, and `next` dereferences `buf_ptr.offset(index)` without a length check | `TensorIterMut::new(&mut buf, 0, 2)` with `buf.len() == 2`: the second `next` hands out references at offsets 2 and 3 | the slice holds at least 2^dimension entries, so every yielded index is in bounds | not executed | `TensorIterators.ShortBufferOverrun`, `TensorIterators.ShortBufferSecondStep` | `TensorIterators.CollectMut` |

## Left out

- Measurement (`measure`, collapse and renormalisation) is not modelled. Its implementation (the `system` module and `Qubit::measure`) is not part of this model, and it relies on floating-point `sqrt` and random sampling.
- `Register::bernoulli` (src/reg.rs:70-75) is a thin wrapper over an external random-number library. The generator is kept as an opaque `Rng` value recording its seed.
- `Arc<Mutex<..>>` locking and the threaded tests. Mutual exclusion is concurrency, so only the identity of the shared lock object is modelled.
- The `Float` trait and `Complex<T>` arithmetic. Amplitudes are pairs of exact reals, since only 0 and 1 are ever written here.
- `Registers.Register.QubitIter`: `Qubit::new_iter` is not part of this model, and src/reg.rs:120 documents only "an iterator over all qubits in register". One handle per position follows from that line. The one shared lock follows from the single `&mut self` borrow of src/reg.rs:121, which can sit behind only one mutex, and tests/reg/get_qubit.rs:97-109 is consistent with it, splitting one call's handles across two threads. The order 0..n-1 is the model's choice, not documented. The result is a finished sequence rather than a lazy iterator.
- `Qubit::is_from_same_reg` and its variants are not part of this model. `Qubits.Siblings` states lock identity directly.
- `TensorIterMut::next` hands out two raw mutable references through an `unsafe` block. The model hands out the two indices instead, and the writes go through `WriteBoth`.
- `TensorIterators.TensorIter.constructor`, `TensorIterators.TensorIterMut.constructor`: the shifts `1 << site` and `1 << (dimension - site - 1)` are modelled only for shift amounts below the 64-bit word size. That is the precondition besides `site < dimension`, because debug builds panic on a larger shift. `Collect` and `CollectMut` carry the same bound.
- `Quregs.Qureg.constructor`, `Registers.Register.constructor`: `1 << n` is modelled only for n below the 64-bit word size. That is the precondition, because debug builds panic on a larger shift. Allocation failure of the 2^n buffer is not modelled.
- Benchmarks and the example program are harnesses, not core code.
