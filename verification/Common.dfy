// Shared vocabulary: optional values, results, bytes and the few facts about
// concatenation that several components need.
module Common {
  datatype Option<+T> = None | Some(value: T)

  datatype Result<+T, +E> = Ok(value: T) | Err(error: E)

  newtype byte = x: int | 0 <= x < 256

  type bytes = seq<byte>

  // Unsigned 64-bit counters wrap.
  const UINT64 := 0x1_0000_0000_0000_0000

  lemma ModShift(q: nat, r: nat)
    ensures (q * UINT64 + r) % UINT64 == r % UINT64
  {
  }

  predicate Distinct<T(==)>(xs: seq<T>) {
    forall i, j | 0 <= i < j < |xs| :: xs[i] != xs[j]
  }

  lemma ConcatAssoc<T>(a: seq<T>, b: seq<T>, c: seq<T>)
    ensures a + (b + c) == a + b + c
  {
  }

  // The concatenation of a sequence of chunks.
  function Flatten<T>(chunks: seq<seq<T>>): seq<T> {
    if chunks == [] then [] else chunks[0] + Flatten(chunks[1..])
  }
}
