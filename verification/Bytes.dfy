/** Byte strings and how a stream of them is cut into chunks. */
module Bytes {
  type Byte = x: int | 0 <= x < 256

  function Flatten<T>(chunks: seq<seq<T>>): seq<T> {
    if chunks == [] then [] else chunks[0] + Flatten(chunks[1..])
  }

  lemma {:induction false} FlattenAppend<T>(a: seq<seq<T>>, b: seq<seq<T>>)
    ensures Flatten(a + b) == Flatten(a) + Flatten(b)
  {
    if a == [] {
      assert a + b == b;
    } else {
      assert (a + b)[1..] == a[1..] + b;
      FlattenAppend(a[1..], b);
    }
  }

  /** The marker stands at position i of the buffer. */
  predicate MatchesAt<T(==)>(buffer: seq<T>, marker: seq<T>, i: int) {
    0 <= i <= |buffer| - |marker| && buffer[i..i + |marker|] == marker
  }

  /** The marker occurs somewhere in the buffer. */
  predicate Contains<T(==)>(buffer: seq<T>, marker: seq<T>) {
    exists i | 0 <= i <= |buffer| - |marker| :: MatchesAt(buffer, marker, i)
  }
}
