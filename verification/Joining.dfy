/** Byte strings kept in pieces. */
module Joining {
  import opened Octets

  function Concat(chunks: seq<bytes>): bytes {
    if chunks == [] then [] else chunks[0] + Concat(chunks[1..])
  }

  lemma {:induction false} ConcatAppend(a: seq<bytes>, b: seq<bytes>)
    ensures Concat(a + b) == Concat(a) + Concat(b)
  {
    if a == [] {
      assert a + b == b;
    } else {
      assert (a + b)[1..] == a[1..] + b;
      ConcatAppend(a[1..], b);
    }
  }

  lemma ConcatOne(chunk: bytes)
    ensures Concat([chunk]) == chunk
  {
    var one: seq<bytes> := [chunk];
    assert one[1..] == [];
  }
}
