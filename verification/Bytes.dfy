/** Bytes and the concatenation of byte strings. */
module Bytes {
  import opened Common

  type Byte = b: int | 0 <= b < 256

  ghost function Concat(parts: seq<seq<Byte>>): seq<Byte> {
    if parts == [] then [] else parts[0] + Concat(parts[1..])
  }

  lemma {:induction false} ConcatAppend(a: seq<seq<Byte>>, b: seq<seq<Byte>>)
    ensures Concat(a + b) == Concat(a) + Concat(b)
  {
    if a == [] {
      assert a + b == b;
    } else {
      assert (a + b)[1..] == a[1..] + b;
      ConcatAppend(a[1..], b);
      Regroup(a[0], Concat(a[1..]), Concat(b));
    }
  }

  lemma ConcatSnoc(a: seq<seq<Byte>>, part: seq<Byte>)
    ensures Concat(a + [part]) == Concat(a) + part
  {
    ConcatAppend(a, [part]);
    assert Concat([part]) == part + Concat([]);
  }
}
