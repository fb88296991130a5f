/** Ring buffers and the lists they stand for. */
module Rings {

  /** The last `n` elements, or all of them. */
  function LastN<T>(s: seq<T>, n: nat): (r: seq<T>)
    ensures |r| == if |s| <= n then |s| else n
  {
    if |s| <= n then s else s[|s| - n..]
  }

  /** The list held by a ring whose next write goes to `pos`; `full` once it has wrapped around. */
  function RingList<T>(cells: seq<T>, pos: nat, full: bool): (r: seq<T>)
    requires pos <= |cells|
    ensures |r| == if full then |cells| else pos
  {
    if full then cells[pos..] + cells[..pos] else cells[..pos]
  }

  lemma LastNAll<T>(s: seq<T>, n: nat)
    ensures |s| <= n ==> LastN(s, n) == s == LastN(s, |s|)
    ensures n == 0 ==> LastN(s, n) == []
  {
  }

  lemma LastNPush<T>(s: seq<T>, x: T, n: nat)
    ensures LastN(LastN(s, n) + [x], n) == LastN(s + [x], n)
  {
  }

  lemma LastNAppend<T>(a: seq<T>, b: seq<T>, n: nat)
    ensures LastN(a, n) + b == LastN(a + b, |LastN(a, n)| + |b|)
  {
  }

  lemma LastNTwice<T>(s: seq<T>, n: nat, m: nat)
    ensures LastN(LastN(s, n), m) == LastN(s, if n < m then n else m)
  {
  }

  /** Writing one cell and advancing drops the oldest element exactly when the ring is full. */
  lemma RingPush<T>(cells: seq<T>, pos: nat, full: bool, x: T)
    requires pos < |cells|
    ensures var pos' := if pos + 1 == |cells| then 0 else pos + 1;
            RingList(cells[pos := x], pos', full || pos' == 0) == LastN(RingList(cells, pos, full) + [x], |cells|)
  {
    var pos' := if pos + 1 == |cells| then 0 else pos + 1;
    var after := RingList(cells[pos := x], pos', full || pos' == 0);
    var before := RingList(cells, pos, full) + [x];
    assert |after| == |LastN(before, |cells|)|;
    forall i | 0 <= i < |after| ensures after[i] == LastN(before, |cells|)[i] {
    }
  }

  lemma Wrap(x: nat, n: nat)
    requires 0 < n && x < 2 * n
    ensures x % n == if x < n then x else x - n
  {
    var q := x / n;
    assert x == q * n + x % n;
    if q >= 2 {
      assert false;
    }
  }

  /** Reading `n` cells from `n` before the write position, around the end, yields the newest `n`. */
  lemma RingRead<T>(cells: seq<T>, pos: nat, full: bool, n: nat, i: nat)
    requires 0 < |cells| && pos < |cells|
    requires i < n <= |RingList(cells, pos, full)|
    ensures var start := (pos - n + |cells|) % |cells|;
            cells[(start + i) % |cells|] == LastN(RingList(cells, pos, full), n)[i]
  {
    var size, ring := |cells|, RingList(cells, pos, full);
    assert LastN(ring, n)[i] == ring[|ring| - n + i];
    Wrap(pos - n + size, size);
    var start := (pos - n + size) % size;
    Wrap(start + i, size);
    var at := (start + i) % size;
    hide LastN;
    if full {
      assert ring[size - n + i] == cells[at];
    } else {
      assert at == pos - n + i;
    }
  }
}
