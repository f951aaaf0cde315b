/** How the translator cuts a sheet's rows into batches (app/services/translator.py,
    `_translate_in_chunks`): `for i in range(0, n, size)` takes the slice `rows[i:i + size]`. */
module Chunking {

  function Min(a: int, b: int): int {
    if a <= b then a else b
  }

  /** The number of batches, `(n + size - 1) // size`. */
  function ChunkCount(n: nat, size: nat): nat
    requires size > 0
  {
    (n + size - 1) / size
  }

  /** The count is the ceiling of n / size: the fewest batches of `size` that hold n rows. */
  lemma ChunkCountIsCeiling(n: nat, size: nat)
    requires size > 0
    ensures ChunkCount(n, size) * size >= n
    ensures ChunkCount(n, size) > 0 ==> (ChunkCount(n, size) - 1) * size < n
  {
    var c := ChunkCount(n, size);
    assert (n + size - 1) == c * size + (n + size - 1) % size;
  }

  /** Batch `k` holds rows `k * size` up to, not including, `(k + 1) * size` or the end. */
  function Chunks<T>(xs: seq<T>, size: nat): (cs: seq<seq<T>>)
    requires size > 0
    ensures |cs| == ChunkCount(|xs|, size)
  {
    seq(ChunkCount(|xs|, size), k requires 0 <= k < ChunkCount(|xs|, size) =>
      ChunkStart(|xs|, size, k);
      xs[k * size .. Min(k * size + size, |xs|)])
  }

  lemma MulMonotone(a: nat, b: nat, size: nat)
    requires a <= b
    ensures a * size <= b * size
  {
    assert b * size == a * size + (b - a) * size;
  }

  /** Batch `k` starts at row `k * size`, inside the rows. */
  lemma ChunkStart(n: nat, size: nat, k: nat)
    requires size > 0 && k < ChunkCount(n, size)
    ensures k * size < n
    ensures k < ChunkCount(n, size) - 1 ==> k * size + size < n
  {
    var c := ChunkCount(n, size);
    ChunkCountIsCeiling(n, size);
    MulMonotone(k, c - 1, size);
    if k < c - 1 {
      MulMonotone(k + 1, c - 1, size);
      assert (k + 1) * size == k * size + size;
    }
  }

  /** Every batch is non-empty and at most `size` long; all batches but the last are full. */
  lemma ChunkSizes<T>(xs: seq<T>, size: nat, k: nat)
    requires size > 0 && k < |Chunks(xs, size)|
    ensures 0 < |Chunks(xs, size)[k]| <= size
    ensures k < |Chunks(xs, size)| - 1 ==> |Chunks(xs, size)[k]| == size
  {
    ChunkStart(|xs|, size, k);
  }

  lemma MulStrict(a: nat, b: nat, size: nat)
    requires a < b
    ensures a * size + size <= b * size
  {
    assert b * size == a * size + size + (b - a - 1) * size;
  }

  /** Euclidean division has one quotient. */
  lemma DivUnique(n: nat, size: nat, q: nat, r: nat)
    requires size > 0 && r < size && n == q * size + r
    ensures n / size == q
  {
    var q0 := n / size;
    if q0 > q {
      MulStrict(q, q0, size);
    } else if q0 < q {
      MulStrict(q0, q, size);
    }
  }

  lemma DivStep(a: nat, size: nat)
    requires size > 0
    ensures (a + size) / size == a / size + 1
  {
    var q, r := a / size, a % size;
    assert a + size == (q + 1) * size + r;
    DivUnique(a + size, size, q + 1, r);
  }

  lemma DivSmall(a: nat, size: nat)
    requires size > 0 && a < size
    ensures a / size == 0
  {
  }

  /** After the first batch come the batches of the remaining rows. */
  lemma ChunksTail<T>(xs: seq<T>, size: nat)
    requires size > 0 && |xs| > 0
    ensures Chunks(xs, size) == [xs[..Min(size, |xs|)]] + Chunks(xs[Min(size, |xs|)..], size)
  {
    if |xs| <= size {
      ChunksOfShort(xs, size);
    } else {
      ChunksOfLong(xs, size);
    }
  }

  lemma ChunksOfShort<T>(xs: seq<T>, size: nat)
    requires 0 < |xs| <= size
    ensures Chunks(xs, size) == [xs]
  {
    DivSmall(|xs| - 1, size);
    DivStep(|xs| - 1, size);
    assert |xs| + size - 1 == (|xs| - 1) + size;
    var cs := Chunks(xs, size);
    assert |cs| == 1;
    assert cs[0] == xs[0 * size .. Min(0 * size + size, |xs|)];
    assert 0 * size == 0 && Min(0 + size, |xs|) == |xs|;
    assert xs[0..|xs|] == xs;
  }

  lemma ChunksOfLong<T>(xs: seq<T>, size: nat)
    requires size > 0 && |xs| > size
    ensures Chunks(xs, size) == [xs[..size]] + Chunks(xs[size..], size)
  {
    var cs := Chunks(xs, size);
    var rest := Chunks(xs[size..], size);
    DivStep(|xs| - size + size - 1, size);
    assert |xs| + size - 1 == (|xs| - size + size - 1) + size;
    assert |cs| == |rest| + 1;
    forall k | 0 <= k < |rest| ensures cs[k + 1] == rest[k] {
      assert (k + 1) * size == k * size + size;
      ChunkStart(|xs| - size, size, k);
    }
    assert cs[0] == xs[0 * size .. Min(0 * size + size, |xs|)];
    assert cs == [cs[0]] + cs[1..];
  }

  /** The concatenation of a list of lists, in order. */
  function Flatten<T>(ss: seq<seq<T>>): seq<T> {
    if |ss| == 0 then [] else ss[0] + Flatten(ss[1..])
  }

  lemma {:induction false} FlattenAppend<T>(ss: seq<seq<T>>, s: seq<T>)
    ensures Flatten(ss + [s]) == Flatten(ss) + s
  {
    if |ss| > 0 {
      assert (ss + [s])[1..] == ss[1..] + [s];
      FlattenAppend(ss[1..], s);
    }
  }

  /** Putting the batches back together in order gives exactly the original rows: every row is
      in exactly one batch, and the batches keep the rows' order. */
  lemma {:induction false} ChunksFlatten<T>(xs: seq<T>, size: nat)
    requires size > 0
    ensures Flatten(Chunks(xs, size)) == xs
    decreases |xs|
  {
    if |xs| > 0 {
      ChunksTail(xs, size);
      ChunksFlatten(xs[Min(size, |xs|)..], size);
      assert xs == xs[..Min(size, |xs|)] + xs[Min(size, |xs|)..];
    }
  }
}
