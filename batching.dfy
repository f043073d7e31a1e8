/**
 * The batch plan of the sync: `allSplitDocs.slice(i, i + BATCH_SIZE)` for
 * `i = 0, BATCH_SIZE, 2 * BATCH_SIZE, ...` while `i < allSplitDocs.length`.
 */
module Batching {
  import opened Seqs

  /** `CONFIG.MILVUS.BATCH_SIZE`. */
  const BATCH_SIZE: nat := 100

  /**
   * The batches in insertion order. Every batch is non-empty and holds at
   * most `BATCH_SIZE` elements.
   */
  function Batches<T>(s: seq<T>): (r: seq<seq<T>>)
    ensures forall i :: 0 <= i < |r| ==> 0 < |r[i]| <= BATCH_SIZE
    decreases |s|
  {
    if s == [] then []
    else
      var n := Min(BATCH_SIZE, |s|);
      [s[..n]] + Batches(s[n..])
  }

  /** `Math.ceil(n / BATCH_SIZE)`: the batch count the progress log reports. */
  function BatchCount(n: nat): nat {
    (n + BATCH_SIZE - 1) / BATCH_SIZE
  }

  /** The batches are an in-order partition: concatenated they give `s` back. */
  lemma {:induction false} BatchesFlatten<T>(s: seq<T>)
    ensures Flatten(Batches(s)) == s
    decreases |s|
  {
    if s != [] {
      var n := Min(BATCH_SIZE, |s|);
      BatchesFlatten(s[n..]);
      assert Batches(s)[1..] == Batches(s[n..]);
      assert s == s[..n] + s[n..];
    }
  }

  /** There are `ceil(|s| / BATCH_SIZE)` batches. */
  lemma {:induction false} BatchesCount<T>(s: seq<T>)
    ensures |Batches(s)| == BatchCount(|s|)
    decreases |s|
  {
    if s != [] {
      var n := Min(BATCH_SIZE, |s|);
      BatchesCount(s[n..]);
    }
  }

  /**
   * Batch `k` is the slice starting at `k * BATCH_SIZE`, cut at the end of
   * the input: exactly what the loop's `slice(i, i + BATCH_SIZE)` takes.
   */
  lemma {:induction false} BatchAt<T>(s: seq<T>, k: nat)
    requires k < |Batches(s)|
    ensures k * BATCH_SIZE < |s|
    ensures Batches(s)[k] == s[k * BATCH_SIZE..Min(k * BATCH_SIZE + BATCH_SIZE, |s|)]
    decreases |s|
  {
    var n := Min(BATCH_SIZE, |s|);
    if k > 0 {
      var rest := s[n..];
      assert Batches(s)[k] == Batches(rest)[k - 1];
      BatchAt(rest, k - 1);
      var lo := (k - 1) * BATCH_SIZE;
      assert n == BATCH_SIZE;
      assert rest[lo..Min(lo + BATCH_SIZE, |rest|)] ==
             s[lo + n..Min(lo + BATCH_SIZE, |rest|) + n];
    }
  }

  /**
   * The first `k` batches together are the input cut at `k * BATCH_SIZE`:
   * what the loop has sent once its index reaches that offset.
   */
  lemma {:induction false} BatchesPrefix<T>(s: seq<T>, k: nat)
    requires k <= |Batches(s)|
    ensures Flatten(Batches(s)[..k]) == s[..Min(k * BATCH_SIZE, |s|)]
  {
    if k > 0 {
      var lo := (k - 1) * BATCH_SIZE;
      BatchesPrefix(s, k - 1);
      BatchAt(s, k - 1);
      assert Batches(s)[..k] == Batches(s)[..k - 1] + [Batches(s)[k - 1]];
      FlattenAppend(Batches(s)[..k - 1], [Batches(s)[k - 1]]);
      assert Flatten([Batches(s)[k - 1]]) == Batches(s)[k - 1] + Flatten([Batches(s)[k - 1]][1..]);
      assert s[..Min(k * BATCH_SIZE, |s|)] == s[..lo] + s[lo..Min(k * BATCH_SIZE, |s|)];
    }
  }

  /** Every batch but the last is full. */
  lemma FullBatches<T>(s: seq<T>, k: nat)
    requires k + 1 < |Batches(s)|
    ensures |Batches(s)[k]| == BATCH_SIZE
  {
    BatchAt(s, k);
    BatchAt(s, k + 1);
  }
}
