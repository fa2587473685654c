/**
 * Splitting a stream of rows into fixed-size batches, the shape both ingestion
 * loops give to their writes.
 */
module Batches {

  /** The batches written one after another. */
  function Flatten<T>(bs: seq<seq<T>>): seq<T> {
    if bs == [] then [] else bs[0] + Flatten(bs[1..])
  }

  lemma {:induction false} FlattenAppend<T>(bs: seq<seq<T>>, b: seq<T>)
    ensures Flatten(bs + [b]) == Flatten(bs) + b
  {
    if bs != [] {
      assert (bs + [b])[1..] == bs[1..] + [b];
      FlattenAppend(bs[1..], b);
    }
  }

  /** Every batch holds between 1 and n items, and every one but the last exactly n. */
  ghost predicate Batched<T>(bs: seq<seq<T>>, n: nat) {
    && (forall i | 0 <= i < |bs| :: 0 < |bs[i]| <= n)
    && (forall i | 0 <= i < |bs| - 1 :: |bs[i]| == n)
  }

  /** Every batch holds exactly n items. */
  ghost predicate Full<T>(bs: seq<seq<T>>, n: nat) {
    forall i | 0 <= i < |bs| :: |bs[i]| == n
  }

  /**
   * Cut `xs` into batches of `n`, the last one possibly shorter: the batches
   * give back `xs` in order.
   */
  function Chunks<T>(xs: seq<T>, n: nat): (bs: seq<seq<T>>)
    requires n > 0
    ensures Flatten(bs) == xs
    ensures Batched(bs, n)
    decreases |xs|
  {
    if |xs| == 0 then []
    else if |xs| <= n then [xs]
    else
      var rest := Chunks(xs[n..], n);
      assert ([xs[..n]] + rest)[1..] == rest;
      [xs[..n]] + rest
  }

  /** There are ceil(|xs| / n) batches: the fewest batches of n that hold `xs`. */
  lemma {:induction false} ChunkCount<T>(xs: seq<T>, n: nat)
    requires n > 0
    ensures (|Chunks(xs, n)| - 1) * n < |xs| <= |Chunks(xs, n)| * n
    decreases |xs|
  {
    if |xs| > n {
      ChunkCount(xs[n..], n);
      assert |Chunks(xs, n)| == 1 + |Chunks(xs[n..], n)|;
    }
  }

  /** Batching is unique: any batching of a sequence is the one `Chunks` computes. */
  lemma {:induction false} BatchedIsChunks<T>(bs: seq<seq<T>>, n: nat)
    requires n > 0 && Batched(bs, n)
    ensures Chunks(Flatten(bs), n) == bs
  {
    if bs != [] {
      var xs := Flatten(bs);
      assert Batched(bs[1..], n) by {
        forall i | 0 <= i < |bs| - 1 ensures 0 < |bs[1..][i]| <= n {
          assert bs[1..][i] == bs[i + 1];
        }
        forall i | 0 <= i < |bs[1..]| - 1 ensures |bs[1..][i]| == n {
          assert bs[1..][i] == bs[i + 1];
        }
      }
      BatchedIsChunks(bs[1..], n);
      if |bs| == 1 {
        assert xs == bs[0];
      } else {
        assert |bs[0]| == n;
        assert Flatten(bs[1..]) != [] by {
          assert |bs[1..][0]| > 0;
        }
        assert xs[..n] == bs[0] && xs[n..] == Flatten(bs[1..]);
      }
    }
  }

  /** Batches of exactly n items hold n items each, in all. */
  lemma {:induction false} FullLength<T>(bs: seq<seq<T>>, n: nat)
    requires Full(bs, n)
    ensures |Flatten(bs)| == |bs| * n
  {
    if bs != [] {
      assert Full(bs[1..], n) by {
        forall i | 0 <= i < |bs| - 1 ensures |bs[1..][i]| == n {
          assert bs[1..][i] == bs[i + 1];
        }
      }
      FullLength(bs[1..], n);
    }
  }

  /** Full batches are a batching, so they too are what `Chunks` computes. */
  lemma FullIsChunks<T>(bs: seq<seq<T>>, n: nat)
    requires n > 0 && Full(bs, n)
    ensures Chunks(Flatten(bs), n) == bs
    ensures |Flatten(bs)| == |bs| * n
  {
    BatchedIsChunks(bs, n);
    FullLength(bs, n);
  }
}
