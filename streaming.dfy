/**
 * The body-streaming loop of a received response, on values: the chunks that
 * successive `read` calls return, the running byte total, the bytes written to the
 * output file and the progress values reported after each chunk.
 */
module Streaming {

  newtype byte = x: int | 0 <= x < 256

  /** The running total `sum` after the given chunks have been read. */
  function Sum(chunks: seq<seq<byte>>): nat {
    if chunks == [] then 0 else Sum(chunks[..|chunks| - 1]) + |chunks[|chunks| - 1]|
  }

  /** The bytes written to the output file for the given chunks, in order. */
  function Concat(chunks: seq<seq<byte>>): seq<byte> {
    if chunks == [] then [] else Concat(chunks[..|chunks| - 1]) + chunks[|chunks| - 1]
  }

  /**
   * The values passed to onProgress while reading the given chunks: after each chunk, the
   * progress computed from the running total and the announced content length `total`.
   */
  function Percents(chunks: seq<seq<byte>>, total: int, toPercent: (int, int) -> int): (ps: seq<int>)
    ensures |ps| == |chunks|
    ensures |chunks| > 0 ==> ps[|chunks| - 1] == toPercent(Sum(chunks), total)
  {
    if chunks == [] then []
    else Percents(chunks[..|chunks| - 1], total, toPercent) + [toPercent(Sum(chunks), total)]
  }

  /** Reading one more chunk adds its length to the total and its bytes to the output. */
  lemma ReadOneMore(chunks: seq<seq<byte>>, k: nat)
    requires k < |chunks|
    ensures Sum(chunks[..k + 1]) == Sum(chunks[..k]) + |chunks[k]|
    ensures Concat(chunks[..k + 1]) == Concat(chunks[..k]) + chunks[k]
  {
    assert chunks[..k + 1][..k] == chunks[..k];
  }

  /** The running total counts exactly the bytes written. */
  lemma {:induction false} ConcatLength(chunks: seq<seq<byte>>)
    ensures |Concat(chunks)| == Sum(chunks)
  {
    if chunks != [] {
      ConcatLength(chunks[..|chunks| - 1]);
    }
  }

  /** The bytes written for a prefix of the chunks are a prefix of the bytes written for all of them. */
  lemma {:induction false} ConcatPrefix(chunks: seq<seq<byte>>, k: nat)
    requires k <= |chunks|
    ensures Concat(chunks[..k]) <= Concat(chunks)
    decreases |chunks|
  {
    if k < |chunks| {
      var init := chunks[..|chunks| - 1];
      assert chunks[..k] == init[..k];
      ConcatPrefix(init, k);
    } else {
      assert chunks[..k] == chunks;
    }
  }

  /** The running total never decreases as more chunks are read. */
  lemma {:induction false} SumPrefixMonotone(chunks: seq<seq<byte>>, i: nat, j: nat)
    requires i <= j <= |chunks|
    ensures Sum(chunks[..i]) <= Sum(chunks[..j])
    decreases j
  {
    if i < j {
      var c := chunks[..j];
      assert c[..|c| - 1] == chunks[..j - 1];
      SumPrefixMonotone(chunks, i, j - 1);
    }
  }

  /** The k-th progress value is computed from the total of the first k + 1 chunks. */
  lemma {:induction false} PercentAt(chunks: seq<seq<byte>>, total: int, toPercent: (int, int) -> int, k: nat)
    requires k < |chunks|
    ensures Percents(chunks, total, toPercent)[k] == toPercent(Sum(chunks[..k + 1]), total)
    decreases |chunks|
  {
    if k < |chunks| - 1 {
      var init := chunks[..|chunks| - 1];
      assert init[..k + 1] == chunks[..k + 1];
      PercentAt(init, total, toPercent, k);
    } else {
      assert chunks[..k + 1] == chunks;
    }
  }

  /** The progress values for a prefix of the chunks are a prefix of those for all of them. */
  lemma PercentsSnoc(chunks: seq<seq<byte>>, total: int, toPercent: (int, int) -> int, k: nat)
    requires k < |chunks|
    ensures Percents(chunks[..k + 1], total, toPercent)
         == Percents(chunks[..k], total, toPercent) + [toPercent(Sum(chunks[..k + 1]), total)]
  {
    assert chunks[..k + 1][..k] == chunks[..k];
  }

  /**
   * When the progress formula does not decrease as the byte total grows, neither do the
   * values reported to onProgress.
   */
  lemma PercentsNonDecreasing(chunks: seq<seq<byte>>, total: int, toPercent: (int, int) -> int)
    requires forall a, b | a <= b :: toPercent(a, total) <= toPercent(b, total)
    ensures forall i, j | 0 <= i <= j < |chunks| ::
      Percents(chunks, total, toPercent)[i] <= Percents(chunks, total, toPercent)[j]
  {
    var ps := Percents(chunks, total, toPercent);
    forall i, j | 0 <= i <= j < |chunks|
      ensures ps[i] <= ps[j]
    {
      PercentAt(chunks, total, toPercent, i);
      PercentAt(chunks, total, toPercent, j);
      SumPrefixMonotone(chunks, i + 1, j + 1);
    }
  }
}
