/** Uploading points in batches: by filling and flushing a buffer, and by slicing at offsets. */
module Batching {
  import opened Sequences

  const BATCH_SIZE := 1000

  /** The points cut into pieces of the batch size, the last one possibly shorter. */
  function Chunks<T>(points: seq<T>): seq<seq<T>> {
    if points == [] then []
    else if |points| <= BATCH_SIZE then [points]
    else [points[..BATCH_SIZE]] + Chunks(points[BATCH_SIZE..])
  }

  function Flatten<T>(batches: seq<seq<T>>): seq<T> {
    if batches == [] then [] else batches[0] + Flatten(batches[1..])
  }

  /** No batch is empty, none is too large, and only the last may be short. */
  ghost predicate WellCut<T>(batches: seq<seq<T>>) {
    && (forall i :: 0 <= i < |batches| ==> 0 < |batches[i]| <= 1000)
    && (forall i :: 0 <= i < |batches| - 1 ==> |batches[i]| == 1000)
  }

  /** Every point is in exactly one batch, in order. */
  lemma {:induction false} ChunksHoldEveryPoint<T>(points: seq<T>)
    ensures Flatten(Chunks(points)) == points && WellCut(Chunks(points))
  {
    if |points| > BATCH_SIZE {
      ChunksHoldEveryPoint(points[BATCH_SIZE..]);
      assert points == points[..BATCH_SIZE] + points[BATCH_SIZE..];
      var rest := Chunks(points[BATCH_SIZE..]);
      assert Chunks(points)[1..] == rest;
    } else if points != [] {
      assert [points][1..] == [] && points + [] == points;
    }
  }

  /** There is only one way to cut a list well. */
  lemma {:induction false} WellCutUnique<T>(batches: seq<seq<T>>)
    requires WellCut(batches)
    ensures batches == Chunks(Flatten(batches))
  {
    if batches != [] {
      var first, rest := batches[0], batches[1..];
      WellCutUnique(rest);
      assert batches == [first] + rest;
      if rest == [] {
        assert Flatten(batches) == first;
      } else {
        assert Flatten(rest) != [] by { assert Flatten(rest) == rest[0] + Flatten(rest[1..]); }
        assert Flatten(batches)[..BATCH_SIZE] == first && Flatten(batches)[BATCH_SIZE..] == Flatten(rest);
      }
    }
  }

  lemma {:induction false} FlattenSnoc<T>(batches: seq<seq<T>>, batch: seq<T>)
    ensures Flatten(batches + [batch]) == Flatten(batches) + batch
  {
    if batches == [] {
      assert [batch][1..] == [] && [] + [batch] == [batch];
      assert Flatten([batch]) == batch;
    } else {
      assert (batches + [batch])[1..] == batches[1..] + [batch];
      FlattenSnoc(batches[1..], batch);
    }
  }

  /** The upload loop of `run_qdrant`: fill a buffer, send and clear it when full, send what remains. */
  method UploadByFlushing<T>(points: seq<T>) returns (sent: seq<seq<T>>)
    ensures sent == Chunks(points)
  {
    sent := [];
    var batch: seq<T> := [];
    for n := 0 to |points|
      invariant Flatten(sent) + batch == points[..n]
      invariant |batch| < BATCH_SIZE
      invariant forall i :: 0 <= i < |sent| ==> |sent[i]| == BATCH_SIZE
    {
      TakeSnoc(points, n);
      batch := batch + [points[n]];
      if |batch| >= BATCH_SIZE {
        FlattenSnoc(sent, batch);
        sent := sent + [batch];
        batch := [];
      }
    }
    if batch != [] {
      FlattenSnoc(sent, batch);
      sent := sent + [batch];
    }
    TakeAll(points);
    WellCutUnique(sent);
  }

  /** The upload loops of the static runners: slices at the multiples of the batch size. */
  method UploadBySlicing<T>(points: seq<T>) returns (sent: seq<seq<T>>)
    ensures sent == Chunks(points)
  {
    sent := [];
    var offset := 0;
    while offset < |points|
      invariant Flatten(sent) == points[..if offset < |points| then offset else |points|]
      invariant WellCut(sent)
      invariant offset < |points| ==> forall i :: 0 <= i < |sent| ==> |sent[i]| == BATCH_SIZE
    {
      var end := if offset + BATCH_SIZE < |points| then offset + BATCH_SIZE else |points|;
      FlattenSnoc(sent, points[offset..end]);
      assert points[..end] == points[..offset] + points[offset..end];
      sent := sent + [points[offset..end]];
      offset := offset + BATCH_SIZE;
    }
    TakeAll(points);
    WellCutUnique(sent);
  }
}
