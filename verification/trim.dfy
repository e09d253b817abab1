/** The Trim Image Batch node (`ImageBatchTrim.trim`). */
module BatchTrim {
  import opened Batches

  /** First index kept: the requested start, raised to 0. */
  function Start(startIndex: int): nat { Max(0, startIndex) }

  /** One past the last index kept: the requested end, lowered to the batch length. */
  function End(len: nat, endIndex: int): int { Min(len, endIndex) }

  /** Keeps the items whose index lies in [start, end) after clamping. An empty
      range yields a zero-length batch of the same per-item shape; no pair of
      indices is an error. */
  function Trim<T>(images: Batch<T>, startIndex: int, endIndex: int): (r: Batch<T>)
    ensures r.dims == images.dims
    ensures |r.items| == Max(0, Min(|images.items|, endIndex) - Max(0, startIndex))
    ensures forall k :: 0 <= k < |r.items| ==> r.items[k] == images.items[Max(0, startIndex) + k]
    ensures forall j :: 0 <= j < |images.items| && startIndex <= j < endIndex ==>
              0 <= j - Max(0, startIndex) < |r.items| && r.items[j - Max(0, startIndex)] == images.items[j]
  {
    var start := Start(startIndex);
    var end := End(|images.items|, endIndex);
    if start >= end then
      Batch(images.dims, [])
    else
      Batch(images.dims, images.items[start..end])
  }

  /** The empty branch is taken exactly when the clamped start is not below the clamped end. */
  lemma TrimEmptyIff<T>(images: Batch<T>, startIndex: int, endIndex: int)
    ensures Trim(images, startIndex, endIndex).items == [] <==>
            Max(0, startIndex) >= Min(|images.items|, endIndex)
  {
  }

  /** A range covering the whole batch returns the batch unchanged. */
  lemma TrimWhole<T>(images: Batch<T>, startIndex: int, endIndex: int)
    requires startIndex <= 0 && |images.items| <= endIndex
    ensures Trim(images, startIndex, endIndex) == images
  {
  }

  /** Trimming a trimmed batch is one trim of the original with the offsets
      added and the ends intersected. */
  lemma TrimTrim<T>(images: Batch<T>, s1: int, e1: int, s2: int, e2: int)
    requires 0 <= s1 && 0 <= s2
    ensures Trim(Trim(images, s1, e1), s2, e2) == Trim(images, s1 + s2, Min(e1, s1 + e2))
  {
  }

  /** Trimming a batch of ten items to [3, 7) gives the four items 3, 4, 5, 6. */
  lemma TrimTenToFour<T>(images: Batch<T>)
    requires |images.items| == 10
    ensures Trim(images, 3, 7) == Batch(images.dims, images.items[3..7])
    ensures |Trim(images, 3, 7).items| == 4
  {
  }
}
