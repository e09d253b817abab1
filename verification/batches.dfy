/** Image batches: the leading dimension of an [item, row, col, channel] tensor. */
module Batches {

  /** The shape every item of a batch shares: rows, columns, channels. */
  datatype Dims = Dims(height: nat, width: nat, channels: nat)

  /** A batch of items of one shape. The shape is kept beside the items so that
      a zero-length batch still knows the per-item shape it was built with. */
  datatype Batch<T> = Batch(dims: Dims, items: seq<T>)

  function Min(x: int, y: int): int { if x <= y then x else y }

  function Max(x: int, y: int): int { if x >= y then x else y }
}
