/** Bringing a list of item specs to a requested length: the node pads the
    list with the default entry and then keeps the first batch_size entries;
    the editor truncates the list or pushes the default entry until it is long
    enough. */
module Reconcile {

  /** Keeps the list when it already has `n` entries; otherwise cuts it to its
      first `n` entries or pads it with `pad` up to `n`. */
  function Fit<T>(data: seq<T>, n: nat, pad: T): (r: seq<T>)
    ensures |r| == n
    ensures forall k :: 0 <= k < n && k < |data| ==> r[k] == data[k]
    ensures forall k :: |data| <= k < n ==> r[k] == pad
  {
    if |data| == n then data else (data + seq(n, _ => pad))[..n]
  }

  /** A list of the right length is left alone, so fitting twice is fitting once. */
  lemma FitIdempotent<T>(data: seq<T>, n: nat, pad: T)
    ensures Fit(data, n, pad) == data <==> |data| == n
    ensures Fit(Fit(data, n, pad), n, pad) == Fit(data, n, pad)
  {
  }

  /** Fitting to `m` and then to `n` keeps what fitting to `n` keeps, as long as the
      intermediate length does not cut away entries the final one needs. */
  lemma FitFit<T>(data: seq<T>, m: nat, n: nat, pad: T)
    requires n <= m || |data| <= m
    ensures Fit(Fit(data, m, pad), n, pad) == Fit(data, n, pad)
  {
  }

  /** The editor's in-place version: truncate when too long, otherwise push the
      pad entry until the list is long enough. */
  method PadOrTruncate<T>(data: seq<T>, n: nat, pad: T) returns (r: seq<T>)
    ensures |r| == n
    ensures r == Fit(data, n, pad)
  {
    if |data| > n {
      r := data[..n];
    } else {
      r := data;
      while |r| < n
        invariant |data| <= |r| <= n
        invariant r == data + seq(|r| - |data|, _ => pad)
        decreases n - |r|
      {
        r := r + [pad];
      }
    }
  }
}
