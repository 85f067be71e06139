/** Values that may be missing, and selections from sequences. */
module Wrappers {
  datatype Option<T> = None | Some(value: T)

  /** Indices in order, none twice. */
  ghost predicate Increasing(ks: seq<nat>) {
    forall p, q :: 0 <= p < q < |ks| ==> ks[p] < ks[q]
  }

  lemma AppendLarger(ks: seq<nat>, n: nat)
    requires Increasing(ks) && forall p :: 0 <= p < |ks| ==> ks[p] < n
    ensures Increasing(ks + [n])
    ensures forall k :: k in ks + [n] <==> k in ks || k == n
  {
  }
}
