/** A marker for proofs: a definition wrapped in
    `forall k {:trigger Opened(k, x)} :: Opened(k, x) ==> ...` stays out of the verifier's sight until a
    proof mentions Opened(0, x). */
module Markers {
  predicate Opened<T>(k: nat, x: T) {
    true
  }
}
