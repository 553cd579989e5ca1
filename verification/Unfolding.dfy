/**
 A predicate stated under a guard, as `forall u: nat :: u == 4 && Unfold(u) ==> ...`, means exactly what stands after the
 guard, since `Unfold` always holds. But a proof sees what the predicate says only if it mentions `Unfold(4)`: proofs
 that merely hand such a predicate on stay small.
 */
module Unfolding {
  ghost predicate Unfold(k: nat) {
    true
  }
}
