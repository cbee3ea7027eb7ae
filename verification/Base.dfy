/** Vocabulary shared by every component: byte strings, optional values and digests. */
module Base {

  newtype byte = x: int | 0 <= x < 256

  type Bytes = seq<byte>

  datatype Option<+T> = None | Some(value: T)

  /** A SHA-256 digest.  Digests are taken to be collision free, so a digest carries its preimage
      and two digests are equal exactly when the hashed bytes are. */
  datatype Digest = Sha256(of: Bytes)

  /** Consecutive states are linked by the steps between them. */
  ghost predicate Linked<S(!new), A(!new)>(step: (S, A, S) -> bool, states: seq<S>, actions: seq<A>) {
    && |states| == |actions| + 1
    && forall k {:trigger actions[k]} :: 0 <= k < |actions| ==> step(states[k], actions[k], states[k + 1])
  }

  lemma {:induction false} OneMoreLink<S(!new), A(!new)>(step: (S, A, S) -> bool, states: seq<S>, actions: seq<A>, a: A, t: S)
    requires Linked(step, states, actions) && step(states[|states| - 1], a, t)
    ensures Linked(step, states + [t], actions + [a])
  {
    forall k | 0 <= k <= |actions| ensures step((states + [t])[k], (actions + [a])[k], (states + [t])[k + 1]) {
      if k < |actions| { assert step(states[k], actions[k], states[k + 1]); }
    }
  }
}
