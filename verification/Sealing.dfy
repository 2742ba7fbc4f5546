/**
 Keeping a definition folded.  A predicate of the form
 `forall k {:trigger Key(k)} :: Key(k) ==> Body` means Body, but the verifier looks inside only where
 some Key is mentioned (`assert Key(0)`).
 */
module Sealing {
  ghost predicate Key(k: int) {
    true
  }

  /** For what a move led to. */
  ghost predicate MoveKey(k: int) {
    true
  }

  /** For what is known of the service threads. */
  ghost predicate SessionKey(k: int) {
    true
  }
}
