/** A way to keep a large fact folded: guarded by a key, it takes part only in proofs that mention one. */
module Sealing {
  /** What is folded. */
  datatype Lock = Table | Probe | Insertion | Skip | Sides | Coherence | Sweeping | Fill | Stream

  ghost predicate Key(lock: Lock, k: int) { true }
}
