/** Small shared pieces. */
module Options {
  datatype Option<+T> = None | Some(value: T)

  /** A member of a non-empty set. */
  lemma Member<T>(ts: set<T>) returns (t: T)
    requires ts != {}
    ensures t in ts
  {
    t :| t in ts;
  }
}
