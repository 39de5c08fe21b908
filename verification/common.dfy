/** What several modules share. */
module Common {
  /** A node, by its index among the peers. */
  type Peer = nat

  /** A value that may be missing: a nil reference, or a key that is not in a store. */
  datatype Option<+T> = None | Some(value: T)

  ghost predicate Distinct<T(!new)>(s: seq<T>) {
    forall i, j :: 0 <= i < j < |s| ==> s[i] != s[j]
  }
}
