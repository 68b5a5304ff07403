/** What linkg_path.h declares, and the one relation both path models share: the
    changes a thread outside the Node lock can make to a path slot. */
module PathTypes {
  datatype PathState = Empty | Active | Retired | Released

  /** A change made without the Node lock: references are given back, and a
      retired path may become released. Nothing else moves. */
  predicate LockFreeChange(before: PathState, beforeCount: nat, after: PathState, afterCount: nat) {
    && afterCount <= beforeCount
    && (after == before || (before == Retired && after == Released))
  }
}
