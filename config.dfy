/** The fixed branch labels of the cohort. */
module Config {

  /** Individual sections, in report order. */
  const BRANCH_ORDER: seq<string> := ["AIDS A", "AIDS B", "IOT A", "IOT B", "CS"]

  /** Merged branches (sections A and B combined), in report order. */
  const MERGED_BRANCH_ORDER: seq<string> := ["AIDS", "IOT", "CS"]

  /** No label is listed twice in either order. */
  lemma OrdersDistinct()
    ensures forall i, j | 0 <= i < j < |BRANCH_ORDER| :: BRANCH_ORDER[i] != BRANCH_ORDER[j]
    ensures forall i, j | 0 <= i < j < |MERGED_BRANCH_ORDER| :: MERGED_BRANCH_ORDER[i] != MERGED_BRANCH_ORDER[j]
  {
  }
}
