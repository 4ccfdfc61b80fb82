/** Identities and timestamps as the persistence layer supplies them. */
module ObjectIds {

  /** A MongoDB ObjectId; only equality is ever used on it. */
  type ObjectId = nat

  /** A `Date` value, taken as an input (`new Date()` is a clock read). */
  type Time = int
}
