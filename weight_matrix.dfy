/** The grade table (models/WeightMatrix.js): numeric bands, each with an
    inclusive or exclusive bound on either side, a label (`gradeLabel`,
    since `label` is a Dafny keyword) and a
    recommendation. */
module WeightMatrix {
  import opened Wrappers

  /** `minOperator`: '>=' (the schema default) or '>'. */
  datatype MinOperator = AtLeast | Above

  /** `maxOperator`: '<=' (the schema default) or '<'. */
  datatype MaxOperator = AtMost | Below

  datatype GradeBand = GradeBand(
    min: real, minOperator: MinOperator,
    max: real, maxOperator: MaxOperator,
    gradeLabel: Option<string>, recommendation: Option<string>)

  /** `isActive` defaults to true when a table is created. */
  datatype WeightTable = WeightTable(name: string, grades: seq<GradeBand>, isActive: bool)

  /** The band's operators admit `score`: the lower test is `>=` or `>`
      against `min`, the upper test `<=` or `<` against `max`. */
  predicate Admits(b: GradeBand, score: real) {
    (if b.minOperator == AtLeast then score >= b.min else score > b.min) &&
    (if b.maxOperator == AtMost then score <= b.max else score < b.max)
  }
}
