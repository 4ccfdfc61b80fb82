/** The assessment record and its embedded documents (models/Assessment.js). */
module AssessmentSchema {
  import opened Wrappers
  import opened ObjectIds

  /** The stored workflow status; the schema default is `Pending`. */
  datatype Status = Pending | InProgress | Completed

  /** The validator's verdict; the schema default is `AwaitingValidation`
      (stored as 'PENDING'). */
  datatype ValidatorStatus = AwaitingValidation | Approved | Rejected

  /** Whether an entry is the main reviewer's ('MAIN') or a peer's ('PEER'). */
  datatype EntryType = Main | Peer

  /** A score slot holds either a number or free text. */
  datatype ScoreValue = Num(n: real) | Text(t: string)

  /** One submitted value, keyed by the id of a template child component. */
  datatype Score = Score(componentId: ObjectId, value: ScoreValue)

  /** A reviewer's submission. */
  datatype Entry = Entry(
    reviewer: ObjectId, kind: EntryType, scores: seq<Score>,
    note: Option<string>, submittedAt: Option<Time>)

  /** The admin peer's testimony; `approved` is tri-state, `None` standing for
      null, its default. The nested object always exists, with every field
      unset until the admin peer submits. */
  datatype AdminPeerInput = AdminPeerInput(feedback: Option<string>, approved: Option<bool>, submittedAt: Option<Time>)

  const NoAdminPeerInput := AdminPeerInput(None, None, None)
}
