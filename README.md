# Assessment workflow and score engine, modelled in Dafny

The application runs peer assessments of candidates. An administrator
creates an *assessment* for a candidate. It names:

- a main reviewer;
- a rubric *template*, made of parent components that each group child
  components;
- optionally, a *validator*, an *admin peer* and a *weight matrix*. The weight
  matrix is a table of grade bands.

The main reviewer assigns and removes peer reviewers. The main reviewer and
the peers submit scores for the template's children. The validator approves
or rejects. The admin peer leaves testimony. After a submission, the
validator's action and the admin peer's testimony, the assessment's status is
recomputed from the three stages; assigning and removing peers leave it as it
is. A final score, the
mean of the per-parent means of the numeric values, is mapped to a grade
band.

The model has these modules:

- `Wrappers`, `ObjectIds`: `Option`/`Result` and the id and time types.
- `MatrixTemplate`, `WeightMatrix`, `AssessmentSchema`: the stored documents
  as datatypes. They follow models/MatrixTemplate.js, models/WeightMatrix.js
  and models/Assessment.js.
- `StableSort`: the stable sort that both band sorts rely on. It is an
  insertion sort, proved ordered, a permutation, and stable.
- `GradeValidation`: `validateWeightGrades` of routes/admin.js. Bands are
  normalised as pure functions, and the adjacency loop is a method.
- `GradeLookup`: the grade lookup of the assessment view.
- `Scoring`: `calculateScore` and the per-parent averages. Their nested loops
  are methods: `CalculateScore` is proved against the specification function
  `Aggregate`, and `ParentAverages` against `ParentAverage`, one figure per
  parent.
- `AssessmentWorkflow`: `evaluateStatus` and a class `Assessment`. The class
  has one method per handler, and the caller's id is a parameter. A refused
  call returns `Forbidden` (or `MainNotScored`) and changes nothing.

Consequences of the code as written that the model states and proves:

- **Overlapping bands.** A validated weight table can have two bands that
  both admit one score. The validator checks that each operator is a known
  one, but its gap/overlap check compares only the bounds, not the
  operators, so with the default `>=`/`<=` a shared boundary belongs to both
  neighbours. The lookup then picks the upper band
  (`GradeLookup.SharedBoundMatchesTwoBands`). `GradeLookup.ResolveOnPartition`
  proves exactly one band per in-range score under the sufficient (not
  necessary) `Partition` condition, which acceptance alone does not give.
- **Ungraded scores inside the range.** On every accepted table a score below
  the first `min` or above the last `max` has no grade
  (`GradeLookup.ResolveOutsideRange`). Inside the range a score can have none
  as well: [0, 60) with `<` and (60, 100] with `>` are accepted, and 60 is
  admitted by neither band (`GradeLookup.UnmatchedScoreInRange`).
- **Order dependence.** Whether a table is accepted can depend on the order
  of the submitted bands. The sort is stable, so bands with equal `min` keep
  their input order (`GradeValidation.AcceptanceDependsOnOrder`).
- **Stored status at creation.** A new assessment is stored as pending even
  when `evaluateStatus` would say in progress. Later status assignments store
  the derived value. The class invariant therefore allows exactly that lag
  (`AssessmentWorkflow.StoredStatusLag`).
- **No template check.** Nothing checks a template's shape: child ids need
  not be unique, and constraint `min` may exceed `max`. The model adds no such
  check.

## Model

| member | source | states |
|---|---|---|
| StableSort.SortByIsStableSort | routes/admin.js:29 | the sort yields the same multiset, in non-decreasing key order, and keeps the input order of elements with equal keys |
| StableSort.SortBySorted | routes/admin.js:29 | the sorted sequence is non-decreasing in the key |
| StableSort.SortByPermutes | routes/admin.js:29 | sorting neither adds nor drops elements |
| StableSort.SortByKeepsTies | routes/admin.js:29 | elements with equal keys keep their input order |
| StableSort.SortByPair | routes/admin.js:29 | two elements are swapped only when the second has the strictly smaller key |
| GradeValidation.NormalizeBand | routes/admin.js:13-28 | a band normalises iff both bounds are finite, min <= max and the defaulted operators are '>=' or '>' and '<=' or '<'; failures report the 1-based position, with non-finite bounds checked first, then min > max, then operators; the normalised band carries the bounds, the defaulted operators as parsed, and the label and recommendation unchanged |
| GradeValidation.NormalizeAll | routes/admin.js:13-29 | all bands normalise iff each one does; the result is element-wise the normalised input; a failure is that of the first offending band in input order |
| GradeValidation.PairError | routes/admin.js:34-39 | a pair of sorted neighbours is accepted iff the current min equals the previous max; the error is a gap, carrying the previous max and the current min, iff the current min is larger, and otherwise an overlap carrying the current min |
| GradeValidation.CheckAdjacent | routes/admin.js:31-40 | no error iff every neighbour pair meets exactly; otherwise the error of the first pair that does not |
| GradeValidation.ValidateWeightGrades | routes/admin.js:8-43 | missing or empty input is rejected; a normalisation error is reported before any adjacency check; acceptance iff the stably sorted normalised bands are contiguous, and then the result is those sorted bands |
| GradeValidation.AcceptedTableShape | routes/admin.js:28-42 | an accepted table has one band per submitted band, is sorted by min, is a permutation of the normalised input that keeps the input order among equal mins, and has min <= max in every band |
| GradeValidation.AcceptanceDependsOnOrder | routes/admin.js:29-40 | a point band [0,0] and a band [0,10] are accepted in one input order and rejected as overlapping in the other |
| GradeValidation.NormalizeTwo | routes/admin.js:13-28 | two bands that each normalise give the pair of their normal forms, in order |
| GradeLookup.FirstAdmitting | routes/reviewer.js:143-151 | null iff no band of the list admits the score; otherwise the first band that does |
| GradeLookup.FirstAdmittingWithKey | routes/reviewer.js:142-151 | restricting the list to the found band's min keeps the same first admitting band |
| GradeLookup.SortedHasSameBands | routes/reviewer.js:142 | the descending sort keeps exactly the table's bands |
| GradeLookup.FirstAdmittingHasGreatestMin | routes/reviewer.js:141-151 | the band found has the greatest min among the bands that admit the score |
| GradeLookup.ResolveGradeTieBreak | routes/reviewer.js:142-151 | among bands sharing that min, the one found is the first in table order that admits the score |
| GradeLookup.DescendingKeepsTies | routes/reviewer.js:142 | the descending sort keeps the table order among bands of equal min |
| GradeLookup.ResolveGradeSpec | routes/reviewer.js:138-152 | of `ResolveGrade` (the descending sort `SortByMinDescending` followed by the first band whose operators `Admits` the score): the grade is null iff no band admits the score; otherwise it is a band of the table that admits the score, has the greatest such min and comes first among those |
| GradeLookup.ChainBounds | routes/admin.js:31-42 | on a contiguous table of positive-width bands, bounds never decrease along the table and mins strictly increase |
| GradeLookup.AtMostOneAdmits | routes/reviewer.js:143-151 | on a partition no two bands admit the same score |
| GradeLookup.SomeBandAdmits | routes/reviewer.js:143-151 | on a partition every score between the first min and the last max is admitted by some band |
| GradeLookup.AdmitsFrom | routes/reviewer.js:143-151 | on a partition, a score from band i's min up to the last max is admitted by some band |
| GradeLookup.StartsAfterFirst | routes/admin.js:31-42 | on a contiguous table of bands with min <= max, no band starts before the first |
| GradeLookup.EndsBeforeLast | routes/admin.js:31-42 | on a contiguous table of bands with min <= max, no band ends after the last |
| GradeLookup.OutsideSpanNone | routes/reviewer.js:138-152 | on a non-empty contiguous table of bands with min <= max, a score outside [first min, last max] gets no grade |
| GradeLookup.ResolveOutsideRange | routes/reviewer.js:138-152 | on every table the validator accepts, a score below the first min or above the last max gets no grade |
| GradeLookup.UnmatchedScoreInRange | routes/admin.js:8-43 | the validator accepts [0,60) and (60,100], which sort to themselves and are contiguous, yet the lookup finds no grade for 60 |
| GradeLookup.ResolveOnPartition | routes/reviewer.js:138-152 | on a partition a grade is found iff the score lies between the first min and the last max, and it is the only band admitting the score |
| GradeLookup.SharedBoundMatchesTwoBands | routes/reviewer.js:142-151 | the validator accepts [0,60] and [60,100] with default operators, both admit 60, and the lookup returns the upper band |
| GradeLookup.ThreeBandExample | routes/reviewer.js:143-151 | with [0,60), [60,80), [80,100], 80 gets the third band and 59.999 the first |
| Scoring.FindScore | routes/reviewer.js:30 | no entry is found iff no entry has the component id; otherwise the entry found is the first with that id |
| Scoring.SumAppend | routes/reviewer.js:32 | accumulated sums split over concatenation |
| Scoring.ChildTotals | routes/reviewer.js:29-35 | the loop's parentSum is the sum and childCount the number of the children's numeric values |
| Scoring.CalculateScore | routes/reviewer.js:21-44 | the result is the mean of the means of the parents that have a numeric child, or 0 when none does |
| Scoring.ParentAverages | routes/reviewer.js:121-136 | one figure per parent, in template order: its mean, or 0 when it has no numeric value |
| Scoring.SumWithin | routes/reviewer.js:32 | a sum of n values within [lo, hi] lies within [n*lo, n*hi] |
| Scoring.MeanWithin | routes/reviewer.js:37-38 | a mean of values within [lo, hi] lies within [lo, hi] |
| Scoring.ParentMeansWithin | routes/reviewer.js:37-40 | every parent mean lies within any bounds of all the numeric values |
| Scoring.AggregateWithin | routes/reviewer.js:21-44 | the score is 0 when no parent has a numeric child, and otherwise lies within any bounds of the values used |
| Scoring.NoNumbersNoValues | routes/reviewer.js:29-35 | children without numeric values contribute nothing |
| Scoring.NoNumbersNoMeans | routes/reviewer.js:37-40 | parents without numeric children are dropped |
| Scoring.AggregateWithoutNumbers | routes/reviewer.js:43 | with no numeric value anywhere the score is 0 |
| Scoring.AggregateOfNoScores | routes/reviewer.js:43 | an empty score set scores 0 |
| Scoring.SameNumbersSameValues | routes/reviewer.js:29-35 | the children's values depend only on the numeric value found for each id |
| Scoring.SameNumbersSameMeans | routes/reviewer.js:25-41 | the parent means depend only on the numeric value found for each id |
| Scoring.AggregateByNumbers | routes/reviewer.js:21-44 | the score depends only on the numeric value found for each id |
| Scoring.FindScoreAppend | routes/reviewer.js:30 | appending an entry changes the lookup only for an id not present before |
| Scoring.TextIsIgnored | routes/reviewer.js:31 | appending a text value changes no score |
| Scoring.FindScoreUnique | routes/reviewer.js:30 | with one entry per component, each entry is the one found for its id |
| Scoring.ScoreOrderIrrelevant | routes/reviewer.js:21-44 | with one entry per component, reordering the entries does not change the score |
| Scoring.ParentMeansAppend | routes/reviewer.js:25-41 | parent means split over concatenated parent lists |
| Scoring.SumPermutation | routes/reviewer.js:38 | a sum does not depend on the order of its terms |
| Scoring.ParentMeansPermutation | routes/reviewer.js:25-41 | permuting the parents permutes their means |
| Scoring.ParentOrderIrrelevant | routes/reviewer.js:21-44 | the order of the template's parents does not change the score |
| Scoring.TwoParentExample | routes/reviewer.js:21-44 | parents {c1, c2} and {c3} with 80, 90 and 70 score 77.5; without c2 they score 75 |
| Scoring.ExampleAllScored | routes/reviewer.js:21-44 | on the example template with all three children scored, the score is the mean of (c1 + c2) / 2 and c3 |
| Scoring.ExampleWithoutSecond | routes/reviewer.js:21-44 | on the example template without a value for c2, the score is the mean of c1 and c3 |
| Scoring.ExampleMeans | routes/reviewer.js:25-41 | the example template's parent means are the means of {c1, c2}'s and {c3}'s values |
| AssessmentWorkflow.EvaluateStatus | routes/reviewer.js:8-18 | completed iff the main entry has scores, the admin peer is unassigned or left non-empty feedback, and the validator is unassigned or no longer pending; pending iff none of those three holds |
| AssessmentWorkflow.NoRolesNeverPending | routes/reviewer.js:10-17 | with neither admin peer nor validator the status is never pending, and is completed iff the main entry has scores |
| AssessmentWorkflow.StatusMonotone | routes/reviewer.js:15-17 | finishing more stages never lowers the status |
| AssessmentWorkflow.EmptyResubmissionRegresses | routes/reviewer.js:9 | a main resubmission with no scores turns a completed assessment back to in progress |
| AssessmentWorkflow.CreationStatusLag | routes/admin.js:157-166 | a fresh assessment evaluates to pending only when both admin peer and validator are assigned, though it is stored as pending |
| AssessmentWorkflow.Without | routes/reviewer.js:225-227 | the filter keeps exactly the elements whose id differs from the one removed |
| AssessmentWorkflow.WithoutAppend | routes/reviewer.js:225-227 | filtering distributes over concatenation, so kept elements stay in their relative order |
| AssessmentWorkflow.WithoutAbsent | routes/reviewer.js:225-227 | removing an id that does not occur changes nothing |
| AssessmentWorkflow.WithoutUnique | routes/reviewer.js:225-227 | filtering keeps ids unique |
| AssessmentWorkflow.AppendUnique | routes/reviewer.js:190-191 | appending an element with a new id keeps ids unique |
| AssessmentWorkflow.AddPeer | routes/reviewer.js:189-193 | the peers afterwards are the old ones plus the new id |
| AssessmentWorkflow.AddPeerKeepsUnique | routes/reviewer.js:189-193 | assigning never creates a duplicate peer id |
| AssessmentWorkflow.AddPeerIdempotent | routes/reviewer.js:189-193 | assigning the same peer twice equals assigning once |
| AssessmentWorkflow.AddPeerPlacement | routes/reviewer.js:189-193 | an absent peer is appended at the end; a present one changes nothing |
| AssessmentWorkflow.Upsert | routes/reviewer.js:256-264 | the new entry ends the list |
| AssessmentWorkflow.UpsertEffect | routes/reviewer.js:256-264 | afterwards the submitter's only entry is the new one, other reviewers keep exactly their entries, and one entry per reviewer is preserved |
| AssessmentWorkflow.UpsertIdempotent | routes/reviewer.js:256-264 | submitting the same entry twice leaves one copy |
| AssessmentWorkflow.UpsertFirst | routes/reviewer.js:256-264 | a reviewer's first submission is a plain append |
| AssessmentWorkflow.ApplyAction | routes/reviewer.js:291-295 | 'approve' gives approved, 'reject' gives rejected, and any other action keeps the verdict |
| AssessmentWorkflow.VerdictClosesValidation | routes/reviewer.js:284-298 | after an approval or rejection, with main scores present, the status is not pending, and it is completed iff the admin-peer stage is done |
| AssessmentWorkflow.ParseApproval | routes/reviewer.js:311 | 'yes' maps to true, 'no' to false, anything else to null |
| AssessmentWorkflow.EmptyFeedbackKeepsPeerStageOpen | routes/reviewer.js:11 | empty or missing feedback leaves the admin-peer stage open |
| AssessmentWorkflow.Assessment.constructor | routes/admin.js:153-173 | a new assessment is pending, has no peers, entries or testimony, scores 0, and sets validator, admin peer and weight matrix only when supplied |
| AssessmentWorkflow.Assessment.AssignPeer | routes/reviewer.js:183-196 | a caller other than the main reviewer is refused with nothing changed; otherwise the peer id is added if absent and nothing else changes |
| AssessmentWorkflow.Assessment.RemovePeer | routes/reviewer.js:218-231 | a caller other than the main reviewer is refused with nothing changed; otherwise every occurrence of the id and every entry it authored are removed, the rest keeping their order |
| AssessmentWorkflow.Assessment.Submit | routes/reviewer.js:233-274 | the main reviewer (even when also a peer) replaces the main entry, note and final score and the status is recomputed; a peer's old entry is replaced by the new one at the end; anyone else is refused with nothing changed |
| AssessmentWorkflow.Assessment.ValidatorAction | routes/reviewer.js:276-302 | anyone but the assigned validator is refused, and so is a call before the main entry has scores, both with nothing changed; otherwise the verdict follows the action, the note is stored and the status is recomputed |
| AssessmentWorkflow.Assessment.AdminPeerSubmit | routes/reviewer.js:304-322 | anyone but the assigned admin peer is refused with nothing changed; otherwise the testimony is replaced as a whole and the status is recomputed |
| AssessmentWorkflow.StoredStatusLag | routes/admin.js:161 | in a valid assessment the stored status differs from the derived one only as pending against in progress, on an assessment missing an admin peer or a validator |

## Left out

- Routing, rendering, redirects and HTTP status codes. The dashboard queries, the print views and their access checks, and the progress-step labels are presentation only. The refused cases are modelled as `Outcome` values.
- Persistence: loading, `populate` and `save`. A handler acts on one loaded `Assessment`. `Submit` receives the populated template document as a parameter. An id that matches no document is a not-found error outside the model.
- The pre-save hook of models/Assessment.js has an empty body and changes nothing, so saving is not modelled.
- Authentication, cookies, the seeding of dummy users and the token refresh, which is random. The caller's id is a parameter.
- Creation failures, such as schema validation errors for a missing candidate: the constructor models the successful create only.
- CSV export and the `toFixed(2)` display strings. `Scoring.ParentAverages` returns exact reals, aligned with the template's parents, instead of a map from parent id to a two-decimal string.
- String-to-number parsing. `parseFloat` and `Number` are not modelled themselves, only their outcome: a score value `Num(x)` stands for any submitted value that `parseFloat` reads as x, numeric strings such as "85" included, and `Text` for one it reads as NaN, which never counts. A grade bound is represented by the outcome of `Number()`: finite or not.
- Floating point: all arithmetic is exact real arithmetic.
- Timestamps (`new Date()`): a `Time` parameter.
- The view's `finalScoreValue` fallback, which recomputes the score when `finalScore` is not a number. The model always stores a number, so the fallback is unreachable.
- The lookup's `|| '>='` and `|| '<='` operator fallbacks: stored bands always carry operators, because the schema fills in the defaults. Defaulting is modelled where bands are normalised.
- A `grades` field that is present but not an array is represented like a missing one (`None`).
- `validator`, `adminPeer`, `weightMatrix`, `candidate`, `mainReviewer` and `template` are `const` fields, as in the application: no route changes them after creation (the admin routes only create an assessment, routes/admin.js:153-173, or delete it, routes/admin.js:195-198).
- Which scores the view averages depends on the caller's role: the main reviewer's for the main reviewer and the validator, the caller's own entry for a peer reviewer, and an empty list for anyone else, including an admin peer who is not also a peer reviewer. `Scoring.ParentAverages` takes the chosen score list as a parameter.
- Concurrency. Each handler is modelled as one atomic step on the assessment. The real handlers load the document, change it and save it, so two requests can interleave: two assign-peer calls can both push the same id, breaking the uniqueness `AddPeerKeepsUnique` proves, and a status can be computed from a stale copy.
- A submission whose request body has no `scores` object: `Object.keys(scores)` (routes/reviewer.js:238) throws before any role check, for every caller, and nothing is saved. `Submit` always receives a score list, so it cannot represent this failure.
