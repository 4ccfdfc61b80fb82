/** The assessment workflow of routes/reviewer.js and routes/admin.js: the
    derived status, the creation of an assignment, and the handlers that
    assign and remove peers, take submissions, record the validator's verdict
    and the admin peer's testimony. */
module AssessmentWorkflow {
  import opened Wrappers
  import opened ObjectIds
  import opened AssessmentSchema
  import opened MatrixTemplate
  import Scoring

  // ---------------------------------------------------------------------
  // Stages and the derived status
  // ---------------------------------------------------------------------

  /** The main reviewer has submitted a non-empty list of scores. */
  predicate MainDone(main: Option<Entry>) {
    main.Some? && |main.value.scores| > 0
  }

  /** Feedback counts only when it is a non-empty string. */
  predicate HasFeedback(input: AdminPeerInput) {
    input.feedback.Some? && input.feedback.value != ""
  }

  /** The admin-peer stage is done when no admin peer is assigned, or when
      the assigned one has left feedback. */
  predicate PeerDone(adminPeer: Option<ObjectId>, input: AdminPeerInput) {
    adminPeer.None? || HasFeedback(input)
  }

  /** The validation stage is done when no validator is assigned, or when
      the validator has approved or rejected. */
  predicate ValidatorDone(validator: Option<ObjectId>, verdict: ValidatorStatus) {
    validator.None? || verdict != AwaitingValidation
  }

  /** `evaluateStatus`: completed when all three stages are done, pending
      when none is, in progress otherwise. */
  function EvaluateStatus(
    main: Option<Entry>, adminPeer: Option<ObjectId>, input: AdminPeerInput,
    validator: Option<ObjectId>, verdict: ValidatorStatus): (r: Status)
    ensures r == Completed <==>
      MainDone(main) && PeerDone(adminPeer, input) && ValidatorDone(validator, verdict)
    ensures r == Pending <==>
      !MainDone(main) && !PeerDone(adminPeer, input) && !ValidatorDone(validator, verdict)
  {
    var mainDone := MainDone(main);
    var peerDone := PeerDone(adminPeer, input);
    var validatorDone := ValidatorDone(validator, verdict);
    if mainDone && peerDone && validatorDone then Completed
    else if mainDone || peerDone || validatorDone then InProgress
    else Pending
  }

  /** The progress order of the statuses. */
  function Rank(s: Status): nat {
    match s
    case Pending => 0
    case InProgress => 1
    case Completed => 2
  }

  /** With neither an admin peer nor a validator assigned, two stages are done
      from the start, so the status is never pending, and it is completed
      exactly when the main reviewer has scored. */
  lemma NoRolesNeverPending(main: Option<Entry>, input: AdminPeerInput, verdict: ValidatorStatus)
    ensures EvaluateStatus(main, None, input, None, verdict) != Pending
    ensures EvaluateStatus(main, None, input, None, verdict) == Completed <==> MainDone(main)
  {
  }

  /** Finishing more stages never moves the status backwards. */
  lemma StatusMonotone(
    main1: Option<Entry>, input1: AdminPeerInput, verdict1: ValidatorStatus,
    main2: Option<Entry>, input2: AdminPeerInput, verdict2: ValidatorStatus,
    adminPeer: Option<ObjectId>, validator: Option<ObjectId>)
    requires MainDone(main1) ==> MainDone(main2)
    requires PeerDone(adminPeer, input1) ==> PeerDone(adminPeer, input2)
    requires ValidatorDone(validator, verdict1) ==> ValidatorDone(validator, verdict2)
    ensures Rank(EvaluateStatus(main1, adminPeer, input1, validator, verdict1))
         <= Rank(EvaluateStatus(main2, adminPeer, input2, validator, verdict2))
  {
  }

  /** A main submission with an empty score list undoes the main stage: a
      completed assessment with no other roles drops back to in progress. */
  lemma EmptyResubmissionRegresses(first: Entry, again: Entry, input: AdminPeerInput, verdict: ValidatorStatus)
    requires |first.scores| > 0 && again.scores == []
    ensures EvaluateStatus(Some(first), None, input, None, verdict) == Completed
    ensures EvaluateStatus(Some(again), None, input, None, verdict) == InProgress
  {
  }

  /** On a fresh assessment the stored status is pending, but the derived one
      is pending only when both an admin peer and a validator are assigned. */
  lemma CreationStatusLag(adminPeer: Option<ObjectId>, validator: Option<ObjectId>)
    ensures EvaluateStatus(None, adminPeer, NoAdminPeerInput, validator, AwaitingValidation) ==
      (if adminPeer.Some? && validator.Some? then Pending else InProgress)
  {
  }

  // ---------------------------------------------------------------------
  // Lists keyed by a user id
  // ---------------------------------------------------------------------

  /** Every element of `s` has its own key. */
  ghost predicate UniqueKeys<T>(s: seq<T>, key: T -> ObjectId) {
    forall i, j :: 0 <= i < j < |s| ==> key(s[i]) != key(s[j])
  }

  function IdOf(id: ObjectId): ObjectId { id }

  function ReviewerOf(e: Entry): ObjectId { e.reviewer }

  /** `s.filter(x => !key(x).equals(id))`. */
  function Without<T(!new)>(s: seq<T>, key: T -> ObjectId, id: ObjectId): (r: seq<T>)
    ensures forall x :: x in r <==> x in s && key(x) != id
    ensures |r| <= |s|
  {
    if s == [] then []
    else
      var n := |s| - 1;
      assert s == s[..n] + [s[n]];
      Without(s[..n], key, id) + (if key(s[n]) == id then [] else [s[n]])
  }

  /** Filtering distributes over concatenation: what is kept keeps its
      relative order. */
  lemma {:induction false} WithoutAppend<T(!new)>(a: seq<T>, b: seq<T>, key: T -> ObjectId, id: ObjectId)
    ensures Without(a + b, key, id) == Without(a, key, id) + Without(b, key, id)
    decreases |b|
  {
    if b == [] {
      assert a + b == a;
    } else {
      var n := |b| - 1;
      assert (a + b)[..|a + b| - 1] == a + b[..n];
      WithoutAppend(a, b[..n], key, id);
    }
  }

  /** Filtering out a key that does not occur changes nothing. */
  lemma {:induction false} WithoutAbsent<T(!new)>(s: seq<T>, key: T -> ObjectId, id: ObjectId)
    requires forall x :: x in s ==> key(x) != id
    ensures Without(s, key, id) == s
  {
    if s != [] {
      var n := |s| - 1;
      assert s == s[..n] + [s[n]];
      WithoutAbsent(s[..n], key, id);
    }
  }

  /** Filtering keeps keys unique. */
  lemma {:induction false} WithoutUnique<T(!new)>(s: seq<T>, key: T -> ObjectId, id: ObjectId)
    requires UniqueKeys(s, key)
    ensures UniqueKeys(Without(s, key, id), key)
  {
    if s != [] {
      var n := |s| - 1;
      var front := Without(s[..n], key, id);
      WithoutUnique(s[..n], key, id);
      if key(s[n]) != id {
        forall x | x in front ensures key(x) != key(s[n]) {
          var i :| 0 <= i < n && s[..n][i] == x;
        }
        AppendUnique(front, s[n], key);
      }
    }
  }

  lemma AppendUnique<T>(s: seq<T>, x: T, key: T -> ObjectId)
    requires UniqueKeys(s, key)
    requires forall y :: y in s ==> key(y) != key(x)
    ensures UniqueKeys(s + [x], key)
  {
    var r := s + [x];
    forall i, j | 0 <= i < j < |r| ensures key(r[i]) != key(r[j]) {
      if j == |s| {
        assert r[i] in s;
      } else {
        assert r[i] == s[i] && r[j] == s[j];
      }
    }
  }

  /** assign-peer: `peerId` is appended when absent. */
  function AddPeer(ids: seq<ObjectId>, peerId: ObjectId): (r: seq<ObjectId>)
    ensures forall x :: x in r <==> x in ids || x == peerId
  {
    if peerId in ids then ids else ids + [peerId]
  }

  /** Assigning never introduces a duplicate peer id. */
  lemma AddPeerKeepsUnique(ids: seq<ObjectId>, peerId: ObjectId)
    requires UniqueKeys(ids, IdOf)
    ensures UniqueKeys(AddPeer(ids, peerId), IdOf)
  {
    if peerId !in ids {
      AppendUnique(ids, peerId, IdOf);
    }
  }

  /** Assigning the same peer twice is the same as assigning it once. */
  lemma AddPeerIdempotent(ids: seq<ObjectId>, peerId: ObjectId)
    ensures AddPeer(AddPeer(ids, peerId), peerId) == AddPeer(ids, peerId)
  {
  }

  /** Assigning an absent peer appends it; an already assigned one changes
      nothing. */
  lemma AddPeerPlacement(ids: seq<ObjectId>, peerId: ObjectId)
    ensures peerId in ids ==> AddPeer(ids, peerId) == ids
    ensures peerId !in ids ==> AddPeer(ids, peerId) == ids + [peerId]
  {
  }

  /** The peer branch of submit: the caller's old entry is dropped and the
      new one appended. */
  function Upsert(es: seq<Entry>, e: Entry): (r: seq<Entry>)
    ensures |r| > 0 && r[|r| - 1] == e
  {
    Without(es, ReviewerOf, e.reviewer) + [e]
  }

  /** After an upsert the submitter has exactly the new entry, everybody
      else keeps exactly their entries, in their order, and one entry per
      reviewer stays one entry per reviewer. */
  lemma UpsertEffect(es: seq<Entry>, e: Entry)
    ensures forall x :: x in Upsert(es, e) && x.reviewer == e.reviewer ==> x == e
    ensures forall x: Entry :: x.reviewer != e.reviewer ==> (x in Upsert(es, e) <==> x in es)
    ensures Upsert(es, e) == Without(es, ReviewerOf, e.reviewer) + [e]
    ensures UniqueKeys(es, ReviewerOf) ==> UniqueKeys(Upsert(es, e), ReviewerOf)
  {
    var kept := Without(es, ReviewerOf, e.reviewer);
    if UniqueKeys(es, ReviewerOf) {
      WithoutUnique(es, ReviewerOf, e.reviewer);
      AppendUnique(kept, e, ReviewerOf);
    }
  }

  /** Submitting the same entry twice leaves one copy. */
  lemma UpsertIdempotent(es: seq<Entry>, e: Entry)
    ensures Upsert(Upsert(es, e), e) == Upsert(es, e)
  {
    var kept := Without(es, ReviewerOf, e.reviewer);
    assert Without([e], ReviewerOf, e.reviewer) == [] by {
      assert [e][..0] == [];
    }
    WithoutAppend(kept, [e], ReviewerOf, e.reviewer);
    assert forall x :: x in kept ==> ReviewerOf(x) != e.reviewer;
    WithoutAbsent(kept, ReviewerOf, e.reviewer);
    calc {
      Upsert(Upsert(es, e), e);
      Without(kept + [e], ReviewerOf, e.reviewer) + [e];
      Without(kept, ReviewerOf, e.reviewer) + Without([e], ReviewerOf, e.reviewer) + [e];
      kept + [e];
    }
  }

  /** A submission by a reviewer who has none yet is a plain append. */
  lemma UpsertFirst(es: seq<Entry>, e: Entry)
    requires forall x :: x in es ==> x.reviewer != e.reviewer
    ensures Upsert(es, e) == es + [e]
  {
    WithoutAbsent(es, ReviewerOf, e.reviewer);
  }

  // ---------------------------------------------------------------------
  // The handlers' inputs
  // ---------------------------------------------------------------------

  /** The validator's `action`: 'approve' and 'reject' set the verdict,
      anything else keeps it. */
  function ApplyAction(verdict: ValidatorStatus, action: Option<string>): (r: ValidatorStatus)
    ensures action == Some("approve") ==> r == Approved
    ensures action == Some("reject") ==> r == Rejected
    ensures action != Some("approve") && action != Some("reject") ==> r == verdict
  {
    if action == Some("approve") then Approved
    else if action == Some("reject") then Rejected
    else verdict
  }

  /** After an 'approve' or 'reject' by an assigned validator, the validation
      stage is done; with the main scores in (which the handler demands), the
      status is then no longer pending. */
  lemma VerdictClosesValidation(
    main: Option<Entry>, adminPeer: Option<ObjectId>, input: AdminPeerInput,
    validator: ObjectId, verdict: ValidatorStatus, action: Option<string>)
    requires action == Some("approve") || action == Some("reject")
    requires MainDone(main)
    ensures ValidatorDone(Some(validator), ApplyAction(verdict, action))
    ensures EvaluateStatus(main, adminPeer, input, Some(validator), ApplyAction(verdict, action)) != Pending
    ensures EvaluateStatus(main, adminPeer, input, Some(validator), ApplyAction(verdict, action)) == Completed <==>
      PeerDone(adminPeer, input)
  {
  }

  /** The admin peer's `approved` field: 'yes' is true, 'no' is false,
      anything else (missing included) is null. */
  function ParseApproval(approved: Option<string>): (r: Option<bool>)
    ensures r == Some(true) <==> approved == Some("yes")
    ensures r == Some(false) <==> approved == Some("no")
    ensures r == None <==> approved != Some("yes") && approved != Some("no")
  {
    if approved == Some("yes") then Some(true)
    else if approved == Some("no") then Some(false)
    else None
  }

  /** Empty feedback does not close the admin-peer stage, whatever the
      approval. */
  lemma EmptyFeedbackKeepsPeerStageOpen(adminPeer: ObjectId, approved: Option<string>, now: Time)
    ensures !PeerDone(Some(adminPeer), AdminPeerInput(Some(""), ParseApproval(approved), Some(now)))
    ensures !PeerDone(Some(adminPeer), AdminPeerInput(None, ParseApproval(approved), Some(now)))
  {
  }

  /** How a handler ended: done, refused (403), or refused because the main
      reviewer has not scored yet (400). */
  datatype Outcome = Done | Forbidden | MainNotScored

  // ---------------------------------------------------------------------
  // The assessment
  // ---------------------------------------------------------------------

  class Assessment {
    const candidate: ObjectId
    const mainReviewer: ObjectId
    const template: ObjectId
    const weightMatrix: Option<ObjectId>
    const validator: Option<ObjectId>
    const adminPeer: Option<ObjectId>

    var peerReviewers: seq<ObjectId>
    var status: Status
    var validatorStatus: ValidatorStatus
    var validatorNote: Option<string>
    var adminPeerInput: AdminPeerInput
    var mainReviewerNote: Option<string>
    var mainAssessment: Option<Entry>
    var peerAssessments: seq<Entry>
    var finalScore: real

    /** What `evaluateStatus` says about the current fields. */
    function Evaluated(): Status
      reads this
    {
      EvaluateStatus(mainAssessment, adminPeer, adminPeerInput, validator, validatorStatus)
    }

    /** The stored status is the derived one, except on an assessment nothing
        has been submitted to yet, which keeps the pending it was created
        with. */
    ghost predicate StatusCoherent()
      reads this
    {
      status == Evaluated() ||
      (status == Pending && mainAssessment.None? &&
       validatorStatus == AwaitingValidation && adminPeerInput == NoAdminPeerInput)
    }

    ghost predicate Valid()
      reads this
    {
      UniqueKeys(peerReviewers, IdOf) &&
      UniqueKeys(peerAssessments, ReviewerOf) &&
      (forall e :: e in peerAssessments ==> e.reviewer in peerReviewers && e.kind == Peer) &&
      (mainAssessment.Some? ==> mainAssessment.value.reviewer == mainReviewer && mainAssessment.value.kind == Main) &&
      (validatorStatus != AwaitingValidation ==> validator.Some?) &&
      (adminPeerInput != NoAdminPeerInput ==> adminPeer.Some?) &&
      StatusCoherent()
    }

    /** `POST /assignments`: a new assessment, pending, with the optional
        roles and weight table set only when supplied. */
    constructor (
      candidate: ObjectId, mainReviewer: ObjectId, template: ObjectId,
      validator: Option<ObjectId>, adminPeer: Option<ObjectId>, weightMatrix: Option<ObjectId>)
      ensures Valid()
      ensures this.candidate == candidate && this.mainReviewer == mainReviewer && this.template == template
      ensures this.validator == validator && this.adminPeer == adminPeer && this.weightMatrix == weightMatrix
      ensures status == Pending && validatorStatus == AwaitingValidation
      ensures peerReviewers == [] && peerAssessments == []
      ensures mainAssessment == None && adminPeerInput == NoAdminPeerInput
      ensures validatorNote == None && mainReviewerNote == None
      ensures finalScore == 0.0
    {
      this.candidate := candidate;
      this.mainReviewer := mainReviewer;
      this.template := template;
      this.validator := validator;
      this.adminPeer := adminPeer;
      this.weightMatrix := weightMatrix;
      peerReviewers := [];
      status := Pending;
      validatorStatus := AwaitingValidation;
      validatorNote := None;
      adminPeerInput := NoAdminPeerInput;
      mainReviewerNote := None;
      mainAssessment := None;
      peerAssessments := [];
      finalScore := 0.0;
    }

    /** `POST /assessment/:id/assign-peer`. */
    method AssignPeer(caller: ObjectId, peerId: ObjectId) returns (outcome: Outcome)
      requires Valid()
      modifies this`peerReviewers
      ensures Valid()
      ensures caller != mainReviewer ==> outcome == Forbidden && peerReviewers == old(peerReviewers)
      ensures caller == mainReviewer ==> outcome == Done && peerReviewers == AddPeer(old(peerReviewers), peerId)
    {
      if caller != mainReviewer {
        return Forbidden;
      }
      AddPeerKeepsUnique(peerReviewers, peerId);
      if peerId !in peerReviewers {
        peerReviewers := peerReviewers + [peerId];
      }
      outcome := Done;
    }

    /** `POST /assessment/:id/remove-peer`: the peer and every entry it
        authored go. */
    method RemovePeer(caller: ObjectId, peerId: ObjectId) returns (outcome: Outcome)
      requires Valid()
      modifies this`peerReviewers, this`peerAssessments
      ensures Valid()
      ensures caller != mainReviewer ==> outcome == Forbidden && unchanged(this)
      ensures caller == mainReviewer ==>
        outcome == Done &&
        peerReviewers == Without(old(peerReviewers), IdOf, peerId) &&
        peerAssessments == Without(old(peerAssessments), ReviewerOf, peerId)
    {
      if caller != mainReviewer {
        return Forbidden;
      }
      WithoutUnique(peerReviewers, IdOf, peerId);
      WithoutUnique(peerAssessments, ReviewerOf, peerId);
      peerReviewers := Without(peerReviewers, IdOf, peerId);
      peerAssessments := Without(peerAssessments, ReviewerOf, peerId);
      outcome := Done;
    }

    /** `POST /assessment/:id/submit`. `populated` is the template document
        the `template` reference resolves to, and `now` the submission time.
        The main reviewer's branch wins when the caller is also a peer. */
    method Submit(caller: ObjectId, scores: seq<Score>, note: Option<string>, populated: Template, now: Time)
      returns (outcome: Outcome)
      requires Valid()
      modifies this`mainAssessment, this`mainReviewerNote, this`status, this`finalScore, this`peerAssessments
      ensures Valid()
      ensures caller == mainReviewer ==>
        outcome == Done &&
        mainAssessment == Some(Entry(caller, Main, scores, note, Some(now))) &&
        mainReviewerNote == note &&
        finalScore == Scoring.Aggregate(scores, populated) &&
        status == Evaluated() &&
        peerAssessments == old(peerAssessments)
      ensures caller != mainReviewer && caller in old(peerReviewers) ==>
        outcome == Done &&
        peerAssessments == Upsert(old(peerAssessments), Entry(caller, Peer, scores, note, Some(now))) &&
        status == Evaluated() &&
        mainAssessment == old(mainAssessment) && mainReviewerNote == old(mainReviewerNote) &&
        finalScore == old(finalScore)
      ensures caller != mainReviewer && caller !in old(peerReviewers) ==> outcome == Forbidden && unchanged(this)
    {
      if caller == mainReviewer {
        mainAssessment := Some(Entry(caller, Main, scores, note, Some(now)));
        mainReviewerNote := note;
        status := Evaluated();
        finalScore := Scoring.CalculateScore(scores, populated);
        outcome := Done;
      } else if caller in peerReviewers {
        var e := Entry(caller, Peer, scores, note, Some(now));
        UpsertEffect(peerAssessments, e);
        peerAssessments := Without(peerAssessments, ReviewerOf, caller) + [e];
        status := Evaluated();
        outcome := Done;
      } else {
        outcome := Forbidden;
      }
    }

    /** `POST /assessment/:id/validator-action`. */
    method ValidatorAction(caller: ObjectId, action: Option<string>, note: Option<string>) returns (outcome: Outcome)
      requires Valid()
      modifies this`validatorStatus, this`validatorNote, this`status
      ensures Valid()
      ensures validator != Some(caller) ==> outcome == Forbidden && unchanged(this)
      ensures validator == Some(caller) && !MainDone(mainAssessment) ==> outcome == MainNotScored && unchanged(this)
      ensures validator == Some(caller) && MainDone(mainAssessment) ==>
        outcome == Done &&
        validatorStatus == ApplyAction(old(validatorStatus), action) &&
        validatorNote == note &&
        status == Evaluated()
    {
      if validator != Some(caller) {
        return Forbidden;
      }
      if !MainDone(mainAssessment) {
        return MainNotScored;
      }
      if action == Some("approve") {
        validatorStatus := Approved;
      } else if action == Some("reject") {
        validatorStatus := Rejected;
      }
      validatorNote := note;
      status := Evaluated();
      outcome := Done;
    }

    /** `POST /assessment/:id/admin-peer-submit`: the testimony is replaced
        as a whole. */
    method AdminPeerSubmit(caller: ObjectId, feedback: Option<string>, approved: Option<string>, now: Time)
      returns (outcome: Outcome)
      requires Valid()
      modifies this`adminPeerInput, this`status
      ensures Valid()
      ensures adminPeer != Some(caller) ==> outcome == Forbidden && unchanged(this)
      ensures adminPeer == Some(caller) ==>
        outcome == Done &&
        adminPeerInput == AdminPeerInput(feedback, ParseApproval(approved), Some(now)) &&
        status == Evaluated()
    {
      if adminPeer != Some(caller) {
        return Forbidden;
      }
      adminPeerInput := AdminPeerInput(feedback, ParseApproval(approved), Some(now));
      status := Evaluated();
      outcome := Done;
    }
  }

  /** The stored status lags the derived one only on an untouched assessment
      without both optional roles: it reads pending where the derivation
      says in progress. */
  lemma StoredStatusLag(a: Assessment)
    requires a.Valid()
    ensures a.status != a.Evaluated() ==>
      a.status == Pending && a.Evaluated() == InProgress && (a.adminPeer.None? || a.validator.None?)
  {
  }
}
