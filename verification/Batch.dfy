/** The two batch deciders: their merging of defaults, their loops, and their agreement on validated batches. */
module Batch {
  import opened Wrappers
  import opened Wire
  import opened Evaluation
  import ErrorTree
  import Cedar
  import TodoPdp
  import Equivalence
  import T = TodoScenario

  // ----- Merging by zero value -----

  /** pickSubject, pickAction and pickResource take an item's field when any part of it is non-zero. */
  function PickSubject(item: Option<Subject>, fallback: Option<Subject>): Subject {
    if item.Some? && (item.value.kind != "" || item.value.id != "" || item.value.properties != Absent) then item.value
    else if fallback.Some? then fallback.value
    else ZERO_SUBJECT
  }

  function PickAction(item: Option<Action>, fallback: Option<Action>): Action {
    if item.Some? && (item.value.name != "" || item.value.properties != Absent) then item.value
    else if fallback.Some? then fallback.value
    else ZERO_ACTION
  }

  function PickResource(item: Option<Resource>, fallback: Option<Resource>): Resource {
    if item.Some? && (item.value.kind != "" || item.value.id != "" || item.value.properties != Absent) then item.value
    else if fallback.Some? then fallback.value
    else ZERO_RESOURCE
  }

  function FirstNonEmpty(a: string, b: string): string {
    if a != "" then a else b
  }

  function Picked(r: EvaluationsRequest, i: nat): EvaluationRequest
    requires i < |r.evaluations|
  {
    var item := r.evaluations[i];
    EvaluationRequest(PickSubject(item.subject, r.subject), PickAction(item.action, r.action),
                      PickResource(item.resource, r.resource), FirstNonEmpty(item.context, r.context))
  }

  /** A present but zero field hides a default in one merge and not in the other. */
  predicate HidesDefault<T(==)>(item: Option<T>, fallback: Option<T>, zero: T) {
    item == Some(zero) && fallback.Some? && fallback.value != zero
  }

  /** The two merges differ exactly on items with a present zero field over a non-zero default. */
  lemma MergesDiffer(r: EvaluationsRequest, i: nat)
    requires i < |r.evaluations|
    ensures var item := r.evaluations[i];
            Picked(r, i) != Effective(r, i) <==>
            || HidesDefault(item.subject, r.subject, ZERO_SUBJECT)
            || HidesDefault(item.action, r.action, ZERO_ACTION)
            || HidesDefault(item.resource, r.resource, ZERO_RESOURCE)
  {
  }

  /** The merge by zero value: an item's own field when it is present and not zero, or else the batch's default, or else
      the zero value. */
  lemma PickedFields(r: EvaluationsRequest, i: nat)
    requires i < |r.evaluations|
    ensures var item, p := r.evaluations[i], Picked(r, i);
            && p.subject == First(NonZero(item.subject, ZERO_SUBJECT), r.subject, Subject("", "", Absent))
            && p.action == First(NonZero(item.action, ZERO_ACTION), r.action, Action("", Absent))
            && p.resource == First(NonZero(item.resource, ZERO_RESOURCE), r.resource, Resource("", "", Absent))
            && p.context == if item.context == "" then r.context else item.context
  {
  }

  /** A present zero field counts as none. */
  function NonZero<X(==)>(own: Option<X>, zero: X): Option<X> {
    if own == Some(zero) then None else own
  }

  /** On a batch that passes validation the merges coincide, and every merged item is a valid single request. */
  lemma MergeAgreement(r: EvaluationsRequest)
    requires BatchVerdict(Some(r), None)
    ensures forall i: nat | i < |r.evaluations| :: Picked(r, i) == Effective(r, i)
    ensures forall i: nat | i < |r.evaluations| :: Validate(Some(Picked(r, i))) == None
  {
    forall i: nat | i < |r.evaluations|
      ensures Picked(r, i) == Effective(r, i)
    {
      assert Complete(r, i);
      MergesDiffer(r, i);
    }
    forall i: nat | i < |r.evaluations|
      ensures Validate(Some(Picked(r, i))) == None
    {
      assert Complete(r, i) && Picked(r, i) == Effective(r, i);
    }
  }

  // ----- The reference decider -----

  function ReferenceEvaluate(dir: T.Directory, req: Option<EvaluationRequest>)
    : Result<EvaluationResponse, ErrorTree.Err>
  {
    match req
    case None => Err(ErrorTree.Invalid(ValidationError("", "nil EvaluationRequest"), None))
    case Some(r) => Ok(EvaluationResponse(Equivalence.Decide(dir, r)))
  }

  /** One single evaluation per item, in order. */
  function ReferenceBatch(dir: T.Directory, r: EvaluationsRequest): (rs: seq<EvaluationResponse>)
    ensures |rs| == |r.evaluations|
    ensures forall i: nat | i < |rs| :: ReferenceEvaluate(dir, Some(Effective(r, i))) == Ok(rs[i])
  {
    seq(|r.evaluations|, i requires 0 <= i < |r.evaluations| =>
      EvaluationResponse(Equivalence.Decide(dir, Effective(r, i))))
  }

  /** scenarioDecider.Evaluations. */
  method ReferenceEvaluations(dir: T.Directory, req: Option<EvaluationsRequest>)
    returns (out: Result<seq<EvaluationResponse>, ErrorTree.Err>)
    ensures req.None? ==> out == Err(ErrorTree.Invalid(ValidationError("", "nil EvaluationsRequest"), None))
    ensures req.Some? ==> out == Ok(ReferenceBatch(dir, req.value))
  {
    if req.None? {
      return Err(ErrorTree.Invalid(ValidationError("", "nil EvaluationsRequest"), None));
    }
    var r := req.value;
    ghost var expected := ReferenceBatch(dir, r);
    var responses: seq<EvaluationResponse> := [];
    for i := 0 to |r.evaluations|
      invariant responses == expected[..i]
    {
      var response := ReferenceItem(dir, r, i);
      assert expected[i] == response;
      responses := responses + [response];
    }
    assert expected[..|r.evaluations|] == expected;
    return Ok(responses);
  }

  /** The body of its loop: nil fields are inherited, and what is still nil counts as empty. */
  method ReferenceItem(dir: T.Directory, r: EvaluationsRequest, i: nat) returns (response: EvaluationResponse)
    requires i < |r.evaluations|
    ensures response == EvaluationResponse(Equivalence.Decide(dir, Effective(r, i)))
  {
    var item := r.evaluations[i];
    var subject := item.subject;
    if subject.None? {
      subject := r.subject;
    }
    var action := item.action;
    if action.None? {
      action := r.action;
    }
    var resource := item.resource;
    if resource.None? {
      resource := r.resource;
    }
    var subjectID, actionName, resourceType, resourceID, properties := "", "", "", "", Absent;
    if subject.Some? {
      subjectID := subject.value.id;
    }
    assert subjectID == Effective(r, i).subject.id;
    if action.Some? {
      actionName := action.value.name;
    }
    assert actionName == Effective(r, i).action.name;
    if resource.Some? {
      resourceType := resource.value.kind;
      resourceID := resource.value.id;
      properties := resource.value.properties;
    }
    assert Resource(resourceType, resourceID, properties) == Effective(r, i).resource;
    return EvaluationResponse(T.Decide(dir, subjectID, actionName, resourceType, resourceID, properties));
  }

  // ----- The Cedar decider -----

  /** Either every item's own answer, or the error of the first item that has one. */
  ghost predicate CedarBatch(entities: Cedar.Store, r: EvaluationsRequest,
                             out: Result<seq<EvaluationResponse>, ErrorTree.Err>)
  {
    match out
    case Ok(rs) =>
      && |rs| == |r.evaluations|
      && forall i: nat | i < |rs| :: TodoPdp.Evaluate(entities, Picked(r, i)) == Ok(rs[i])
    case Err(e) =>
      exists i: nat :: i < |r.evaluations| && FailsFirst(entities, r, i, e)
  }

  ghost predicate FailsFirst(entities: Cedar.Store, r: EvaluationsRequest, i: nat, e: ErrorTree.Err)
    requires i < |r.evaluations|
  {
    && TodoPdp.Evaluate(entities, Picked(r, i)) == Err(e)
    && forall j: nat | j < i :: TodoPdp.Evaluate(entities, Picked(r, j)).Ok?
  }

  /** cedarDecider.Evaluations. */
  method CedarEvaluations(entities: Cedar.Store, r: EvaluationsRequest)
    returns (out: Result<seq<EvaluationResponse>, ErrorTree.Err>)
    ensures CedarBatch(entities, r, out)
  {
    var results: seq<EvaluationResponse> := [];
    for i := 0 to |r.evaluations|
      invariant |results| == i
      invariant forall j: nat | j < i :: TodoPdp.Evaluate(entities, Picked(r, j)) == Ok(results[j])
    {
      var item := r.evaluations[i];
      var merged := EvaluationRequest(
        PickSubject(item.subject, r.subject), PickAction(item.action, r.action),
        PickResource(item.resource, r.resource), FirstNonEmpty(item.context, r.context));
      match TodoPdp.Evaluate(entities, merged) {
        case Err(e) =>
          assert FailsFirst(entities, r, i, e);
          return Err(e);
        case Ok(response) => results := results + [response];
      }
    }
    return Ok(results);
  }

  /** On validated batches the two deciders return the same responses exactly when every merged item has a
      well-formed payload and lies in the agreement domain. */
  lemma BatchesAgree(entities: Cedar.Store, dir: T.Directory, r: EvaluationsRequest,
                     out: Result<seq<EvaluationResponse>, ErrorTree.Err>)
    requires Equivalence.Mirrors(entities, dir) && BatchVerdict(Some(r), None) && CedarBatch(entities, r, out)
    ensures out == Ok(ReferenceBatch(dir, r)) <==>
            forall i: nat | i < |r.evaluations| ::
              !Effective(r, i).resource.properties.Malformed? && Equivalence.AgreementDomain(dir, Effective(r, i))
  {
    MergeAgreement(r);
    forall i: nat | i < |r.evaluations|
      ensures TodoPdp.Evaluate(entities, Picked(r, i)) == Ok(ReferenceBatch(dir, r)[i]) <==>
              !Effective(r, i).resource.properties.Malformed? && Equivalence.AgreementDomain(dir, Effective(r, i))
    {
      Equivalence.AgreementExact(entities, dir, Effective(r, i));
    }
    if out.Ok? {
      assert out.value == ReferenceBatch(dir, r) <==>
             forall i: nat | i < |r.evaluations| :: out.value[i] == ReferenceBatch(dir, r)[i];
    }
  }

  /** A validated batch fails in the Cedar decider exactly when some item's effective payload is malformed; the error
      then maps to 500. */
  lemma BatchFails(entities: Cedar.Store, dir: T.Directory, r: EvaluationsRequest,
                   out: Result<seq<EvaluationResponse>, ErrorTree.Err>)
    requires Equivalence.Mirrors(entities, dir) && BatchVerdict(Some(r), None) && CedarBatch(entities, r, out)
    ensures out.Err? <==>
            exists i: nat :: i < |r.evaluations| && Effective(r, i).resource.properties.Malformed?
    ensures out.Err? ==> ErrorTree.Status(out.error) == ErrorTree.INTERNAL_ERROR
  {
    MergeAgreement(r);
    forall i: nat | i < |r.evaluations|
      ensures var answer := TodoPdp.Evaluate(entities, Picked(r, i));
              && (answer.Err? <==> Effective(r, i).resource.properties.Malformed?)
              && (answer.Err? ==> ErrorTree.Status(answer.error) == ErrorTree.INTERNAL_ERROR)
    {
      Equivalence.CedarMeaning(entities, dir, Effective(r, i));
    }
  }
}
