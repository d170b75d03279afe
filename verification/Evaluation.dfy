/** Validation of single and batch evaluation requests, and the merging of batch defaults. */
module Evaluation {
  import opened Wrappers
  import opened Wire
  import Text

  const REQUIRED := "required"
  const REQUIRED_MERGED := "required (item or top-level default)"

  /** EvaluationRequest.Validate; None is a nil receiver, and a nil error. */
  function Validate(r: Option<EvaluationRequest>): (err: Option<ValidationError>)
    ensures err.None? <==>
            r.Some? && r.value.subject.kind != "" && r.value.action.name != "" && r.value.resource.kind != ""
    ensures r.None? ==> err == Some(ValidationError("", "nil EvaluationRequest"))
    ensures r.Some? && err.Some? ==>
              err.value.reason == "required" &&
              (err.value.field == "subject.type" <==> r.value.subject.kind == "") &&
              (err.value.field == "action.name" <==> r.value.subject.kind != "" && r.value.action.name == "") &&
              (err.value.field == "resource.type" <==> r.value.subject.kind != "" && r.value.action.name != "")
  {
    if r.None? then Some(ValidationError("", "nil EvaluationRequest"))
    else if r.value.subject.kind == "" then Some(ValidationError("subject.type", REQUIRED))
    else if r.value.action.name == "" then Some(ValidationError("action.name", REQUIRED))
    else if r.value.resource.kind == "" then Some(ValidationError("resource.type", REQUIRED))
    else None
  }

  /** A batch default applies only to an omitted (nil) field. */
  function Inherit<T>(own: Option<T>, default: Option<T>): Option<T> {
    if own.None? then default else own
  }

  /** Item i of the batch with the defaults filled in; what is still missing has Go's zero value. */
  function Effective(r: EvaluationsRequest, i: nat): EvaluationRequest
    requires i < |r.evaluations|
  {
    var item := r.evaluations[i];
    EvaluationRequest(
      Inherit(item.subject, r.subject).GetOr(ZERO_SUBJECT),
      Inherit(item.action, r.action).GetOr(ZERO_ACTION),
      Inherit(item.resource, r.resource).GetOr(ZERO_RESOURCE),
      if item.context != "" then item.context else r.context)
  }

  /** Item i is a well-formed request once the defaults are filled in. */
  predicate Complete(r: EvaluationsRequest, i: nat)
    requires i < |r.evaluations|
  {
    Validate(Some(Effective(r, i))).None?
  }

  /** "evaluations[i]." followed by the name of a required field. */
  function FieldPath(i: nat, name: string): string {
    "evaluations[" + Text.Decimal(i) + "]." + name
  }

  /** The error that Validate owes an incomplete item: the field that the merged item alone would be refused for,
      behind the item's index. */
  predicate NamesFirstMissing(e: EvaluationRequest, i: nat, err: ValidationError)
    requires Validate(Some(e)).Some?
  {
    && err.reason == "required (item or top-level default)"
    && err.field == FieldPath(i, Validate(Some(e)).value.field)
  }

  /** What a batch validation result must be: the exact verdict on the request. */
  ghost predicate BatchVerdict(r: Option<EvaluationsRequest>, err: Option<ValidationError>) {
    match r
    case None => err == Some(ValidationError("", "nil EvaluationsRequest"))
    case Some(b) =>
      if b.evaluations == [] then err == Some(ValidationError("evaluations", "required, at least one item"))
      else if err.None? then forall i: nat | i < |b.evaluations| :: Complete(b, i)
      else FirstIncomplete(b, err.value)
  }

  ghost predicate FirstIncomplete(b: EvaluationsRequest, err: ValidationError) {
    exists i: nat :: i < |b.evaluations| && LeastIncomplete(b, i) && NamesFirstMissing(Effective(b, i), i, err)
  }

  ghost predicate LeastIncomplete(b: EvaluationsRequest, i: nat)
    requires i < |b.evaluations|
  {
    !Complete(b, i) && forall j: nat | j < i :: Complete(b, j)
  }

  /** EvaluationsRequest.Validate. */
  method ValidateBatch(r: Option<EvaluationsRequest>) returns (err: Option<ValidationError>)
    ensures BatchVerdict(r, err)
  {
    if r.None? {
      return Some(ValidationError("", "nil EvaluationsRequest"));
    }
    var b := r.value;
    if |b.evaluations| == 0 {
      return Some(ValidationError("evaluations", "required, at least one item"));
    }
    for i := 0 to |b.evaluations|
      invariant forall j: nat | j < i :: Complete(b, j)
    {
      var item := b.evaluations[i];
      var subject := item.subject;
      if subject.None? {
        subject := b.subject;
      }
      if subject.None? || subject.value.kind == "" {
        err := Some(ValidationError(FieldPath(i, "subject.type"), REQUIRED_MERGED));
        assert LeastIncomplete(b, i) && NamesFirstMissing(Effective(b, i), i, err.value);
        return;
      }
      var action := item.action;
      if action.None? {
        action := b.action;
      }
      if action.None? || action.value.name == "" {
        err := Some(ValidationError(FieldPath(i, "action.name"), REQUIRED_MERGED));
        assert LeastIncomplete(b, i) && NamesFirstMissing(Effective(b, i), i, err.value);
        return;
      }
      var resource := item.resource;
      if resource.None? {
        resource := b.resource;
      }
      if resource.None? || resource.value.kind == "" {
        err := Some(ValidationError(FieldPath(i, "resource.type"), REQUIRED_MERGED));
        assert LeastIncomplete(b, i) && NamesFirstMissing(Effective(b, i), i, err.value);
        return;
      }
    }
    err := None;
  }

  lemma LeastUnique(b: EvaluationsRequest, i: nat, j: nat)
    requires i < |b.evaluations| && j < |b.evaluations| && LeastIncomplete(b, i) && LeastIncomplete(b, j)
    ensures i == j
  {
  }

  /** The verdict leaves no choice: a request has one. */
  lemma BatchVerdictUnique(r: Option<EvaluationsRequest>, e1: Option<ValidationError>, e2: Option<ValidationError>)
    requires BatchVerdict(r, e1) && BatchVerdict(r, e2)
    ensures e1 == e2
  {
    if r.Some? && r.value.evaluations != [] && e1.Some? {
      var b := r.value;
      assert FirstIncomplete(b, e1.value);
      var i: nat :| i < |b.evaluations| && LeastIncomplete(b, i) && NamesFirstMissing(Effective(b, i), i, e1.value);
      assert e2.Some? by {
        assert !Complete(b, i);
      }
      var j: nat :| j < |b.evaluations| && LeastIncomplete(b, j) && NamesFirstMissing(Effective(b, j), j, e2.value);
      LeastUnique(b, i, j);
    }
  }

  /** The path has the index in brackets, as a numeral without leading zeros, and then the field. */
  lemma FieldPathForm(i: nat, name: string)
    ensures exists digits ::
              && FieldPath(i, name) == "evaluations[" + digits + "]." + name
              && Text.AllDigits(digits) && Text.DigitsValue(digits) == i
              && (digits == "0" || (digits != "" && digits[0] != '0'))
  {
    Text.DecimalCanonical(i);
    assert FieldPath(i, name) == "evaluations[" + Text.Decimal(i) + "]." + name;
  }

  /** A batch item's own field comes first, then the batch's default, then the zero value; a present field counts,
      even if it is zero. */
  lemma EffectiveFields(r: EvaluationsRequest, i: nat)
    requires i < |r.evaluations|
    ensures var item, e := r.evaluations[i], Effective(r, i);
            && e.subject == First(item.subject, r.subject, Subject("", "", Absent))
            && e.action == First(item.action, r.action, Action("", Absent))
            && e.resource == First(item.resource, r.resource, Resource("", "", Absent))
            && e.context == if item.context == "" then r.context else item.context
  {
  }

  function First<X>(own: Option<X>, default: Option<X>, zero: X): X {
    match (own, default)
    case (Some(x), _) => x
    case (None, Some(x)) => x
    case (None, None) => zero
  }

  /** The index and the field can be read back from the error's path. */
  lemma FieldPathInjective(i: nat, name: string, j: nat, other: string)
    requires FieldPath(i, name) == FieldPath(j, other)
    ensures i == j && name == other
  {
    var p, q := "evaluations[" + Text.Decimal(i), "evaluations[" + Text.Decimal(j);
    NoBracket(i);
    NoBracket(j);
    assert FieldPath(i, name) == p + [']'] + ("." + name);
    assert FieldPath(j, other) == q + [']'] + ("." + other);
    Text.SplitFirst(p, "." + name, ']');
    Text.SplitFirst(q, "." + other, ']');
    assert p == Text.Split(FieldPath(i, name), ']')[0] == q;
    assert Text.Decimal(i) == p[12..] == q[12..] == Text.Decimal(j);
    assert "." + name == FieldPath(i, name)[|p| + 1..] == "." + other;
    assert name == ("." + name)[1..] == other;
  }

  lemma NoBracket(i: nat)
    ensures ']' !in "evaluations[" + Text.Decimal(i)
  {
  }
}
