/** The AuthZEN request and response shapes that travel between a client (PEP) and a server (PDP). */
module Wire {
  import opened Wrappers

  /** A resource's raw properties payload, as far as any decider looks into it: no bytes at all, bytes that
      do not decode into an object with a string ownerID, or a decoded ownerID (empty when the key is missing).
      It also stands for the raw properties of subjects and actions, which are only ever tested for presence. */
  datatype Properties = Absent | Malformed | Owner(id: string)

  datatype Subject = Subject(kind: string, id: string, properties: Properties)
  datatype Action = Action(name: string, properties: Properties)
  datatype Resource = Resource(kind: string, id: string, properties: Properties)

  const ZERO_SUBJECT := Subject("", "", Absent)
  const ZERO_ACTION := Action("", Absent)
  const ZERO_RESOURCE := Resource("", "", Absent)

  /** context is the raw extension payload; the empty string is an omitted one. */
  datatype EvaluationRequest = EvaluationRequest(subject: Subject, action: Action, resource: Resource, context: string)

  datatype EvaluationResponse = EvaluationResponse(decision: bool)

  /** None is Go's nil pointer: the field was omitted. */
  datatype EvaluationsItem = EvaluationsItem(
    subject: Option<Subject>, action: Option<Action>, resource: Option<Resource>, context: string)

  datatype Semantic = Unspecified | ExecuteAll | DenyOnFirstDeny | PermitOnFirstPermit

  datatype EvaluationsRequest = EvaluationsRequest(
    subject: Option<Subject>, action: Option<Action>, resource: Option<Resource>, context: string,
    evaluations: seq<EvaluationsItem>, semantic: Semantic)

  datatype ValidationError = ValidationError(field: string, reason: string)
}
