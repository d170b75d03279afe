/** The example PDP: the todo rules as Cedar permits over an entity store with a per-request overlay. */
module TodoPdp {
  import opened Wrappers
  import opened Wire
  import opened Cedar
  import ErrorTree

  function RoleUid(role: string): Uid {
    Uid("Role", role)
  }

  function UserUid(id: string): Uid {
    Uid("User", id)
  }

  function TodoUid(id: string): Uid {
    Uid("Todo", id)
  }

  function ActionUid(name: string): Uid {
    Uid("Action", name)
  }

  // ----- policies.cedar -----

  const ADMIN_ANYTHING := Permit(Scope.In(RoleUid("admin")), Anything, Anything, None)
  const EDITOR_READ_CREATE := Permit(
    Scope.In(RoleUid("editor")),
    InAny([ActionUid("can_read_user"), ActionUid("can_read_todos"), ActionUid("can_create_todo")]),
    Anything, None)
  const OWN_TODO := And(Has(Expr.Resource, "ownerID"), Equal(Attr(Expr.Resource, "ownerID"), Principal))
  const EDITOR_CHANGE_OWN := Permit(
    Scope.In(RoleUid("editor")),
    InAny([ActionUid("can_update_todo"), ActionUid("can_delete_todo")]),
    Is("Todo"), Some(OWN_TODO))
  const VIEWER_READ := Permit(
    Scope.In(RoleUid("viewer")),
    InAny([ActionUid("can_read_user"), ActionUid("can_read_todos")]),
    Anything, None)
  const POLICIES := [ADMIN_ANYTHING, EDITOR_READ_CREATE, EDITOR_CHANGE_OWN, VIEWER_READ]

  // ----- The decider -----

  function CedarType(resourceType: string): string {
    if resourceType == "user" then "User"
    else if resourceType == "todo" then "Todo"
    else resourceType
  }

  function ResourceUid(r: Resource): Uid {
    Uid(CedarType(r.kind), r.id)
  }

  /** buildResourceEntity: nothing to overlay, an entity that knows its owner and has no parents, or an error. */
  function BuildResourceEntity(raw: Properties): Result<Option<Entity>, ErrorTree.Err> {
    match raw
    case Absent => Ok(None)
    case Malformed => Err(ErrorTree.Wrapped("decode resource properties", ErrorTree.Opaque("json")))
    case Owner(id) =>
      if id == "" then Ok(None) else Ok(Some(Entity(map["ownerID" := Ref(UserUid(id))], {})))
  }

  /** The static store with the request's resource overlaid. */
  function EntitiesForRequest(entities: Store, r: Resource): Result<Store, ErrorTree.Err> {
    match BuildResourceEntity(r.properties)
    case Err(e) => Err(e)
    case Ok(None) => Ok(entities)
    case Ok(Some(overlay)) => Ok(entities[ResourceUid(r) := overlay])
  }

  function CedarRequest(req: EvaluationRequest): Request {
    Request(UserUid(req.subject.id), ActionUid(req.action.name), ResourceUid(req.resource))
  }

  function Evaluate(entities: Store, req: EvaluationRequest): Result<EvaluationResponse, ErrorTree.Err> {
    match EntitiesForRequest(entities, req.resource)
    case Err(e) => Err(ErrorTree.Wrapped("build cedar entities", e))
    case Ok(store) => Ok(EvaluationResponse(Authorize(POLICIES, store, CedarRequest(req))))
  }

  /** The policy set allows when one of its four permits matches. */
  lemma AuthorizeUnfold(store: Store, req: Request)
    ensures Authorize(POLICIES, store, req) <==>
            || Matches(ADMIN_ANYTHING, store, req)
            || Matches(EDITOR_READ_CREATE, store, req)
            || Matches(EDITOR_CHANGE_OWN, store, req)
            || Matches(VIEWER_READ, store, req)
  {
  }
}
