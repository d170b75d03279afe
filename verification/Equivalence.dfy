/** Where the reference rule and the Cedar PDP agree: over all directories, requests and properties payloads. */
module Equivalence {
  import opened Wrappers
  import opened Wire
  import opened Cedar
  import opened TodoPdp
  import T = TodoScenario

  // ----- The entity store that mirrors a directory -----

  function RoleUids(roles: seq<string>): set<Uid> {
    set r | r in roles :: RoleUid(r)
  }

  function UserEntity(u: T.User): Entity {
    Entity(map[], RoleUids(u.roles))
  }

  function TodoEntity(t: T.Todo): Entity {
    Entity(map["ownerID" := Ref(UserUid(t.ownerID))], {})
  }

  /** The store has the directory's users under their roles and its todos with their owners; roles and actions
      have no parents. Entities of other types are unconstrained. */
  ghost predicate Mirrors(store: Store, dir: T.Directory) {
    && (forall id :: MirrorsUser(store, dir, id))
    && (forall id :: MirrorsTodo(store, dir, id))
    && (forall uid: Uid :: uid.kind == "Role" || uid.kind == "Action" ==> ParentsOf(store, uid) == {})
  }

  predicate MirrorsUser(store: Store, dir: T.Directory, id: string) {
    match T.UserByID(dir.users, id)
    case None => UserUid(id) !in store
    case Some(u) => UserUid(id) in store && store[UserUid(id)] == UserEntity(u)
  }

  predicate MirrorsTodo(store: Store, dir: T.Directory, id: string) {
    match T.TodoByID(dir.todos, id)
    case None => TodoUid(id) !in store
    case Some(t) => TodoUid(id) in store && store[TodoUid(id)] == TodoEntity(t)
  }

  function UserEntities(users: seq<T.User>): (store: Store)
    ensures forall uid :: uid in store <==> uid.kind == "User" && T.UserByID(users, uid.id).Some?
    ensures forall uid :: uid in store ==> store[uid] == UserEntity(T.UserByID(users, uid.id).value)
  {
    var uids := set u | u in users :: UserUid(u.id);
    map uid | uid in uids && T.UserByID(users, uid.id).Some? :: UserEntity(T.UserByID(users, uid.id).value)
  }

  function TodoEntities(todos: seq<T.Todo>): (store: Store)
    ensures forall uid :: uid in store <==> uid.kind == "Todo" && T.TodoByID(todos, uid.id).Some?
    ensures forall uid :: uid in store ==> store[uid] == TodoEntity(T.TodoByID(todos, uid.id).value)
  {
    var uids := set t | t in todos :: TodoUid(t.id);
    map uid | uid in uids && T.TodoByID(todos, uid.id).Some? :: TodoEntity(T.TodoByID(todos, uid.id).value)
  }

  /** The translation of a directory into entities. */
  function StoreOf(dir: T.Directory): Store {
    UserEntities(dir.users) + TodoEntities(dir.todos)
  }

  lemma StoreOfMirrors(dir: T.Directory)
    ensures Mirrors(StoreOf(dir), dir)
  {
    forall id
      ensures MirrorsUser(StoreOf(dir), dir, id) && MirrorsTodo(StoreOf(dir), dir, id)
    {
      DistinctTypes();
      assert UserUid(id) !in TodoEntities(dir.todos) && TodoUid(id) !in UserEntities(dir.users);
    }
    forall uid: Uid | uid.kind == "Role" || uid.kind == "Action"
      ensures ParentsOf(StoreOf(dir), uid) == {}
    {
      DistinctTypes();
      assert uid !in UserEntities(dir.users) && uid !in TodoEntities(dir.todos);
    }
  }

  lemma DistinctTypes()
    ensures "User" != "Todo" && "User" != "Role" && "Todo" != "Role"
    ensures "Action" != "User" && "Action" != "Todo" && "Action" != "Role"
  {
  }

  // ----- What the Cedar PDP answers -----

  function Decide(dir: T.Directory, req: EvaluationRequest): bool {
    T.Decide(dir, req.subject.id, req.action.name, req.resource.kind, req.resource.id, req.resource.properties)
  }

  /** The wire carries an owner that the PDP will overlay. */
  predicate HasOverlay(req: EvaluationRequest) {
    req.resource.properties.Owner? && req.resource.properties.id != ""
  }

  /** The overlay lands on the principal's own entity, and so wipes out its roles. */
  predicate SelfOverlaid(req: EvaluationRequest) {
    HasOverlay(req) && req.resource.kind in {"user", "User"} && req.resource.id == req.subject.id
  }

  /** The store Cedar sees for a request. */
  function OverlaidStore(store: Store, req: EvaluationRequest): (s: Store)
    requires !req.resource.properties.Malformed?
  {
    EntitiesForRequest(store, req.resource).value
  }

  lemma RoleMembership(store: Store, dir: T.Directory, req: EvaluationRequest, role: string)
    requires Mirrors(store, dir) && !req.resource.properties.Malformed?
    ensures IsIn(OverlaidStore(store, req), UserUid(req.subject.id), RoleUid(role)) <==>
            !SelfOverlaid(req) && T.UserByID(dir.users, req.subject.id).Some? &&
            T.UserByID(dir.users, req.subject.id).value.HasRole(role)
  {
    var s := OverlaidStore(store, req);
    var principal := UserUid(req.subject.id);
    assert MirrorsUser(store, dir, req.subject.id);
    forall p | p in ParentsOf(s, principal)
      ensures p.kind == "Role" && ParentsOf(s, p) == {}
    {
      assert ParentsOf(store, p) == {};
    }
    IsInOneLevel(s, principal, RoleUid(role));
    if T.UserByID(dir.users, req.subject.id).Some? && !SelfOverlaid(req) {
      var u := T.UserByID(dir.users, req.subject.id).value;
      assert s[principal] == UserEntity(u);
      assert RoleUid(role) in RoleUids(u.roles) <==> role in u.roles;
    }
  }

  lemma ActionMembership(store: Store, dir: T.Directory, req: EvaluationRequest, name: string)
    requires Mirrors(store, dir) && !req.resource.properties.Malformed?
    ensures IsIn(OverlaidStore(store, req), ActionUid(req.action.name), ActionUid(name)) <==> req.action.name == name
  {
  }

  /** The condition of the third permit is the owner test of the reference rule. */
  lemma OwnTodoMeaning(store: Store, dir: T.Directory, req: EvaluationRequest)
    requires Mirrors(store, dir) && !req.resource.properties.Malformed?
    requires CedarType(req.resource.kind) == "Todo"
    ensures Eval(OWN_TODO, OverlaidStore(store, req), CedarRequest(req)) == Some(Bool(true)) <==>
            T.OwnerMatches(dir, req.subject.id, req.resource.id, req.resource.properties)
  {
    var s := OverlaidStore(store, req);
    var cedar := CedarRequest(req);
    var uid := TodoUid(req.resource.id);
    assert cedar.resource == uid;
    var has := Has(Expr.Resource, "ownerID");
    var own := Equal(Attr(Expr.Resource, "ownerID"), Principal);
    assert Eval(has, s, cedar) == Some(Bool(uid in s && "ownerID" in s[uid].attrs));
    if uid in s && "ownerID" in s[uid].attrs {
      assert Eval(Attr(Expr.Resource, "ownerID"), s, cedar) == Some(s[uid].attrs["ownerID"]);
      assert Eval(own, s, cedar) == Some(Bool(s[uid].attrs["ownerID"] == Ref(cedar.principal)));
    }
    assert MirrorsTodo(store, dir, req.resource.id);
  }

  predicate IsRead(action: string) {
    action == T.READ_USER || action == T.READ_TODOS
  }

  predicate IsChange(action: string) {
    action == T.UPDATE_TODO || action == T.DELETE_TODO
  }

  /** The four permits, read as role rules. */
  predicate CedarRule(dir: T.Directory, req: EvaluationRequest) {
    var action := req.action.name;
    match T.UserByID(dir.users, req.subject.id)
    case None => false
    case Some(u) =>
      && !SelfOverlaid(req)
      && (|| u.HasRole("admin")
          || (u.HasRole("editor") && (IsRead(action) || action == T.CREATE_TODO))
          || (u.HasRole("editor") && IsChange(action) && req.resource.kind in {"todo", "Todo"} &&
              T.OwnerMatches(dir, req.subject.id, req.resource.id, req.resource.properties))
          || (u.HasRole("viewer") && IsRead(action)))
  }

  /** Translation: the interpreter, the permits, the store and the overlay together compute CedarRule,
      and a malformed payload is an error that the server maps to 500. */
  lemma CedarMeaning(store: Store, dir: T.Directory, req: EvaluationRequest)
    requires Mirrors(store, dir)
    ensures req.resource.properties.Malformed? ==>
              Evaluate(store, req).Err? && ErrorTree.Status(Evaluate(store, req).error) == ErrorTree.INTERNAL_ERROR
    ensures !req.resource.properties.Malformed? ==>
              Evaluate(store, req) == Ok(EvaluationResponse(CedarRule(dir, req)))
  {
    if !req.resource.properties.Malformed? {
      AuthorizeUnfold(OverlaidStore(store, req), CedarRequest(req));
      PermitMeanings(store, dir, req);
      ChangePermitMeaning(store, dir, req);
    }
  }

  /** The principal is a known user with this role, and the overlay spares it. */
  predicate InRole(dir: T.Directory, req: EvaluationRequest, role: string) {
    var known := T.UserByID(dir.users, req.subject.id);
    !SelfOverlaid(req) && known.Some? && known.value.HasRole(role)
  }

  lemma PermitMeanings(store: Store, dir: T.Directory, req: EvaluationRequest)
    requires Mirrors(store, dir) && !req.resource.properties.Malformed?
    ensures var s, cedar, action := OverlaidStore(store, req), CedarRequest(req), req.action.name;
            && (Matches(ADMIN_ANYTHING, s, cedar) <==> InRole(dir, req, "admin"))
            && (Matches(EDITOR_READ_CREATE, s, cedar) <==>
                InRole(dir, req, "editor") && (IsRead(action) || action == T.CREATE_TODO))
            && (Matches(VIEWER_READ, s, cedar) <==> InRole(dir, req, "viewer") && IsRead(action))
  {
    RoleMembership(store, dir, req, "admin");
    RoleMembership(store, dir, req, "editor");
    RoleMembership(store, dir, req, "viewer");
    ActionScopes(store, dir, req);
  }

  lemma ChangePermitMeaning(store: Store, dir: T.Directory, req: EvaluationRequest)
    requires Mirrors(store, dir) && !req.resource.properties.Malformed?
    ensures Matches(EDITOR_CHANGE_OWN, OverlaidStore(store, req), CedarRequest(req)) <==>
            InRole(dir, req, "editor") && IsChange(req.action.name) && req.resource.kind in {"todo", "Todo"} &&
            T.OwnerMatches(dir, req.subject.id, req.resource.id, req.resource.properties)
  {
    RoleMembership(store, dir, req, "editor");
    ActionScopes(store, dir, req);
    if CedarType(req.resource.kind) == "Todo" {
      OwnTodoMeaning(store, dir, req);
    }
  }

  lemma ActionScopes(store: Store, dir: T.Directory, req: EvaluationRequest)
    requires Mirrors(store, dir) && !req.resource.properties.Malformed?
    ensures var s, a := OverlaidStore(store, req), req.action.name;
            && (InScope(EDITOR_READ_CREATE.action, s, ActionUid(a)) <==> IsRead(a) || a == T.CREATE_TODO)
            && (InScope(EDITOR_CHANGE_OWN.action, s, ActionUid(a)) <==> IsChange(a))
            && (InScope(VIEWER_READ.action, s, ActionUid(a)) <==> IsRead(a))
  {
    ActionMembership(store, dir, req, T.READ_USER);
    ActionMembership(store, dir, req, T.READ_TODOS);
    ActionMembership(store, dir, req, T.CREATE_TODO);
    ActionMembership(store, dir, req, T.UPDATE_TODO);
    ActionMembership(store, dir, req, T.DELETE_TODO);
    var s, a := OverlaidStore(store, req), ActionUid(req.action.name);
    InThree(s, a, ActionUid(T.READ_USER), ActionUid(T.READ_TODOS), ActionUid(T.CREATE_TODO));
    InThree(s, a, ActionUid(T.UPDATE_TODO), ActionUid(T.DELETE_TODO), ActionUid(T.DELETE_TODO));
    InThree(s, a, ActionUid(T.READ_USER), ActionUid(T.READ_TODOS), ActionUid(T.READ_TODOS));
  }

  lemma InThree(s: Store, a: Uid, x: Uid, y: Uid, z: Uid)
    ensures InScope(InAny([x, y, z]), s, a) <==> IsIn(s, a, x) || IsIn(s, a, y) || IsIn(s, a, z)
    ensures y == z ==> (InScope(InAny([x, y]), s, a) <==> IsIn(s, a, x) || IsIn(s, a, y))
  {
  }

  // ----- Agreement -----

  /** The inputs on which both deciders answer the same. */
  predicate AgreementDomain(dir: T.Directory, req: EvaluationRequest) {
    var action, kind := req.action.name, req.resource.kind;
    match T.UserByID(dir.users, req.subject.id)
    case None => true
    case Some(u) =>
      var reader := u.HasRole("editor") || u.HasRole("viewer");
      if SelfOverlaid(req) then !u.HasRole("admin") && !(action == T.READ_USER && kind == "user")
      else if u.HasRole("admin") then true
      else if action == T.READ_USER then reader <==> kind == "user"
      else if action == T.READ_TODOS then reader <==> kind == "todo"
      else if action == T.CREATE_TODO then u.HasRole("editor") ==> kind == "todo"
      else if IsChange(action) then
        !(u.HasRole("editor") && kind == "Todo" &&
          T.OwnerMatches(dir, req.subject.id, req.resource.id, req.resource.properties))
      else true
  }

  /** The Cedar PDP gives the reference decision exactly on well-formed payloads in the domain. */
  lemma AgreementExact(store: Store, dir: T.Directory, req: EvaluationRequest)
    requires Mirrors(store, dir)
    ensures Evaluate(store, req) == Ok(EvaluationResponse(Decide(dir, req))) <==>
            !req.resource.properties.Malformed? && AgreementDomain(dir, req)
  {
    CedarMeaning(store, dir, req);
  }

  /** The request with no payload. */
  function WithoutPayload(req: EvaluationRequest): EvaluationRequest {
    req.(resource := req.resource.(properties := Absent))
  }

  /** On a malformed payload the reference decision is the one on no payload, and so what the Cedar PDP would answer
      without the payload, exactly in the agreement domain. */
  lemma MalformedFallsBack(store: Store, dir: T.Directory, req: EvaluationRequest)
    requires Mirrors(store, dir) && req.resource.properties.Malformed?
    ensures Decide(dir, req) <==> Decide(dir, WithoutPayload(req))
    ensures Evaluate(store, WithoutPayload(req)) == Ok(EvaluationResponse(Decide(dir, req))) <==>
            AgreementDomain(dir, WithoutPayload(req))
  {
    T.UndecodablePayload(dir, req.subject.id, req.action.name, req.resource.kind, req.resource.id);
    AgreementExact(store, dir, WithoutPayload(req));
  }

  predicate HoldsRole(u: T.User) {
    u.HasRole("admin") || u.HasRole("editor") || u.HasRole("viewer")
  }

  /** The resource type that the reference rule wants for an action. */
  function ActionType(action: string): string {
    if action == T.READ_USER then "user" else "todo"
  }

  /** A reference permit survives in Cedar when users hold a role and the overlay spares the principal. */
  lemma PermitCarriesOver(store: Store, dir: T.Directory, req: EvaluationRequest)
    requires Mirrors(store, dir) && !req.resource.properties.Malformed? && !SelfOverlaid(req)
    requires forall u | u in dir.users :: HoldsRole(u)
    requires Decide(dir, req)
    ensures Evaluate(store, req) == Ok(EvaluationResponse(true))
  {
    CedarMeaning(store, dir, req);
    var u := T.UserByID(dir.users, req.subject.id).value;
    assert u in dir.users;
  }

  /** The requests that the scenario's client sends are all in the domain. */
  lemma StandardRequest(dir: T.Directory, req: EvaluationRequest)
    requires forall u | u in dir.users :: HoldsRole(u)
    requires req.resource.kind == ActionType(req.action.name)
    requires req.action.name == T.READ_USER ==> !HasOverlay(req)
    ensures AgreementDomain(dir, req)
  {
    var known := T.UserByID(dir.users, req.subject.id);
    assert known.Some? ==> known.value in dir.users;
    DistinctTypes();
    assert CedarType("todo") == "Todo";
  }

  /** A Cedar permit is a reference permit for admins, and for the resource type that the action takes. */
  lemma PermitCarriesBack(store: Store, dir: T.Directory, req: EvaluationRequest)
    requires Mirrors(store, dir) && Evaluate(store, req) == Ok(EvaluationResponse(true))
    ensures T.UserByID(dir.users, req.subject.id).Some?
    ensures T.UserByID(dir.users, req.subject.id).value.HasRole("admin") ==> Decide(dir, req)
    ensures req.resource.kind == ActionType(req.action.name) ==> Decide(dir, req)
  {
    CedarMeaning(store, dir, req);
  }

  // ----- The conformance table -----

  function RequestOf(c: T.Case): EvaluationRequest {
    EvaluationRequest(Subject("user", c.subjectID, Absent), Action(c.action, Absent),
                      Resource.Resource(c.resourceType, c.resourceID, c.properties), "")
  }

  ghost predicate Passes(store: Store, c: T.Case) {
    Evaluate(store, RequestOf(c)) == Ok(EvaluationResponse(c.expected))
  }

  lemma UserByUniqueID(users: seq<T.User>, u: T.User)
    requires u in users && forall v, w | v in users && w in users && v.id == w.id :: v == w
    ensures T.UserByID(users, u.id) == Some(u)
  {
  }

  lemma RowPasses(store: Store, dir: T.Directory, cache: map<string, Properties>, c: T.Case)
    requires Mirrors(store, dir) && T.IsPropertiesCache(dir.todos, cache)
    requires forall u | u in dir.users :: HoldsRole(u)
    requires T.IsCase(dir, cache, c)
    ensures Passes(store, c)
  {
    RowInDomain(dir, cache, c);
    AgreementExact(store, dir, RequestOf(c));
  }

  /** A row has the action's own resource type, and a payload only when it changes a todo. */
  lemma RowIsStandard(dir: T.Directory, cache: map<string, Properties>, c: T.Case)
    requires T.IsPropertiesCache(dir.todos, cache) && T.IsCase(dir, cache, c)
    ensures c.resourceType == ActionType(c.action) && !c.properties.Malformed?
    ensures c.action == T.READ_USER ==> c.properties == Absent
  {
    if c.properties != Absent {
      var u :| u in dir.users && T.ChangesTodo(dir, cache, c, u);
      assert IsChange(c.action);
    }
  }

  lemma RowInDomain(dir: T.Directory, cache: map<string, Properties>, c: T.Case)
    requires T.IsPropertiesCache(dir.todos, cache)
    requires forall u | u in dir.users :: HoldsRole(u)
    requires T.IsCase(dir, cache, c)
    ensures c.expected == Decide(dir, RequestOf(c))
    ensures !c.properties.Malformed? && AgreementDomain(dir, RequestOf(c))
  {
    T.CaseSound(dir, cache, c);
    RowIsStandard(dir, cache, c);
    StandardRequest(dir, RequestOf(c));
  }

  /** The Cedar PDP passes the whole case table exactly when every user holds one of the three roles. */
  lemma ConformanceExact(store: Store, dir: T.Directory, cache: map<string, Properties>)
    requires Mirrors(store, dir) && T.IsPropertiesCache(dir.todos, cache)
    requires forall v, w | v in dir.users && w in dir.users && v.id == w.id :: v == w
    ensures (forall c | c in T.CaseTable(dir, cache) :: Passes(store, c)) <==> forall u | u in dir.users :: HoldsRole(u)
  {
    if forall u | u in dir.users :: HoldsRole(u) {
      forall c | c in T.CaseTable(dir, cache)
        ensures Passes(store, c)
      {
        T.CaseTableExact(dir, cache, c);
        RowPasses(store, dir, cache, c);
      }
    } else {
      var u :| u in dir.users && !HoldsRole(u);
      var c := T.ReadUserRow(dir, u, u);
      UserByUniqueID(dir.users, u);
      assert T.ReadsProfile(dir, c, u);
      T.CaseTableExact(dir, cache, c);
      AgreementExact(store, dir, RequestOf(c));
      assert !Passes(store, c);
    }
  }
}
