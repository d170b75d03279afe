/** The scenario's own users and todos, the PDP's own entity file, and inputs on which the two deciders differ. */
module Fixtures {
  import opened Wrappers
  import opened Wire
  import opened Cedar
  import opened TodoPdp
  import opened Equivalence
  import T = TodoScenario

  const RICK := "rick@the-citadel.com"
  const MORTY := "morty@the-citadel.com"
  const SUMMER := "summer@the-smiths.com"
  const BETH := "beth@the-smiths.com"
  const JERRY := "jerry@the-smiths.com"

  const USERS := [
    T.User(RICK, "Rick Sanchez", ["admin", "evil_genius"]),
    T.User(MORTY, "Morty Smith", ["editor"]),
    T.User(SUMMER, "Summer Smith", ["editor"]),
    T.User(BETH, "Beth Smith", ["viewer"]),
    T.User(JERRY, "Jerry Smith", ["viewer"])]

  const TODOS := [
    T.Todo("todo-1", MORTY, "Buy groceries"),
    T.Todo("todo-2", SUMMER, "Pick up Morty"),
    T.Todo("todo-3", RICK, "Run experiment"),
    T.Todo("todo-4", MORTY, "Do homework")]

  const DIRECTORY := T.Directory(USERS, TODOS)

  const LEAF := Entity(map[], {})

  function Member(role: string): Entity {
    Entity(map[], {RoleUid(role)})
  }

  function Owned(id: string): Entity {
    Entity(map["ownerID" := Ref(UserUid(id))], {})
  }

  /** entities.json, type by type. */
  const ROLES: Store := map[
    RoleUid("admin") := LEAF,
    RoleUid("editor") := LEAF,
    RoleUid("viewer") := LEAF,
    RoleUid("evil_genius") := LEAF]
  const PEOPLE: Store := map[
    UserUid(RICK) := Entity(map[], {RoleUid("admin"), RoleUid("evil_genius")}),
    UserUid(MORTY) := Member("editor"),
    UserUid(SUMMER) := Member("editor"),
    UserUid(BETH) := Member("viewer"),
    UserUid(JERRY) := Member("viewer")]
  const LISTED: Store := map[
    TodoUid("todo-1") := Owned(MORTY),
    TodoUid("todo-2") := Owned(SUMMER),
    TodoUid("todo-3") := Owned(RICK),
    TodoUid("todo-4") := Owned(MORTY)]
  const ENTITIES: Store := ROLES + PEOPLE + LISTED

  lemma LookupUser(id: string)
    ensures T.UserByID(USERS, id) ==
            if id == RICK then Some(USERS[0]) else if id == MORTY then Some(USERS[1])
            else if id == SUMMER then Some(USERS[2]) else if id == BETH then Some(USERS[3])
            else if id == JERRY then Some(USERS[4]) else None
  {
    assert RICK[0] == 'r' && MORTY[0] == 'm' && SUMMER[0] == 's' && BETH[0] == 'b' && JERRY[0] == 'j';
    var k := T.Search(USERS, T.USER_ID, id, 0);
    assert k == 5 || k == 4 || k == 3 || k == 2 || k == 1 || k == 0;
  }

  lemma LookupTodo(id: string)
    ensures T.TodoByID(TODOS, id) ==
            if id == "todo-1" then Some(TODOS[0]) else if id == "todo-2" then Some(TODOS[1])
            else if id == "todo-3" then Some(TODOS[2]) else if id == "todo-4" then Some(TODOS[3]) else None
  {
    assert "todo-1"[5] == '1' && "todo-2"[5] == '2' && "todo-3"[5] == '3' && "todo-4"[5] == '4';
    var k := T.Search(TODOS, T.TODO_ID, id, 0);
    assert k == 4 || k == 3 || k == 2 || k == 1 || k == 0;
  }

  lemma PersonAt(id: string)
    ensures UserUid(id) in PEOPLE <==> id == RICK || id == MORTY || id == SUMMER || id == BETH || id == JERRY
    ensures id == RICK ==> PEOPLE[UserUid(id)] == Entity(map[], {RoleUid("admin"), RoleUid("evil_genius")})
    ensures id == MORTY || id == SUMMER ==> PEOPLE[UserUid(id)] == Member("editor")
    ensures id == BETH || id == JERRY ==> PEOPLE[UserUid(id)] == Member("viewer")
  {
  }

  lemma UserMirrored(id: string)
    ensures MirrorsUser(ENTITIES, DIRECTORY, id)
  {
    assert UserUid(id) !in ROLES && UserUid(id) !in LISTED by {
      DistinctTypes();
    }
    PersonAt(id);
    RoleSets();
    LookupUser(id);
  }

  lemma TodoMirrored(id: string)
    ensures MirrorsTodo(ENTITIES, DIRECTORY, id)
  {
    DistinctTypes();
    assert TodoUid(id) !in ROLES && TodoUid(id) !in PEOPLE;
    assert "todo-1"[5] == '1' && "todo-2"[5] == '2' && "todo-3"[5] == '3' && "todo-4"[5] == '4';
    LookupTodo(id);
    assert TodoUid(id) in LISTED <==> id in {"todo-1", "todo-2", "todo-3", "todo-4"};
  }

  /** The entity file mirrors the scenario's tables, so every agreement result applies to the shipped data. */
  lemma EntitiesMirror()
    ensures Mirrors(ENTITIES, DIRECTORY)
  {
    forall id
      ensures MirrorsUser(ENTITIES, DIRECTORY, id) && MirrorsTodo(ENTITIES, DIRECTORY, id)
    {
      UserMirrored(id);
      TodoMirrored(id);
    }
    forall uid: Uid | uid.kind == "Role" || uid.kind == "Action"
      ensures ParentsOf(ENTITIES, uid) == {}
    {
      DistinctTypes();
      assert uid !in PEOPLE && uid !in LISTED;
      assert uid in ROLES ==> ROLES[uid] == LEAF;
    }
  }

  lemma RoleSets()
    ensures RoleUids(["admin", "evil_genius"]) == {RoleUid("admin"), RoleUid("evil_genius")}
    ensures RoleUids(["editor"]) == {RoleUid("editor")}
    ensures RoleUids(["viewer"]) == {RoleUid("viewer")}
  {
  }

  function Ask(subject: string, action: string, kind: string, id: string, properties: Properties): EvaluationRequest {
    EvaluationRequest(Subject("user", subject, Absent), Action(action, Absent),
                      Resource.Resource(kind, id, properties), "")
  }

  lemma CedarAnswers(req: EvaluationRequest)
    requires !req.resource.properties.Malformed?
    ensures Evaluate(ENTITIES, req) == Ok(EvaluationResponse(CedarRule(DIRECTORY, req)))
  {
    EntitiesMirror();
    CedarMeaning(ENTITIES, DIRECTORY, req);
  }

  // On the shipped data the deciders part in four ways.

  /** An admin whose own entity is overlaid loses the admin role. */
  lemma SelfOverlayDenies()
    ensures var r := Ask(RICK, T.READ_USER, "user", RICK, Owner(BETH));
            Decide(DIRECTORY, r) && Evaluate(ENTITIES, r) == Ok(EvaluationResponse(false))
  {
    LookupUser(RICK);
    CedarAnswers(Ask(RICK, T.READ_USER, "user", RICK, Owner(BETH)));
  }

  /** The read permits take a resource of any type. */
  lemma ReadOfOtherType()
    ensures var r := Ask(JERRY, T.READ_USER, "todo", "todo-1", Absent);
            !Decide(DIRECTORY, r) && Evaluate(ENTITIES, r) == Ok(EvaluationResponse(true))
  {
    LookupUser(JERRY);
    assert USERS[4].HasRole("viewer") && !USERS[4].HasRole("admin");
    CedarAnswers(Ask(JERRY, T.READ_USER, "todo", "todo-1", Absent));
  }

  /** A type spelled as Cedar spells it passes the owner permit. */
  lemma CedarSpelling()
    ensures var r := Ask(MORTY, T.UPDATE_TODO, "Todo", "todo-1", Absent);
            !Decide(DIRECTORY, r) && Evaluate(ENTITIES, r) == Ok(EvaluationResponse(true))
  {
    LookupUser(MORTY);
    LookupTodo("todo-1");
    assert USERS[1].HasRole("editor") && !USERS[1].HasRole("admin");
    assert T.OwnerMatches(DIRECTORY, MORTY, "todo-1", Absent);
    CedarAnswers(Ask(MORTY, T.UPDATE_TODO, "Todo", "todo-1", Absent));
  }

  /** A malformed payload is looked past by the reference rule, which asks who owns the listed todo, and refused by the
      PDP. */
  lemma MalformedPayload()
    ensures var r := Ask(MORTY, T.UPDATE_TODO, "todo", "todo-1", Malformed);
            Decide(DIRECTORY, r) && Evaluate(ENTITIES, r).Err?
    ensures !Decide(DIRECTORY, Ask(SUMMER, T.UPDATE_TODO, "todo", "todo-1", Malformed))
  {
    LookupUser(MORTY);
    LookupTodo("todo-1");
    LookupUser(SUMMER);
    assert USERS[2].HasRole("editor") && !USERS[2].HasRole("admin");
    assert !T.OwnerMatches(DIRECTORY, SUMMER, "todo-1", Malformed);
    assert USERS[1].HasRole("editor") && !USERS[1].HasRole("admin");
    assert T.OwnerMatches(DIRECTORY, MORTY, "todo-1", Malformed);
  }
}
