/** The Todo interop scenario: its directory, the reference rule Decide, the properties cache and the case table. */
module TodoScenario {
  import opened Wrappers
  import opened Wire

  datatype User = User(id: string, name: string, roles: seq<string>) {
    predicate HasRole(name: string) {
      name in roles
    }
  }

  datatype Todo = Todo(id: string, ownerID: string, title: string)

  /** The user list and the todo list that the scenario keeps as package variables. */
  datatype Directory = Directory(users: seq<User>, todos: seq<Todo>)

  const TYPE_USER := "user"
  const TYPE_TODO := "todo"
  const READ_USER := "can_read_user"
  const READ_TODOS := "can_read_todos"
  const CREATE_TODO := "can_create_todo"
  const UPDATE_TODO := "can_update_todo"
  const DELETE_TODO := "can_delete_todo"

  /** The first index from i on whose element has the ID, or the length. */
  function Search<X>(xs: seq<X>, idOf: X -> string, id: string, i: nat): (k: nat)
    requires i <= |xs|
    ensures i <= k <= |xs| && forall j | i <= j < k :: idOf(xs[j]) != id
    ensures k < |xs| ==> idOf(xs[k]) == id
    decreases |xs| - i
  {
    if i == |xs| || idOf(xs[i]) == id then i else Search(xs, idOf, id, i + 1)
  }

  ghost predicate FirstWithID<X>(xs: seq<X>, idOf: X -> string, id: string, k: int) {
    0 <= k < |xs| && idOf(xs[k]) == id && forall j | 0 <= j < k :: idOf(xs[j]) != id
  }

  const USER_ID := (u: User) => u.id
  const TODO_ID := (t: Todo) => t.id

  /** The first user with the given ID. */
  function UserByID(users: seq<User>, id: string): (r: Option<User>)
    ensures r.None? <==> forall u | u in users :: u.id != id
    ensures r.Some? ==> r.value in users && exists k :: FirstWithID(users, USER_ID, id, k) && users[k] == r.value
  {
    var k := Search(users, USER_ID, id, 0);
    if k == |users| then None
    else
      assert FirstWithID(users, USER_ID, id, k) && users[k] in users;
      Some(users[k])
  }

  /** The first todo with the given ID. */
  function TodoByID(todos: seq<Todo>, id: string): (r: Option<Todo>)
    ensures r.None? <==> forall t | t in todos :: t.id != id
    ensures r.Some? ==> r.value in todos && exists k :: FirstWithID(todos, TODO_ID, id, k) && todos[k] == r.value
  {
    var k := Search(todos, TODO_ID, id, 0);
    if k == |todos| then None
    else
      assert FirstWithID(todos, TODO_ID, id, k) && todos[k] in todos;
      Some(todos[k])
  }

  /** The scenario's expected decision. */
  predicate Decide(dir: Directory, subjectID: string, action: string, resourceType: string, resourceID: string,
                   properties: Properties)
  {
    match UserByID(dir.users, subjectID)
    case None => false
    case Some(user) =>
      if user.HasRole("admin") then true
      else if action == READ_USER then resourceType == TYPE_USER
      else if action == READ_TODOS then resourceType == TYPE_TODO
      else if action == CREATE_TODO then resourceType == TYPE_TODO && user.HasRole("editor")
      else if action == UPDATE_TODO || action == DELETE_TODO then
        if resourceType != TYPE_TODO || !user.HasRole("editor") then false
        else OwnerMatches(dir, subjectID, resourceID, properties)
      else false
  }

  /** An ownerID in the properties wins over the todo list. */
  predicate OwnerMatches(dir: Directory, subjectID: string, resourceID: string, properties: Properties) {
    if properties.Owner? && properties.id != "" then properties.id == subjectID
    else
      match TodoByID(dir.todos, resourceID)
      case None => false
      case Some(t) => t.ownerID == subjectID
  }

  /** A payload that does not decode, or decodes to an empty ownerID, counts as none at all. */
  lemma UndecodablePayload(dir: Directory, subjectID: string, action: string, kind: string, id: string)
    ensures Decide(dir, subjectID, action, kind, id, Malformed) <==> Decide(dir, subjectID, action, kind, id, Absent)
    ensures Decide(dir, subjectID, action, kind, id, Owner("")) <==> Decide(dir, subjectID, action, kind, id, Absent)
  {
  }

  // ----- TodoProperties and its cache -----

  /** The properties object that a client sends for a todo owned by ownerID. */
  function Encode(ownerID: string): Properties {
    Owner(ownerID)
  }

  /** todoPropsCache: a later todo overwrites an earlier one with the same ID. */
  method BuildPropertiesCache(todos: seq<Todo>) returns (m: map<string, Properties>)
    ensures IsPropertiesCache(todos, m)
  {
    m := map[];
    for i := 0 to |todos|
      invariant IsPropertiesCache(todos[..i], m)
    {
      m := m[todos[i].id := Encode(todos[i].ownerID)];
      ghost var seen := todos[..i + 1];
      assert seen == todos[..i] + [todos[i]];
      forall id | id in m
        ensures exists k :: LastWithID(seen, id, k, m[id])
      {
        if id == todos[i].id {
          assert LastWithID(seen, id, i, m[id]);
        } else {
          var k :| LastWithID(todos[..i], id, k, m[id]);
          assert LastWithID(seen, id, k, m[id]);
        }
      }
    }
    assert todos[..|todos|] == todos;
  }

  /** Entry k is the last todo with that ID, and properties encodes its owner. */
  ghost predicate LastWithID(todos: seq<Todo>, id: string, k: int, properties: Properties) {
    && 0 <= k < |todos| && todos[k].id == id && properties == Encode(todos[k].ownerID)
    && forall j | k < j < |todos| :: todos[j].id != id
  }

  ghost predicate IsPropertiesCache(todos: seq<Todo>, m: map<string, Properties>) {
    && (forall t | t in todos :: t.id in m)
    && forall id | id in m :: exists k :: LastWithID(todos, id, k, m[id])
  }

  /** TodoProperties: look up, or compute. */
  function TodoProperties(cache: map<string, Properties>, t: Todo): Properties {
    if t.id in cache then cache[t.id] else Encode(t.ownerID)
  }

  /** No two listed todos share an ID but not an owner. */
  ghost predicate OwnersAgree(todos: seq<Todo>) {
    forall t, u | t in todos && u in todos && t.id == u.id :: t.ownerID == u.ownerID
  }

  /** The cache is invisible on listed todos exactly when equal IDs have equal owners. */
  lemma CacheTransparent(todos: seq<Todo>, cache: map<string, Properties>)
    requires IsPropertiesCache(todos, cache)
    ensures OwnersAgree(todos) <==> forall t | t in todos :: TodoProperties(cache, t) == Encode(t.ownerID)
  {
  }

  /** On a listed todo, sending its properties and sending none give the same owner test: owner equals subject. */
  lemma PropertiesRedundant(dir: Directory, cache: map<string, Properties>, t: Todo, subjectID: string)
    requires IsPropertiesCache(dir.todos, cache) && OwnersAgree(dir.todos) && t in dir.todos
    ensures OwnerMatches(dir, subjectID, t.id, TodoProperties(cache, t)) <==> t.ownerID == subjectID
    ensures OwnerMatches(dir, subjectID, t.id, Absent) <==> t.ownerID == subjectID
  {
  }

  // ----- The case table -----

  datatype Case = Case(subjectID: string, action: string, resourceType: string, resourceID: string,
                       properties: Properties, expected: bool)

  /** The row that the table generator appends for one evaluation. */
  function Row(dir: Directory, subjectID: string, action: string, resourceType: string, resourceID: string,
               properties: Properties): Case
  {
    Case(subjectID, action, resourceType, resourceID, properties,
         Decide(dir, subjectID, action, resourceType, resourceID, properties))
  }

  function ReadUserRow(dir: Directory, viewer: User, target: User): Case {
    Row(dir, viewer.id, READ_USER, TYPE_USER, target.id, Absent)
  }

  function ListRow(dir: Directory, u: User, action: string): Case {
    Row(dir, u.id, action, TYPE_TODO, "todo-1", Absent)
  }

  function ChangeRow(dir: Directory, cache: map<string, Properties>, u: User, action: string, t: Todo): Case {
    Row(dir, u.id, action, TYPE_TODO, t.id, TodoProperties(cache, t))
  }

  /** cs continued by the rows of every element, in order. */
  function Collect<X>(cs: seq<Case>, xs: seq<X>, rows: X -> seq<Case>): seq<Case> {
    if xs == [] then cs
    else Collect(cs, xs[..|xs| - 1], rows) + rows(xs[|xs| - 1])
  }

  /** Taking one element more appends its rows. */
  lemma CollectNext<X>(cs: seq<Case>, xs: seq<X>, i: nat, rows: X -> seq<Case>)
    requires i < |xs|
    ensures Collect(cs, xs[..i + 1], rows) == Collect(cs, xs[..i], rows) + rows(xs[i])
  {
    assert xs[..i + 1][..i] == xs[..i];
  }

  lemma CollectNextAfter<X>(before: seq<Case>, xs: seq<X>, i: nat, rows: X -> seq<Case>)
    requires i < |xs|
    ensures before + Collect([], xs[..i + 1], rows) == before + Collect([], xs[..i], rows) + rows(xs[i])
  {
    CollectNext([], xs, i, rows);
  }

  lemma {:induction false} InCollect<X>(cs: seq<Case>, xs: seq<X>, rows: X -> seq<Case>, c: Case)
    ensures c in Collect(cs, xs, rows) <==> c in cs || exists x :: x in xs && c in rows(x)
  {
    if xs == [] {
    } else {
      var init, last := xs[..|xs| - 1], xs[|xs| - 1];
      InCollect(cs, init, rows, c);
      assert xs == init + [last];
      assert c in Collect(cs, xs, rows) <==> c in Collect(cs, init, rows) || c in rows(last);
    }
  }

  lemma {:induction false} CollectSize<X>(cs: seq<Case>, xs: seq<X>, rows: X -> seq<Case>, k: nat)
    requires forall x | x in xs :: |rows(x)| == k
    ensures |Collect(cs, xs, rows)| == |cs| + |xs| * k
  {
    if xs == [] {
    } else {
      CollectSize(cs, xs[..|xs| - 1], rows, k);
      assert |xs| * k == (|xs| - 1) * k + k;
    }
  }

  /** u reading every profile. */
  function ProfileRows(dir: Directory): User -> seq<Case> {
    (u: User) => Collect([], dir.users, (t: User) => [ReadUserRow(dir, u, t)])
  }

  /** u doing one action on the placeholder todo. */
  function ListRows(dir: Directory, action: string): User -> seq<Case> {
    (u: User) => [ListRow(dir, u, action)]
  }

  /** u updating and deleting every todo. */
  function ChangeRows(dir: Directory, cache: map<string, Properties>): User -> seq<Case> {
    (u: User) => Collect([], dir.todos, ChangePair(dir, cache, u))
  }

  function ChangePair(dir: Directory, cache: map<string, Properties>, u: User): Todo -> seq<Case> {
    (t: Todo) => [ChangeRow(dir, cache, u, UPDATE_TODO, t), ChangeRow(dir, cache, u, DELETE_TODO, t)]
  }

  /** The first part of the table, and what it becomes with each part that follows. */
  function Profiles(dir: Directory): seq<Case> {
    Collect([], dir.users, ProfileRows(dir))
  }

  function WithLists(dir: Directory): seq<Case> {
    Collect(Profiles(dir), dir.users, ListRows(dir, READ_TODOS))
  }

  function WithCreates(dir: Directory): seq<Case> {
    Collect(WithLists(dir), dir.users, ListRows(dir, CREATE_TODO))
  }

  function CaseTable(dir: Directory, cache: map<string, Properties>): seq<Case> {
    Collect(WithCreates(dir), dir.users, ChangeRows(dir, cache))
  }

  /** Every user reads every profile. */
  method AppendProfiles(dir: Directory, cs0: seq<Case>) returns (cs: seq<Case>)
    ensures cs == Collect(cs0, dir.users, ProfileRows(dir))
  {
    var users := dir.users;
    assert users[..|users|] == users;
    cs := cs0;
    for i := 0 to |users|
      invariant cs == Collect(cs0, users[..i], ProfileRows(dir))
    {
      ghost var before, row := cs, (t: User) => [ReadUserRow(dir, users[i], t)];
      for j := 0 to |users|
        invariant cs == before + Collect([], users[..j], row)
      {
        CollectNextAfter(before, users, j, row);
        cs := cs + [Row(dir, users[i].id, READ_USER, TYPE_USER, users[j].id, Absent)];
      }
      CollectNext(cs0, users, i, ProfileRows(dir));
    }
  }

  /** Every user does one action on the placeholder todo. */
  method AppendList(dir: Directory, action: string, cs0: seq<Case>) returns (cs: seq<Case>)
    ensures cs == Collect(cs0, dir.users, ListRows(dir, action))
  {
    var users := dir.users;
    assert users[..|users|] == users;
    cs := cs0;
    for i := 0 to |users|
      invariant cs == Collect(cs0, users[..i], ListRows(dir, action))
    {
      CollectNext(cs0, users, i, ListRows(dir, action));
      cs := cs + [Row(dir, users[i].id, action, TYPE_TODO, "todo-1", Absent)];
    }
  }

  /** Every user updates and deletes every todo. */
  method AppendChanges(dir: Directory, cache: map<string, Properties>, cs0: seq<Case>) returns (cs: seq<Case>)
    ensures cs == Collect(cs0, dir.users, ChangeRows(dir, cache))
  {
    var users, todos := dir.users, dir.todos;
    assert users[..|users|] == users && todos[..|todos|] == todos;
    cs := cs0;
    for i := 0 to |users|
      invariant cs == Collect(cs0, users[..i], ChangeRows(dir, cache))
    {
      ghost var before, pair := cs, ChangePair(dir, cache, users[i]);
      for j := 0 to |todos|
        invariant cs == before + Collect([], todos[..j], pair)
      {
        var t := todos[j];
        var properties := TodoProperties(cache, t);
        CollectNextAfter(before, todos, j, pair);
        ghost var was := cs;
        cs := cs + [Row(dir, users[i].id, UPDATE_TODO, TYPE_TODO, t.id, properties)];
        cs := cs + [Row(dir, users[i].id, DELETE_TODO, TYPE_TODO, t.id, properties)];
        assert cs == was + pair(t);
      }
      CollectNext(cs0, users, i, ChangeRows(dir, cache));
    }
  }

  method Cases(dir: Directory, cache: map<string, Properties>) returns (cs: seq<Case>)
    ensures cs == CaseTable(dir, cache)
  {
    cs := AppendProfiles(dir, []);
    cs := AppendList(dir, READ_TODOS, cs);
    cs := AppendList(dir, CREATE_TODO, cs);
    cs := AppendChanges(dir, cache, cs);
  }

  /** c puts this question for user u, and expects the reference decision on it. */
  predicate Expects(dir: Directory, c: Case, u: User, action: string, kind: string, id: string,
                    properties: Properties)
  {
    && c.subjectID == u.id && c.action == action && c.resourceType == kind && c.resourceID == id
    && c.properties == properties && c.expected == Decide(dir, u.id, action, kind, id, properties)
  }

  /** Which rows belong in the table, said without the loops. */
  ghost predicate IsCase(dir: Directory, cache: map<string, Properties>, c: Case) {
    || (exists u :: u in dir.users && ReadsProfile(dir, c, u))
    || (exists u :: u in dir.users && Expects(dir, c, u, "can_read_todos", "todo", "todo-1", Absent))
    || (exists u :: u in dir.users && Expects(dir, c, u, "can_create_todo", "todo", "todo-1", Absent))
    || (exists u :: u in dir.users && ChangesTodo(dir, cache, c, u))
  }

  ghost predicate ReadsProfile(dir: Directory, c: Case, u: User) {
    exists t :: t in dir.users && Expects(dir, c, u, "can_read_user", "user", t.id, Absent)
  }

  ghost predicate ChangesTodo(dir: Directory, cache: map<string, Properties>, c: Case, u: User) {
    exists t :: t in dir.todos && IsChangeRow(dir, cache, c, u, t)
  }

  predicate IsChangeRow(dir: Directory, cache: map<string, Properties>, c: Case, u: User, t: Todo) {
    || Expects(dir, c, u, "can_update_todo", "todo", t.id, TodoProperties(cache, t))
    || Expects(dir, c, u, "can_delete_todo", "todo", t.id, TodoProperties(cache, t))
  }

  lemma InUserRows(dir: Directory, cache: map<string, Properties>, u: User, c: Case)
    ensures c in ProfileRows(dir)(u) <==> ReadsProfile(dir, c, u)
    ensures c in ListRows(dir, READ_TODOS)(u) <==> Expects(dir, c, u, "can_read_todos", "todo", "todo-1", Absent)
    ensures c in ListRows(dir, CREATE_TODO)(u) <==> Expects(dir, c, u, "can_create_todo", "todo", "todo-1", Absent)
    ensures c in ChangeRows(dir, cache)(u) <==> ChangesTodo(dir, cache, c, u)
  {
    InCollect([], dir.users, (t: User) => [ReadUserRow(dir, u, t)], c);
    InCollect([], dir.todos, ChangePair(dir, cache, u), c);
    forall t: Todo
      ensures c in ChangePair(dir, cache, u)(t) <==> IsChangeRow(dir, cache, c, u, t)
    {
    }
  }

  /** The table holds exactly the described rows. */
  lemma CaseTableExact(dir: Directory, cache: map<string, Properties>, c: Case)
    ensures c in CaseTable(dir, cache) <==> IsCase(dir, cache, c)
  {
    InCollect([], dir.users, ProfileRows(dir), c);
    InCollect(Profiles(dir), dir.users, ListRows(dir, READ_TODOS), c);
    InCollect(WithLists(dir), dir.users, ListRows(dir, CREATE_TODO), c);
    InCollect(WithCreates(dir), dir.users, ChangeRows(dir, cache), c);
    forall u
      ensures c in ProfileRows(dir)(u) <==> ReadsProfile(dir, c, u)
      ensures c in ListRows(dir, READ_TODOS)(u) <==> Expects(dir, c, u, "can_read_todos", "todo", "todo-1", Absent)
      ensures c in ListRows(dir, CREATE_TODO)(u) <==> Expects(dir, c, u, "can_create_todo", "todo", "todo-1", Absent)
      ensures c in ChangeRows(dir, cache)(u) <==> ChangesTodo(dir, cache, c, u)
    {
      InUserRows(dir, cache, u, c);
    }
  }

  // ----- The order of the table -----

  /** When every element has k rows, the j-th row of element i stands at i * k + j after cs. */
  lemma {:induction false} CollectAt<X>(cs: seq<Case>, xs: seq<X>, rows: X -> seq<Case>, k: nat, i: nat, j: nat,
                                        at: int)
    requires (forall x | x in xs :: |rows(x)| == k) && i < |xs| && j < k && at == i * k + j
    ensures 0 <= at && |cs| + at < |Collect(cs, xs, rows)| && Collect(cs, xs, rows)[|cs| + at] == rows(xs[i])[j]
  {
    var m := |xs| - 1;
    CollectSize(cs, xs, rows, k);
    CollectSize(cs, xs[..m], rows, k);
    Within(i, m, j, k);
    if i == m {
    } else {
      CollectAt(cs, xs[..m], rows, k, i, j, at);
    }
  }

  lemma Within(i: nat, m: nat, j: nat, k: nat)
    requires i <= m && j < k
    ensures 0 <= i * k + j < (m + 1) * k && (m + 1) * k == m * k + k
    ensures i < m ==> i * k + j < m * k
  {
    assert i < m ==> (i + 1) * k <= m * k;
    assert i * k <= m * k;
  }

  /** Later rows leave earlier ones in place. */
  lemma {:induction false} CollectKeeps<X>(cs: seq<Case>, xs: seq<X>, rows: X -> seq<Case>)
    ensures cs <= Collect(cs, xs, rows)
  {
    if xs == [] {
    } else {
      CollectKeeps(cs, xs[..|xs| - 1], rows);
    }
  }

  lemma ProfileRowsAt(dir: Directory, u: User, j: nat)
    requires j < |dir.users|
    ensures |ProfileRows(dir)(u)| == |dir.users| && ProfileRows(dir)(u)[j] == ReadUserRow(dir, u, dir.users[j])
  {
    CollectSize([], dir.users, (t: User) => [ReadUserRow(dir, u, t)], 1);
    CollectAt([], dir.users, (t: User) => [ReadUserRow(dir, u, t)], 1, j, 0, j);
  }

  lemma ChangeRowsAt(dir: Directory, cache: map<string, Properties>, u: User, j: nat, change: nat, at: int)
    requires j < |dir.todos| && change < 2 && at == j * 2 + change
    ensures 0 <= at < |ChangeRows(dir, cache)(u)|
    ensures ChangeRows(dir, cache)(u)[at] == ChangePair(dir, cache, u)(dir.todos[j])[change]
  {
    CollectAt([], dir.todos, ChangePair(dir, cache, u), 2, j, change, at);
  }

  /** The parts of the table, each a prefix of the next. */
  lemma TableParts(dir: Directory, cache: map<string, Properties>)
    ensures Profiles(dir) <= WithLists(dir) <= WithCreates(dir) <= CaseTable(dir, cache)
    ensures |Profiles(dir)| == |dir.users| * |dir.users|
    ensures |WithLists(dir)| == |Profiles(dir)| + |dir.users| && |WithCreates(dir)| == |WithLists(dir)| + |dir.users|
  {
    forall u: User
      ensures |ProfileRows(dir)(u)| == |dir.users|
    {
      CollectSize([], dir.users, (t: User) => [ReadUserRow(dir, u, t)], 1);
    }
    CollectSize([], dir.users, ProfileRows(dir), |dir.users|);
    CollectSize(Profiles(dir), dir.users, ListRows(dir, READ_TODOS), 1);
    CollectSize(WithLists(dir), dir.users, ListRows(dir, CREATE_TODO), 1);
    CollectKeeps(Profiles(dir), dir.users, ListRows(dir, READ_TODOS));
    CollectKeeps(WithLists(dir), dir.users, ListRows(dir, CREATE_TODO));
    CollectKeeps(WithCreates(dir), dir.users, ChangeRows(dir, cache));
  }

  /** Row k of the table puts this question for user u. */
  predicate RowAt(dir: Directory, cache: map<string, Properties>, k: int, u: User, action: string, kind: string,
                  id: string, properties: Properties)
  {
    0 <= k < |CaseTable(dir, cache)| && Expects(dir, CaseTable(dir, cache)[k], u, action, kind, id, properties)
  }

  /** The rows of reading profiles: viewer by viewer, and for each target by target. */
  lemma ProfileAt(dir: Directory, cache: map<string, Properties>, i: nat, j: nat)
    requires i < |dir.users| && j < |dir.users|
    ensures RowAt(dir, cache, i * |dir.users| + j, dir.users[i], "can_read_user", "user", dir.users[j].id, Absent)
  {
    forall u: User
      ensures |ProfileRows(dir)(u)| == |dir.users|
    {
      ProfileRowsAt(dir, u, j);
    }
    ProfileRowsAt(dir, dir.users[i], j);
    CollectSize([], dir.users, ProfileRows(dir), |dir.users|);
    CollectAt([], dir.users, ProfileRows(dir), |dir.users|, i, j, i * |dir.users| + j);
    TableParts(dir, cache);
    assert CaseTable(dir, cache)[i * |dir.users| + j] == Profiles(dir)[i * |dir.users| + j];
  }

  /** Then one row a user for the list. */
  lemma ListAt(dir: Directory, cache: map<string, Properties>, i: nat)
    requires i < |dir.users|
    ensures RowAt(dir, cache, |Profiles(dir)| + i, dir.users[i], "can_read_todos", "todo", "todo-1", Absent)
  {
    CollectAt(Profiles(dir), dir.users, ListRows(dir, READ_TODOS), 1, i, 0, i);
    TableParts(dir, cache);
  }

  /** Then one for creating. */
  lemma CreateAt(dir: Directory, cache: map<string, Properties>, i: nat)
    requires i < |dir.users|
    ensures RowAt(dir, cache, |WithLists(dir)| + i, dir.users[i], "can_create_todo", "todo", "todo-1", Absent)
  {
    CollectAt(WithLists(dir), dir.users, ListRows(dir, CREATE_TODO), 1, i, 0, i);
    TableParts(dir, cache);
  }

  /** And last, user by user and todo by todo, an update and a delete. */
  lemma ChangeAt(dir: Directory, cache: map<string, Properties>, i: nat, j: nat, change: nat, at: int)
    requires i < |dir.users| && j < |dir.todos| && change < 2 && at == i * (|dir.todos| * 2) + (j * 2 + change)
    ensures var t, action := dir.todos[j], ["can_update_todo", "can_delete_todo"][change];
            RowAt(dir, cache, |WithCreates(dir)| + at, dir.users[i], action, "todo", t.id, TodoProperties(cache, t))
  {
    var inner, width := j * 2 + change, |dir.todos| * 2;
    ChangeRowsSize(dir, cache, width);
    ChangeRowsAt(dir, cache, dir.users[i], j, change, inner);
    ChangeFoundAt(dir, cache, i, inner, width, at);
    PairAt(dir, cache, dir.users[i], dir.todos[j], change);
  }

  lemma ChangeFoundAt(dir: Directory, cache: map<string, Properties>, i: nat, inner: nat, width: nat, at: int)
    requires forall u: User :: |ChangeRows(dir, cache)(u)| == width
    requires i < |dir.users| && inner < width && at == i * width + inner
    ensures 0 <= at && |WithCreates(dir)| + at < |CaseTable(dir, cache)|
    ensures CaseTable(dir, cache)[|WithCreates(dir)| + at] == ChangeRows(dir, cache)(dir.users[i])[inner]
  {
    CollectAt(WithCreates(dir), dir.users, ChangeRows(dir, cache), width, i, inner, at);
  }

  lemma ChangeRowsSize(dir: Directory, cache: map<string, Properties>, width: nat)
    requires width == |dir.todos| * 2
    ensures forall u: User :: |ChangeRows(dir, cache)(u)| == width
  {
    forall u: User
      ensures |ChangeRows(dir, cache)(u)| == width
    {
      CollectSize([], dir.todos, ChangePair(dir, cache, u), 2);
    }
  }

  lemma PairAt(dir: Directory, cache: map<string, Properties>, u: User, t: Todo, change: nat)
    requires change < 2
    ensures var action := ["can_update_todo", "can_delete_todo"][change];
            Expects(dir, ChangePair(dir, cache, u)(t)[change], u, action, "todo", t.id, TodoProperties(cache, t))
  {
  }

  /** The table has the size that gives every described row one place. */
  lemma CaseTableSize(dir: Directory, cache: map<string, Properties>)
    ensures var u, t := |dir.users|, |dir.todos|;
            |CaseTable(dir, cache)| == u * u + 2 * u + u * (2 * t)
  {
    forall u: User
      ensures |ProfileRows(dir)(u)| == |dir.users| && |ChangeRows(dir, cache)(u)| == 2 * |dir.todos|
    {
      CollectSize([], dir.users, (t: User) => [ReadUserRow(dir, u, t)], 1);
      CollectSize([], dir.todos, ChangePair(dir, cache, u), 2);
    }
    CollectSize([], dir.users, ProfileRows(dir), |dir.users|);
    CollectSize(Profiles(dir), dir.users, ListRows(dir, READ_TODOS), 1);
    CollectSize(WithLists(dir), dir.users, ListRows(dir, CREATE_TODO), 1);
    CollectSize(WithCreates(dir), dir.users, ChangeRows(dir, cache), 2 * |dir.todos|);
  }

  /** Every row expects what Decide answers. */
  lemma CaseTableSound(dir: Directory, cache: map<string, Properties>, c: Case)
    requires c in CaseTable(dir, cache)
    ensures c.expected == Decide(dir, c.subjectID, c.action, c.resourceType, c.resourceID, c.properties)
    ensures exists u :: u in dir.users && u.id == c.subjectID
  {
    CaseTableExact(dir, cache, c);
    CaseSound(dir, cache, c);
  }

  lemma CaseSound(dir: Directory, cache: map<string, Properties>, c: Case)
    requires IsCase(dir, cache, c)
    ensures c.expected == Decide(dir, c.subjectID, c.action, c.resourceType, c.resourceID, c.properties)
    ensures exists u :: u in dir.users && u.id == c.subjectID
  {
    if u :| u in dir.users && ReadsProfile(dir, c, u) {
    } else if u :| u in dir.users && ChangesTodo(dir, cache, c, u) {
      ChangeSound(dir, cache, c, u);
    }
  }

  lemma ChangeSound(dir: Directory, cache: map<string, Properties>, c: Case, u: User)
    requires ChangesTodo(dir, cache, c, u)
    ensures c.subjectID == u.id
    ensures c.expected == Decide(dir, u.id, c.action, c.resourceType, c.resourceID, c.properties)
  {
  }

  /** Every user occurs with every action, if there is a todo to change. */
  lemma CaseTableCovers(dir: Directory, cache: map<string, Properties>, u: User)
    requires u in dir.users && dir.todos != []
    ensures Occurs(dir, cache, u, READ_USER) && Occurs(dir, cache, u, READ_TODOS) && Occurs(dir, cache, u, CREATE_TODO)
    ensures Occurs(dir, cache, u, UPDATE_TODO) && Occurs(dir, cache, u, DELETE_TODO)
  {
    var t := dir.todos[0];
    assert t in dir.todos;
    CaseOccurs(dir, cache, u, ReadUserRow(dir, u, u)) by {
      assert ReadsProfile(dir, ReadUserRow(dir, u, u), u);
    }
    CaseOccurs(dir, cache, u, ListRow(dir, u, READ_TODOS));
    CaseOccurs(dir, cache, u, ListRow(dir, u, CREATE_TODO));
    ChangeOccurs(dir, cache, u, UPDATE_TODO, t);
    ChangeOccurs(dir, cache, u, DELETE_TODO, t);
  }

  lemma CaseOccurs(dir: Directory, cache: map<string, Properties>, u: User, c: Case)
    requires IsCase(dir, cache, c) && c.subjectID == u.id
    ensures Occurs(dir, cache, u, c.action)
  {
    CaseTableExact(dir, cache, c);
  }

  lemma ChangeOccurs(dir: Directory, cache: map<string, Properties>, u: User, action: string, t: Todo)
    requires u in dir.users && t in dir.todos && (action == UPDATE_TODO || action == DELETE_TODO)
    ensures Occurs(dir, cache, u, action)
  {
    var c := ChangeRow(dir, cache, u, action, t);
    assert IsChangeRow(dir, cache, c, u, t);
    assert ChangesTodo(dir, cache, c, u);
    CaseOccurs(dir, cache, u, c);
  }

  ghost predicate Occurs(dir: Directory, cache: map<string, Properties>, u: User, action: string) {
    exists c :: c in CaseTable(dir, cache) && c.subjectID == u.id && c.action == action
  }
}
