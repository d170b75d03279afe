/** The part of the Cedar policy language that the todo policies use: permits with scopes and a condition. */
module Cedar {
  import opened Wrappers

  datatype Uid = Uid(kind: string, id: string)
  datatype Value = Bool(b: bool) | Ref(uid: Uid)
  datatype Entity = Entity(attrs: map<string, Value>, parents: set<Uid>)
  type Store = map<Uid, Entity>

  datatype Request = Request(principal: Uid, action: Uid, resource: Uid)

  datatype Scope = Anything | In(uid: Uid) | InAny(uids: seq<Uid>) | Is(kind: string)

  datatype Expr =
    | Principal
    | Resource
    | Has(e: Expr, attr: string)
    | Attr(e: Expr, attr: string)
    | Equal(left: Expr, right: Expr)
    | And(left: Expr, right: Expr)

  datatype Permit = Permit(principal: Scope, action: Scope, resource: Scope, when: Option<Expr>)

  // ----- The entity hierarchy -----

  function ParentsOf(store: Store, uid: Uid): set<Uid> {
    if uid in store then store[uid].parents else {}
  }

  function AllParents(store: Store): set<Uid> {
    set u, p | u in store && p in store[u].parents :: p
  }

  /** s with everything above it, one generation at a time until nothing is new. */
  function Close(store: Store, s: set<Uid>): set<Uid>
    decreases AllParents(store) - s
  {
    var next := s + set u, p | u in s && p in ParentsOf(store, u) :: p;
    if next == s then s
    else
      assert AllParents(store) - next < AllParents(store) - s by {
        var p :| p in next && p !in s;
        assert p in AllParents(store) - s;
      }
      Close(store, next)
  }

  /** Cedar's in: b is a or one of its ancestors. */
  predicate IsIn(store: Store, a: Uid, b: Uid) {
    b in Close(store, {a})
  }

  /** steps leads from a to b, each step going to a parent. */
  ghost predicate Chain(store: Store, a: Uid, steps: seq<Uid>, b: Uid)
    decreases steps
  {
    if steps == [] then a == b
    else steps[0] in ParentsOf(store, a) && Chain(store, steps[0], steps[1..], b)
  }

  ghost predicate Reaches(store: Store, a: Uid, b: Uid) {
    exists steps :: Chain(store, a, steps, b)
  }

  lemma {:induction false} CloseSound(store: Store, s: set<Uid>, b: Uid)
    requires b in Close(store, s)
    ensures exists a :: a in s && Reaches(store, a, b)
    decreases AllParents(store) - s
  {
    var next := s + set u, p | u in s && p in ParentsOf(store, u) :: p;
    if next == s {
      assert Chain(store, b, [], b);
    } else {
      assert AllParents(store) - next < AllParents(store) - s by {
        var p :| p in next && p !in s;
        assert p in AllParents(store) - s;
      }
      CloseSound(store, next, b);
      var y :| y in next && Reaches(store, y, b);
      if y !in s {
        var a :| a in s && y in ParentsOf(store, a);
        var steps :| Chain(store, y, steps, b);
        assert Chain(store, a, [y] + steps, b);
      }
    }
  }

  /** The closure keeps s, has everyone's parents, and lies inside every such set. */
  lemma {:induction false} CloseLeast(store: Store, s: set<Uid>, closed: set<Uid>)
    ensures s <= Close(store, s)
    ensures forall u :: u in Close(store, s) ==> ParentsOf(store, u) <= Close(store, s)
    ensures s <= closed && (forall u :: u in closed ==> ParentsOf(store, u) <= closed) ==> Close(store, s) <= closed
    decreases AllParents(store) - s
  {
    var next := s + set u, p | u in s && p in ParentsOf(store, u) :: p;
    if next == s {
      forall u, p | u in s && p in ParentsOf(store, u)
        ensures p in s
      {
        assert p in next;
      }
    } else {
      assert AllParents(store) - next < AllParents(store) - s by {
        var p :| p in next && p !in s;
        assert p in AllParents(store) - s;
      }
      CloseLeast(store, next, closed);
    }
  }

  lemma {:induction false} ChainStays(store: Store, a: Uid, steps: seq<Uid>, b: Uid, closed: set<Uid>)
    requires Chain(store, a, steps, b) && a in closed
    requires forall u :: u in closed ==> ParentsOf(store, u) <= closed
    ensures b in closed
    decreases steps
  {
    if steps == [] {
    } else {
      ChainStays(store, steps[0], steps[1..], b, closed);
    }
  }

  /** The computed in is the reflexive-transitive closure of the parent relation, whatever cycles the store has. */
  lemma IsInExact(store: Store, a: Uid, b: Uid)
    ensures IsIn(store, a, b) <==> Reaches(store, a, b)
  {
    if IsIn(store, a, b) {
      CloseSound(store, {a}, b);
    }
    if Reaches(store, a, b) {
      var steps :| Chain(store, a, steps, b);
      CloseLeast(store, {a}, {});
      ChainStays(store, a, steps, b, Close(store, {a}));
    }
  }

  /** When a's parents have no parents themselves, in means being a or one of a's parents. */
  lemma IsInOneLevel(store: Store, a: Uid, b: Uid)
    requires forall p :: p in ParentsOf(store, a) ==> ParentsOf(store, p) <= {a} + ParentsOf(store, a)
    ensures IsIn(store, a, b) <==> b == a || b in ParentsOf(store, a)
  {
    CloseLeast(store, {a}, {a} + ParentsOf(store, a));
    assert a in Close(store, {a});
  }

  // ----- Evaluation -----

  /** None is an evaluation error. */
  function Eval(e: Expr, store: Store, req: Request): Option<Value> {
    match e
    case Principal => Some(Ref(req.principal))
    case Resource => Some(Ref(req.resource))
    case Has(x, attr) =>
      (match Eval(x, store, req)
       case Some(Ref(uid)) => Some(Bool(uid in store && attr in store[uid].attrs))
       case _ => None)
    case Attr(x, attr) =>
      (match Eval(x, store, req)
       case Some(Ref(uid)) => if uid in store && attr in store[uid].attrs then Some(store[uid].attrs[attr]) else None
       case _ => None)
    case Equal(x, y) =>
      (match (Eval(x, store, req), Eval(y, store, req))
       case (Some(v), Some(w)) => Some(Bool(v == w))
       case _ => None)
    case And(x, y) =>
      (match Eval(x, store, req)
       case Some(Bool(false)) => Some(Bool(false))
       case Some(Bool(true)) =>
         (match Eval(y, store, req)
          case Some(Bool(b)) => Some(Bool(b))
          case _ => None)
       case _ => None)
  }

  predicate InScope(scope: Scope, store: Store, uid: Uid) {
    match scope
    case Anything => true
    case In(group) => IsIn(store, uid, group)
    case InAny(groups) => exists g | g in groups :: IsIn(store, uid, g)
    case Is(kind) => uid.kind == kind
  }

  /** A permit whose condition errs does not match. */
  predicate Matches(p: Permit, store: Store, req: Request) {
    && InScope(p.principal, store, req.principal)
    && InScope(p.action, store, req.action)
    && InScope(p.resource, store, req.resource)
    && (p.when.Some? ==> Eval(p.when.value, store, req) == Some(Bool(true)))
  }

  /** Allow exactly when some permit matches. */
  predicate Authorize(permits: seq<Permit>, store: Store, req: Request) {
    exists p | p in permits :: Matches(p, store, req)
  }
}
