/** Go error values as the trees that errors.Is and errors.As walk, and their mapping to HTTP statuses. */
module ErrorTree {
  import opened Wrappers
  import Wire

  datatype Err =
    | NotImplemented                                               // authzen.ErrNotImplemented
    | Opaque(msg: string)                                          // an error with nothing inside
    | Invalid(error: Wire.ValidationError, cause: Option<Err>)     // *authzen.ValidationError
    | Wrapped(msg: string, inner: Err)                             // Unwrap() error
    | Joined(errs: seq<Err>)                                       // Unwrap() []error

  /** errors.Is(e, authzen.ErrNotImplemented). */
  predicate IsNotImplemented(e: Err) {
    match e
    case NotImplemented => true
    case Opaque(_) => false
    case Invalid(_, cause) => cause.Some? && IsNotImplemented(cause.value)
    case Wrapped(_, inner) => IsNotImplemented(inner)
    case Joined(errs) => exists x | x in errs :: IsNotImplemented(x)
  }

  /** errors.As(e, &ve) for a *authzen.ValidationError. */
  predicate AsValidation(e: Err) {
    match e
    case NotImplemented => false
    case Opaque(_) => false
    case Invalid(_, _) => true
    case Wrapped(_, inner) => AsValidation(inner)
    case Joined(errs) => exists x | x in errs :: AsValidation(x)
  }

  /** What Unwrap yields at one node. */
  function Children(e: Err): (cs: seq<Err>)
    ensures forall c :: c in cs ==> c < e
  {
    match e
    case NotImplemented => []
    case Opaque(_) => []
    case Invalid(_, cause) => if cause.Some? then [cause.value] else []
    case Wrapped(_, inner) => [inner]
    case Joined(errs) => errs
  }

  /** node is reached from root by choosing one child at a time. */
  ghost predicate Path(root: Err, steps: seq<nat>, node: Err)
    decreases steps
  {
    if steps == [] then root == node
    else steps[0] < |Children(root)| && Path(Children(root)[steps[0]], steps[1..], node)
  }

  ghost predicate Contains(root: Err, node: Err) {
    exists steps :: Path(root, steps, node)
  }

  lemma ContainsChild(root: Err, k: nat, node: Err)
    requires k < |Children(root)| && Contains(Children(root)[k], node)
    ensures Contains(root, node)
  {
    var steps :| Path(Children(root)[k], steps, node);
    assert Path(root, [k] + steps, node);
  }

  /** The unfolding of Contains by one level. */
  lemma ContainsUnfold(root: Err, node: Err)
    ensures Contains(root, node) <==> root == node || exists c :: c in Children(root) && Contains(c, node)
  {
    if Contains(root, node) && root != node {
      var steps :| Path(root, steps, node);
      assert Path(Children(root)[steps[0]], steps[1..], node);
      assert Children(root)[steps[0]] in Children(root) && Contains(Children(root)[steps[0]], node);
    }
    if root == node {
      assert Path(root, [], node);
    }
    forall c | c in Children(root) && Contains(c, node)
      ensures Contains(root, node)
    {
      var k :| 0 <= k < |Children(root)| && Children(root)[k] == c;
      ContainsChild(root, k, node);
    }
  }

  /** What is inside an error, constructor by constructor: itself, and what is inside the errors it holds. */
  lemma ContainsInside(msg: string, v: Wire.ValidationError, inner: Err, errs: seq<Err>, node: Err)
    ensures Contains(NotImplemented, node) <==> node == NotImplemented
    ensures Contains(Opaque(msg), node) <==> node == Opaque(msg)
    ensures Contains(Invalid(v, None), node) <==> node == Invalid(v, None)
    ensures Contains(Invalid(v, Some(inner)), node) <==> node == Invalid(v, Some(inner)) || Contains(inner, node)
    ensures Contains(Wrapped(msg, inner), node) <==> node == Wrapped(msg, inner) || Contains(inner, node)
    ensures Contains(Joined(errs), node) <==> node == Joined(errs) || exists e :: e in errs && Contains(e, node)
  {
    ContainsUnfold(NotImplemented, node);
    ContainsUnfold(Opaque(msg), node);
    ContainsUnfold(Invalid(v, None), node);
    ContainsUnfold(Invalid(v, Some(inner)), node);
    ContainsUnfold(Wrapped(msg, inner), node);
    ContainsUnfold(Joined(errs), node);
    assert Children(Invalid(v, Some(inner))) == [inner] == Children(Wrapped(msg, inner)) && inner in [inner];
  }

  /** errors.Is finds the sentinel exactly when it occurs somewhere in the tree. */
  lemma {:induction false} IsNotImplementedExact(e: Err)
    ensures IsNotImplemented(e) <==> Contains(e, NotImplemented)
  {
    ContainsUnfold(e, NotImplemented);
    forall c | c in Children(e)
      ensures IsNotImplemented(c) <==> Contains(c, NotImplemented)
    {
      IsNotImplementedExact(c);
    }
    match e
    case NotImplemented =>
    case Opaque(_) =>
    case Invalid(_, cause) =>
    case Wrapped(_, inner) => assert inner in Children(e);
    case Joined(errs) =>
  }

  /** errors.As finds a validation error exactly when one occurs somewhere in the tree. */
  lemma {:induction false} AsValidationExact(e: Err)
    ensures AsValidation(e) <==> exists node: Err :: node.Invalid? && Contains(e, node)
  {
    forall node: Err
      ensures Contains(e, node) <==> e == node || exists c :: c in Children(e) && Contains(c, node)
    {
      ContainsUnfold(e, node);
    }
    forall c | c in Children(e)
      ensures AsValidation(c) <==> exists node: Err :: node.Invalid? && Contains(c, node)
    {
      AsValidationExact(c);
    }
    match e
    case NotImplemented =>
    case Opaque(_) =>
    case Invalid(_, _) => assert Contains(e, e);
    case Wrapped(_, inner) => assert inner in Children(e);
    case Joined(errs) =>
  }

  const OK: int := 200
  const BAD_REQUEST: int := 400
  const NOT_FOUND: int := 404
  const METHOD_NOT_ALLOWED: int := 405
  const INTERNAL_ERROR: int := 500
  const NOT_IMPLEMENTED: int := 501

  /** The status that the server's writeError chooses. */
  function Status(e: Err): (status: int) {
    if AsValidation(e) then BAD_REQUEST
    else if IsNotImplemented(e) then NOT_IMPLEMENTED
    else INTERNAL_ERROR
  }
}
