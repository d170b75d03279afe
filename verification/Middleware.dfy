/** The option-built handler chain: loggers, metrics and request-ID echo around the mux, on mutable writers. */
module Middleware {
  import opened Wrappers

  const REQUEST_ID := "X-Request-ID"

  // ----- Response writers -----

  /** What a handler does to its http.ResponseWriter. */
  datatype Op = SetHeader(key: string, value: string) | WriteHeader(code: int) | Write(text: string)

  /** headers is the live header map; the first WriteHeader or Write commits a status and a copy of it. */
  datatype Sent = Sent(status: int, headers: map<string, string>)
  datatype Output = Output(headers: map<string, string>, sent: Option<Sent>, body: string)

  const EMPTY := Output(map[], None, "")

  function Commit(o: Output, code: int): Output {
    if o.sent.Some? then o else o.(sent := Some(Sent(code, o.headers)))
  }

  function Perform(o: Output, op: Op): Output {
    match op
    case SetHeader(key, value) => o.(headers := o.headers[key := value])
    case WriteHeader(code) => Commit(o, code)
    case Write(text) => var c := Commit(o, 200); c.(body := c.body + text)
  }

  function PerformAll(o: Output, ops: seq<Op>): Output
    decreases ops
  {
    if ops == [] then o else PerformAll(Perform(o, ops[0]), ops[1..])
  }

  /** The code of the last WriteHeader, as a status recorder sees it. */
  function LastCode(ops: seq<Op>, before: int): int {
    if ops == [] then before
    else LastCode(ops[1..], if ops[0].WriteHeader? then ops[0].code else before)
  }

  /** The writer that net/http hands to the server. */
  class ResponseWriter {
    var headers: map<string, string>
    var sent: Option<Sent>
    var body: string

    constructor ()
      ensures Value() == EMPTY
    {
      headers, sent, body := map[], None, "";
    }

    function Value(): Output
      reads this
    {
      Output(headers, sent, body)
    }

    method Do(op: Op)
      modifies this
      ensures Value() == Perform(old(Value()), op)
    {
      match op {
        case SetHeader(key, value) =>
          headers := headers[key := value];
        case WriteHeader(code) =>
          if sent.None? {
            sent := Some(Sent(code, headers));
          }
        case Write(text) =>
          if sent.None? {
            sent := Some(Sent(200, headers));
          }
          body := body + text;
      }
    }
  }

  class StatusRecorder {
    var status: int

    constructor ()
      ensures status == 200
    {
      status := 200;
    }
  }

  /** A writer as a handler sees it: net/http's own, or a recorder embedding another writer. */
  datatype Writer = Plain(w: ResponseWriter) | Recording(rec: StatusRecorder, inner: Writer)

  function Base(w: Writer): ResponseWriter {
    match w
    case Plain(p) => p
    case Recording(_, inner) => Base(inner)
  }

  function Recorders(w: Writer): set<StatusRecorder> {
    match w
    case Plain(_) => {}
    case Recording(rec, inner) => {rec} + Recorders(inner)
  }

  function Depth(w: Writer): nat {
    match w
    case Plain(_) => 0
    case Recording(_, inner) => 1 + Depth(inner)
  }

  /** The recorded statuses, outermost recorder first. */
  function Statuses(w: Writer): (r: seq<int>)
    reads Recorders(w)
    ensures |r| == Depth(w)
  {
    match w
    case Plain(_) => []
    case Recording(rec, inner) => [rec.status] + Statuses(inner)
  }

  lemma RecordersAllocated(w: Writer)
    ensures allocated(Base(w)) && forall rec | rec in Recorders(w) :: allocated(rec) && rec as object != Base(w)
  {
    if w.Recording? {
      RecordersAllocated(w.inner);
    }
  }

  /** What recorders hold after hearing ops. */
  function Heard(ops: seq<Op>, statuses: seq<int>): (r: seq<int>)
    ensures |r| == |statuses| && forall i | 0 <= i < |r| :: r[i] == LastCode(ops, statuses[i])
  {
    seq(|statuses|, i requires 0 <= i < |statuses| => LastCode(ops, statuses[i]))
  }

  lemma RecordedIn(w: Writer, rec: StatusRecorder)
    requires rec in Recorders(w)
    ensures rec.status in Statuses(w)
  {
  }

  /** One operation on a wrapped writer: recorders intercept WriteHeader, everything else is promoted from the
      embedded writer. */
  method DoOn(w: Writer, op: Op)
    modifies Base(w), Recorders(w)
    ensures Base(w).Value() == Perform(old(Base(w).Value()), op)
    ensures Statuses(w) == Heard([op], old(Statuses(w)))
    decreases w
  {
    ghost var statuses := Statuses(w);
    HeardOne(op, statuses);
    RecordersAllocated(w);
    if !op.WriteHeader? {
      Base(w).Do(op);
      assert Statuses(w) == statuses == Heard([op], statuses);
      return;
    }
    match w {
      case Plain(p) =>
        p.Do(op);
      case Recording(rec, inner) =>
        rec.status := op.code;
        HeardOne(op, Statuses(inner));
        DoOn(inner, op);
        assert forall x | x in Statuses(inner) :: x == op.code;
        if rec in Recorders(inner) {
          RecordedIn(inner, rec);
        }
        assert rec.status == op.code;
        assert Statuses(w) == [rec.status] + Statuses(inner);
        assert forall i | 0 <= i < |statuses| :: Statuses(w)[i] == op.code;
        assert Statuses(w) == Heard([op], statuses);
    }
  }

  method DoAllOn(w: Writer, ops: seq<Op>)
    modifies Base(w), Recorders(w)
    ensures Base(w).Value() == PerformAll(old(Base(w).Value()), ops)
    ensures Statuses(w) == Heard(ops, old(Statuses(w)))
  {
    for i := 0 to |ops|
      invariant PerformAll(Base(w).Value(), ops[i..]) == PerformAll(old(Base(w).Value()), ops)
      invariant Heard(ops[i..], Statuses(w)) == Heard(ops, old(Statuses(w)))
    {
      assert ops[i..][0] == ops[i] && ops[i..][1..] == ops[i + 1..];
      ghost var before := Statuses(w);
      DoOn(w, ops[i]);
      HeardNext(ops[i..], before);
    }
  }

  lemma HeardNext(ops: seq<Op>, statuses: seq<int>)
    requires ops != []
    ensures Heard(ops, statuses) == Heard(ops[1..], Heard([ops[0]], statuses))
  {
    HeardOne(ops[0], statuses);
    var once := Heard([ops[0]], statuses);
    assert forall i | 0 <= i < |statuses| :: LastCode(ops, statuses[i]) == LastCode(ops[1..], once[i]);
  }

  lemma HeardCons(ops: seq<Op>, status: int, statuses: seq<int>)
    ensures Heard(ops, [status] + statuses) == [LastCode(ops, status)] + Heard(ops, statuses)
  {
  }

  lemma HeardOne(op: Op, statuses: seq<int>)
    ensures forall i | 0 <= i < |statuses| ::
              Heard([op], statuses)[i] == if op.WriteHeader? then op.code else statuses[i]
  {
    forall before
      ensures LastCode([op], before) == if op.WriteHeader? then op.code else before
    {
      assert [op][1..] == [];
      assert LastCode([], before) == before;
    }
  }

  // ----- The chain -----

  datatype Request = Request(httpMethod: string, path: string, requestID: string)

  /** Calls of the installed hooks; a hook is known by a number. Durations are not modelled. */
  datatype Event =
    | Logged(hook: nat, httpMethod: string, path: string, status: int)
    | Metered(hook: nat, path: string, status: int)

  /** Go's nil hook is None. */
  datatype HandlerOption = WithLogger(fn: Option<nat>) | WithMetrics(fn: Option<nat>) | WithRequestIDEcho

  datatype Observer = Logger(fn: nat) | Metrics(fn: nat)

  datatype Chain = Mux | Observed(obs: Observer, next: Chain) | Echoing(next: Chain)

  function Wrap(o: HandlerOption, next: Chain): Chain {
    match o
    case WithLogger(fn) => if fn.None? then next else Observed(Logger(fn.value), next)
    case WithMetrics(fn) => if fn.None? then next else Observed(Metrics(fn.value), next)
    case WithRequestIDEcho => Echoing(next)
  }

  function WrapAll(opts: seq<HandlerOption>): Chain {
    if opts == [] then Mux else Wrap(opts[|opts| - 1], WrapAll(opts[..|opts| - 1]))
  }

  function EventOf(obs: Observer, r: Request, status: int): Event {
    match obs
    case Logger(fn) => Logged(fn, r.httpMethod, r.path, status)
    case Metrics(fn) => Metered(fn, r.path, status)
  }

  /** The hook calls of a chain: inner observers first. */
  function Fired(c: Chain, r: Request, status: int): seq<Event> {
    match c
    case Mux => []
    case Observed(obs, next) => Fired(next, r, status) + [EventOf(obs, r, status)]
    case Echoing(next) => Fired(next, r, status)
  }

  predicate Echoes(c: Chain) {
    match c
    case Mux => false
    case Observed(_, next) => Echoes(next)
    case Echoing(_) => true
  }

  function Echo(o: Output, c: Chain, r: Request): Output {
    if Echoes(c) && r.requestID != "" then o.(headers := o.headers[REQUEST_ID := r.requestID]) else o
  }

  lemma EchoTwice(o: Output, c: Chain, r: Request)
    requires c.Echoing? && r.requestID != ""
    ensures Echo(Perform(o, SetHeader(REQUEST_ID, r.requestID)), c.next, r) == Echo(o, c, r)
  {
  }

  class HookLog {
    var events: seq<Event>

    constructor ()
      ensures events == []
    {
      events := [];
    }
  }

  class Handler {
    var chain: Chain

    /** NewHandler: each option rewraps the chain built so far. */
    constructor (opts: seq<HandlerOption>)
      ensures chain == WrapAll(opts)
    {
      var c := Mux;
      for i := 0 to |opts|
        invariant c == WrapAll(opts[..i])
      {
        assert opts[..i + 1][..i] == opts[..i];
        match opts[i] {
          case WithLogger(fn) =>
            if fn.Some? {
              c := Observed(Logger(fn.value), c);
            }
          case WithMetrics(fn) =>
            if fn.Some? {
              c := Observed(Metrics(fn.value), c);
            }
          case WithRequestIDEcho =>
            c := Echoing(c);
        }
      }
      assert opts[..|opts|] == opts;
      chain := c;
    }

    method ServeHTTP(w: ResponseWriter, r: Request, mux: Request -> seq<Op>, log: HookLog)
      modifies w, log
      ensures w.Value() == PerformAll(Echo(old(w.Value()), chain, r), mux(r))
      ensures log.events == old(log.events) + Fired(chain, r, LastCode(mux(r), 200))
    {
      Serve(chain, Plain(w), r, mux, log);
    }
  }

  /** One link of the chain, and everything inside it. */
  method Serve(c: Chain, w: Writer, r: Request, mux: Request -> seq<Op>, log: HookLog)
    modifies Base(w), Recorders(w), log
    ensures Base(w).Value() == PerformAll(Echo(old(Base(w).Value()), c, r), mux(r))
    ensures Statuses(w) == Heard(mux(r), old(Statuses(w)))
    ensures log.events == old(log.events) + Fired(c, r, LastCode(mux(r), 200))
    decreases c, 1
  {
    match c {
      case Mux => DoAllOn(w, mux(r));
      case Observed(_, _) => ServeObserved(c, w, r, mux, log);
      case Echoing(_) => ServeEchoing(c, w, r, mux, log);
    }
  }

  /** withResponseObserver: record the status on a wrapped writer, then call the hook. */
  method ServeObserved(c: Chain, w: Writer, r: Request, mux: Request -> seq<Op>, log: HookLog)
    requires c.Observed?
    modifies Base(w), Recorders(w), log
    ensures Base(w).Value() == PerformAll(Echo(old(Base(w).Value()), c, r), mux(r))
    ensures Statuses(w) == Heard(mux(r), old(Statuses(w)))
    ensures log.events == old(log.events) + Fired(c, r, LastCode(mux(r), 200))
    decreases c, 0
  {
    ghost var statuses := Statuses(w);
    RecordersAllocated(w);
    var rec := new StatusRecorder();
    var wrapped := Recording(rec, w);
    assert Base(wrapped) == Base(w) && Statuses(w) == statuses;
    assert Statuses(wrapped) == [200] + statuses;
    Serve(c.next, wrapped, r, mux, log);
    HeardCons(mux(r), 200, statuses);
    assert rec.status == Statuses(wrapped)[0] == LastCode(mux(r), 200);
    assert Statuses(w) == Statuses(wrapped)[1..] == Heard(mux(r), statuses);
    log.events := log.events + [EventOf(c.obs, r, rec.status)];
  }

  /** WithRequestIDEcho: set the header before anything inside runs. */
  method ServeEchoing(c: Chain, w: Writer, r: Request, mux: Request -> seq<Op>, log: HookLog)
    requires c.Echoing?
    modifies Base(w), Recorders(w), log
    ensures Base(w).Value() == PerformAll(Echo(old(Base(w).Value()), c, r), mux(r))
    ensures Statuses(w) == Heard(mux(r), old(Statuses(w)))
    ensures log.events == old(log.events) + Fired(c, r, LastCode(mux(r), 200))
    decreases c, 0
  {
    ghost var statuses := Statuses(w);
    RecordersAllocated(w);
    if r.requestID != "" {
      Base(w).Do(SetHeader(REQUEST_ID, r.requestID));
      assert Statuses(w) == statuses;
      EchoTwice(old(Base(w).Value()), c, r);
    }
    Serve(c.next, w, r, mux, log);
  }

  // ----- Transparency -----

  /** The hook calls that a list of options promises: one per non-nil hook, in option order. */
  function Promised(opts: seq<HandlerOption>, r: Request, status: int): seq<Event> {
    if opts == [] then []
    else
      var o := opts[0];
      var first := if o.WithLogger? && o.fn.Some? then [Logged(o.fn.value, r.httpMethod, r.path, status)]
                   else if o.WithMetrics? && o.fn.Some? then [Metered(o.fn.value, r.path, status)]
                   else [];
      first + Promised(opts[1..], r, status)
  }

  lemma {:induction false} PromisedSnoc(opts: seq<HandlerOption>, o: HandlerOption, r: Request, status: int)
    ensures Promised(opts + [o], r, status) == Promised(opts, r, status) + Promised([o], r, status)
  {
    if opts == [] {
      assert opts + [o] == [o];
    } else {
      assert (opts + [o])[1..] == opts[1..] + [o];
      PromisedSnoc(opts[1..], o, r, status);
    }
  }

  /** Every installed hook fires exactly once, in option order, and nothing else does. */
  lemma {:induction false} HooksFire(opts: seq<HandlerOption>, r: Request, status: int)
    ensures Fired(WrapAll(opts), r, status) == Promised(opts, r, status)
  {
    if opts == [] {
    } else {
      var init, o := opts[..|opts| - 1], opts[|opts| - 1];
      HooksFire(init, r, status);
      assert opts == init + [o];
      PromisedSnoc(init, o, r, status);
      assert [o][1..] == [];
    }
  }

  lemma {:induction false} EchoInstalled(opts: seq<HandlerOption>)
    ensures Echoes(WrapAll(opts)) <==> WithRequestIDEcho in opts
  {
    if opts == [] {
    } else {
      EchoInstalled(opts[..|opts| - 1]);
      assert opts == opts[..|opts| - 1] + [opts[|opts| - 1]];
    }
  }

  /** The handler discipline: headers, then one WriteHeader, then writes; and it leaves the request ID alone. */
  predicate Disciplined(ops: seq<Op>, code: int) {
    if ops == [] then false
    else if ops[0].SetHeader? then ops[0].key != REQUEST_ID && Disciplined(ops[1..], code)
    else ops[0] == WriteHeader(code) && OnlyWrites(ops[1..])
  }

  predicate OnlyWrites(ops: seq<Op>) {
    forall op | op in ops :: op.Write?
  }

  /** The text that a list of writes produces. */
  function Text(ops: seq<Op>): string {
    if ops == [] then "" else (if ops[0].Write? then ops[0].text else "") + Text(ops[1..])
  }

  lemma {:induction false} WritesOnly(o: Output, ops: seq<Op>, code: int)
    requires OnlyWrites(ops) && o.sent.Some?
    ensures PerformAll(o, ops) == o.(body := o.body + Text(ops)) && LastCode(ops, code) == code
    decreases ops
  {
    if ops == [] {
      assert o.body + Text(ops) == o.body;
    } else {
      assert ops[0].Write?;
      WritesOnly(Perform(o, ops[0]), ops[1..], code);
      assert o.body + ops[0].text + Text(ops[1..]) == o.body + Text(ops);
    }
  }

  /** A disciplined handler commits its one status, which is also what every recorder ends with; its headers
      are the ones it sets on top of those already there. */
  lemma {:induction false} DisciplinedOutput(o: Output, ops: seq<Op>, code: int, before: int)
    requires Disciplined(ops, code) && o.sent.None?
    ensures var p := PerformAll(o, ops);
            && p.sent.Some? && p.sent.value.status == code == LastCode(ops, before)
            && p.body == o.body + Text(ops)
            && (REQUEST_ID in p.sent.value.headers <==> REQUEST_ID in o.headers)
            && (REQUEST_ID in o.headers ==> p.sent.value.headers[REQUEST_ID] == o.headers[REQUEST_ID])
    decreases ops
  {
    if ops[0].SetHeader? {
      DisciplinedOutput(Perform(o, ops[0]), ops[1..], code, before);
      assert Text(ops) == Text(ops[1..]);
    } else {
      WritesOnly(Perform(o, ops[0]), ops[1..], code);
      assert Text(ops) == Text(ops[1..]);
    }
  }

  /** For any list of options: status and body are those of the bare mux; every non-nil hook fires once, in option
      order, with that status; and the request ID is echoed exactly when an echo option is present and the request
      carries one. */
  lemma Transparent(opts: seq<HandlerOption>, r: Request, ops: seq<Op>, code: int)
    requires Disciplined(ops, code)
    ensures var wrapped := PerformAll(Echo(EMPTY, WrapAll(opts), r), ops);
            var bare := PerformAll(EMPTY, ops);
            && wrapped.sent.Some? && bare.sent.Some?
            && wrapped.sent.value.status == bare.sent.value.status == code
            && wrapped.body == bare.body
            && Fired(WrapAll(opts), r, LastCode(ops, 200)) == Promised(opts, r, code)
            && (REQUEST_ID in wrapped.sent.value.headers <==> WithRequestIDEcho in opts && r.requestID != "")
            && (REQUEST_ID in wrapped.sent.value.headers ==> wrapped.sent.value.headers[REQUEST_ID] == r.requestID)
  {
    DisciplinedOutput(Echo(EMPTY, WrapAll(opts), r), ops, code, 200);
    DisciplinedOutput(EMPTY, ops, code, 200);
    HooksFire(opts, r, code);
    EchoInstalled(opts);
  }

  // ----- What recorders report -----

  /** The status on the wire; net/http sends 200 when nothing was committed. */
  function StatusOf(o: Output): int {
    if o.sent.Some? then o.sent.value.status else 200
  }

  /** The code of the first WriteHeader, or 200 when a Write comes before it or there is none. */
  function CommitCode(ops: seq<Op>): int {
    if ops == [] then 200
    else
      match ops[0]
      case SetHeader(_, _) => CommitCode(ops[1..])
      case WriteHeader(code) => code
      case Write(_) => 200
  }

  lemma {:induction false} SentForGood(o: Output, ops: seq<Op>)
    requires o.sent.Some?
    ensures PerformAll(o, ops).sent == o.sent
    decreases ops
  {
    if ops == [] {
    } else {
      SentForGood(Perform(o, ops[0]), ops[1..]);
    }
  }

  lemma {:induction false} CommitExact(o: Output, ops: seq<Op>)
    requires o.sent.None?
    ensures StatusOf(PerformAll(o, ops)) == CommitCode(ops)
    decreases ops
  {
    if ops == [] {
    } else if ops[0].SetHeader? {
      CommitExact(Perform(o, ops[0]), ops[1..]);
    } else {
      SentForGood(Perform(o, ops[0]), ops[1..]);
    }
  }

  predicate IsHook(o: HandlerOption) {
    (o.WithLogger? || o.WithMetrics?) && o.fn.Some?
  }

  lemma {:induction false} PromisedStatus(opts: seq<HandlerOption>, r: Request, s: int, t: int)
    ensures |Promised(opts, r, s)| == |Promised(opts, r, t)|
    ensures Promised(opts, r, s) == Promised(opts, r, t) <==> s == t || forall o | o in opts :: !IsHook(o)
  {
    if opts == [] {
    } else {
      PromisedStatus(opts[1..], r, s, t);
      assert opts == [opts[0]] + opts[1..];
      if IsHook(opts[0]) {
        assert opts[0] in opts;
        assert Promised(opts, r, s)[0] == Promised(opts, r, t)[0] <==> s == t;
      } else {
        assert Promised(opts, r, s) == Promised(opts[1..], r, s);
        assert Promised(opts, r, t) == Promised(opts[1..], r, t);
      }
    }
  }

  /** Whatever a handler does, in whatever order: the status on the wire is the first that it commits, and the hooks
      report that status if and only if it is also the last that the handler sets, or there is no hook. */
  lemma RecorderExact(opts: seq<HandlerOption>, r: Request, ops: seq<Op>)
    ensures var status := StatusOf(PerformAll(Echo(EMPTY, WrapAll(opts), r), ops));
            && status == CommitCode(ops)
            && (Fired(WrapAll(opts), r, LastCode(ops, 200)) == Promised(opts, r, status) <==>
                LastCode(ops, 200) == CommitCode(ops) || forall o | o in opts :: !IsHook(o))
  {
    CommitExact(Echo(EMPTY, WrapAll(opts), r), ops);
    HooksFire(opts, r, LastCode(ops, 200));
    PromisedStatus(opts, r, LastCode(ops, 200), CommitCode(ops));
  }
}
