/** The retrying HTTP doer: a loop over inner attempts with body replay, backoff waits and cancellation. */
module Retry {
  import opened Wrappers
  import Backoff
  import Int64

  // ----- Configuration -----

  datatype RetryConfig = RetryConfig(maxAttempts: int, baseDelay: int, maxDelay: int)

  const MILLISECOND: int := 1_000_000
  const DEFAULT := RetryConfig(3, 100 * MILLISECOND, 5000 * MILLISECOND)

  datatype RetryOption = WithMaxAttempts(n: int) | WithBackoff(base: int, maxDelay: int)

  function ApplyOption(c: RetryConfig, o: RetryOption): RetryConfig {
    match o
    case WithMaxAttempts(n) => c.(maxAttempts := if n < 1 then 1 else n)
    case WithBackoff(base, maxDelay) =>
      c.(baseDelay := if base > 0 then base else c.baseDelay, maxDelay := if maxDelay > 0 then maxDelay else c.maxDelay)
  }

  function ApplyOptions(c: RetryConfig, opts: seq<RetryOption>): RetryConfig {
    if opts == [] then c else ApplyOption(ApplyOptions(c, opts[..|opts| - 1]), opts[|opts| - 1])
  }

  predicate Usable(c: RetryConfig) {
    c.maxAttempts >= 1 && c.baseDelay >= 1 && c.maxDelay >= 1
  }

  /** The configurations that a retrying doer can have. */
  type UsableConfig = c: RetryConfig | Usable(c) witness DEFAULT

  /** No list of options makes a configuration without attempts or with a non-positive delay. */
  lemma {:induction false} OptionsKeepUsable(c: RetryConfig, opts: seq<RetryOption>)
    requires Usable(c)
    ensures Usable(ApplyOptions(c, opts))
  {
    if opts == [] {
    } else {
      OptionsKeepUsable(c, opts[..|opts| - 1]);
    }
  }

  /** What the options come to: the last number of attempts, at least one, and the last positive delays, or else 3
      attempts, 100 ms and 5 s. */
  ghost predicate Configured(opts: seq<RetryOption>, c: RetryConfig) {
    && (forall k | Last(opts, k, ATTEMPTS_SET) :: c.maxAttempts == if opts[k].n < 1 then 1 else opts[k].n)
    && (Never(opts, ATTEMPTS_SET) ==> c.maxAttempts == 3)
    && (forall k | Last(opts, k, BASE_SET) :: c.baseDelay == opts[k].base)
    && (Never(opts, BASE_SET) ==> c.baseDelay == 100_000_000)
    && (forall k | Last(opts, k, MAX_SET) :: c.maxDelay == opts[k].maxDelay)
    && (Never(opts, MAX_SET) ==> c.maxDelay == 5_000_000_000)
  }

  const ATTEMPTS_SET := (o: RetryOption) => o.WithMaxAttempts?
  const BASE_SET := (o: RetryOption) => o.WithBackoff? && o.base > 0
  const MAX_SET := (o: RetryOption) => o.WithBackoff? && o.maxDelay > 0

  predicate Last(opts: seq<RetryOption>, k: int, sets: RetryOption -> bool) {
    0 <= k < |opts| && sets(opts[k]) && forall j | k < j < |opts| :: !sets(opts[j])
  }

  predicate Never(opts: seq<RetryOption>, sets: RetryOption -> bool) {
    forall k | 0 <= k < |opts| :: !sets(opts[k])
  }

  lemma LastBefore(opts: seq<RetryOption>, sets: RetryOption -> bool)
    requires opts != []
    ensures var m := |opts| - 1;
            && (sets(opts[m]) ==> forall k | Last(opts, k, sets) :: k == m)
            && (!sets(opts[m]) ==> forall k | Last(opts, k, sets) :: k < m && Last(opts[..m], k, sets))
            && (Never(opts, sets) ==> !sets(opts[m]) && Never(opts[..m], sets))
  {
  }

  lemma {:induction false} MadeWith(opts: seq<RetryOption>)
    ensures Configured(opts, ApplyOptions(DEFAULT, opts))
  {
    if opts == [] {
    } else {
      MadeWith(opts[..|opts| - 1]);
      LastBefore(opts, ATTEMPTS_SET);
      LastBefore(opts, BASE_SET);
      LastBefore(opts, MAX_SET);
    }
  }

  // ----- The world around the loop -----

  /** What the inner doer answers to an attempt. A response body of None breaks off while it is read. */
  datatype Outcome = Failed(err: string) | Answered(status: int, body: Option<string>)

  /** The request's GetBody: absent, or failing on some attempts and otherwise yielding the full body. */
  datatype Hook = NoHook | Hook(fails: nat -> Option<string>)

  /** Everything the loop does not decide, attempt by attempt: outcomes, cancellations during the wait before an
      attempt, how much of the request body the inner doer reads, and what a reader finds in a response body that
      was already drained and closed. */
  datatype World = World(inner: nat -> Outcome, cancelled: nat -> bool, consumed: nat -> nat,
                         reread: nat -> Option<string>, hook: Hook, full: string)

  datatype Event =
    | Waited(attempt: nat, delay: int)       // the timer before an attempt was started
    | Sent(attempt: nat, body: string)       // the inner doer was called with this body
    | Drained(attempt: nat)                  // the response body was read, as far as it goes
    | Closed(attempt: nat)                   // the response body was closed

  /** A response as Do returns it, with what its body still yields. */
  datatype Response = Response(attempt: nat, status: int, body: Option<string>)

  /** Go's (*http.Response, error), each possibly nil. */
  datatype DoResult = DoResult(resp: Option<Response>, err: Option<string>)

  const NIL_NIL := DoResult(None, None)

  predicate ShouldRetryStatus(code: int) {
    code == 502 || code == 503 || code == 504
  }

  predicate Retryable(o: Outcome) {
    o.Failed? || ShouldRetryStatus(o.status)
  }

  /** The result that attempt k alone would give. */
  function ResultOf(w: World, k: nat): DoResult {
    match w.inner(k)
    case Failed(e) => DoResult(None, Some(e))
    case Answered(status, body) =>
      DoResult(Some(Response(k, status, if ShouldRetryStatus(status) then w.reread(k) else body)), None)
  }

  function BodyError(w: World, k: nat): Option<string> {
    if w.hook.Hook? then w.hook.fails(k) else None
  }

  function Consume(body: string, n: nat): string {
    if n <= |body| then body[n..] else ""
  }

  function Delay(c: RetryConfig, k: nat): int {
    Backoff.Doubling(c.baseDelay, c.maxDelay, k)
  }

  // ----- The loop as a function -----

  datatype Finish = Finish(result: DoResult, trace: seq<Event>, body: string)

  /** The loop from attempt k on, with last the result so far, body what is left of the request's body, and trace
      what has happened. */
  function Loop(c: RetryConfig, w: World, k: nat, last: DoResult, body: string, trace: seq<Event>): Finish
    decreases c.maxAttempts - k
  {
    if k > c.maxAttempts then Finish(last, trace, body)
    else if k > 1 && BodyError(w, k).Some? then Finish(DoResult(None, BodyError(w, k)), trace, body)
    else
      var sending := if k > 1 && w.hook.Hook? then w.full else body;
      var waited := if k > 1 then trace + [Waited(k, Delay(c, k - 1))] else trace;
      if k > 1 && w.cancelled(k) then Finish(last, waited, sending)
      else
        var sent := waited + [Sent(k, sending)];
        var left := Consume(sending, w.consumed(k));
        if !Retryable(w.inner(k)) then Finish(ResultOf(w, k), sent, left)
        else
          var released := if w.inner(k).Failed? then sent else sent + [Drained(k)] + [Closed(k)];
          Loop(c, w, k + 1, ResultOf(w, k), left, released)
  }

  /** The loop only appends to the trace, and does not look at it. */
  lemma {:induction false} LoopAppends(c: RetryConfig, w: World, k: nat, last: DoResult, body: string,
                                       before: seq<Event>, trace: seq<Event>)
    ensures var f := Loop(c, w, k, last, body, trace);
            Loop(c, w, k, last, body, before + trace) == f.(trace := before + f.trace)
    decreases c.maxAttempts - k
  {
    if k <= c.maxAttempts && !(k > 1 && BodyError(w, k).Some?) {
      var sending := if k > 1 && w.hook.Hook? then w.full else body;
      var waits := if k > 1 then [Waited(k, Delay(c, k - 1))] else [];
      Reassociate(before, trace, waits);
      if !(k > 1 && w.cancelled(k)) {
        var sent := waits + [Sent(k, sending)];
        Reassociate(before, trace, sent);
        Reassociate(before + trace, waits, [Sent(k, sending)]);
        Reassociate(trace, waits, [Sent(k, sending)]);
        if Retryable(w.inner(k)) {
          var released := if w.inner(k).Failed? then sent else sent + [Drained(k)] + [Closed(k)];
          LoopAppends(c, w, k + 1, ResultOf(w, k), Consume(sending, w.consumed(k)), before, trace + released);
          assert before + (trace + released) == before + trace + released;
          if w.inner(k).Answered? {
            assert trace + released == trace + sent + [Drained(k)] + [Closed(k)];
            assert before + trace + released == before + trace + sent + [Drained(k)] + [Closed(k)];
          }
        }
      }
    }
  }

  lemma Reassociate(a: seq<Event>, b: seq<Event>, c: seq<Event>)
    ensures a + (b + c) == a + b + c
    ensures a + [] == a
  {
  }

  // ----- The loop as the code has it -----

  class Request {
    var body: string

    constructor (body: string)
      ensures this.body == body
    {
      this.body := body;
    }
  }

  /** The inner doer, the timer and the response bodies, recording what is done to them. */
  class Transport {
    const world: World
    var trace: seq<Event>

    constructor (w: World)
      ensures world == w && trace == []
    {
      world := w;
      trace := [];
    }

    method Do(req: Request, attempt: nat) returns (o: Outcome)
      modifies this`trace, req`body
      ensures o == world.inner(attempt)
      ensures trace == old(trace) + [Sent(attempt, old(req.body))]
      ensures req.body == Consume(old(req.body), world.consumed(attempt))
    {
      trace := trace + [Sent(attempt, req.body)];
      req.body := Consume(req.body, world.consumed(attempt));
      o := world.inner(attempt);
    }

    method Wait(attempt: nat, delay: int) returns (cancelled: bool)
      modifies this`trace
      ensures cancelled == world.cancelled(attempt)
      ensures trace == old(trace) + [Waited(attempt, delay)]
    {
      trace := trace + [Waited(attempt, delay)];
      cancelled := world.cancelled(attempt);
    }

    method Drain(attempt: nat)
      modifies this`trace
      ensures trace == old(trace) + [Drained(attempt)]
    {
      trace := trace + [Drained(attempt)];
    }

    method Close(attempt: nat)
      modifies this`trace
      ensures trace == old(trace) + [Closed(attempt)]
    {
      trace := trace + [Closed(attempt)];
    }
  }

  class RetryDoer {
    const inner: Transport
    const cfg: UsableConfig

    /** WithRetry. */
    constructor (d: Transport, opts: seq<RetryOption>)
      ensures inner == d && cfg == ApplyOptions(DEFAULT, opts) && Configured(opts, cfg)
    {
      var c := DEFAULT;
      for i := 0 to |opts|
        invariant c == ApplyOptions(DEFAULT, opts[..i])
      {
        assert opts[..i + 1][..i] == opts[..i];
        match opts[i] {
          case WithMaxAttempts(n) =>
            c := c.(maxAttempts := if n < 1 then 1 else n);
          case WithBackoff(base, maxDelay) =>
            if base > 0 {
              c := c.(baseDelay := base);
            }
            if maxDelay > 0 {
              c := c.(maxDelay := maxDelay);
            }
        }
      }
      assert opts[..|opts|] == opts;
      OptionsKeepUsable(DEFAULT, opts);
      MadeWith(opts);
      inner := d;
      cfg := c;
    }

    method BackoffFor(retryIndex: int) returns (d: int)
      ensures d == Delay(cfg, if retryIndex < 0 then 0 else retryIndex)
    {
      var n := if retryIndex < 0 then 0 else retryIndex;
      d := cfg.baseDelay;
      for i := 0 to n
        invariant Backoff.Doubling(d, cfg.maxDelay, n - i) == Backoff.Doubling(cfg.baseDelay, cfg.maxDelay, n)
      {
        d := Int64.Wrap(d * 2);
        if d > cfg.maxDelay {
          return cfg.maxDelay;
        }
      }
    }

    method Do(req: Request) returns (r: DoResult)
      modifies req`body, inner`trace
      ensures var f := Loop(cfg, inner.world, 1, NIL_NIL, old(req.body), []);
              r == f.result && req.body == f.body && inner.trace == old(inner.trace) + f.trace
    {
      var w := inner.world;
      LoopAppends(cfg, w, 1, NIL_NIL, req.body, inner.trace, []);
      assert inner.trace + [] == inner.trace;
      ghost var all := Loop(cfg, w, 1, NIL_NIL, req.body, inner.trace);
      var lastErr, lastResp := None, None;
      var attempt := 1;
      while attempt <= cfg.maxAttempts
        invariant attempt >= 1
        invariant all == Loop(cfg, w, attempt, DoResult(lastResp, lastErr), req.body, inner.trace)
        invariant lastErr.Some? ==> lastResp == None
        decreases cfg.maxAttempts - attempt
      {
        if attempt > 1 {
          if w.hook.Hook? {
            var failure := w.hook.fails(attempt);
            if failure.Some? {
              return DoResult(None, failure);
            }
            req.body := w.full;
          }
          var delay := BackoffFor(attempt - 1);
          var cancelled := inner.Wait(attempt, delay);
          if cancelled {
            if lastErr.Some? {
              return DoResult(None, lastErr);
            }
            return DoResult(lastResp, None);
          }
        }
        var outcome := inner.Do(req, attempt);
        if outcome.Answered? && !ShouldRetryStatus(outcome.status) {
          return DoResult(Some(Response(attempt, outcome.status, outcome.body)), None);
        }
        if outcome.Failed? {
          lastErr, lastResp := Some(outcome.err), None;
          attempt := attempt + 1;
          continue;
        }
        inner.Drain(attempt);
        inner.Close(attempt);
        lastErr, lastResp := None, Some(Response(attempt, outcome.status, w.reread(attempt)));
        attempt := attempt + 1;
      }
      if lastErr.Some? {
        return DoResult(None, lastErr);
      }
      return DoResult(lastResp, None);
    }
  }

  // ----- What the loop returns -----

  /** Attempt k is followed by attempt k + 1. */
  predicate GoesOn(c: RetryConfig, w: World, k: nat) {
    Retryable(w.inner(k)) && k < c.maxAttempts && BodyError(w, k + 1).None? && !w.cancelled(k + 1)
  }

  /** n is the number of attempts: the first that is not followed by another. */
  ghost predicate StopsAt(c: RetryConfig, w: World, from: nat, n: nat) {
    from <= n <= c.maxAttempts && !GoesOn(c, w, n) && forall k | from <= k < n :: GoesOn(c, w, k)
  }

  /** What Do owes its caller when it stops after attempt n. */
  function Verdict(c: RetryConfig, w: World, n: nat): DoResult {
    if Retryable(w.inner(n)) && n < c.maxAttempts && BodyError(w, n + 1).Some? then DoResult(None, BodyError(w, n + 1))
    else ResultOf(w, n)
  }

  lemma {:induction false} StopExists(c: RetryConfig, w: World, from: nat) returns (n: nat)
    requires from <= c.maxAttempts
    ensures StopsAt(c, w, from, n)
    decreases c.maxAttempts - from
  {
    if GoesOn(c, w, from) {
      n := StopExists(c, w, from + 1);
    } else {
      n := from;
    }
  }

  // ----- Auditing a trace -----

  /** Which response is open: sent and answered, but not yet drained and closed. Misused is a broken rule. */
  datatype Conn = Free | Open(k: nat) | Read(k: nat) | Misused

  datatype Audit = Audit(conn: Conn, sent: seq<nat>, bodies: seq<string>, delays: seq<int>)

  const START := Audit(Free, [], [], [])

  /** Waiting and sending need a free connection; an answer opens it; draining and then closing frees it. */
  function Note(w: World, a: Audit, e: Event): Audit {
    match e
    case Waited(_, d) =>
      a.(conn := if a.conn.Free? then Free else Misused, delays := a.delays + [d])
    case Sent(k, body) =>
      a.(conn := if !a.conn.Free? then Misused else if w.inner(k).Answered? then Open(k) else Free,
         sent := a.sent + [k], bodies := a.bodies + [body])
    case Drained(k) => a.(conn := if a.conn == Open(k) then Read(k) else Misused)
    case Closed(k) => a.(conn := if a.conn == Read(k) then Free else Misused)
  }

  function AuditAll(w: World, trace: seq<Event>): Audit {
    if trace == [] then START else Note(w, AuditAll(w, trace[..|trace| - 1]), trace[|trace| - 1])
  }

  /** 1, 2, ..., n. */
  function Count(n: nat): seq<nat> {
    if n == 0 then [] else Count(n - 1) + [n]
  }

  /** The delays before the first m retries. */
  function Delays(c: RetryConfig, m: nat): seq<int> {
    if m == 0 then [] else Delays(c, m - 1) + [Delay(c, m)]
  }

  /** The number of waits begun when the loop stops after attempt n: one more when the last was cancelled. */
  function WaitsBegun(c: RetryConfig, w: World, n: nat): nat
    requires n >= 1
  {
    if Retryable(w.inner(n)) && n < c.maxAttempts && BodyError(w, n + 1).None? then n else n - 1
  }

  /** The body that attempt k sends, when the request arrives with body first. */
  function BodyAt(w: World, first: string, k: nat): string {
    if k <= 1 then first
    else if w.hook.Hook? then w.full
    else Consume(BodyAt(w, first, k - 1), w.consumed(k - 1))
  }

  function Bodies(w: World, first: string, n: nat): seq<string> {
    if n == 0 then [] else Bodies(w, first, n - 1) + [BodyAt(w, first, n)]
  }

  /** What is left of the body when attempt k begins. */
  function Left(w: World, first: string, k: nat): string
    requires k >= 1
  {
    if k == 1 then first else Consume(BodyAt(w, first, k - 1), w.consumed(k - 1))
  }

  /** The audit between attempts: n attempts sent, m waits made, no response left open. */
  predicate Between(c: RetryConfig, w: World, first: string, trace: seq<Event>, n: nat, m: nat) {
    var a := AuditAll(w, trace);
    a.conn == Free && a.sent == Count(n) && a.bodies == Bodies(w, first, n) && a.delays == Delays(c, m)
  }

  /** The trace up to and including the sending of attempt k. */
  function Opened(c: RetryConfig, k: nat, body: string, trace: seq<Event>): seq<Event> {
    (if k > 1 then trace + [Waited(k, Delay(c, k - 1))] else trace) + [Sent(k, body)]
  }

  lemma AuditOpened(c: RetryConfig, w: World, first: string, k: nat, trace: seq<Event>)
    requires k >= 1 && Between(c, w, first, trace, k - 1, if k > 1 then k - 2 else 0)
    ensures var a := AuditAll(w, Opened(c, k, BodyAt(w, first, k), trace));
            && a.conn == (if w.inner(k).Answered? then Open(k) else Free)
            && a.sent == Count(k) && a.bodies == Bodies(w, first, k) && a.delays == Delays(c, k - 1)
  {
  }

  /** The trace after the response of attempt k, if there is one, is released. */
  function Released(w: World, k: nat, trace: seq<Event>): seq<Event> {
    if w.inner(k).Failed? then trace else trace + [Drained(k)] + [Closed(k)]
  }

  lemma AuditReleased(w: World, k: nat, trace: seq<Event>)
    requires AuditAll(w, trace).conn == if w.inner(k).Answered? then Open(k) else Free
    ensures AuditAll(w, Released(w, k, trace)) == AuditAll(w, trace).(conn := Free)
  {
  }

  /** What Do owes when it stops after attempt n: the verdict; attempts 1 to n sent, in order, each with its body;
      the delays of the backoff, in order; every retryable response drained and then closed before anything else
      is done, and a final one left open for the caller. */
  predicate Accounted(c: RetryConfig, w: World, first: string, n: nat, f: Finish)
    requires n >= 1
  {
    var a := AuditAll(w, f.trace);
    && f.result == Verdict(c, w, n)
    && a.conn == (if Retryable(w.inner(n)) then Free else Open(n))
    && a.sent == Count(n)
    && a.bodies == Bodies(w, first, n)
    && a.delays == Delays(c, WaitsBegun(c, w, n))
  }

  /** One round of the loop. */
  lemma LoopRound(c: RetryConfig, w: World, first: string, k: nat, last: DoResult, trace: seq<Event>)
    requires 1 <= k <= c.maxAttempts
    requires k > 1 ==> BodyError(w, k).None? && !w.cancelled(k)
    ensures var sent := Opened(c, k, BodyAt(w, first, k), trace);
            Loop(c, w, k, last, Left(w, first, k), trace) ==
            if Retryable(w.inner(k)) then Loop(c, w, k + 1, ResultOf(w, k), Left(w, first, k + 1), Released(w, k, sent))
            else Finish(ResultOf(w, k), sent, Left(w, first, k + 1))
  {
  }

  lemma {:induction false} LoopOutcome(c: RetryConfig, w: World, first: string, k: nat, last: DoResult,
                                       trace: seq<Event>, n: nat)
    requires k >= 1 && StopsAt(c, w, k, n) && Between(c, w, first, trace, k - 1, if k > 1 then k - 2 else 0)
    requires k > 1 ==> BodyError(w, k).None? && !w.cancelled(k)
    ensures Accounted(c, w, first, n, Loop(c, w, k, last, Left(w, first, k), trace))
    decreases n - k
  {
    var sent := Opened(c, k, BodyAt(w, first, k), trace);
    AuditOpened(c, w, first, k, trace);
    LoopRound(c, w, first, k, last, trace);
    if Retryable(w.inner(k)) {
      var released := Released(w, k, sent);
      AuditReleased(w, k, sent);
      if k < n {
        assert GoesOn(c, w, k);
        LoopOutcome(c, w, first, k + 1, ResultOf(w, k), released, n);
      } else {
        LoopEnds(c, w, first, k, Left(w, first, k + 1), released);
      }
    } else {
      assert !GoesOn(c, w, k);
    }
  }

  /** After a retryable attempt k that is not followed by another. */
  lemma LoopEnds(c: RetryConfig, w: World, first: string, k: nat, body: string, trace: seq<Event>)
    requires 1 <= k <= c.maxAttempts && Retryable(w.inner(k)) && !GoesOn(c, w, k)
    requires Between(c, w, first, trace, k, k - 1)
    ensures Accounted(c, w, first, k, Loop(c, w, k + 1, ResultOf(w, k), body, trace))
  {
  }

  /** Do, for every sequence of outcomes, GetBody results and cancellations, in terms of the stopping attempt. */
  lemma DoOutcome(c: RetryConfig, w: World, body: string, n: nat)
    requires StopsAt(c, w, 1, n)
    ensures Accounted(c, w, body, n, Loop(c, w, 1, NIL_NIL, body, []))
  {
    LoopOutcome(c, w, body, 1, NIL_NIL, [], n);
  }

  /** What Do returns, in terms of the outcomes alone: the last attempt's own error or response, retryable or not, even
      when the wait after it was cancelled; or the GetBody error that kept it from trying again. */
  lemma ReturnsLastOutcome(c: RetryConfig, w: World, body: string, n: nat)
    requires StopsAt(c, w, 1, n)
    ensures var result := Loop(c, w, 1, NIL_NIL, body, []).result;
            if n < c.maxAttempts && CallsForRetry(w.inner(n)) && w.hook.Hook? && w.hook.fails(n + 1).Some? then
              result == DoResult(None, w.hook.fails(n + 1))
            else
              match w.inner(n)
              case Failed(e) => result == DoResult(None, Some(e))
              case Answered(status, content) =>
                && result.err == None && result.resp.Some?
                && result.resp.value.attempt == n && result.resp.value.status == status
                && (!CallsForRetry(w.inner(n)) ==> result.resp.value.body == content)
  {
    DoOutcome(c, w, body, n);
  }

  /** The outcomes that are meant to be tried again: a transport error, and the gateway statuses. */
  predicate CallsForRetry(o: Outcome) {
    o.Failed? || o.status in {502, 503, 504}
  }

  /** Do goes from one attempt to the next if and only if the outcome calls for it, an attempt is left, GetBody does
      not fail, and the wait is not cancelled. */
  lemma TriesAgain(c: RetryConfig, w: World, body: string, k: nat)
    requires c.maxAttempts >= 1
    ensures var sent := AuditAll(w, Loop(c, w, 1, NIL_NIL, body, []).trace).sent;
            && 1 in sent
            && (k in sent ==>
                  (k + 1 in sent <==>
                   k < c.maxAttempts && CallsForRetry(w.inner(k)) && !w.cancelled(k + 1) &&
                   !(w.hook.Hook? && w.hook.fails(k + 1).Some?)))
  {
    var n := StopExists(c, w, 1);
    DoOutcome(c, w, body, n);
    CountHas(n);
    assert 1 <= k < n ==> GoesOn(c, w, k);
  }

  lemma CountHas(n: nat)
    ensures forall k: nat :: k in Count(n) <==> 1 <= k <= n
  {
    CountLength(n);
    forall k: nat | 1 <= k <= n
      ensures k in Count(n)
    {
      assert Count(n)[k - 1] == k;
    }
  }

  lemma {:induction false} CountLength(n: nat)
    ensures |Count(n)| == n && forall i | 0 <= i < n :: Count(n)[i] == i + 1
  {
    if n == 0 {
    } else {
      CountLength(n - 1);
    }
  }

  /** Do makes at most maxAttempts inner calls, and returns (nil, nil) exactly when it is configured for none. */
  lemma AttemptsBounded(c: RetryConfig, w: World, body: string)
    ensures var f := Loop(c, w, 1, NIL_NIL, body, []);
            && (f.result == NIL_NIL <==> c.maxAttempts < 1)
            && |AuditAll(w, f.trace).sent| <= (if c.maxAttempts < 1 then 0 else c.maxAttempts)
  {
    if c.maxAttempts >= 1 {
      var n := StopExists(c, w, 1);
      DoOutcome(c, w, body, n);
      CountLength(n);
    }
  }

  lemma StopsAtOnce(c: RetryConfig, w: World)
    requires c.maxAttempts >= 1 && !Retryable(w.inner(1))
    ensures StopsAt(c, w, 1, 1)
  {
  }

  /** A final first answer ends it: one call, and its response left open, with its body still to be read. */
  lemma FinalAtOnce(c: RetryConfig, w: World, body: string)
    requires c.maxAttempts >= 1 && !Retryable(w.inner(1))
    ensures var f := Loop(c, w, 1, NIL_NIL, body, []);
            && f.result == DoResult(Some(Response(1, w.inner(1).status, w.inner(1).body)), None)
            && f.trace == [Sent(1, body)] && AuditAll(w, f.trace).conn == Open(1)
  {
    StopsAtOnce(c, w);
    DoOutcome(c, w, body, 1);
  }

  /** When nothing that is answered is retryable: every attempt but the last failed, and Do returns the last one's
      response, left open, or an error. */
  lemma FirstAnswerWins(c: RetryConfig, w: World, body: string, n: nat)
    requires StopsAt(c, w, 1, n)
    requires forall k: nat | 1 <= k <= n && w.inner(k).Answered? :: !ShouldRetryStatus(w.inner(k).status)
    ensures var f := Loop(c, w, 1, NIL_NIL, body, []);
            var a := AuditAll(w, f.trace);
            && a.sent == Count(n) && a.bodies == Bodies(w, body, n)
            && a.conn == (if w.inner(n).Failed? then Free else Open(n))
            && (w.inner(n).Failed? ==> f.result.err.Some? && f.result.resp.None?)
            && (w.inner(n).Answered? ==>
                  f.result == DoResult(Some(Response(n, w.inner(n).status, w.inner(n).body)), None))
    ensures forall k: nat | 1 <= k < n :: w.inner(k).Failed?
  {
    DoOutcome(c, w, body, n);
    assert forall k: nat | 1 <= k < n :: GoesOn(c, w, k);
  }

  // ----- Body replay -----

  /** How much of the body the inner doer reads in the attempts before k. */
  function ReadBefore(w: World, k: nat): nat {
    if k <= 1 then 0 else ReadBefore(w, k - 1) + w.consumed(k - 1)
  }

  /** Without GetBody, attempt k sends exactly what the attempts before it left unread. */
  lemma {:induction false} BodyWithoutHook(w: World, first: string, k: nat)
    requires w.hook.NoHook? && k >= 1
    ensures BodyAt(w, first, k) == if ReadBefore(w, k) <= |first| then first[ReadBefore(w, k)..] else ""
    ensures ReadBefore(w, k) == 0 <==> forall j: nat | 1 <= j < k :: w.consumed(j) == 0
  {
    if k == 1 {
      assert first[0..] == first;
    } else {
      BodyWithoutHook(w, first, k - 1);
    }
  }

  /** All of the first n attempts send the full body if and only if GetBody is set, or there is nothing to send,
      or the inner doer read nothing before the last of them. */
  lemma BodyReplay(w: World, n: nat)
    requires n >= 1
    ensures (forall k: nat | 1 <= k <= n :: BodyAt(w, w.full, k) == w.full) <==>
            w.hook.Hook? || w.full == "" || forall j: nat | 1 <= j < n :: w.consumed(j) == 0
  {
    if w.hook.NoHook? {
      BodyWithoutHook(w, w.full, n);
      if w.full == "" || forall j: nat | 1 <= j < n :: w.consumed(j) == 0 {
        forall k: nat | 1 <= k <= n
          ensures BodyAt(w, w.full, k) == w.full
        {
          BodyWithoutHook(w, w.full, k);
        }
      }
    }
  }

  // ----- Total waiting -----

  function Total(delays: seq<int>): int {
    if delays == [] then 0 else Total(delays[..|delays| - 1]) + delays[|delays| - 1]
  }

  predicate Safe(c: RetryConfig) {
    1 <= c.baseDelay && 2 * c.baseDelay <= Int64.MAX && 1 <= c.maxDelay < Backoff.Top(c.baseDelay)
  }

  lemma {:induction false} DelaysClosedForm(c: RetryConfig, m: nat)
    requires Safe(c)
    ensures |Delays(c, m)| == m
    ensures forall i | 0 <= i < m :: Delays(c, m)[i] == Backoff.Capped(c.baseDelay, c.maxDelay, i + 1)
    ensures Total(Delays(c, m)) == Backoff.TotalCapped(c.baseDelay, c.maxDelay, m)
  {
    if m == 0 {
    } else {
      var before := Delays(c, m - 1);
      DelaysClosedForm(c, m - 1);
      Backoff.DoublingExact(c.baseDelay, c.maxDelay, m);
      assert Delays(c, m) == before + [Delay(c, m)];
      assert Delays(c, m)[..m - 1] == before;
    }
  }

  /** Waits that never shrink, m of them, and what they add up to. */
  predicate Bounded(c: RetryConfig, delays: seq<int>, m: nat) {
    && |delays| == m
    && (forall i | 0 < i < m :: delays[i - 1] <= delays[i])
    && Total(delays) <= m * c.maxDelay
    && Total(delays) <= c.baseDelay * (Int64.Pow2(m + 1) - 2)
  }

  lemma DelaysBounded(c: RetryConfig, m: nat)
    requires Safe(c)
    ensures Bounded(c, Delays(c, m), m)
  {
    DelaysClosedForm(c, m);
    Backoff.TotalBounds(c.baseDelay, c.maxDelay, m);
    forall i | 0 < i < m
      ensures Delays(c, m)[i - 1] <= Delays(c, m)[i]
    {
      Backoff.CappedMonotone(c.baseDelay, c.maxDelay, i);
    }
  }

  /** When Do stops after attempt n it has begun m waits, where m is n - 1, or n when the last was cancelled. They
      never shrink, and they total at most m * maxDelay and at most base * (2^(m+1) - 2). */
  lemma WaitsBounded(c: RetryConfig, w: World, body: string, n: nat)
    requires Safe(c) && StopsAt(c, w, 1, n)
    ensures var delays, m := AuditAll(w, Loop(c, w, 1, NIL_NIL, body, []).trace).delays, WaitsBegun(c, w, n);
            && Bounded(c, delays, m)
            && (m == n - 1 || (m == n < c.maxAttempts && w.cancelled(n + 1)))
  {
    DoOutcome(c, w, body, n);
    DelaysBounded(c, WaitsBegun(c, w, n));
  }
}
