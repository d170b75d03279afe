/** FetchMetadata as a protocol: any number of goroutines share one cache under a mutex, the clock moves forward,
    and the network answers anything. Every atomic action of the code is one step. */
module MetadataProtocol {
  import opened Wrappers
  import opened MetadataClient
  import Metadata
  import Text
  import Urls

  type Tid = nat

  /** How answers are judged. The protocol works for any judge; the client's own is JudgeOf. */
  type Judgement = Answer -> Result<Fetched, FetchError>

  function JudgeOf(c: Config): Judgement {
    a => Judge(c, a)
  }

  /** Where a goroutine stands in FetchMetadata, with its local variables. */
  datatype Pc =
    | Idle                                                          // not in a call
    | SnapshotLocked                                                // holds the mutex to read the cache
    | SnapshotRead(seen: Option<Entry>)                             // holds the mutex, cache read
    | Snapped(seen: Option<Entry>)                                  // mutex released
    | Fetching                                                      // request on the network
    | HasFetched(doc: Metadata.Document, ttl: int)                  // answer accepted
    | StoreLocked(doc: Metadata.Document, ttl: int)                 // holds the mutex to write the cache
    | Built(doc: Metadata.Document, ttl: int, at: int)              // holds the mutex, clock read
    | Assigned(doc: Metadata.Document)                              // holds the mutex, cache written
    | Done(result: Result<Metadata.Document, FetchError>)           // returned

  datatype State = State(clock: int, lock: Option<Tid>, cache: Option<Entry>, pcs: map<Tid, Pc>)

  /** Time passes, or one goroutine takes its next step; the answer matters only to a step on the network. */
  datatype Label = Tick(d: nat) | Step(t: Tid, answer: Answer)

  predicate Critical(pc: Pc) {
    pc.SnapshotLocked? || pc.SnapshotRead? || pc.StoreLocked? || pc.Built? || pc.Assigned?
  }

  function Move(s: State, t: Tid, pc: Pc): State {
    s.(pcs := s.pcs[t := pc])
  }

  /** The next state, or None when the step is blocked on the mutex (or the goroutine does not exist). */
  function Next(judge: Judgement, s: State, l: Label): Option<State> {
    match l
    case Tick(d) => Some(s.(clock := s.clock + d))
    case Step(t, answer) => if t in s.pcs then NextOf(judge, s, t, answer) else None
  }

  function NextOf(judge: Judgement, s: State, t: Tid, answer: Answer): Option<State>
    requires t in s.pcs
  {
    match s.pcs[t]
    case Idle => if s.lock.Some? then None else Some(Move(s, t, SnapshotLocked).(lock := Some(t)))
    case SnapshotLocked => Some(Move(s, t, SnapshotRead(s.cache)))
    case SnapshotRead(seen) => Some(Move(s, t, Snapped(seen)).(lock := None))
    case Snapped(seen) =>
      if seen.Some? && s.clock < seen.value.expires then Some(Move(s, t, Done(Ok(seen.value.doc))))
      else Some(Move(s, t, Fetching))
    case Fetching =>
      (match judge(answer)
       case Err(e) => Some(Move(s, t, Done(Err(e))))
       case Ok(f) => Some(Move(s, t, HasFetched(f.doc, f.ttl))))
    case HasFetched(doc, ttl) =>
      if s.lock.Some? then None else Some(Move(s, t, StoreLocked(doc, ttl)).(lock := Some(t)))
    case StoreLocked(doc, ttl) => Some(Move(s, t, Built(doc, ttl, s.clock)))
    case Built(doc, ttl, at) => Some(Move(s, t, Assigned(doc)).(cache := Some(Entry(doc, at + ttl))))
    case Assigned(doc) => Some(Move(s, t, Done(Ok(doc))).(lock := None))
    case Done(_) => Some(Move(s, t, Idle))
  }

  /** A new client: cold cache, free mutex, nobody inside. */
  ghost predicate Init(s: State) {
    s.lock == None && s.cache == None && forall t | t in s.pcs :: s.pcs[t] == Idle
  }

  /** states[i] goes to states[i + 1] by labels[i]. */
  datatype Run = Run(states: seq<State>, labels: seq<Label>)

  ghost predicate Follows(judge: Judgement, r: Run) {
    && |r.states| == |r.labels| + 1
    && forall i | 0 <= i < |r.labels| :: Next(judge, r.states[i], r.labels[i]) == Some(r.states[i + 1])
  }

  ghost predicate IsRun(judge: Judgement, r: Run) {
    Follows(judge, r) && Init(r.states[0])
  }

  // ----- Safety -----

  /** Every document in a goroutine's hands is good. */
  predicate HoldsGood(good: Metadata.Document -> bool, pc: Pc) {
    match pc
    case SnapshotRead(seen) => seen.Some? ==> good(seen.value.doc)
    case Snapped(seen) => seen.Some? ==> good(seen.value.doc)
    case HasFetched(doc, _) => good(doc)
    case StoreLocked(doc, _) => good(doc)
    case Built(doc, _, _) => good(doc)
    case Assigned(doc) => good(doc)
    case Done(result) => result.Ok? ==> good(result.value)
    case _ => true
  }

  ghost predicate Safe(good: Metadata.Document -> bool, s: State) {
    Exclusive(s) && AllGood(good, s)
  }

  ghost predicate Exclusive(s: State) {
    && (forall t | t in s.pcs && Critical(s.pcs[t]) :: s.lock == Some(t))
    && (s.lock.Some? ==> s.lock.value in s.pcs && Critical(s.pcs[s.lock.value]))
  }

  ghost predicate AllGood(good: Metadata.Document -> bool, s: State) {
    && (s.cache.Some? ==> good(s.cache.value.doc))
    && forall t | t in s.pcs :: HoldsGood(good, s.pcs[t])
  }

  /** In step m goroutine t gets an answer from the network, and it is accepted as f. */
  ghost predicate Accepts(judge: Judgement, r: Run, m: nat, t: Tid, f: Fetched) {
    && m < |r.labels| && m < |r.states|
    && r.labels[m].Step? && r.labels[m].t == t
    && t in r.states[m].pcs && r.states[m].pcs[t].Fetching?
    && judge(r.labels[m].answer) == Ok(f)
  }

  /** The first n steps accept good documents only. */
  ghost predicate AcceptsOnly(judge: Judgement, good: Metadata.Document -> bool, r: Run, n: nat) {
    forall m: nat, t: Tid, f :: m < n && Accepts(judge, r, m, t, f) ==> good(f.doc)
  }

  lemma ExclusiveStep(judge: Judgement, s: State, l: Label)
    requires Exclusive(s) && Next(judge, s, l).Some?
    ensures Exclusive(Next(judge, s, l).value)
  {
  }

  lemma GoodStep(judge: Judgement, good: Metadata.Document -> bool, s: State, l: Label)
    requires AllGood(good, s) && Next(judge, s, l).Some?
    requires l.Step? && s.pcs[l.t].Fetching? && judge(l.answer).Ok? ==> good(judge(l.answer).value.doc)
    ensures AllGood(good, Next(judge, s, l).value)
  {
  }

  lemma {:induction false} SafeAlways(judge: Judgement, good: Metadata.Document -> bool, r: Run, i: nat)
    requires IsRun(judge, r) && i < |r.states| && AcceptsOnly(judge, good, r, i)
    ensures Safe(good, r.states[i])
  {
    if i == 0 {
    } else {
      var s, l := r.states[i - 1], r.labels[i - 1];
      SafeAlways(judge, good, r, i - 1);
      assert Next(judge, s, l) == Some(r.states[i]);
      ExclusiveStep(judge, s, l);
      if l.Step? && s.pcs[l.t].Fetching? && judge(l.answer).Ok? {
        assert Accepts(judge, r, i - 1, l.t, judge(l.answer).value);
      }
      GoodStep(judge, good, s, l);
    }
  }

  /** The first n steps accept doc, with some lifetime. */
  ghost predicate WasAccepted(judge: Judgement, r: Run, n: nat, doc: Metadata.Document) {
    exists m: nat, t: Tid, ttl :: m < n && Accepts(judge, r, m, t, Fetched(doc, ttl))
  }

  /** In every state of every run, the cached document and every document that a call has returned came from the
      network earlier in that run, and were accepted. */
  lemma DocumentsWereAccepted(judge: Judgement, r: Run, i: nat)
    requires IsRun(judge, r) && i < |r.states|
    ensures r.states[i].cache.Some? ==> WasAccepted(judge, r, i, r.states[i].cache.value.doc)
    ensures forall t | t in r.states[i].pcs && r.states[i].pcs[t].Done? && r.states[i].pcs[t].result.Ok? ::
              WasAccepted(judge, r, i, r.states[i].pcs[t].result.value)
  {
    var good := (doc: Metadata.Document) => WasAccepted(judge, r, i, doc);
    forall m: nat, t: Tid, f | m < i && Accepts(judge, r, m, t, f)
      ensures good(f.doc)
    {
      assert f == Fetched(f.doc, f.ttl);
    }
    SafeAlways(judge, good, r, i);
    assert forall t | t in r.states[i].pcs :: HoldsGood(good, r.states[i].pcs[t]);
  }

  /** In every state of every run of a client that validates: the cached document, and every document that a call
      has returned, belong to the configured PDP. */
  lemma MixUpSafety(c: Config, r: Run, i: nat)
    requires !c.relaxed && IsRun(JudgeOf(c), r) && i < |r.states|
    ensures r.states[i].cache.Some? ==> Genuine(c, r.states[i].cache.value.doc)
    ensures forall t | t in r.states[i].pcs && r.states[i].pcs[t].Done? && r.states[i].pcs[t].result.Ok? ::
              Genuine(c, r.states[i].pcs[t].result.value)
  {
    var good := (doc: Metadata.Document) => Genuine(c, doc);
    forall m: nat, t: Tid, f | m < i && Accepts(JudgeOf(c), r, m, t, f)
      ensures good(f.doc)
    {
      assert JudgeOf(c)(r.labels[m].answer) == Judge(c, r.labels[m].answer);
    }
    SafeAlways(JudgeOf(c), good, r, i);
    assert forall t | t in r.states[i].pcs :: HoldsGood(good, r.states[i].pcs[t]);
  }

  /** A client made without the option to relax validation: whatever its other options, every document that it caches
      or returns names the base URL it was made with, up to trailing slashes. */
  lemma MadeClientSafety(base: Urls.Url, opts: seq<ClientOption>, r: Run, i: nat)
    requires WithRelaxedMetadataValidation !in opts
    requires IsRun(JudgeOf(ApplyOptions(Defaults(base), opts)), r) && i < |r.states|
    ensures r.states[i].cache.Some? ==> Names(r.states[i].cache.value.doc, base)
    ensures forall t | t in r.states[i].pcs && r.states[i].pcs[t].Done? && r.states[i].pcs[t].result.Ok? ::
              Names(r.states[i].pcs[t].result.value, base)
  {
    MadeWith(base, opts);
    MixUpSafety(ApplyOptions(Defaults(base), opts), r, i);
  }

  predicate Names(doc: Metadata.Document, base: Urls.Url) {
    Text.TrimRight(doc.policyDecisionPoint, '/') == Text.TrimRight(base.ToString(), '/')
  }

  /** The mutex is held by whoever is inside. */
  lemma LockHeld(judge: Judgement, r: Run, i: nat, t: Tid)
    requires IsRun(judge, r) && i < |r.states| && t in r.states[i].pcs && Critical(r.states[i].pcs[t])
    ensures r.states[i].lock == Some(t)
  {
    SafeAlways(judge, (doc: Metadata.Document) => true, r, i);
  }

  /** No two goroutines are ever inside the mutex together. */
  lemma MutualExclusion(judge: Judgement, r: Run, i: nat, t: Tid, u: Tid)
    requires IsRun(judge, r) && i < |r.states|
    requires t in r.states[i].pcs && u in r.states[i].pcs
    requires Critical(r.states[i].pcs[t]) && Critical(r.states[i].pcs[u])
    ensures t == u
  {
    LockHeld(judge, r, i, t);
    LockHeld(judge, r, i, u);
  }

  /** There is no deadlock: whoever is blocked waits for a goroutine that can take its next step. */
  lemma NoDeadlock(judge: Judgement, r: Run, i: nat, t: Tid, a: Answer)
    requires IsRun(judge, r) && i < |r.states| && t in r.states[i].pcs
    requires Next(judge, r.states[i], Step(t, a)) == None
    ensures exists u :: r.states[i].lock == Some(u) && u != t && Next(judge, r.states[i], Step(u, a)).Some?
  {
    SafeAlways(judge, (doc: Metadata.Document) => true, r, i);
    var u := r.states[i].lock.value;
    assert Critical(r.states[i].pcs[u]) && !Critical(r.states[i].pcs[t]);
    assert Next(judge, r.states[i], Step(u, a)).Some?;
  }

  /** Step i writes the cache: goroutine t stores doc, whose lifetime ttl counts from time at. */
  ghost predicate Writes(r: Run, i: nat, t: Tid, doc: Metadata.Document, ttl: int, at: int) {
    && i < |r.labels| && i < |r.states|
    && r.labels[i].Step? && r.labels[i].t == t
    && t in r.states[i].pcs && r.states[i].pcs[t] == Built(doc, ttl, at)
  }

  /** Only such a step changes the cache, and it is taken by the holder of the mutex. */
  lemma OnlyWritesChange(judge: Judgement, r: Run, i: nat)
    requires IsRun(judge, r) && i < |r.labels|
    ensures r.states[i + 1].cache != r.states[i].cache ==>
              exists t: Tid, doc, ttl, at ::
                Writes(r, i, t, doc, ttl, at) && r.states[i].lock == Some(t) &&
                r.states[i + 1].cache == Some(Entry(doc, at + ttl))
  {
    assert Next(judge, r.states[i], r.labels[i]) == Some(r.states[i + 1]);
    if r.states[i + 1].cache != r.states[i].cache {
      var t := r.labels[i].t;
      var pc := r.states[i].pcs[t];
      LockHeld(judge, r, i, t);
      assert Writes(r, i, t, pc.doc, pc.ttl, pc.at);
    }
  }

  // ----- Failing calls -----

  /** Between states i and j goroutine t makes one call, begun at i. */
  ghost predicate OneCall(r: Run, t: Tid, i: nat, j: nat) {
    && i <= j < |r.states|
    && (forall k | i <= k <= j :: t in r.states[k].pcs)
    && r.states[i].pcs[t] == Idle
    && forall k | i <= k < j && r.states[k + 1].pcs[t] == Idle :: r.states[k].pcs[t] == Idle
  }

  ghost predicate WritesBetween(r: Run, t: Tid, i: nat, j: nat) {
    exists k: nat, doc, ttl, at :: i <= k < j && Writes(r, k, t, doc, ttl, at)
  }

  predicate Stored(pc: Pc) {
    pc.Assigned? || (pc.Done? && pc.result.Ok?)
  }

  lemma StoredStep(judge: Judgement, s: State, l: Label, t: Tid)
    requires Next(judge, s, l).Some? && t in s.pcs
    requires Stored(s.pcs[t]) || (l.Step? && l.t == t && s.pcs[t].Built?)
    ensures var pc := Next(judge, s, l).value.pcs[t];
            Stored(pc) || (pc == Idle && s.pcs[t].Done?)
  {
  }

  /** Within one call, having written the cache means being about to return, or having returned, a document. */
  lemma {:induction false} WriterSucceeds(judge: Judgement, r: Run, t: Tid, i: nat, j: nat)
    requires IsRun(judge, r) && OneCall(r, t, i, j) && WritesBetween(r, t, i, j)
    ensures Stored(r.states[j].pcs[t])
    decreases j
  {
    var k: nat, doc, ttl, at :| i <= k < j && Writes(r, k, t, doc, ttl, at);
    if k < j - 1 {
      assert WritesBetween(r, t, i, j - 1);
      WriterSucceeds(judge, r, t, i, j - 1);
    }
    assert Next(judge, r.states[j - 1], r.labels[j - 1]) == Some(r.states[j]);
    StoredStep(judge, r.states[j - 1], r.labels[j - 1], t);
    assert r.states[j].pcs[t] == Idle ==> r.states[j - 1].pcs[t] == Idle;
  }

  /** A call that returns an error has not touched the cache. */
  lemma FailingCallWritesNothing(judge: Judgement, r: Run, t: Tid, i: nat, j: nat)
    requires IsRun(judge, r) && OneCall(r, t, i, j)
    requires r.states[j].pcs[t].Done? && r.states[j].pcs[t].result.Err?
    ensures !WritesBetween(r, t, i, j)
  {
    if WritesBetween(r, t, i, j) {
      WriterSucceeds(judge, r, t, i, j);
      assert false;
    }
  }

  // ----- Freshness -----

  /** Before state i the entry e was written, from a clock reading not later than that write. */
  ghost predicate WrittenBefore(r: Run, i: nat, e: Entry) {
    exists k: nat, t: Tid, ttl, at :: k < i && WroteEntry(r, k, t, e, ttl, at)
  }

  ghost predicate WroteEntry(r: Run, k: nat, t: Tid, e: Entry, ttl: int, at: int) {
    Writes(r, k, t, e.doc, ttl, at) && e.expires == at + ttl && at <= r.states[k].clock
  }

  predicate Snapshot(pc: Pc) {
    (pc.SnapshotRead? || pc.Snapped?) && pc.seen.Some?
  }

  ghost predicate Provenance(r: Run, i: nat)
    requires i < |r.states|
  {
    var s := r.states[i];
    && (s.cache.Some? ==> WrittenBefore(r, i, s.cache.value))
    && (forall t | t in s.pcs && Snapshot(s.pcs[t]) :: WrittenBefore(r, i, s.pcs[t].seen.value))
    && (forall t | t in s.pcs && s.pcs[t].Built? :: s.pcs[t].at <= s.clock)
  }

  lemma WrittenLater(r: Run, i: nat, j: nat, e: Entry)
    requires i <= j && WrittenBefore(r, i, e)
    ensures WrittenBefore(r, j, e)
  {
    var k: nat, t: Tid, ttl, at :| k < i && WroteEntry(r, k, t, e, ttl, at);
    assert WroteEntry(r, k, t, e, ttl, at);
  }

  /** A snapshot was there before, or has just been taken from the cache. */
  lemma SnapshotOrigin(judge: Judgement, s: State, l: Label, t: Tid)
    requires Next(judge, s, l).Some? && t in Next(judge, s, l).value.pcs && Snapshot(Next(judge, s, l).value.pcs[t])
    ensures t in s.pcs
    ensures var seen := Next(judge, s, l).value.pcs[t].seen;
            (Snapshot(s.pcs[t]) && s.pcs[t].seen == seen) || s.cache == seen
  {
  }

  /** A clock reading lies in the past. */
  lemma ReadingStep(judge: Judgement, s: State, l: Label)
    requires Next(judge, s, l).Some?
    requires forall t | t in s.pcs && s.pcs[t].Built? :: s.pcs[t].at <= s.clock
    ensures var s' := Next(judge, s, l).value;
            forall t | t in s'.pcs && s'.pcs[t].Built? :: s'.pcs[t].at <= s'.clock
  {
  }

  /** A step carries the provenance of the cache and of every snapshot over to the next state. */
  lemma ProvenanceStep(judge: Judgement, r: Run, i: nat)
    requires Follows(judge, r) && i < |r.labels| && Provenance(r, i)
    ensures Provenance(r, i + 1)
  {
    var s, l, s' := r.states[i], r.labels[i], r.states[i + 1];
    assert Next(judge, s, l) == Some(s');
    if l.Step? && s.pcs[l.t].Built? {
      var pc := s.pcs[l.t];
      assert WroteEntry(r, i, l.t, s'.cache.value, pc.ttl, pc.at);
    } else if s'.cache.Some? {
      WrittenLater(r, i, i + 1, s.cache.value);
    }
    forall t | t in s'.pcs && Snapshot(s'.pcs[t])
      ensures WrittenBefore(r, i + 1, s'.pcs[t].seen.value)
    {
      SnapshotOrigin(judge, s, l, t);
      WrittenLater(r, i, i + 1, s'.pcs[t].seen.value);
    }
    ReadingStep(judge, s, l);
  }

  lemma {:induction false} ProvenanceAlways(judge: Judgement, r: Run, i: nat)
    requires IsRun(judge, r) && i < |r.states|
    ensures Provenance(r, i)
  {
    if i == 0 {
    } else {
      ProvenanceAlways(judge, r, i - 1);
      ProvenanceStep(judge, r, i - 1);
    }
  }

  lemma {:induction false} ClockMonotone(judge: Judgement, r: Run, i: nat, j: nat)
    requires Follows(judge, r) && i <= j < |r.states|
    ensures r.states[i].clock <= r.states[j].clock
    decreases j
  {
    if i == j {
    } else {
      ClockMonotone(judge, r, i, j - 1);
      assert Next(judge, r.states[j - 1], r.labels[j - 1]) == Some(r.states[j]);
    }
  }

  /** Step i answers goroutine t from its snapshot, without a fetch. */
  ghost predicate Hits(r: Run, i: nat, t: Tid) {
    && i < |r.labels| && i + 1 < |r.states|
    && r.labels[i].Step? && r.labels[i].t == t
    && t in r.states[i].pcs && r.states[i].pcs[t].Snapped?
    && t in r.states[i + 1].pcs && r.states[i + 1].pcs[t].Done?
  }

  /** The accepted answer that a goroutine is carrying to the cache. */
  function Carried(pc: Pc): Option<Fetched> {
    match pc
    case HasFetched(doc, ttl) => Some(Fetched(doc, ttl))
    case StoreLocked(doc, ttl) => Some(Fetched(doc, ttl))
    case Built(doc, ttl, _) => Some(Fetched(doc, ttl))
    case _ => None
  }

  lemma CarriedOrigin(judge: Judgement, s: State, l: Label, t: Tid)
    requires Next(judge, s, l).Some? && t in Next(judge, s, l).value.pcs
    requires Carried(Next(judge, s, l).value.pcs[t]).Some?
    ensures var carried := Carried(Next(judge, s, l).value.pcs[t]);
            && t in s.pcs
            && (Carried(s.pcs[t]) == carried ||
                (l.Step? && l.t == t && s.pcs[t].Fetching? && judge(l.answer) == Ok(carried.value)))
  {
  }

  /** What a goroutine is carrying, it got accepted itself. */
  lemma {:induction false} CarriedAccepted(judge: Judgement, r: Run, i: nat, t: Tid) returns (m: nat)
    requires IsRun(judge, r) && i < |r.states| && t in r.states[i].pcs && Carried(r.states[i].pcs[t]).Some?
    ensures m < i && Accepts(judge, r, m, t, Carried(r.states[i].pcs[t]).value)
  {
    assert i > 0;
    assert Next(judge, r.states[i - 1], r.labels[i - 1]) == Some(r.states[i]);
    CarriedOrigin(judge, r.states[i - 1], r.labels[i - 1], t);
    if Carried(r.states[i - 1].pcs[t]).Some? {
      m := CarriedAccepted(judge, r, i - 1, t);
    } else {
      m := i - 1;
    }
  }

  /** A document returned without a fetch is one that some goroutine got from the network with a lifetime ttl and
      then stored, counting from a time at; and the expiry check falls in [at, at + ttl) -- whatever other goroutines
      stored meanwhile. */
  lemma HitIsFresh(judge: Judgement, r: Run, i: nat, t: Tid)
    requires IsRun(judge, r) && Hits(r, i, t)
    ensures exists m: nat, k: nat, u: Tid, doc, ttl, at ::
              && m < k < i && Accepts(judge, r, m, u, Fetched(doc, ttl)) && Writes(r, k, u, doc, ttl, at)
              && at <= r.states[k].clock && at <= r.states[i].clock < at + ttl
              && r.states[i + 1].pcs[t] == Done(Ok(doc))
  {
    assert Next(judge, r.states[i], r.labels[i]) == Some(r.states[i + 1]);
    ProvenanceAlways(judge, r, i);
    var e := r.states[i].pcs[t].seen.value;
    var k: nat, u: Tid, ttl, at :| k < i && WroteEntry(r, k, u, e, ttl, at);
    ClockMonotone(judge, r, k, i);
    assert Writes(r, k, u, e.doc, ttl, at);
    var m := CarriedAccepted(judge, r, k, u);
    assert Accepts(judge, r, m, u, Fetched(e.doc, ttl));
  }

  // ----- Calls that fetch -----

  /** Step i is goroutine t returning. */
  ghost predicate Returns(r: Run, i: nat, t: Tid, result: Result<Metadata.Document, FetchError>) {
    && i < |r.labels| && i + 1 < |r.states|
    && t in r.states[i].pcs && !r.states[i].pcs[t].Done?
    && t in r.states[i + 1].pcs && r.states[i + 1].pcs[t] == Done(result)
  }

  /** A goroutine about to return from a store made that store. */
  lemma {:induction false} AssignedWrote(judge: Judgement, r: Run, i: nat, t: Tid) returns (k: nat, ttl: int, at: int)
    requires IsRun(judge, r) && i < |r.states| && t in r.states[i].pcs && r.states[i].pcs[t].Assigned?
    ensures k < i && Writes(r, k, t, r.states[i].pcs[t].doc, ttl, at)
  {
    assert i > 0;
    var pc, l := r.states[i - 1].pcs[t], r.labels[i - 1];
    assert Next(judge, r.states[i - 1], l) == Some(r.states[i]);
    if pc.Assigned? {
      k, ttl, at := AssignedWrote(judge, r, i - 1, t);
    } else {
      k, ttl, at := i - 1, pc.ttl, pc.at;
    }
  }

  /** An error is that of the goroutine's own answer, at the moment it is refused; and a document that is not a hit is
      one that this goroutine got from the network itself, and stored. */
  lemma ReturnsItsOwn(judge: Judgement, r: Run, i: nat, t: Tid, result: Result<Metadata.Document, FetchError>)
    requires IsRun(judge, r) && Returns(r, i, t, result) && !Hits(r, i, t)
    ensures result.Err? ==> r.labels[i].Step? && r.labels[i].t == t && judge(r.labels[i].answer) == Err(result.error)
    ensures result.Ok? ==>
              exists m: nat, k: nat, ttl, at :: && m < k < i && Accepts(judge, r, m, t, Fetched(result.value, ttl))
                                                && Writes(r, k, t, result.value, ttl, at)
  {
    assert Next(judge, r.states[i], r.labels[i]) == Some(r.states[i + 1]);
    if result.Ok? {
      var k, ttl, at := AssignedWrote(judge, r, i, t);
      var m := CarriedAccepted(judge, r, k, t);
      assert Accepts(judge, r, m, t, Fetched(result.value, ttl)) && Writes(r, k, t, result.value, ttl, at);
    }
  }

  // ----- Calls that do not overlap -----

  predicate Active(pc: Pc) {
    !pc.Idle? && !pc.Done?
  }

  ghost predicate NonOverlapping(r: Run) {
    forall i | 0 <= i < |r.states| :: AtMostOneActive(r.states[i])
  }

  ghost predicate AtMostOneActive(s: State) {
    forall t, u | t in s.pcs && u in s.pcs && Active(s.pcs[t]) && Active(s.pcs[u]) :: t == u
  }

  /** The successful fetches of a run, in order: when each stored document's lifetime began, and its length. */
  datatype Stamp = Stamp(at: int, ttl: int)

  function Stamps(r: Run, n: nat): seq<Stamp>
    requires |r.states| == |r.labels| + 1 && n <= |r.labels|
  {
    if n == 0 then []
    else
      var l, s := r.labels[n - 1], r.states[n - 1];
      if l.Step? && l.t in s.pcs && s.pcs[l.t].Built? then
        Stamps(r, n - 1) + [Stamp(s.pcs[l.t].at, s.pcs[l.t].ttl)]
      else Stamps(r, n - 1)
  }

  /** Each fetch begins its lifetime only after the one before has run out. */
  ghost predicate Spaced(stamps: seq<Stamp>) {
    forall k | 0 < k < |stamps| :: stamps[k - 1].at + stamps[k - 1].ttl <= stamps[k].at
  }

  function Expired(cache: Option<Entry>, now: int): bool {
    cache.Some? ==> cache.value.expires <= now
  }

  /** Without overlap a goroutine's snapshot is the cache, and a goroutine past the check found it expired. */
  predicate UpToDate(s: State, pc: Pc) {
    match pc
    case SnapshotRead(seen) => seen == s.cache
    case Snapped(seen) => seen == s.cache
    case Fetching => Expired(s.cache, s.clock)
    case HasFetched(_, _) => Expired(s.cache, s.clock)
    case StoreLocked(_, _) => Expired(s.cache, s.clock)
    case Built(_, _, at) => Expired(s.cache, at)
    case _ => true
  }

  ghost predicate Sequential(r: Run, i: nat)
    requires |r.states| == |r.labels| + 1 && i < |r.states|
  {
    var s, stamps := r.states[i], Stamps(r, i);
    && Spaced(stamps)
    && (s.cache.Some? <==> stamps != [])
    && (stamps != [] ==> s.cache.value.expires == stamps[|stamps| - 1].at + stamps[|stamps| - 1].ttl)
    && forall t | t in s.pcs :: UpToDate(s, s.pcs[t])
  }

  lemma SpacedSnoc(stamps: seq<Stamp>, next: Stamp)
    requires Spaced(stamps)
    requires stamps != [] ==> stamps[|stamps| - 1].at + stamps[|stamps| - 1].ttl <= next.at
    ensures Spaced(stamps + [next])
  {
  }

  lemma SequentialStep(judge: Judgement, r: Run, i: nat)
    requires Follows(judge, r) && i < |r.labels| && AtMostOneActive(r.states[i]) && Sequential(r, i)
    ensures Sequential(r, i + 1)
  {
    var s, l := r.states[i], r.labels[i];
    assert Next(judge, s, l) == Some(r.states[i + 1]);
    UpToDateStep(judge, s, l);
    if l.Step? && s.pcs[l.t].Built? {
      assert UpToDate(s, s.pcs[l.t]);
      var next := Stamp(s.pcs[l.t].at, s.pcs[l.t].ttl);
      SpacedSnoc(Stamps(r, i), next);
      assert Stamps(r, i + 1) == Stamps(r, i) + [next];
    } else {
      assert Stamps(r, i + 1) == Stamps(r, i);
      assert r.states[i + 1].cache == s.cache;
    }
  }

  lemma {:induction false} SequentialAlways(judge: Judgement, r: Run, i: nat)
    requires IsRun(judge, r) && NonOverlapping(r) && i < |r.states|
    ensures Sequential(r, i)
  {
    if i == 0 {
    } else {
      SequentialAlways(judge, r, i - 1);
      SequentialStep(judge, r, i - 1);
    }
  }

  lemma UpToDateStep(judge: Judgement, s: State, l: Label)
    requires Next(judge, s, l).Some? && AtMostOneActive(s)
    requires forall t | t in s.pcs :: UpToDate(s, s.pcs[t])
    ensures var s' := Next(judge, s, l).value;
            forall t | t in s'.pcs :: UpToDate(s', s'.pcs[t])
  {
  }

  function TotalTtl(stamps: seq<Stamp>): int {
    if stamps == [] then 0 else TotalTtl(stamps[..|stamps| - 1]) + stamps[|stamps| - 1].ttl
  }

  lemma {:induction false} SpacedSum(stamps: seq<Stamp>)
    requires stamps != [] && Spaced(stamps)
    ensures stamps[|stamps| - 1].at - stamps[0].at >= TotalTtl(stamps[..|stamps| - 1])
  {
    if |stamps| == 1 {
    } else {
      var init := stamps[..|stamps| - 1];
      assert forall k | 0 <= k < |init| :: init[k] == stamps[k];
      SpacedSum(init);
    }
  }

  /** In a run whose calls do not overlap, k successful fetches span at least the lifetimes of the first k - 1. */
  lemma FetchesSpanLifetimes(judge: Judgement, r: Run)
    requires IsRun(judge, r) && NonOverlapping(r)
    ensures var stamps := Stamps(r, |r.labels|);
            stamps != [] ==> stamps[|stamps| - 1].at - stamps[0].at >= TotalTtl(stamps[..|stamps| - 1])
  {
    SequentialAlways(judge, r, |r.labels|);
    if Stamps(r, |r.labels|) != [] {
      SpacedSum(Stamps(r, |r.labels|));
    }
  }

  // ----- A call on its own -----

  /** Takes the labels one after another. */
  function TakeAll(judge: Judgement, s: State, labels: seq<Label>): Option<State>
    decreases |labels|
  {
    if labels == [] then Some(s)
    else
      match TakeAll(judge, s, labels[..|labels| - 1])
      case None => None
      case Some(s') => Next(judge, s', labels[|labels| - 1])
  }

  ghost predicate Leads(judge: Judgement, s: State, s': State) {
    exists labels :: TakeAll(judge, s, labels) == Some(s')
  }

  lemma LeadsHere(judge: Judgement, s: State)
    ensures Leads(judge, s, s)
  {
    assert TakeAll(judge, s, []) == Some(s);
  }

  lemma LeadsOn(judge: Judgement, s0: State, s: State, l: Label, s': State)
    requires Leads(judge, s0, s) && Next(judge, s, l) == Some(s')
    ensures Leads(judge, s0, s')
  {
    var labels :| TakeAll(judge, s0, labels) == Some(s);
    assert (labels + [l])[..|labels|] == labels;
    assert TakeAll(judge, s0, labels + [l]) == Some(s');
  }

  /** Goroutine t's call from its start up to and including the expiry check, which happens wait later. */
  lemma SoloSnapshot(judge: Judgement, s: State, t: Tid, a: Answer, wait: nat) returns (s': State)
    requires t in s.pcs && s.pcs[t] == Idle && s.lock == None
    ensures Leads(judge, s, s') && t in s'.pcs && s'.lock == None && s'.cache == s.cache && s'.clock == s.clock + wait
    ensures s'.pcs[t] ==
            if s.cache.Some? && s'.clock < s.cache.value.expires then Done(Ok(s.cache.value.doc)) else Fetching
  {
    var step := Step(t, a);
    var s1 := Move(s, t, SnapshotLocked).(lock := Some(t));
    var s2 := Move(s1, t, SnapshotRead(s.cache));
    var s3 := Move(s2, t, Snapped(s.cache)).(lock := None);
    var s4 := s3.(clock := s3.clock + wait);
    LeadsHere(judge, s);
    LeadsOn(judge, s, s, step, s1);
    LeadsOn(judge, s, s1, step, s2);
    LeadsOn(judge, s, s2, step, s3);
    LeadsOn(judge, s, s3, Tick(wait), s4);
    s' := Next(judge, s4, step).value;
    LeadsOn(judge, s, s4, step, s');
  }

  /** The storing of an accepted answer, with the clock read wait later. */
  lemma SoloStore(judge: Judgement, s0: State, s: State, t: Tid, a: Answer, wait: nat) returns (s': State)
    requires Leads(judge, s0, s) && t in s.pcs && s.pcs[t].HasFetched? && s.lock == None
    ensures Leads(judge, s0, s') && t in s'.pcs && s'.lock == None
    ensures s'.pcs[t] == Done(Ok(s.pcs[t].doc))
    ensures s'.cache == Some(Entry(s.pcs[t].doc, s.clock + wait + s.pcs[t].ttl))
  {
    var step, doc, ttl := Step(t, a), s.pcs[t].doc, s.pcs[t].ttl;
    var s1 := Move(s, t, StoreLocked(doc, ttl)).(lock := Some(t));
    var s2 := s1.(clock := s1.clock + wait);
    var s3 := Move(s2, t, Built(doc, ttl, s2.clock));
    var s4 := Move(s3, t, Assigned(doc)).(cache := Some(Entry(doc, s2.clock + ttl)));
    s' := Move(s4, t, Done(Ok(doc))).(lock := None);
    LeadsOn(judge, s0, s, step, s1);
    LeadsOn(judge, s0, s1, Tick(wait), s2);
    LeadsOn(judge, s0, s2, step, s3);
    LeadsOn(judge, s0, s3, step, s4);
    LeadsOn(judge, s0, s4, step, s');
  }

  /** Left alone, the protocol does what the FetchMetadata method does: its steps end with the method's result
      returned and the method's cache in place. */
  lemma SoloCall(judge: Judgement, s: State, t: Tid, a: Answer, wait: nat, later: nat) returns (s': State)
    requires t in s.pcs && s.pcs[t] == Idle && s.lock == None
    ensures Leads(judge, s, s') && t in s'.pcs && s'.lock == None
    ensures s'.pcs[t].Done?
    ensures Call(s'.pcs[t].result, s'.cache) == CallEffect(judge(a), s.cache, s.clock + wait, s.clock + wait + later)
  {
    s' := SoloSnapshot(judge, s, t, a, wait);
    if s'.pcs[t].Fetching? {
      var s2 := Next(judge, s', Step(t, a)).value;
      LeadsOn(judge, s, s', Step(t, a), s2);
      s' := s2;
      if judge(a).Ok? {
        s' := SoloStore(judge, s, s2, t, a, later);
      }
    }
  }
}
