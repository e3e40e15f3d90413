/** Routing of private service requests: freshness, idempotency, and execution at most once. */
module Router {
  import opened Options

  const PROTOCOL := "opendating"
  const VERSION := "0.1"
  const MAX_PAYLOAD_BYTES := 16384
  const MAX_AGE := 300
  const MAX_FUTURE := 60
  const RETENTION := 86400

  /** None stands for a field that is absent or of the wrong type. */
  datatype Envelope = Envelope(
    protocol: Option<string>, version: Option<string>, kind: Option<string>, requestId: Option<string>,
    createdAt: Option<real>, hasPayload: bool, knownKind: bool, payloadFits: bool, size: nat)

  datatype Context = Context(service: string, sender: string, authenticated: string)

  datatype Code =
    | InvalidEnvelope | UnsupportedVersion | UnsupportedType | PayloadTooLarge | FutureRequest | ExpiredRequest
    | SenderAuthMismatch | UnknownService | DuplicateRequest | InternalError

  /** What the registered service makes of the request. */
  datatype Service = Absent | Present(supports: bool, throws: bool)

  datatype Answer = Answer(success: bool, code: Option<Code>)

  /** The key of an idempotency record. */
  datatype Key = Key(service: string, sender: string, requestId: string)

  // ---------------------------------------------------------------- one request

  function Flaw(e: Envelope): Option<Code> {
    if e.protocol != Some(PROTOCOL) || e.version.None? then Some(InvalidEnvelope)
    else if e.version.value != VERSION then Some(UnsupportedVersion)
    else if e.kind.None? || e.kind.value == "" then Some(InvalidEnvelope)
    else if !e.knownKind then Some(UnsupportedType)
    else if e.requestId.None? || |e.requestId.value| < 8 then Some(InvalidEnvelope)
    else if e.createdAt.None? || e.createdAt.value <= 0.0 then Some(InvalidEnvelope)
    else if !e.hasPayload || !e.payloadFits then Some(InvalidEnvelope)
    else if e.size > MAX_PAYLOAD_BYTES then Some(PayloadTooLarge)
    else None
  }

  predicate Fresh(createdAt: real, now: int) {
    var age := now as real - createdAt;
    -(MAX_FUTURE as real) <= age <= MAX_AGE as real
  }

  function Staleness(createdAt: real, now: int): Option<Code> {
    if Fresh(createdAt, now) then None
    else if createdAt > now as real then Some(FutureRequest) else Some(ExpiredRequest)
  }

  /** The two codes name the two ends of the window. */
  lemma StalenessMeans(createdAt: real, now: int)
    ensures Staleness(createdAt, now) == Some(FutureRequest) <==> createdAt > (now + MAX_FUTURE) as real
    ensures Staleness(createdAt, now) == Some(ExpiredRequest) <==> createdAt < (now - MAX_AGE) as real
  {
  }

  /** Everything that is checked before the idempotency store is asked. */
  function Refusal(e: Envelope, ctx: Context, service: Service, now: int): Option<Code> {
    if Flaw(e).Some? then Flaw(e)
    else if Staleness(e.createdAt.value, now).Some? then Staleness(e.createdAt.value, now)
    else if ctx.authenticated != ctx.sender then Some(SenderAuthMismatch)
    else if service.Absent? then Some(UnknownService)
    else if !service.supports then Some(UnsupportedType)
    else None
  }

  function KeyOf(e: Envelope, ctx: Context): Key
    requires e.requestId.Some?
  {
    Key(ctx.service, ctx.sender, e.requestId.value)
  }

  // ---------------------------------------------------------------- the store over time

  /** `completed` lists the requests whose handler ran to its end. */
  datatype Completion = Completion(key: Key, createdAt: real, at: int)
  datatype State = State(clock: int, records: map<Key, int>, completed: seq<Completion>)

  /** A check that fails answers "no duplicate", and a record that fails is dropped. */
  datatype Operation =
    | Route(envelope: Envelope, ctx: Context, service: Service, checkWorks: bool, recordWorks: bool, now: int)
    | Prune(pruned: set<Key>, now: int)

  predicate Duplicate(records: map<Key, int>, op: Operation)
    requires op.Route? && op.envelope.requestId.Some?
  {
    op.checkWorks && KeyOf(op.envelope, op.ctx) in records
  }

  function AnswerTo(records: map<Key, int>, op: Operation): Answer
    requires op.Route?
  {
    var refusal := Refusal(op.envelope, op.ctx, op.service, op.now);
    if refusal.Some? then Answer(false, refusal)
    else if Duplicate(records, op) then Answer(true, Some(DuplicateRequest))
    else if op.service.throws then Answer(false, Some(InternalError))
    else Answer(true, None)
  }

  predicate Completes(s: State, op: Operation) {
    op.Route? && AnswerTo(s.records, op) == Answer(true, None)
  }

  function Recorded(records: map<Key, int>, op: Operation): map<Key, int>
    requires op.Route? && op.envelope.requestId.Some?
  {
    var key := KeyOf(op.envelope, op.ctx);
    if op.recordWorks && key !in records then records[key := op.now + RETENTION] else records
  }

  predicate Enabled(s: State, op: Operation) {
    s.clock <= op.now && (op.Prune? ==> forall k | k in op.pruned :: k in s.records && s.records[k] < op.now)
  }

  function Step(s: State, op: Operation): State {
    match op
    case Prune(pruned, now) => State(now, s.records - pruned, s.completed)
    case Route(e, ctx, _, _, _, now) =>
      if Completes(s, op)
      then State(now, Recorded(s.records, op), s.completed + [Completion(KeyOf(e, ctx), e.createdAt.value, now)])
      else s.(clock := now)
  }

  ghost predicate Run(ops: seq<Operation>, states: seq<State>) {
    && |states| == |ops| + 1 && states[0].records == map[] && states[0].completed == []
    && forall i | 0 <= i < |ops| :: Enabled(states[i], ops[i]) && states[i + 1] == Step(states[i], ops[i])
  }

  ghost predicate StoreWorks(op: Operation) {
    op.Route? ==> op.checkWorks && op.recordWorks
  }

  /** Completions are fresh, remembered for a day, and a day apart when their keys agree. */
  ghost predicate Inv(s: State) {
    && (forall i | 0 <= i < |s.completed| :: Remembered(s, s.completed[i]))
    && forall i, j | 0 <= i < j < |s.completed| && s.completed[i].key == s.completed[j].key ::
         s.completed[j].at > s.completed[i].at + RETENTION
  }

  ghost predicate Remembered(s: State, c: Completion) {
    && Fresh(c.createdAt, c.at) && c.at <= s.clock
    && (s.clock > c.at + RETENTION || (c.key in s.records && s.records[c.key] >= c.at + RETENTION))
  }

  lemma CompletionInv(s: State, op: Operation)
    requires Inv(s) && Enabled(s, op) && StoreWorks(op) && Completes(s, op)
    ensures Inv(Step(s, op))
  {
    var t := Step(s, op);
    assert forall i | 0 <= i < |s.completed| :: t.completed[i] == s.completed[i];
    forall i | 0 <= i < |s.completed| ensures Remembered(t, t.completed[i]) {
      assert Remembered(s, s.completed[i]);
    }
  }

  lemma StepInv(s: State, op: Operation)
    requires Inv(s) && Enabled(s, op) && StoreWorks(op)
    ensures Inv(Step(s, op))
  {
    if Completes(s, op) {
      CompletionInv(s, op);
    } else {
      var t := Step(s, op);
      forall i | 0 <= i < |t.completed| ensures Remembered(t, t.completed[i]) {
        assert Remembered(s, s.completed[i]);
      }
    }
  }

  lemma {:induction false} RunInv(ops: seq<Operation>, states: seq<State>, k: nat)
    requires Run(ops, states) && k < |states| && forall i | 0 <= i < k :: StoreWorks(ops[i])
    ensures Inv(states[k])
  {
    if k > 0 {
      RunInv(ops, states, k - 1);
      StepInv(states[k - 1], ops[k - 1]);
    }
  }

  /**
   With a store that works, two completions under one key are more than a day apart, and so are the envelopes
   they answer, less the width of the freshness window: no envelope completes twice, however often it is sent.
   */
  lemma CompletesAtMostOnce(ops: seq<Operation>, states: seq<State>, k: nat, i: nat, j: nat)
    requires Run(ops, states) && k < |states| && forall n | 0 <= n < k :: StoreWorks(ops[n])
    requires i < j < |states[k].completed| && states[k].completed[i].key == states[k].completed[j].key
    ensures var a, b := states[k].completed[i], states[k].completed[j];
            && b.at - a.at > 86400 && b.createdAt - a.createdAt > 86040.0 && b.createdAt != a.createdAt
  {
    RunInv(ops, states, k);
    assert Remembered(states[k], states[k].completed[i]) && Remembered(states[k], states[k].completed[j]);
  }

  /** A request that completed and is still fresh is answered as a duplicate. */
  lemma RepeatIsDuplicate(ops: seq<Operation>, states: seq<State>, k: nat, i: nat, op: Operation)
    requires Run(ops, states) && k < |states| && forall n | 0 <= n < k :: StoreWorks(ops[n])
    requires i < |states[k].completed| && op.Route? && Enabled(states[k], op) && op.checkWorks
    requires Refusal(op.envelope, op.ctx, op.service, op.now).None?
    requires states[k].completed[i].key == KeyOf(op.envelope, op.ctx)
    requires states[k].completed[i].createdAt == op.envelope.createdAt.value
    ensures AnswerTo(states[k].records, op) == Answer(true, Some(DuplicateRequest)) && !Completes(states[k], op)
  {
    RunInv(ops, states, k);
    assert Remembered(states[k], states[k].completed[i]);
  }

  /** One dropped record is enough for the very next copy to complete again. */
  lemma DroppedRecordRepeats(s: State, op: Operation)
    requires Completes(s, op) && !op.recordWorks && Enabled(s, op)
    ensures Enabled(Step(s, op), op) && Completes(Step(s, op), op)
    ensures var done := Step(Step(s, op), op).completed; done[|done| - 1] == done[|done| - 2]
  {
  }

  // ---------------------------------------------------------------- who gets through

  /** The envelope is a request of this protocol, field by field. */
  predicate WellFormed(e: Envelope) {
    && e.protocol == Some("opendating") && e.version == Some("0.1")
    && e.kind.Some? && e.kind.value != "" && e.knownKind
    && e.requestId.Some? && |e.requestId.value| >= 8
    && e.createdAt.Some? && e.createdAt.value > 0.0
    && e.hasPayload && e.payloadFits && e.size <= 16384
  }

  /** At most five minutes old and one minute ahead. */
  predicate Timely(e: Envelope, now: int)
    requires e.createdAt.Some?
  {
    (now - 300) as real <= e.createdAt.value <= (now + 60) as real
  }

  /** A sound and timely request that its authenticated sender makes of a service that takes it. */
  predicate Proper(op: Operation) {
    && op.Route? && WellFormed(op.envelope) && Timely(op.envelope, op.now)
    && op.ctx.authenticated == op.ctx.sender && op.service.Present? && op.service.supports
  }

  /** A request completes exactly when it is proper, new as far as the store can tell, and its handler does not throw. */
  lemma CompletesExactly(s: State, op: Operation)
    ensures Completes(s, op)
            <==> Proper(op) && !op.service.throws
                 && (op.checkWorks ==> Key(op.ctx.service, op.ctx.sender, op.envelope.requestId.value) !in s.records)
  {
  }

  /** The other answers to proper requests: a duplicate is answered with success, a throwing handler without. */
  lemma ProperAnswers(records: map<Key, int>, op: Operation)
    requires Proper(op)
    ensures var known := op.checkWorks && Key(op.ctx.service, op.ctx.sender, op.envelope.requestId.value) in records;
            AnswerTo(records, op)
            == if known then Answer(true, Some(DuplicateRequest))
               else if op.service.throws then Answer(false, Some(InternalError)) else Answer(true, None)
  {
  }

  /** Each refusal after the envelope was read names the first thing that is wrong. */
  lemma RefusalsMean(records: map<Key, int>, op: Operation)
    requires op.Route? && WellFormed(op.envelope)
    ensures var a, at := AnswerTo(records, op), op.envelope.createdAt.value;
            && (a == Answer(false, Some(FutureRequest)) <==> at > (op.now + 60) as real)
            && (a == Answer(false, Some(ExpiredRequest)) <==> at < (op.now - 300) as real)
            && (a == Answer(false, Some(SenderAuthMismatch))
                <==> Timely(op.envelope, op.now) && op.ctx.authenticated != op.ctx.sender)
            && (a == Answer(false, Some(UnknownService))
                <==> Timely(op.envelope, op.now) && op.ctx.authenticated == op.ctx.sender && op.service.Absent?)
            && (a == Answer(false, Some(UnsupportedType))
                <==> Timely(op.envelope, op.now) && op.ctx.authenticated == op.ctx.sender
                     && op.service.Present? && !op.service.supports)
  {
  }

  /** And each refusal of the envelope the first field that is. */
  lemma EnvelopeRefusalsMean(records: map<Key, int>, op: Operation)
    requires op.Route? && !WellFormed(op.envelope)
    ensures var e, a := op.envelope, AnswerTo(records, op);
            var named := e.protocol == Some("opendating") && e.version.Some?;
            var typed := named && e.version == Some("0.1") && e.kind.Some? && e.kind.value != "";
            var filled := typed && e.knownKind && e.requestId.Some? && |e.requestId.value| >= 8
                          && e.createdAt.Some? && e.createdAt.value > 0.0 && e.hasPayload && e.payloadFits;
            && !a.success
            && (a.code == Some(UnsupportedVersion) <==> named && e.version != Some("0.1"))
            && (a.code == Some(UnsupportedType) <==> typed && !e.knownKind)
            && (a.code == Some(PayloadTooLarge) <==> filled && e.size > 16384)
            && (a.code == Some(InvalidEnvelope)
                <==> !named || (e.version == Some("0.1") && (!typed || (e.knownKind && !filled))))
  {
  }

  /** Over every run: whatever completed was a proper request of its authenticated sender, under that sender's key. */
  lemma {:induction false} CompletionOrigin(ops: seq<Operation>, states: seq<State>, k: nat, i: nat) returns (m: nat)
    requires Run(ops, states) && k < |states| && i < |states[k].completed|
    ensures m < k && Proper(ops[m]) && !ops[m].service.throws
    ensures var e, ctx := ops[m].envelope, ops[m].ctx;
            states[k].completed[i] == Completion(Key(ctx.service, ctx.sender, e.requestId.value), e.createdAt.value, ops[m].now)
  {
    var s, op := states[k - 1], ops[k - 1];
    if i < |s.completed| {
      m := CompletionOrigin(ops, states, k - 1, i);
    } else {
      m := k - 1;
      CompletesExactly(s, op);
    }
  }

  /** Conversely such a request, new under its key, completes, and is remembered for a day if the record is written. */
  lemma ProperCompletes(s: State, op: Operation)
    requires Proper(op) && !op.service.throws
    requires Key(op.ctx.service, op.ctx.sender, op.envelope.requestId.value) !in s.records
    ensures var key, t := Key(op.ctx.service, op.ctx.sender, op.envelope.requestId.value), Step(s, op);
            && t.completed == s.completed + [Completion(key, op.envelope.createdAt.value, op.now)]
            && t.records == if op.recordWorks then s.records[key := op.now + 86400] else s.records
  {
    CompletesExactly(s, op);
  }

  /** What does not complete leaves every record as it was. */
  lemma OthersLeaveRecords(s: State, op: Operation)
    requires op.Route? && !Completes(s, op)
    ensures Step(s, op).records == s.records && Step(s, op).completed == s.completed
  {
  }

  // ---------------------------------------------------------------- the router

  class IdempotencyStore {
    var records: map<Key, int>

    constructor ()
      ensures records == map[]
    {
      records := map[];
    }

    method IsDuplicate(key: Key, works: bool) returns (duplicate: bool)
      ensures duplicate == (works && key in records)
    {
      if !works {
        return false;
      }
      duplicate := key in records;
    }

    method Record(key: Key, now: int, works: bool)
      modifies this
      ensures records == if works && key !in old(records) then old(records)[key := now + RETENTION] else old(records)
    {
      if !works {
        return;
      }
      if key !in records {
        records := records[key := now + RETENTION];
      }
    }

    /** Deletes every expired record. */
    method PruneExpired(now: int) returns (pruned: set<Key>)
      modifies this
      ensures forall k | k in pruned :: k in old(records) && old(records)[k] < now
      ensures records == old(records) - pruned && forall k | k in records :: records[k] >= now
    {
      pruned := set k | k in records && records[k] < now;
      records := records - pruned;
    }
  }

  /** `completed` answers whether the handler ran to its end. */
  method RouteRequest(store: IdempotencyStore, op: Operation) returns (answer: Answer, completed: bool)
    requires op.Route?
    modifies store
    ensures answer == AnswerTo(old(store.records), op)
    ensures forall s: State | s.records == old(store.records) ::
              completed == Completes(s, op) && store.records == Step(s, op).records
  {
    var e := op.envelope;
    completed := false;
    if Flaw(e).Some? {
      return Answer(false, Flaw(e)), false;
    }
    var age := op.now as real - e.createdAt.value;
    if age > MAX_AGE as real || age < -(MAX_FUTURE as real) {
      return Answer(false, Some(if e.createdAt.value > op.now as real then FutureRequest else ExpiredRequest)), false;
    }
    if op.ctx.authenticated != op.ctx.sender {
      return Answer(false, Some(SenderAuthMismatch)), false;
    }
    if op.service.Absent? {
      return Answer(false, Some(UnknownService)), false;
    }
    if !op.service.supports {
      return Answer(false, Some(UnsupportedType)), false;
    }
    var key := KeyOf(e, op.ctx);
    var duplicate := store.IsDuplicate(key, op.checkWorks);
    if duplicate {
      return Answer(true, Some(DuplicateRequest)), false;
    }
    if op.service.throws {
      return Answer(false, Some(InternalError)), false;
    }
    store.Record(key, op.now, op.recordWorks);
    return Answer(true, None), true;
  }
}
