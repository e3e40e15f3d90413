/** Sessions of the relay object: what survives hibernation, and that nobody can tell it happened. */
module Sessions {
  import opened Nostr
  import opened Options
  import QueryCompiler

  const AUTH_KIND := 22242
  const GIFT_WRAP := 1059
  const AUTH_TIMEOUT := 60
  const MAX_LIMIT := 500
  const FIRST_BOOKMARK := "first-unconstrained"

  type Subscriptions = map<string, seq<Filter>>

  /** `host` is in lower case without its port; an empty challenge is an absent one. */
  datatype Session = Session(
    subscriptions: Subscriptions, bookmark: string, host: string, challenge: string,
    pubkeys: seq<string>, hasPaid: Option<bool>)

  /** What the socket itself carries through hibernation. */
  datatype Attachment = Attachment(
    bookmark: string, host: string, challenge: string, pubkeys: seq<string>, hasPaid: Option<bool>)

  /** `attachments` has one entry for every open socket; only `memory` is lost to hibernation. */
  datatype State = State(
    attachments: map<string, Attachment>, stored: map<string, Subscriptions>, memory: map<string, Session>)

  const EMPTY_STATE := State(map[], map[], map[])

  datatype Reason =
    | Fine | Invalid | AuthRequired | Restricted | RateLimited | Blocked | Failed | Closing | NotFound

  datatype Frame =
    | Challenge(challenge: string)
    | Ok(id: string, accepted: bool, okReason: Reason)
    | Closed(subId: string, reason: Reason)
    | EventFrame(eventSubId: string, event: Event)
    | Eose(eoseSubId: string)
    | Notice

  /** `resumed` is what a socket hears because its session was rebuilt; deliveries name (session, subscription). */
  datatype Output = Output(resumed: seq<Frame>, frames: seq<Frame>, deliveries: seq<(Event, set<(string, string)>)>)

  const SILENCE := Output([], [], [])

  /** How an admitted event fared in policy, extensions and the event store; "" is no bookmark. */
  datatype Verdict =
    | Denied(reason: Reason)
    | Handled
    | Processed(success: bool, bookmark: string)

  datatype Answer = Answer(events: seq<Event>, bookmark: string)

  /** Client messages, with the verdicts of code outside this module as parameters. */
  datatype Message =
    | Garbage(json: bool)
    | Publish(event: Event, complete: bool, withinRate: bool, validSignature: bool, produced: seq<Event>, verdict: Verdict)
    | Request(subId: string, filters: seq<Filter>, withinRate: bool, flaw: Option<Reason>, answer: Option<Answer>)
    | CloseSubscription(subId: string)
    | Authenticate(event: Event, complete: bool, validSignature: bool, now: int, relayHost: Option<string>, paid: Option<bool>)

  // ---------------------------------------------------------------- handling one message

  datatype Handling = Handling(session: Session, save: bool, frames: seq<Frame>, broadcasts: seq<Event>)

  function Reply(s: Session, f: Frame): Handling {
    Handling(s, false, [f], [])
  }

  function Advance(s: Session, bookmark: string): Session {
    if bookmark != "" then s.(bookmark := bookmark) else s
  }

  /** Why an event is refused before its policy is looked at. */
  function PublishFlaw(s: Session, m: Message): Option<Reason>
    requires m.Publish?
  {
    if !m.complete || m.event.kind == AUTH_KIND then Some(Invalid)
    else if s.pubkeys == [] then Some(AuthRequired)
    else if m.event.kind != GIFT_WRAP && m.event.pubkey !in s.pubkeys then Some(Restricted)
    else if !m.withinRate then Some(RateLimited)
    else if !m.validSignature then Some(Invalid)
    else None
  }

  function OnEvent(s: Session, m: Message): Handling
    requires m.Publish?
  {
    var flaw := PublishFlaw(s, m);
    if flaw.Some? then Reply(s, Ok(m.event.id, false, flaw.value))
    else match m.verdict
      case Denied(reason) => Handling(s, false, [Ok(m.event.id, false, reason)], m.produced)
      case Handled => Handling(s, false, [Ok(m.event.id, true, Fine)], m.produced)
      case Processed(success, bookmark) =>
        Handling(Advance(s, bookmark), false, [Ok(m.event.id, success, if success then Fine else Failed)],
                 m.produced + if success then [m.event] else [])
  }

  function Capped(f: Filter): Filter {
    if !Truthy(f.limit) || f.limit.value > MAX_LIMIT then f.(limit := Some(MAX_LIMIT)) else f
  }

  function CappedAll(fs: seq<Filter>): seq<Filter> {
    seq(|fs|, i requires 0 <= i < |fs| => Capped(fs[i]))
  }

  function EventFrames(subId: string, events: seq<Event>): seq<Frame> {
    seq(|events|, i requires 0 <= i < |events| => EventFrame(subId, events[i]))
  }

  function OnReq(s: Session, m: Message): Handling
    requires m.Request?
  {
    if m.subId == "" || |m.subId| > 64 then Reply(s, Notice)
    else if s.pubkeys == [] then Reply(s, Closed(m.subId, AuthRequired))
    else if !m.withinRate then Reply(s, Closed(m.subId, RateLimited))
    else if m.filters == [] then Reply(s, Closed(m.subId, Failed))
    else if m.flaw.Some? then Reply(s, Closed(m.subId, m.flaw.value))
    else
      var t := s.(subscriptions := s.subscriptions[m.subId := CappedAll(m.filters)]);
      match m.answer
      case None => Handling(t, true, [Closed(m.subId, Failed)], [])
      case Some(a) => Handling(Advance(t, a.bookmark), true, EventFrames(m.subId, a.events) + [Eose(m.subId)], [])
  }

  function OnClose(s: Session, subId: string): Handling {
    if subId == "" then Reply(s, Notice)
    else if subId in s.subscriptions then
      Handling(s.(subscriptions := s.subscriptions - {subId}), true, [Closed(subId, Closing)], [])
    else Reply(s, Closed(subId, NotFound))
  }

  function FirstTag(tags: seq<seq<string>>, name: string): Option<seq<string>> {
    if tags == [] then None
    else if tags[0] != [] && tags[0][0] == name then Some(tags[0])
    else FirstTag(tags[1..], name)
  }

  /** The second item of the first tag of a name, when it is there and not empty. */
  function TagValue(tags: seq<seq<string>>, name: string): Option<string> {
    var t := FirstTag(tags, name);
    if t.Some? && |t.value| >= 2 && t.value[1] != "" then Some(t.value[1]) else None
  }

  predicate AuthAccepted(s: Session, m: Message) {
    && m.Authenticate? && m.complete && m.event.kind == AUTH_KIND && m.validSignature
    && -AUTH_TIMEOUT <= m.now - m.event.createdAt <= AUTH_TIMEOUT
    && s.challenge != "" && TagValue(m.event.tags, "challenge") == Some(s.challenge)
    && TagValue(m.event.tags, "relay").Some? && m.relayHost == Some(s.host)
  }

  function AddPubkey(pubkeys: seq<string>, p: string): seq<string> {
    if p in pubkeys then pubkeys else pubkeys + [p]
  }

  function OnAuth(s: Session, m: Message, nonce: string): Handling
    requires m.Authenticate?
  {
    if !AuthAccepted(s, m) then Reply(s, Ok(m.event.id, false, Invalid))
    else
      var paid := if m.paid.Some? then m.paid else s.hasPaid;
      Reply(s.(pubkeys := AddPubkey(s.pubkeys, m.event.pubkey), challenge := nonce, hasPaid := paid),
            Ok(m.event.id, true, Fine))
  }

  function OnMessage(s: Session, m: Message, nonce: string): Handling {
    match m
    case Garbage(_) => Reply(s, Notice)
    case Publish(_, _, _, _, _, _) => OnEvent(s, m)
    case Request(_, _, _, _, _) => OnReq(s, m)
    case CloseSubscription(subId) => OnClose(s, subId)
    case Authenticate(_, _, _, _, _, _) => OnAuth(s, m, nonce)
  }

  /** Writing subscriptions to storage throws after memory has changed, and before anything is answered. */
  function Outcome(s: Session, m: Message, nonce: string, kept: bool): Handling {
    var h := OnMessage(s, m, nonce);
    if h.save && !kept then Handling(s.(subscriptions := h.session.subscriptions), false, [Notice], []) else h
  }

  // ---------------------------------------------------------------- the steps of the relay object

  function Stored(s: State, sid: string): Subscriptions {
    if sid in s.stored then s.stored[sid] else map[]
  }

  function AttachmentOf(s: Session): Attachment {
    Attachment(s.bookmark, s.host, s.challenge, s.pubkeys, s.hasPaid)
  }

  /** A session rebuilt from what survived; the nonce stands in for a missing challenge. */
  function Restore(a: Attachment, subs: Subscriptions, nonce: string): Session {
    Session(subs, a.bookmark, a.host, if a.challenge != "" then a.challenge else nonce, a.pubkeys, a.hasPaid)
  }

  /** The session of an open socket: the one in memory, or a rebuilt one. */
  function Opened(s: State, sid: string, nonce: string): Session
    requires sid in s.attachments
  {
    if sid in s.memory then s.memory[sid] else Restore(s.attachments[sid], Stored(s, sid), nonce)
  }

  /** A broadcast rebuilds the session of every open socket. */
  function Woken(s: State, nonce: string): map<string, Session> {
    map sid | sid in s.memory.Keys + s.attachments.Keys ::
      if sid in s.memory then s.memory[sid] else Restore(s.attachments[sid], Stored(s, sid), nonce)
  }

  function Delivered(s: State, e: Event, nonce: string): set<(string, string)> {
    set sid, sub | sid in s.attachments && sub in Opened(s, sid, nonce).subscriptions
                && MatchesAny(e, Opened(s, sid, nonce).subscriptions[sub]) :: (sid, sub)
  }

  function Broadcast(s: State, es: seq<Event>, nonce: string): seq<(Event, set<(string, string)>)> {
    seq(|es|, i requires 0 <= i < |es| => (es[i], Delivered(s, es[i], nonce)))
  }

  function Resumed(s: State, sid: string, nonce: string): seq<Frame>
    requires sid in s.attachments
  {
    var session := Opened(s, sid, nonce);
    if sid !in s.memory && session.pubkeys == [] && session.challenge != "" then [Challenge(session.challenge)] else []
  }

  function Receive(s: State, sid: string, m: Message, nonce: string, kept: bool): (State, Output)
    requires sid in s.attachments
  {
    var h := Outcome(Opened(s, sid, nonce), m, nonce, kept);
    var t := State(s.attachments, if h.save then s.stored[sid := h.session.subscriptions] else s.stored, s.memory[sid := h.session]);
    var memory := if h.broadcasts == [] then t.memory else Woken(t, nonce);
    // unparsable text ends the handler before the attachment is written back
    var attachments := if m == Garbage(false) then s.attachments else s.attachments[sid := AttachmentOf(h.session)];
    (State(attachments, t.stored, memory), Output(Resumed(s, sid, nonce), h.frames, Broadcast(t, h.broadcasts, nonce)))
  }

  lemma ReceiveMeans(s: State, sid: string, m: Message, nonce: string, kept: bool, t: State)
    requires sid in s.attachments
    requires var h := Outcome(Opened(s, sid, nonce), m, nonce, kept);
             t == State(s.attachments, if h.save then s.stored[sid := h.session.subscriptions] else s.stored, s.memory[sid := h.session])
    ensures var h, (r, out) := Outcome(Opened(s, sid, nonce), m, nonce, kept), Receive(s, sid, m, nonce, kept);
            && r.stored == t.stored && r.memory == (if h.broadcasts == [] then t.memory else Woken(t, nonce))
            && out == Output(Resumed(s, sid, nonce), h.frames, Broadcast(t, h.broadcasts, nonce))
  {
  }

  lemma ReceivedSession(s: State, sid: string, m: Message, nonce: string, kept: bool)
    requires sid in s.attachments
    ensures var t := Receive(s, sid, m, nonce, kept).0;
            sid in t.memory && t.memory[sid] == Outcome(Opened(s, sid, nonce), m, nonce, kept).session
  {
  }

  /** The attachment is too large to be written back: the client is told, and the old one stays. */
  function ReceiveUnsaved(s: State, sid: string, m: Message, nonce: string, kept: bool): (State, Output)
    requires sid in s.attachments
  {
    var (t, out) := Receive(s, sid, m, nonce, kept);
    (t.(attachments := s.attachments), out.(frames := out.frames + [Notice]))
  }

  /**
   Every operation carries the random challenge it would generate. `fits` and `kept` are the platform's verdicts
   on what a message writes: its session's attachment to the socket, and its subscriptions to storage.
   */
  datatype Operation =
    | Connect(sid: string, host: string, nonce: string)
    | Message(sid: string, message: Message, nonce: string, fits: bool, kept: bool)
    | Incoming(event: Event, nonce: string)
    | Disconnect(sid: string)
    | SocketError(sid: string, dropped: bool)
    | Alarm
    | Hibernate(lost: set<string>)

  function Accept(s: State, sid: string, host: string, nonce: string): (State, Output) {
    var session := Session(map[], FIRST_BOOKMARK, host, nonce, [], None);
    (State(s.attachments[sid := AttachmentOf(session)], s.stored, s.memory[sid := session]),
     Output([], [Challenge(nonce)], []))
  }

  function Step(s: State, op: Operation): (State, Output) {
    match op
    case Connect(sid, host, nonce) => Accept(s, sid, host, nonce)
    case Message(sid, m, nonce, fits, kept) =>
      if sid !in s.attachments then (s, SILENCE)
      else if fits || m == Garbage(false) then Receive(s, sid, m, nonce, kept)
      else ReceiveUnsaved(s, sid, m, nonce, kept)
    case Incoming(e, nonce) => (s.(memory := Woken(s, nonce)), Output([], [], Broadcast(s, [e], nonce)))
    case Disconnect(sid) => (State(s.attachments - {sid}, s.stored - {sid}, s.memory - {sid}), SILENCE)
    case SocketError(sid, dropped) =>
      (State(if dropped then s.attachments - {sid} else s.attachments, s.stored, s.memory - {sid}), SILENCE)
    case Alarm => (if s.attachments == map[] then EMPTY_STATE else s, SILENCE)
    case Hibernate(lost) => (s.(memory := s.memory - lost), SILENCE)
  }

  // ---------------------------------------------------------------- memory agrees with what survives

  /** The session as the surviving state describes it. */
  function View(s: State, sid: string): Session
    requires sid in s.attachments
  {
    Restore(s.attachments[sid], Stored(s, sid), "")
  }

  ghost predicate Synced(s: State) {
    && (forall sid | sid in s.attachments :: s.attachments[sid].challenge != "")
    && (forall sid | sid in s.memory :: sid in s.attachments && s.memory[sid] == View(s, sid))
  }

  predicate SameDurable(s: State, t: State) {
    s.attachments == t.attachments && s.stored == t.stored
  }

  /** The message leaves the attachment as it was. */
  predicate SameAttachment(s: State, op: Operation)
    requires op.Message? && op.sid in s.attachments
  {
    AttachmentOf(Outcome(View(s, op.sid), op.message, op.nonce, op.kept).session) == s.attachments[op.sid]
  }

  /** The message has no subscriptions to write, or those already stored. */
  predicate SameSubscriptions(s: State, op: Operation)
    requires op.Message? && op.sid in s.attachments
  {
    var h := OnMessage(View(s, op.sid), op.message, op.nonce);
    !h.save || h.session.subscriptions == Stored(s, op.sid)
  }

  /** Each of the two writes succeeds, or would have written what is there. */
  predicate Written(s: State, op: Operation)
    requires op.Message? && op.sid in s.attachments
  {
    (op.fits || SameAttachment(s, op)) && (op.kept || SameSubscriptions(s, op))
  }

  /**
   Session identifiers and challenges are random: neither is ever reused, and none is empty. What a message
   changes can be written.
   */
  predicate Admissible(s: State, op: Operation) {
    && (op.Connect? ==> op.sid !in s.attachments && op.sid !in s.stored && op.nonce != "")
    && (op.Message? ==> op.nonce != "" && (op.sid in s.attachments ==> Written(s, op)))
  }

  lemma OpenedView(s: State, sid: string, nonce: string)
    requires Synced(s) && sid in s.attachments
    ensures Opened(s, sid, nonce) == View(s, sid)
  {
  }

  lemma HandlingShape(s: Session, m: Message, nonce: string, kept: bool)
    requires s.challenge != "" && nonce != ""
    ensures var plain, h := OnMessage(s, m, nonce), Outcome(s, m, nonce, kept);
            && h.session.challenge != "" && h.session.host == s.host
            && h.session.subscriptions == plain.session.subscriptions
            && (!plain.save ==> h == plain && h.session.subscriptions == s.subscriptions)
            && (plain.save && !kept ==> !h.save && AttachmentOf(h.session) == AttachmentOf(s))
            && (m.Garbage? ==> h.session == s && !h.save)
  {
  }

  lemma WokenSynced(s: State, nonce: string)
    requires Synced(s)
    ensures Synced(s.(memory := Woken(s, nonce)))
  {
  }

  /** One session changes, in memory and in what survives. */
  function Put(s: State, sid: string, x: Session, save: bool): State {
    State(s.attachments[sid := AttachmentOf(x)], if save then s.stored[sid := x.subscriptions] else s.stored, s.memory[sid := x])
  }

  lemma PutSynced(s: State, sid: string, x: Session, save: bool)
    requires Synced(s) && x.challenge != "" && (save || x.subscriptions == Stored(s, sid))
    ensures Synced(Put(s, sid, x, save)) && View(Put(s, sid, x, save), sid) == x
    ensures forall y | y in s.attachments && y != sid :: View(Put(s, sid, x, save), y) == View(s, y)
  {
    var t := Put(s, sid, x, save);
    forall y | y != sid ensures Stored(t, y) == Stored(s, y) { }
  }

  lemma WokenPut(s: State, sid: string, x: Session, save: bool, nonce: string)
    requires sid in s.attachments
    ensures Woken(Put(s, sid, x, save).(attachments := s.attachments), nonce) == Woken(Put(s, sid, x, save), nonce)
  {
    var t := Put(s, sid, x, save);
    assert t.memory.Keys + t.attachments.Keys == t.memory.Keys + s.attachments.Keys;
  }

  /** A message is one change of its session, after which a broadcast may rebuild the others. */
  lemma ReceiveIsPut(s: State, sid: string, m: Message, nonce: string, kept: bool)
    requires Synced(s) && sid in s.attachments && nonce != ""
    ensures var h := Outcome(View(s, sid), m, nonce, kept);
            var t := Put(s, sid, h.session, h.save);
            Receive(s, sid, m, nonce, kept).0 == if h.broadcasts == [] then t else t.(memory := Woken(t, nonce))
  {
    var h := Outcome(View(s, sid), m, nonce, kept);
    OpenedView(s, sid, nonce);
    HandlingShape(View(s, sid), m, nonce, kept);
    WokenPut(s, sid, h.session, h.save, nonce);
    if m.Garbage? { assert s.attachments[sid := AttachmentOf(View(s, sid))] == s.attachments; }
  }

  lemma ReceiveSynced(s: State, sid: string, m: Message, nonce: string, kept: bool)
    requires Synced(s) && sid in s.attachments && nonce != ""
    requires kept || SameSubscriptions(s, Operation.Message(sid, m, nonce, true, kept))
    ensures Synced(Receive(s, sid, m, nonce, kept).0)
  {
    var h := Outcome(View(s, sid), m, nonce, kept);
    HandlingShape(View(s, sid), m, nonce, kept);
    PutSynced(s, sid, h.session, h.save);
    WokenSynced(Put(s, sid, h.session, h.save), nonce);
    ReceiveIsPut(s, sid, m, nonce, kept);
  }

  /** A message whose changes can be written ends as if every write had succeeded that was tried. */
  lemma WrittenStep(s: State, op: Operation)
    requires Synced(s) && op.Message? && op.nonce != "" && op.sid in s.attachments && Written(s, op)
    ensures Step(s, op).0 == Receive(s, op.sid, op.message, op.nonce, op.kept).0
  {
    ReceiveIsPut(s, op.sid, op.message, op.nonce, op.kept);
    var h := Outcome(View(s, op.sid), op.message, op.nonce, op.kept);
    if AttachmentOf(h.session) == s.attachments[op.sid] {
      assert s.attachments[op.sid := AttachmentOf(h.session)] == s.attachments;
    }
  }

  lemma WrittenEffect(s: State, op: Operation)
    requires Synced(s) && op.Message? && op.nonce != "" && op.sid in s.attachments && Written(s, op)
    ensures var h := Outcome(View(s, op.sid), op.message, op.nonce, op.kept);
            && Step(s, op).0.attachments == s.attachments[op.sid := AttachmentOf(h.session)]
            && Step(s, op).0.stored == if h.save then s.stored[op.sid := h.session.subscriptions] else s.stored
  {
    WrittenStep(s, op);
    ReceiveIsPut(s, op.sid, op.message, op.nonce, op.kept);
  }

  lemma StepSynced(s: State, op: Operation)
    requires Synced(s) && Admissible(s, op)
    ensures Synced(Step(s, op).0)
  {
    match op
    case Message(sid, m, nonce, _, kept) =>
      if sid in s.attachments {
        WrittenStep(s, op);
        ReceiveSynced(s, sid, m, nonce, kept);
      }
    case Incoming(e, nonce) => WokenSynced(s, nonce);
    case _ =>
  }

  // ---------------------------------------------------------------- hibernation is transparent

  /** Equal up to what a rebuilt session says about itself. */
  predicate SameAnswer(a: Output, b: Output) {
    a.frames == b.frames && a.deliveries == b.deliveries
  }

  /** Enough for a broadcast, and true even in the middle of a message. */
  ghost predicate SubscriptionsSynced(s: State) {
    forall sid | sid in s.memory :: s.memory[sid].subscriptions == Stored(s, sid)
  }

  /** What is delivered is a fact about open sockets and stored subscriptions, never about memory. */
  lemma DeliveredFromStorage(s: State, e: Event, nonce: string, sid: string, sub: string)
    requires SubscriptionsSynced(s)
    ensures (sid, sub) in Delivered(s, e, nonce)
            <==> sid in s.attachments && sub in Stored(s, sid) && MatchesAny(e, Stored(s, sid)[sub])
  {
  }

  lemma DeliveredSame(s: State, t: State, e: Event, nonce: string)
    requires SubscriptionsSynced(s) && SubscriptionsSynced(t) && SameDurable(s, t)
    ensures Delivered(s, e, nonce) == Delivered(t, e, nonce)
  {
    forall p: (string, string) ensures p in Delivered(s, e, nonce) <==> p in Delivered(t, e, nonce) {
      DeliveredFromStorage(s, e, nonce, p.0, p.1);
      DeliveredFromStorage(t, e, nonce, p.0, p.1);
    }
  }

  lemma BroadcastSame(s: State, t: State, es: seq<Event>, nonce: string)
    requires SubscriptionsSynced(s) && SubscriptionsSynced(t) && SameDurable(s, t)
    ensures Broadcast(s, es, nonce) == Broadcast(t, es, nonce)
  {
    forall i | 0 <= i < |es| { DeliveredSame(s, t, es[i], nonce); }
  }

  lemma MidMessageSynced(s: State, sid: string, x: Session, save: bool)
    requires Synced(s) && (save || x.subscriptions == Stored(s, sid))
    ensures SubscriptionsSynced(Put(s, sid, x, save).(attachments := s.attachments))
  {
    var t := Put(s, sid, x, save).(attachments := s.attachments);
    forall y | y in t.memory && y != sid ensures t.memory[y].subscriptions == Stored(t, y) {
      assert s.memory[y] == View(s, y);
    }
  }

  lemma ReceiveSame(s: State, t: State, sid: string, m: Message, nonce: string, kept: bool)
    requires Synced(s) && Synced(t) && SameDurable(s, t) && sid in s.attachments && nonce != ""
    requires kept || SameSubscriptions(s, Operation.Message(sid, m, nonce, true, kept))
    ensures SameDurable(Receive(s, sid, m, nonce, kept).0, Receive(t, sid, m, nonce, kept).0)
    ensures SameAnswer(Receive(s, sid, m, nonce, kept).1, Receive(t, sid, m, nonce, kept).1)
  {
    var h := Outcome(View(s, sid), m, nonce, kept);
    assert View(s, sid) == View(t, sid);
    OpenedView(s, sid, nonce);
    OpenedView(t, sid, nonce);
    ReceiveIsPut(s, sid, m, nonce, kept);
    ReceiveIsPut(t, sid, m, nonce, kept);
    HandlingShape(View(s, sid), m, nonce, kept);
    MidMessageSynced(s, sid, h.session, h.save);
    MidMessageSynced(t, sid, h.session, h.save);
    BroadcastSame(Put(s, sid, h.session, h.save).(attachments := s.attachments),
                  Put(t, sid, h.session, h.save).(attachments := t.attachments), h.broadcasts, nonce);
  }

  /** Two relays that differ only in which sessions they hold in memory act alike. */
  lemma StepSame(s: State, t: State, op: Operation)
    requires Synced(s) && Synced(t) && SameDurable(s, t) && Admissible(s, op)
    ensures SameDurable(Step(s, op).0, Step(t, op).0) && SameAnswer(Step(s, op).1, Step(t, op).1)
  {
    match op
    case Message(sid, m, nonce, _, kept) => if sid in s.attachments { ReceiveSame(s, t, sid, m, nonce, kept); }
    case Incoming(e, nonce) => BroadcastSame(s, t, [e], nonce);
    case _ =>
  }

  function Run(ops: seq<Operation>): State {
    if ops == [] then EMPTY_STATE else Step(Run(ops[..|ops| - 1]), ops[|ops| - 1]).0
  }

  /** Everything clients are told, except by sessions announcing that they were rebuilt. */
  function Transcript(ops: seq<Operation>): seq<Output> {
    if ops == [] then []
    else
      var front, op := ops[..|ops| - 1], ops[|ops| - 1];
      if op.Hibernate? then Transcript(front)
      else Transcript(front) + [Step(Run(front), op).1.(resumed := [])]
  }

  /** The same run on a relay that never sleeps. */
  function Awake(ops: seq<Operation>): seq<Operation> {
    if ops == [] then []
    else Awake(ops[..|ops| - 1]) + if ops[|ops| - 1].Hibernate? then [] else [ops[|ops| - 1]]
  }

  ghost predicate AdmissibleRun(ops: seq<Operation>) {
    forall i | 0 <= i < |ops| :: Admissible(Run(ops[..i]), ops[i])
  }

  lemma AdmissibleFront(ops: seq<Operation>)
    requires AdmissibleRun(ops) && ops != []
    ensures AdmissibleRun(ops[..|ops| - 1]) && Admissible(Run(ops[..|ops| - 1]), ops[|ops| - 1])
  {
    var front := ops[..|ops| - 1];
    forall i | 0 <= i < |front| ensures Admissible(Run(front[..i]), front[i]) {
      assert front[..i] == ops[..i] && front[i] == ops[i];
    }
  }

  lemma {:induction false} RunSynced(ops: seq<Operation>)
    requires AdmissibleRun(ops)
    ensures Synced(Run(ops))
  {
    if ops != [] {
      AdmissibleFront(ops);
      RunSynced(ops[..|ops| - 1]);
      StepSynced(Run(ops[..|ops| - 1]), ops[|ops| - 1]);
    }
  }

  lemma RunSnoc(ops: seq<Operation>, op: Operation)
    ensures Run(ops + [op]) == Step(Run(ops), op).0
    ensures !op.Hibernate? ==> Transcript(ops + [op]) == Transcript(ops) + [Step(Run(ops), op).1.(resumed := [])]
  {
    assert (ops + [op])[..|ops|] == ops;
  }

  /** One more operation on both relays; the one that never sleeps skips a hibernation. */
  lemma TransparentStep(s: State, t: State, op: Operation)
    requires Synced(s) && Synced(t) && SameDurable(s, t) && Admissible(s, op)
    ensures var u := if op.Hibernate? then t else Step(t, op).0;
            SameDurable(Step(s, op).0, u) && Synced(Step(s, op).0) && Synced(u)
    ensures !op.Hibernate? ==> Step(s, op).1.(resumed := []) == Step(t, op).1.(resumed := [])
  {
    StepSynced(s, op);
    if !op.Hibernate? {
      StepSame(s, t, op);
      StepSynced(t, op);
    }
  }

  /**
   Dropping any sessions from memory, any number of times, changes neither what survives nor any frame
   or delivery, except that a rebuilt session may repeat its challenge.
   */
  lemma {:induction false} HibernationIsTransparent(ops: seq<Operation>)
    requires AdmissibleRun(ops)
    ensures SameDurable(Run(ops), Run(Awake(ops))) && Transcript(ops) == Transcript(Awake(ops))
    ensures Synced(Run(ops)) && Synced(Run(Awake(ops)))
  {
    RunSynced(ops);
    if ops != [] {
      var front, op := ops[..|ops| - 1], ops[|ops| - 1];
      AdmissibleFront(ops);
      HibernationIsTransparent(front);
      RunSynced(front);
      TransparentStep(Run(front), Run(Awake(front)), op);
      if op.Hibernate? {
        assert Awake(ops) == Awake(front);
      } else {
        assert Awake(ops) == Awake(front) + [op];
        RunSnoc(Awake(front), op);
      }
    }
  }

  /** A rebuilt session tells its client only the challenge that is still good, and only before it authenticates. */
  lemma ResumedRepeatsChallenge(s: State, sid: string, m: Message, nonce: string, kept: bool)
    requires Synced(s) && sid in s.attachments
    ensures Receive(s, sid, m, nonce, kept).1.resumed
            == if sid !in s.memory && s.attachments[sid].pubkeys == [] then [Challenge(s.attachments[sid].challenge)] else []
  {
  }

  // ---------------------------------------------------------------- authentication over runs

  /** An AUTH message that its session, rebuilt or not, accepts. */
  predicate Accepts(s: State, op: Operation) {
    op.Message? && op.sid in s.attachments && op.message.Authenticate? && AuthAccepted(View(s, op.sid), op.message)
  }

  lemma AcceptsMeansOk(s: State, op: Operation)
    requires Synced(s) && op.Message? && op.message.Authenticate?
    ensures Accepts(s, op) <==> Step(s, op).1.frames != [] && Step(s, op).1.frames[0] == Ok(op.message.event.id, true, Fine)
  {
  }

  predicate Connects(op: Operation, sid: string) {
    op.Connect? && op.sid == sid
  }

  lemma HandlingKeepsAuth(s: Session, m: Message, nonce: string, kept: bool)
    requires !AuthAccepted(s, m)
    ensures var h := Outcome(s, m, nonce, kept); h.session.challenge == s.challenge && h.session.pubkeys == s.pubkeys
  {
  }

  lemma MessageAuth(s: State, op: Operation, sid: string)
    requires Synced(s) && op.Message? && op.nonce != "" && op.sid in s.attachments && Written(s, op)
    requires sid in Step(s, op).0.attachments
    ensures sid in s.attachments
    ensures var a := Step(s, op).0.attachments[sid];
            if Accepts(s, op) && op.sid == sid then
              a.challenge == op.nonce && a.pubkeys == AddPubkey(s.attachments[sid].pubkeys, op.message.event.pubkey)
            else a.challenge == s.attachments[sid].challenge && a.pubkeys == s.attachments[sid].pubkeys
  {
    WrittenEffect(s, op);
    if !AuthAccepted(View(s, op.sid), op.message) {
      HandlingKeepsAuth(View(s, op.sid), op.message, op.nonce, op.kept);
    }
  }

  /** Only a connection and an accepted AUTH touch the authentication state, whatever is in memory. */
  lemma StepAuth(s: State, op: Operation, sid: string)
    requires Synced(s) && Admissible(s, op) && sid in Step(s, op).0.attachments
    ensures Connects(op, sid) || sid in s.attachments
    ensures var a := Step(s, op).0.attachments[sid];
            if Connects(op, sid) then a.challenge == op.nonce && a.pubkeys == []
            else if Accepts(s, op) && op.sid == sid then
              a.challenge == op.nonce && a.pubkeys == AddPubkey(s.attachments[sid].pubkeys, op.message.event.pubkey)
            else a.challenge == s.attachments[sid].challenge && a.pubkeys == s.attachments[sid].pubkeys
  {
    if op.Message? {
      if op.sid in s.attachments { MessageAuth(s, op, sid); }
    }
  }

  function NonceOf(op: Operation): set<string> {
    if op.Connect? || op.Message? then {op.nonce} else {}
  }

  /** The challenges generated so far. */
  function Issued(ops: seq<Operation>): set<string> {
    if ops == [] then {}
    else Issued(ops[..|ops| - 1]) + NonceOf(ops[|ops| - 1])
  }

  /** The challenges with which an AUTH has been accepted so far. */
  function Used(ops: seq<Operation>): set<string> {
    if ops == [] then {}
    else
      var front, op := ops[..|ops| - 1], ops[|ops| - 1];
      Used(front) + if Accepts(Run(front), op) then {Run(front).attachments[op.sid].challenge} else {}
  }

  /** Random challenges do not repeat. */
  ghost predicate NewNonces(ops: seq<Operation>) {
    forall i | 0 <= i < |ops| :: NonceOf(ops[i]) !! Issued(ops[..i])
  }

  ghost predicate ChallengesApart(open: map<string, Attachment>, issued: set<string>, used: set<string>) {
    && used <= issued
    && (forall a | a in open :: open[a].challenge in issued - used)
    && forall a, b | a in open && b in open && a != b :: open[a].challenge != open[b].challenge
  }

  lemma ApartReplace(open: map<string, Attachment>, open': map<string, Attachment>, x: string, nonce: string, issued: set<string>, used: set<string>)
    requires ChallengesApart(open, issued, used) && nonce !in issued
    requires forall a | a in open' :: if a == x then open'[a].challenge == nonce else a in open && open'[a].challenge == open[a].challenge
    ensures ChallengesApart(open', issued + {nonce}, used + if x in open then {open[x].challenge} else {})
  {
  }

  lemma ApartKeep(open: map<string, Attachment>, open': map<string, Attachment>, more: set<string>, issued: set<string>, used: set<string>)
    requires ChallengesApart(open, issued, used)
    requires forall a | a in open' :: a in open && open'[a].challenge == open[a].challenge
    ensures ChallengesApart(open', issued + more, used)
  {
  }

  lemma StepApart(s: State, op: Operation, issued: set<string>, used: set<string>)
    requires Synced(s) && Admissible(s, op) && ChallengesApart(s.attachments, issued, used)
    requires NonceOf(op) !! issued
    ensures ChallengesApart(Step(s, op).0.attachments, issued + NonceOf(op),
                            used + if Accepts(s, op) then {s.attachments[op.sid].challenge} else {})
  {
    var t := Step(s, op).0;
    forall a | a in t.attachments
      ensures Connects(op, a) || a in s.attachments
      ensures t.attachments[a].challenge
              == if Connects(op, a) || (Accepts(s, op) && op.sid == a) then op.nonce else s.attachments[a].challenge
    {
      StepAuth(s, op, a);
    }
    if op.Connect? || Accepts(s, op) {
      ApartReplace(s.attachments, t.attachments, op.sid, op.nonce, issued, used);
    } else {
      ApartKeep(s.attachments, t.attachments, NonceOf(op), issued, used);
    }
  }

  lemma NewNoncesFront(ops: seq<Operation>)
    requires NewNonces(ops) && ops != []
    ensures NewNonces(ops[..|ops| - 1])
  {
    var front := ops[..|ops| - 1];
    forall i | 0 <= i < |front| ensures NonceOf(front[i]) !! Issued(front[..i]) { assert front[..i] == ops[..i]; }
  }

  lemma {:induction false} RunApart(ops: seq<Operation>)
    requires AdmissibleRun(ops) && NewNonces(ops)
    ensures ChallengesApart(Run(ops).attachments, Issued(ops), Used(ops))
  {
    if ops != [] {
      var front := ops[..|ops| - 1];
      AdmissibleFront(ops);
      NewNoncesFront(ops);
      RunSynced(front);
      RunApart(front);
      StepApart(Run(front), ops[|ops| - 1], Issued(front), Used(front));
    }
  }

  /** Whatever sleeps in between and whichever socket tries: a challenge authenticates at most once. */
  lemma ChallengesAreSingleUse(ops: seq<Operation>, op: Operation)
    requires AdmissibleRun(ops) && NewNonces(ops) && Accepts(Run(ops), op)
    ensures TagValue(op.message.event.tags, "challenge").Some?
    ensures TagValue(op.message.event.tags, "challenge").value in Issued(ops) - Used(ops)
  {
    RunApart(ops);
    RunSynced(ops);
  }

  /** Operation `i` of a run authenticated pubkey `p` on session `sid`, which has not reconnected since. */
  ghost predicate Authenticated(ops: seq<Operation>, i: nat, sid: string, p: string) {
    && i < |ops| && Accepts(Run(ops[..i]), ops[i]) && ops[i].sid == sid && ops[i].message.event.pubkey == p
    && forall k | i < k < |ops| :: !Connects(ops[k], sid)
  }

  lemma AuthenticatedLater(front: seq<Operation>, op: Operation, i: nat, sid: string, p: string)
    requires i < |front| && !Connects(op, sid)
    ensures Authenticated(front + [op], i, sid, p) <==> Authenticated(front, i, sid, p)
  {
    var ops := front + [op];
    assert ops[..i] == front[..i] && ops[i] == front[i];
    assert forall k | i < k < |front| :: ops[k] == front[k];
  }

  lemma AuthenticatedSnoc(front: seq<Operation>, op: Operation, sid: string, p: string)
    requires !Connects(op, sid)
    ensures (exists i: nat :: Authenticated(front + [op], i, sid, p))
            <==> (exists i: nat :: Authenticated(front, i, sid, p))
                 || (Accepts(Run(front), op) && op.sid == sid && op.message.event.pubkey == p)
  {
    var ops := front + [op];
    assert ops[..|front|] == front;
    if i: nat :| Authenticated(ops, i, sid, p) {
      if i < |front| { AuthenticatedLater(front, op, i, sid, p); }
    }
    if i: nat :| Authenticated(front, i, sid, p) {
      AuthenticatedLater(front, op, i, sid, p);
    }
    if Accepts(Run(front), op) && op.sid == sid && op.message.event.pubkey == p {
      assert Authenticated(ops, |front|, sid, p);
    }
  }

  lemma NoneSinceConnect(front: seq<Operation>, op: Operation, sid: string, p: string)
    requires Connects(op, sid)
    ensures !exists i: nat :: Authenticated(front + [op], i, sid, p)
  {
    var ops := front + [op];
    forall i: nat ensures !Authenticated(ops, i, sid, p) {
      assert ops[|front|] == op && ops[..|front|] == front;
    }
  }

  lemma PubkeyAfter(s: State, op: Operation, sid: string, p: string)
    requires Synced(s) && Admissible(s, op) && sid in Step(s, op).0.attachments
    ensures Connects(op, sid) || sid in s.attachments
    ensures p in Step(s, op).0.attachments[sid].pubkeys
            <==> !Connects(op, sid)
                 && (p in s.attachments[sid].pubkeys || (Accepts(s, op) && op.sid == sid && op.message.event.pubkey == p))
  {
    StepAuth(s, op, sid);
  }

  /** An open session holds exactly the pubkeys that authenticated on it since it connected. */
  lemma {:induction false} PubkeysAreThoseAuthenticated(ops: seq<Operation>, sid: string, p: string)
    requires AdmissibleRun(ops) && sid in Run(ops).attachments
    ensures p in Run(ops).attachments[sid].pubkeys <==> exists i: nat :: Authenticated(ops, i, sid, p)
  {
    if ops != [] {
      var front, op := ops[..|ops| - 1], ops[|ops| - 1];
      assert ops == front + [op];
      AdmissibleFront(ops);
      RunSynced(front);
      PubkeyAfter(Run(front), op, sid, p);
      if Connects(op, sid) {
        NoneSinceConnect(front, op, sid, p);
      } else {
        PubkeysAreThoseAuthenticated(front, sid, p);
        AuthenticatedSnoc(front, op, sid, p);
      }
    }
  }

  /** An event is accepted only from a session on which its author authenticated; gift wraps need some author. */
  lemma PublishedOnlyAfterAuth(ops: seq<Operation>, sid: string, m: Message, nonce: string, kept: bool) returns (i: nat, p: string)
    requires AdmissibleRun(ops) && sid in Run(ops).attachments && m.Publish?
    requires Receive(Run(ops), sid, m, nonce, kept).1.frames == [Ok(m.event.id, true, Fine)]
    ensures Authenticated(ops, i, sid, p) && (p == m.event.pubkey || m.event.kind == GIFT_WRAP)
  {
    RunSynced(ops);
    var s := Run(ops);
    OpenedView(s, sid, nonce);
    p := if m.event.kind == GIFT_WRAP then s.attachments[sid].pubkeys[0] else m.event.pubkey;
    PubkeysAreThoseAuthenticated(ops, sid, p);
    i :| Authenticated(ops, i, sid, p);
  }

  ghost predicate SubscribersAuthenticated(s: State) {
    forall sid | sid in s.attachments && Stored(s, sid) != map[] :: s.attachments[sid].pubkeys != []
  }

  lemma SavedNeedsAuth(s: Session, m: Message, nonce: string, kept: bool)
    ensures var h := Outcome(s, m, nonce, kept);
            h.save && h.session.subscriptions != map[] ==> s.pubkeys != [] || s.subscriptions != map[]
  {
  }

  lemma StepSubscribers(s: State, op: Operation)
    requires Synced(s) && Admissible(s, op) && SubscribersAuthenticated(s)
    ensures SubscribersAuthenticated(Step(s, op).0)
  {
    var t := Step(s, op).0;
    forall sid | sid in t.attachments && Stored(t, sid) != map[] ensures t.attachments[sid].pubkeys != [] {
      StepAuth(s, op, sid);
      if op.Message? && op.sid in s.attachments {
        WrittenEffect(s, op);
        SavedNeedsAuth(View(s, op.sid), op.message, op.nonce, op.kept);
      }
    }
  }

  lemma {:induction false} RunSubscribers(ops: seq<Operation>)
    requires AdmissibleRun(ops)
    ensures SubscribersAuthenticated(Run(ops))
  {
    if ops != [] {
      AdmissibleFront(ops);
      RunSynced(ops[..|ops| - 1]);
      RunSubscribers(ops[..|ops| - 1]);
      StepSubscribers(Run(ops[..|ops| - 1]), ops[|ops| - 1]);
    }
  }

  /** No broadcast reaches a socket on which nobody authenticated. */
  lemma DeliveredOnlyToAuthenticated(ops: seq<Operation>, e: Event, nonce: string, sid: string, sub: string) returns (i: nat, p: string)
    requires AdmissibleRun(ops) && (sid, sub) in Delivered(Run(ops), e, nonce)
    ensures Authenticated(ops, i, sid, p)
  {
    RunSynced(ops);
    RunSubscribers(ops);
    DeliveredFromStorage(Run(ops), e, nonce, sid, sub);
    p := Run(ops).attachments[sid].pubkeys[0];
    PubkeysAreThoseAuthenticated(ops, sid, p);
    i :| Authenticated(ops, i, sid, p);
  }

  // ---------------------------------------------------------------- writes that fail

  /** What a message leaves of its session, in memory and in each of the two places that survive. */
  lemma SessionAfter(s: State, op: Operation)
    requires Synced(s) && op.Message? && op.nonce != "" && op.sid in s.attachments
    ensures var h, t := Outcome(View(s, op.sid), op.message, op.nonce, op.kept), Step(s, op).0;
            && op.sid in t.memory && t.memory[op.sid] == h.session
            && Stored(t, op.sid) == (if h.save then h.session.subscriptions else Stored(s, op.sid))
            && t.attachments == (if op.fits then s.attachments[op.sid := AttachmentOf(h.session)] else s.attachments)
  {
    HandlingShape(View(s, op.sid), op.message, op.nonce, op.kept);
    ReceiveIsPut(s, op.sid, op.message, op.nonce, op.kept);
    if op.message.Garbage? { assert s.attachments[op.sid := AttachmentOf(View(s, op.sid))] == s.attachments; }
  }

  /** A message keeps memory and what survives in step exactly when what it changes can be written. */
  lemma MessageSyncedExactly(s: State, op: Operation)
    requires Synced(s) && op.Message? && op.nonce != "" && op.sid in s.attachments
    ensures Synced(Step(s, op).0)
            <==> (op.fits || SameAttachment(s, op)) && (op.kept || SameSubscriptions(s, op))
  {
    if Written(s, op) {
      StepSynced(s, op);
    } else {
      SessionAfter(s, op);
      HandlingShape(View(s, op.sid), op.message, op.nonce, op.kept);
    }
  }

  /** An accepted AUTH whose attachment does not fit is forgotten by hibernation, and its challenge is good again. */
  lemma UnsavedAuthIsForgotten(s: State, op: Operation, nonce: string)
    requires Synced(s) && op.Message? && op.nonce != "" && Accepts(s, op) && !op.fits
    requires op.message.event.pubkey !in s.attachments[op.sid].pubkeys
    ensures var t := Step(s, op).0;
            var u := Step(t, Hibernate({op.sid})).0;
            && op.sid in t.attachments && op.message.event.pubkey in Opened(t, op.sid, nonce).pubkeys
            && op.sid in u.attachments && op.message.event.pubkey !in Opened(u, op.sid, nonce).pubkeys
            && Accepts(u, op)
  {
    SessionAfter(s, op);
  }

  // ---------------------------------------------------------------- subscriptions over runs

  /** Capping a limit changes neither the query of a filter nor the events it matches. */
  lemma CappingIsHarmless(f: Filter, e: Event)
    ensures Capped(f).limit.Some? && Capped(f).limit.value <= MAX_LIMIT
    ensures QueryCompiler.Compile(Capped(f)) == QueryCompiler.Compile(f) && (Matches(e, Capped(f)) <==> Matches(e, f))
  {
    QueryCompiler.OnlyLimitChanges(f, Capped(f).limit);
    QueryCompiler.OnlyLimitChanges(f, f.limit);
    CappingKeepsMatches(f, e);
  }

  lemma CappingKeepsMatches(f: Filter, e: Event)
    ensures Matches(e, Capped(f)) <==> Matches(e, f)
  {
    assert Capped(f).tagFilters == f.tagFilters;
  }

  /** A request that its session, rebuilt or not, accepts as a subscription. */
  predicate SubscribesTo(s: State, op: Operation, sid: string, sub: string) {
    && op.Message? && op.sid == sid && sid in s.attachments
    && op.message.Request? && op.message.subId == sub && OnReq(View(s, sid), op.message).save
  }

  predicate Unsubscribes(op: Operation, sid: string, sub: string) {
    op.Message? && op.sid == sid && op.message == CloseSubscription(sub)
  }

  lemma HandlingSubscriptions(s: Session, m: Message, nonce: string, sub: string)
    ensures var was, now := s.subscriptions, OnMessage(s, m, nonce).session.subscriptions;
            if m.Request? && m.subId == sub && OnReq(s, m).save then sub in now && now[sub] == CappedAll(m.filters)
            else if m == CloseSubscription(sub) && sub != "" then sub !in now
            else (sub in now <==> sub in was) && (sub in was ==> now[sub] == was[sub])
  {
  }

  lemma MessageStored(s: State, op: Operation, sub: string)
    requires Synced(s) && op.Message? && op.nonce != "" && op.sid in s.attachments && Written(s, op) && sub != ""
    ensures var was, now := Stored(s, op.sid), Stored(Step(s, op).0, op.sid);
            if SubscribesTo(s, op, op.sid, sub) then sub in now && now[sub] == CappedAll(op.message.filters)
            else if Unsubscribes(op, op.sid, sub) then sub !in now
            else (sub in now <==> sub in was) && (sub in was ==> now[sub] == was[sub])
  {
    WrittenEffect(s, op);
    HandlingSubscriptions(View(s, op.sid), op.message, op.nonce, sub);
    HandlingShape(View(s, op.sid), op.message, op.nonce, op.kept);
    var h := Outcome(View(s, op.sid), op.message, op.nonce, op.kept);
    assert Stored(Step(s, op).0, op.sid) == h.session.subscriptions;
  }

  /** Only accepted requests and closings touch a stored subscription, whatever is in memory. */
  lemma StepStored(s: State, op: Operation, sid: string, sub: string)
    requires Synced(s) && Admissible(s, op) && sid in Step(s, op).0.attachments && sub != ""
    ensures var was, now := Stored(s, sid), Stored(Step(s, op).0, sid);
            if Connects(op, sid) then now == map[]
            else if SubscribesTo(s, op, sid, sub) then sub in now && now[sub] == CappedAll(op.message.filters)
            else if Unsubscribes(op, sid, sub) then sub !in now
            else (sub in now <==> sub in was) && (sub in was ==> now[sub] == was[sub])
  {
    StepAuth(s, op, sid);
    if op.Message? {
      if op.sid in s.attachments && op.sid == sid { MessageStored(s, op, sub); }
      if op.sid in s.attachments && op.sid != sid { WrittenEffect(s, op); }
    }
  }

  /** Operation `i` of a run made the subscription, and nothing has ended or replaced it since. */
  ghost predicate Subscribed(ops: seq<Operation>, i: nat, sid: string, sub: string) {
    && i < |ops| && SubscribesTo(Run(ops[..i]), ops[i], sid, sub)
    && forall k | i < k < |ops| :: !Ends(Run(ops[..k]), ops[k], sid, sub)
  }

  predicate Ends(s: State, op: Operation, sid: string, sub: string) {
    Connects(op, sid) || Unsubscribes(op, sid, sub) || SubscribesTo(s, op, sid, sub)
  }

  lemma SubscribedLater(front: seq<Operation>, op: Operation, i: nat, sid: string, sub: string)
    requires i < |front|
    ensures Subscribed(front + [op], i, sid, sub)
            <==> Subscribed(front, i, sid, sub) && !Ends(Run(front), op, sid, sub)
  {
    var ops := front + [op];
    assert ops[..i] == front[..i] && ops[i] == front[i] && ops[..|front|] == front;
    assert forall k | i < k < |front| :: ops[k] == front[k] && ops[..k] == front[..k];
    if Subscribed(front, i, sid, sub) && !Ends(Run(front), op, sid, sub) {
      forall k | i < k < |ops| ensures !Ends(Run(ops[..k]), ops[k], sid, sub) {
        if k < |front| { assert !Ends(Run(front[..k]), front[k], sid, sub); }
      }
    }
    if Subscribed(ops, i, sid, sub) {
      forall k | i < k < |front| ensures !Ends(Run(front[..k]), front[k], sid, sub) {
        assert !Ends(Run(ops[..k]), ops[k], sid, sub);
      }
      assert !Ends(Run(ops[..|front|]), ops[|front|], sid, sub);
    }
  }

  lemma SubscribedNow(front: seq<Operation>, op: Operation, sid: string, sub: string)
    ensures Subscribed(front + [op], |front|, sid, sub) <==> SubscribesTo(Run(front), op, sid, sub)
  {
    assert (front + [op])[..|front|] == front;
  }

  /** What the latest accepted request for a subscription asked, if it still stands. */
  ghost predicate StandsAs(ops: seq<Operation>, sid: string, sub: string, filters: seq<Filter>) {
    exists i: nat :: Subscribed(ops, i, sid, sub) && filters == CappedAll(ops[i].message.filters)
  }

  lemma StandsSnoc(front: seq<Operation>, op: Operation, sid: string, sub: string, filters: seq<Filter>)
    ensures StandsAs(front + [op], sid, sub, filters)
            <==> if SubscribesTo(Run(front), op, sid, sub) then filters == CappedAll(op.message.filters)
                 else StandsAs(front, sid, sub, filters) && !Ends(Run(front), op, sid, sub)
  {
    var ops := front + [op];
    SubscribedNow(front, op, sid, sub);
    if i: nat :| Subscribed(ops, i, sid, sub) && filters == CappedAll(ops[i].message.filters) {
      if i < |front| { SubscribedLater(front, op, i, sid, sub); }
    }
    if SubscribesTo(Run(front), op, sid, sub) {
      assert Subscribed(ops, |front|, sid, sub) && ops[|front|] == op;
    } else if i: nat :| Subscribed(front, i, sid, sub) && filters == CappedAll(front[i].message.filters) {
      SubscribedLater(front, op, i, sid, sub);
      assert ops[i] == front[i];
    }
  }

  /** An open socket's stored subscriptions are exactly the accepted requests that still stand. */
  lemma {:induction false} SubscriptionsAreThoseRequested(ops: seq<Operation>, sid: string, sub: string, filters: seq<Filter>)
    requires AdmissibleRun(ops) && sid in Run(ops).attachments && sub != ""
    ensures sub in Stored(Run(ops), sid) && Stored(Run(ops), sid)[sub] == filters <==> StandsAs(ops, sid, sub, filters)
  {
    if ops != [] {
      var front, op := ops[..|ops| - 1], ops[|ops| - 1];
      assert ops == front + [op];
      AdmissibleFront(ops);
      RunSynced(front);
      StepAuth(Run(front), op, sid);
      StepStored(Run(front), op, sid, sub);
      StandsSnoc(front, op, sid, sub, filters);
      if !Connects(op, sid) { SubscriptionsAreThoseRequested(front, sid, sub, filters); }
    }
  }

  /**
   End to end, with hibernation: a broadcast event goes to an open socket's subscription exactly when an
   accepted request for it still stands and one of the filters it asked for matches.
   */
  lemma DeliveredExactlyToSubscribers(ops: seq<Operation>, e: Event, nonce: string, sid: string, sub: string)
    requires AdmissibleRun(ops) && sub != ""
    ensures (sid, sub) in Delivered(Run(ops), e, nonce)
            <==> sid in Run(ops).attachments
                 && exists i: nat :: Subscribed(ops, i, sid, sub) && MatchesAny(e, ops[i].message.filters)
  {
    var s := Run(ops);
    RunSynced(ops);
    DeliveredFromStorage(s, e, nonce, sid, sub);
    if sid in s.attachments {
      if sub in Stored(s, sid) {
        SubscriptionsAreThoseRequested(ops, sid, sub, Stored(s, sid)[sub]);
      }
      if i: nat :| Subscribed(ops, i, sid, sub) && MatchesAny(e, ops[i].message.filters) {
        SubscriptionsAreThoseRequested(ops, sid, sub, CappedAll(ops[i].message.filters));
        CappedMatches(ops[i].message.filters, e);
      }
      if i: nat :| Subscribed(ops, i, sid, sub) && sub in Stored(s, sid) && Stored(s, sid)[sub] == CappedAll(ops[i].message.filters) {
        CappedMatches(ops[i].message.filters, e);
      }
    }
  }

  lemma CappedMatches(fs: seq<Filter>, e: Event)
    ensures MatchesAny(e, CappedAll(fs)) <==> MatchesAny(e, fs)
  {
    forall i | 0 <= i < |fs| ensures Matches(e, CappedAll(fs)[i]) <==> Matches(e, fs[i]) { CappingKeepsMatches(fs[i], e); }
  }

  // ---------------------------------------------------------------- subscriptions that could not be stored

  /** An accepted request whose subscriptions could not be stored: e reaches it, and did not reach what it replaced. */
  predicate UnstoredRequest(s: State, op: Operation, e: Event) {
    && op.Message? && op.nonce != "" && !op.kept && op.message.Request? && SubscribesTo(s, op, op.sid, op.message.subId)
    && MatchesAny(e, op.message.filters)
    && (op.message.subId in Stored(s, op.sid) ==> !MatchesAny(e, Stored(s, op.sid)[op.message.subId]))
  }

  /** Its subscription is served from memory, and forgotten by hibernation. */
  lemma UnstoredRequestIsForgotten(s: State, op: Operation, e: Event, nonce: string)
    requires Synced(s) && UnstoredRequest(s, op, e)
    ensures var t := Step(s, op).0;
            && (op.sid, op.message.subId) in Delivered(t, e, nonce)
            && (op.sid, op.message.subId) !in Delivered(Step(t, Hibernate({op.sid})).0, e, nonce)
  {
    SessionAfter(s, op);
    CappedMatches(op.message.filters, e);
  }

  /** A closing that could not be stored is obeyed from memory, and undone by hibernation. */
  lemma UnstoredCloseIsUndone(s: State, op: Operation, sub: string, e: Event, nonce: string)
    requires Synced(s) && op.Message? && op.nonce != "" && op.sid in s.attachments && !op.kept
    requires op.message == CloseSubscription(sub) && sub != ""
    requires sub in Stored(s, op.sid) && MatchesAny(e, Stored(s, op.sid)[sub])
    ensures var t := Step(s, op).0;
            && (op.sid, sub) !in Delivered(t, e, nonce)
            && (op.sid, sub) in Delivered(Step(t, Hibernate({op.sid})).0, e, nonce)
  {
    SessionAfter(s, op);
  }

  lemma UnstoredRequestSame(s: State, t: State, op: Operation, e: Event)
    requires SameDurable(s, t) && UnstoredRequest(s, op, e)
    ensures UnstoredRequest(t, op, e)
  {
    assert View(s, op.sid) == View(t, op.sid);
  }

  lemma AwakeSnoc(ops: seq<Operation>, op: Operation)
    ensures Awake(ops + [op]) == Awake(ops) + if op.Hibernate? then [] else [op]
  {
    assert (ops + [op])[..|ops|] == ops;
  }

  lemma LastOutput(ops: seq<Operation>, e: Event, nonce: string)
    ensures var all := Transcript(ops + [Incoming(e, nonce)]);
            all != [] && all[|all| - 1].deliveries == [(e, Delivered(Run(ops), e, nonce))]
  {
    RunSnoc(ops, Incoming(e, nonce));
  }

  /** What the two relays know when e comes in. */
  lemma AfterUnstored(s: State, t: State, ops: seq<Operation>, op: Operation, e: Event, nonce: string)
    requires Synced(s) && UnstoredRequest(s, op, e) && Run(ops) == s && t == Step(s, op).0
    ensures Run(ops + [op]) == t && Run(ops + [op] + [Hibernate({op.sid})]) == Step(t, Hibernate({op.sid})).0
    ensures (op.sid, op.message.subId) in Delivered(Run(ops + [op]), e, nonce)
    ensures (op.sid, op.message.subId) !in Delivered(Run(ops + [op] + [Hibernate({op.sid})]), e, nonce)
  {
    RunSnoc(ops, op);
    RunSnoc(ops + [op], Hibernate({op.sid}));
    UnstoredRequestIsForgotten(s, op, e, nonce);
  }

  lemma AwakeAfter(ops: seq<Operation>, op: Operation, sid: string, e: Event, nonce: string)
    requires op.Message?
    ensures Awake(ops + [op] + [Hibernate({sid})] + [Incoming(e, nonce)]) == Awake(ops) + [op] + [Incoming(e, nonce)]
  {
    AwakeSnoc(ops, op);
    AwakeSnoc(ops + [op], Hibernate({sid}));
    AwakeSnoc(ops + [op] + [Hibernate({sid})], Incoming(e, nonce));
  }

  lemma OutputsDiffer(a: seq<Operation>, b: seq<Operation>, e: Event, nonce: string, key: (string, string))
    requires key !in Delivered(Run(a), e, nonce) && key in Delivered(Run(b), e, nonce)
    ensures Transcript(a + [Incoming(e, nonce)]) != Transcript(b + [Incoming(e, nonce)])
  {
    LastOutput(a, e, nonce);
    LastOutput(b, e, nonce);
    assert [(e, Delivered(Run(a), e, nonce))][0].1 != [(e, Delivered(Run(b), e, nonce))][0].1;
  }

  /** After any run, hibernation right after such a request shows in what the next event reaches. */
  lemma UnstoredRequestShows(ops: seq<Operation>, op: Operation, e: Event, nonce: string)
    requires AdmissibleRun(ops) && UnstoredRequest(Run(ops), op, e)
    ensures var all := ops + [op] + [Hibernate({op.sid})] + [Incoming(e, nonce)]; Transcript(all) != Transcript(Awake(all))
  {
    HibernationIsTransparent(ops);
    UnstoredRequestSame(Run(ops), Run(Awake(ops)), op, e);
    AfterUnstored(Run(ops), Step(Run(ops), op).0, ops, op, e, nonce);
    AfterUnstored(Run(Awake(ops)), Step(Run(Awake(ops)), op).0, Awake(ops), op, e, nonce);
    AwakeAfter(ops, op, op.sid, e, nonce);
    OutputsDiffer(ops + [op] + [Hibernate({op.sid})], Awake(ops) + [op], e, nonce, (op.sid, op.message.subId));
  }

  /** A client connects and authenticates. */
  function SignedIn(): seq<Operation> {
    var auth := Event("a", "pk", 1, AUTH_KIND, [["relay", "wss://relay"], ["challenge", "c1"]], "", "sig");
    [Connect("s", "relay", "c1"), Message("s", Authenticate(auth, true, true, 1, Some("relay"), None), "c2", true, true)]
  }

  lemma SignedInRun()
    ensures AdmissibleRun(SignedIn()) && "s" in Run(SignedIn()).attachments && Run(SignedIn()).attachments["s"].pubkeys == ["pk"]
    ensures Stored(Run(SignedIn()), "s") == map[]
  {
    var ops := SignedIn();
    assert ops[..0] == [] && ops[..1][..0] == [] && ops[..2] == ops;
    assert Run(ops[..1]) == Accept(EMPTY_STATE, "s", "relay", "c1").0;
    var tags := ops[1].message.event.tags;
    assert FirstTag(tags, "relay") == Some(tags[0]);
    assert FirstTag(tags, "challenge") == FirstTag(tags[1..], "challenge") == Some(tags[1]);
    assert AuthAccepted(View(Run(ops[..1]), "s"), ops[1].message);
    assert Run(ops) == Step(Run(ops[..1]), ops[1]).0;
  }

  /** A reachable one: signed in, a client asks for everything, and a refused write makes hibernation visible. */
  lemma ForgottenSubscription() returns (ops: seq<Operation>, op: Operation, e: Event)
    ensures AdmissibleRun(ops) && UnstoredRequest(Run(ops), op, e) && op.fits
    ensures var all := ops + [op] + [Hibernate({op.sid})] + [Incoming(e, "n")]; Transcript(all) != Transcript(Awake(all))
  {
    var f := Filter([], [], [], None, None, None, None, []);
    ops, e := SignedIn(), Event("b", "pk", 1, 1, [], "", "sig");
    op := Message("s", Request("sub", [f], true, None, None), "c3", true, false);
    SignedInRun();
    assert Matches(e, [f][0]);
    UnstoredRequestShows(ops, op, e, "n");
  }

  // ---------------------------------------------------------------- the object

  /** A rebuilt session for every socket already visited by a broadcast. */
  function WokenAmong(s: State, visited: set<string>, nonce: string): map<string, Session> {
    map sid | sid in s.memory.Keys + visited * s.attachments.Keys ::
      if sid in s.memory then s.memory[sid] else Restore(s.attachments[sid], Stored(s, sid), nonce)
  }

  function DeliveredAmong(s: State, visited: set<string>, e: Event, nonce: string): set<(string, string)> {
    set sid, sub | sid in visited && sid in s.attachments && sub in Opened(s, sid, nonce).subscriptions
                && MatchesAny(e, Opened(s, sid, nonce).subscriptions[sub]) :: (sid, sub)
  }

  function MatchingSubscriptions(x: Session, e: Event): set<string> {
    set sub | sub in x.subscriptions && MatchesAny(e, x.subscriptions[sub])
  }

  lemma DeliveredAmongAdd(s: State, visited: set<string>, sid: string, e: Event, nonce: string)
    requires sid in s.attachments
    ensures DeliveredAmong(s, visited + {sid}, e, nonce)
            == DeliveredAmong(s, visited, e, nonce)
               + set sub | sub in MatchingSubscriptions(Opened(s, sid, nonce), e) :: (sid, sub)
  {
  }

  lemma WokenAmongAdd(s: State, visited: set<string>, sid: string, nonce: string)
    requires sid in s.attachments
    ensures var t := s.(memory := WokenAmong(s, visited, nonce));
            && Opened(t, sid, nonce) == Opened(s, sid, nonce)
            && WokenAmong(s, visited + {sid}, nonce) == t.memory[sid := Opened(s, sid, nonce)]
  {
  }

  lemma AmongNone(s: State, e: Event, nonce: string)
    ensures WokenAmong(s, s.attachments.Keys - s.attachments.Keys, nonce) == s.memory
    ensures DeliveredAmong(s, s.attachments.Keys - s.attachments.Keys, e, nonce) == {}
  {
  }

  lemma AmongAll(s: State, e: Event, nonce: string)
    ensures WokenAmong(s, s.attachments.Keys - {}, nonce) == Woken(s, nonce)
    ensures DeliveredAmong(s, s.attachments.Keys - {}, e, nonce) == Delivered(s, e, nonce)
  {
    var all := s.attachments.Keys - {};
    assert all == s.attachments.Keys;
    assert s.memory.Keys + all * s.attachments.Keys == s.memory.Keys + s.attachments.Keys;
  }

  /** Being woken, or having another bookmark, changes no delivery. */
  lemma DeliveredUnmoved(s: State, t: State, e: Event, nonce: string)
    requires s.attachments == t.attachments
    requires forall sid | sid in s.attachments ::
               Opened(s, sid, nonce).subscriptions == Opened(t, sid, nonce).subscriptions
    ensures Delivered(s, e, nonce) == Delivered(t, e, nonce)
  {
    forall p: (string, string) ensures p in Delivered(s, e, nonce) <==> p in Delivered(t, e, nonce) { }
  }

  class RelayObject {
    var attachments: map<string, Attachment>
    var storage: map<string, Subscriptions>
    var sessions: map<string, Session>

    function Current(): State
      reads this
    {
      State(attachments, storage, sessions)
    }

    constructor ()
      ensures Current() == EMPTY_STATE
    {
      attachments, storage, sessions := map[], map[], map[];
    }

    method LoadSubscriptions(sid: string) returns (subs: Subscriptions)
      ensures subs == Stored(Current(), sid)
    {
      subs := map[];
      if sid in storage {
        subs := storage[sid];
      }
    }

    /** All subscriptions of a session are one value, which storage may refuse. */
    method SaveSubscriptions(sid: string, subs: Subscriptions, kept: bool) returns (thrown: bool)
      modifies this`storage
      ensures storage == if kept then old(storage)[sid := subs] else old(storage)
      ensures thrown == !kept
    {
      if kept {
        storage := storage[sid := subs];
      }
      thrown := !kept;
    }

    /** Gets the session, or rebuilds it from the socket's attachment and the stored subscriptions. */
    method OpenSession(sid: string, nonce: string) returns (rebuilt: bool)
      requires sid in attachments
      modifies this`sessions
      ensures sessions == old(sessions)[sid := Opened(old(Current()), sid, nonce)]
      ensures rebuilt == (sid !in old(sessions))
    {
      rebuilt := sid !in sessions;
      if rebuilt {
        var subs := LoadSubscriptions(sid);
        var a := attachments[sid];
        var challenge := a.challenge;
        if challenge == "" {
          challenge := nonce;
        }
        sessions := sessions[sid := Session(subs, a.bookmark, a.host, challenge, a.pubkeys, a.hasPaid)];
      }
    }

    method BroadcastToLocalSessions(e: Event, nonce: string) returns (delivered: set<(string, string)>)
      modifies this`sessions
      ensures sessions == Woken(old(Current()), nonce)
      ensures delivered == Delivered(old(Current()), e, nonce)
    {
      ghost var s := Current();
      AmongNone(s, e, nonce);
      delivered := {};
      var rest := attachments.Keys;
      while rest != {}
        invariant rest <= attachments.Keys && attachments == s.attachments && storage == s.stored
        invariant sessions == WokenAmong(s, attachments.Keys - rest, nonce)
        invariant delivered == DeliveredAmong(s, attachments.Keys - rest, e, nonce)
        decreases |rest|
      {
        var sid :| sid in rest;
        ghost var visited := attachments.Keys - rest;
        WokenAmongAdd(s, visited, sid, nonce);
        DeliveredAmongAdd(s, visited, sid, e, nonce);
        assert attachments.Keys - (rest - {sid}) == visited + {sid};
        var rebuilt := OpenSession(sid, nonce);
        delivered := delivered + set sub | sub in MatchingSubscriptions(sessions[sid], e) :: (sid, sub);
        rest := rest - {sid};
      }
      AmongAll(s, e, nonce);
    }

    method BroadcastAll(es: seq<Event>, nonce: string) returns (deliveries: seq<(Event, set<(string, string)>)>)
      modifies this`sessions
      ensures deliveries == Broadcast(old(Current()), es, nonce)
      ensures sessions == if es == [] then old(sessions) else Woken(old(Current()), nonce)
    {
      ghost var s := Current();
      deliveries := [];
      for i := 0 to |es|
        invariant sessions == if i == 0 then s.memory else Woken(s, nonce)
        invariant deliveries == Broadcast(s, es[..i], nonce)
      {
        DeliveredUnmoved(s, Current(), es[i], nonce);
        var d := BroadcastToLocalSessions(es[i], nonce);
        deliveries := deliveries + [(es[i], d)];
      }
      assert es[..|es|] == es;
    }

    method HandleEvent(sid: string, m: Message, nonce: string)
      returns (frames: seq<Frame>, deliveries: seq<(Event, set<(string, string)>)>)
      requires sid in sessions && m.Publish?
      modifies this`sessions
      ensures var h := OnEvent(old(sessions)[sid], m);
              var t := old(Current()).(memory := old(sessions)[sid := h.session]);
              && frames == h.frames && deliveries == Broadcast(t, h.broadcasts, nonce)
              && sessions == if h.broadcasts == [] then t.memory else Woken(t, nonce)
    {
      deliveries := [];
      var session := sessions[sid];
      assert old(sessions)[sid := session] == old(sessions);
      if !m.complete || m.event.kind == AUTH_KIND {
        return [Ok(m.event.id, false, Invalid)], [];
      }
      if session.pubkeys == [] {
        return [Ok(m.event.id, false, AuthRequired)], [];
      }
      if m.event.kind != GIFT_WRAP && m.event.pubkey !in session.pubkeys {
        return [Ok(m.event.id, false, Restricted)], [];
      }
      if !m.withinRate {
        return [Ok(m.event.id, false, RateLimited)], [];
      }
      if !m.validSignature {
        return [Ok(m.event.id, false, Invalid)], [];
      }
      var es := m.produced;
      frames := [Ok(m.event.id, true, Fine)];
      match m.verdict {
        case Denied(reason) =>
          frames := [Ok(m.event.id, false, reason)];
        case Handled =>
        case Processed(success, bookmark) =>
          if bookmark != "" {
            sessions := sessions[sid := session.(bookmark := bookmark)];
          }
          if success {
            es := es + [m.event];
          } else {
            frames := [Ok(m.event.id, false, Failed)];
          }
      }
      deliveries := BroadcastAll(es, nonce);
    }

    method HandleReq(sid: string, m: Message, kept: bool) returns (frames: seq<Frame>, thrown: bool)
      requires sid in sessions && m.Request?
      modifies this`sessions, this`storage
      ensures var h := Outcome(old(sessions)[sid], m, "", kept);
              && thrown == (OnReq(old(sessions)[sid], m).save && !kept)
              && frames == (if thrown then [] else h.frames) && sessions == old(sessions)[sid := h.session]
              && storage == if h.save then old(storage)[sid := h.session.subscriptions] else old(storage)
    {
      var session := sessions[sid];
      if m.subId == "" || |m.subId| > 64 {
        return [Notice], false;
      }
      if session.pubkeys == [] {
        return [Closed(m.subId, AuthRequired)], false;
      }
      if !m.withinRate {
        return [Closed(m.subId, RateLimited)], false;
      }
      if m.filters == [] {
        return [Closed(m.subId, Failed)], false;
      }
      if m.flaw.Some? {
        return [Closed(m.subId, m.flaw.value)], false;
      }
      var filters := m.filters;
      for i := 0 to |filters|
        invariant |filters| == |m.filters|
        invariant forall j | 0 <= j < |filters| :: filters[j] == if j < i then Capped(m.filters[j]) else m.filters[j]
      {
        var f := filters[i];
        if Truthy(f.limit) && f.limit.value > MAX_LIMIT {
          filters := filters[i := f.(limit := Some(MAX_LIMIT))];
        } else if !Truthy(f.limit) {
          filters := filters[i := f.(limit := Some(MAX_LIMIT))];
        }
      }
      assert filters == CappedAll(m.filters);
      session := session.(subscriptions := session.subscriptions[m.subId := filters]);
      sessions := sessions[sid := session];
      thrown := SaveSubscriptions(sid, session.subscriptions, kept);
      if thrown {
        return [], true;
      }
      match m.answer {
        case None =>
          frames := [Closed(m.subId, Failed)];
        case Some(answer) =>
          if answer.bookmark != "" {
            sessions := sessions[sid := session.(bookmark := answer.bookmark)];
          }
          frames := [];
          for i := 0 to |answer.events|
            invariant frames == EventFrames(m.subId, answer.events[..i])
          {
            frames := frames + [EventFrame(m.subId, answer.events[i])];
          }
          assert answer.events[..|answer.events|] == answer.events;
          frames := frames + [Eose(m.subId)];
      }
    }

    method HandleCloseSubscription(sid: string, subId: string, kept: bool) returns (frames: seq<Frame>, thrown: bool)
      requires sid in sessions
      modifies this`sessions, this`storage
      ensures var h := Outcome(old(sessions)[sid], CloseSubscription(subId), "", kept);
              && thrown == (OnClose(old(sessions)[sid], subId).save && !kept)
              && frames == (if thrown then [] else h.frames) && sessions == old(sessions)[sid := h.session]
              && storage == if h.save then old(storage)[sid := h.session.subscriptions] else old(storage)
    {
      thrown := false;
      if subId == "" {
        return [Notice], false;
      }
      var session := sessions[sid];
      if subId in session.subscriptions {
        session := session.(subscriptions := session.subscriptions - {subId});
        sessions := sessions[sid := session];
        thrown := SaveSubscriptions(sid, session.subscriptions, kept);
        frames := if thrown then [] else [Closed(subId, Closing)];
      } else {
        frames := [Closed(subId, NotFound)];
      }
    }

    method HandleAuth(sid: string, m: Message, nonce: string) returns (frames: seq<Frame>)
      requires sid in sessions && m.Authenticate?
      modifies this`sessions
      ensures var h := OnAuth(old(sessions)[sid], m, nonce);
              frames == h.frames && sessions == old(sessions)[sid := h.session]
    {
      var session := sessions[sid];
      frames := [Ok(m.event.id, false, Invalid)];
      if !m.complete || m.event.kind != AUTH_KIND || !m.validSignature {
        return;
      }
      var timeDiff := if m.now >= m.event.createdAt then m.now - m.event.createdAt else m.event.createdAt - m.now;
      if timeDiff > AUTH_TIMEOUT {
        return;
      }
      var challenge := TagValue(m.event.tags, "challenge");
      if challenge.None? || session.challenge == "" || challenge.value != session.challenge {
        return;
      }
      if TagValue(m.event.tags, "relay").None? || m.relayHost.None? || m.relayHost.value != session.host {
        return;
      }
      if m.event.pubkey !in session.pubkeys {
        session := session.(pubkeys := session.pubkeys + [m.event.pubkey]);
      }
      session := session.(challenge := nonce);
      if m.paid.Some? {
        session := session.(hasPaid := m.paid);
      }
      sessions := sessions[sid := session];
      frames := [Ok(m.event.id, true, Fine)];
    }

    /** Whatever a handler throws is caught here and told to the client. */
    method HandleMessage(sid: string, m: Message, nonce: string, kept: bool)
      returns (frames: seq<Frame>, deliveries: seq<(Event, set<(string, string)>)>)
      requires sid in sessions
      modifies this`sessions, this`storage
      ensures var h := Outcome(old(sessions)[sid], m, nonce, kept);
              && frames == h.frames
              && storage == (if h.save then old(storage)[sid := h.session.subscriptions] else old(storage))
              && var t := State(attachments, storage, old(sessions)[sid := h.session]);
                 && deliveries == Broadcast(t, h.broadcasts, nonce)
                 && sessions == if h.broadcasts == [] then t.memory else Woken(t, nonce)
    {
      assert old(sessions)[sid := sessions[sid]] == old(sessions);
      var thrown := false;
      frames, deliveries := [Notice], [];
      match m {
        case Garbage(json) =>
        case Publish(_, _, _, _, _, _) =>
          frames, deliveries := HandleEvent(sid, m, nonce);
        case Request(_, _, _, _, _) =>
          frames, thrown := HandleReq(sid, m, kept);
        case CloseSubscription(subId) =>
          frames, thrown := HandleCloseSubscription(sid, subId, kept);
        case Authenticate(_, _, _, _, _, _) =>
          frames := HandleAuth(sid, m, nonce);
      }
      if thrown {
        frames := frames + [Notice];
      }
    }

    method ReceiveMessage(sid: string, m: Message, nonce: string, kept: bool) returns (out: Output)
      requires sid in attachments
      modifies this`sessions, this`storage
      ensures var (t, o) := Receive(old(Current()), sid, m, nonce, kept); out == o && storage == t.stored && sessions == t.memory
    {
      ghost var s := Current();
      var rebuilt := OpenSession(sid, nonce);
      var session := sessions[sid];
      var resumed := [];
      if rebuilt && session.pubkeys == [] && session.challenge != "" {
        resumed := [Challenge(session.challenge)];
      }
      var frames, deliveries := HandleMessage(sid, m, nonce, kept);
      ghost var h := Outcome(session, m, nonce, kept);
      assert s.memory[sid := session][sid := h.session] == s.memory[sid := h.session];
      ghost var t := State(attachments, storage, s.memory[sid := h.session]);
      assert deliveries == Broadcast(t, h.broadcasts, nonce);
      ReceiveMeans(s, sid, m, nonce, kept, t);
      out := Output(resumed, frames, deliveries);
    }

    /** Writing the attachment back throws when it does not fit, which the client hears of as a failure. */
    method WebSocketMessage(sid: string, m: Message, nonce: string, fits: bool, kept: bool) returns (out: Output)
      modifies this
      ensures (Current(), out) == Step(old(Current()), Operation.Message(sid, m, nonce, fits, kept))
    {
      if sid !in attachments {
        return SILENCE;
      }
      ReceivedSession(Current(), sid, m, nonce, kept);
      out := ReceiveMessage(sid, m, nonce, kept);
      if m != Garbage(false) {
        if fits {
          attachments := attachments[sid := AttachmentOf(sessions[sid])];
        } else {
          out := out.(frames := out.frames + [Notice]);
        }
      }
    }

    method WebSocketClose(sid: string)
      modifies this
      ensures Current() == Step(old(Current()), Disconnect(sid)).0
    {
      attachments := attachments - {sid};
      sessions := sessions - {sid};
      storage := storage - {sid};
    }

    method WebSocketError(sid: string)
      modifies this
      ensures Current() == Step(old(Current()), SocketError(sid, false)).0
    {
      sessions := sessions - {sid};
    }

    /** Once no socket is open, memory and the subscriptions of vanished sessions are dropped. */
    method CleanupWhenIdle()
      modifies this
      ensures Current() == Step(old(Current()), Alarm).0
    {
      if attachments == map[] {
        sessions := map[];
        storage := map[];
      }
    }

    method AcceptSocket(sid: string, host: string, nonce: string) returns (out: Output)
      modifies this
      ensures (Current(), out) == Step(old(Current()), Connect(sid, host, nonce))
    {
      var session := Session(map[], FIRST_BOOKMARK, host, nonce, [], None);
      sessions := sessions[sid := session];
      attachments := attachments[sid := Attachment(session.bookmark, host, session.challenge, [], None)];
      out := Output([], [Challenge(session.challenge)], []);
    }
  }
}
