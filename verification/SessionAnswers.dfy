/** What every message is answered with, in every reachable state, told from the message and from what was stored. */
module SessionAnswers {
  import opened Nostr
  import opened Options
  import opened Sessions

  /** A message on an open socket of a relay whose memory agrees with what survives, as it does over every run. */
  ghost predicate Heard(s: State, op: Operation) {
    Synced(s) && op.Message? && op.sid in s.attachments && op.nonce != ""
  }

  lemma HeardInRun(ops: seq<Operation>, op: Operation)
    requires AdmissibleRun(ops) && op.Message? && op.sid in Run(ops).attachments && op.nonce != ""
    ensures Heard(Run(ops), op)
  {
    RunSynced(ops);
  }

  /** The frames of the answer, followed by one notice when the attachment cannot be written back. */
  predicate Answers(s: State, op: Operation, frames: seq<Frame>)
    requires op.Message? && op.sid in s.attachments
  {
    Step(s, op).1.frames == frames + if op.fits || op.message == Garbage(false) then [] else [Notice]
  }

  lemma AnswersAre(s: State, op: Operation)
    requires Heard(s, op)
    ensures Answers(s, op, Outcome(View(s, op.sid), op.message, op.nonce, op.kept).frames)
  {
    OpenedView(s, op.sid, op.nonce);
  }

  // ---------------------------------------------------------------- requests

  /** A request that is heard out: well formed, from a session on which somebody authenticated, and in time. */
  predicate Sound(s: State, op: Operation)
    requires op.Message? && op.message.Request? && op.sid in s.attachments
  {
    && 1 <= |op.message.subId| <= 64 && s.attachments[op.sid].pubkeys != [] && op.message.withinRate
    && op.message.filters != [] && op.message.flaw == None
  }

  /** What the database answered is what the client is sent: every event, in order, and then the end of them. */
  lemma RequestGetsItsEvents(ops: seq<Operation>, op: Operation, i: nat)
    requires AdmissibleRun(ops) && op.Message? && op.message.Request? && op.sid in Run(ops).attachments && op.nonce != ""
    requires Sound(Run(ops), op) && op.kept && op.fits && op.message.answer.Some?
    ensures var frames, events := Step(Run(ops), op).1.frames, op.message.answer.value.events;
            && |frames| == |events| + 1
            && (i < |events| ==> frames[i] == EventFrame(op.message.subId, events[i]))
            && frames[|events|] == Eose(op.message.subId)
  {
    HeardInRun(ops, op);
    AnswersAre(Run(ops), op);
  }

  /** Every other request gets one frame, which names the first thing that is wrong. */
  lemma RequestGetsOneFrame(ops: seq<Operation>, op: Operation)
    requires AdmissibleRun(ops) && op.Message? && op.message.Request? && op.sid in Run(ops).attachments && op.nonce != ""
    requires !Sound(Run(ops), op) || !op.kept || op.message.answer == None
    ensures var m, pubkeys := op.message, Run(ops).attachments[op.sid].pubkeys;
            Answers(Run(ops), op,
              if |m.subId| == 0 || |m.subId| > 64 then [Notice]
              else if pubkeys == [] then [Closed(m.subId, AuthRequired)]
              else if !m.withinRate then [Closed(m.subId, RateLimited)]
              else if m.filters == [] then [Closed(m.subId, Failed)]
              else if m.flaw != None then [Closed(m.subId, m.flaw.value)]
              else if !op.kept then [Notice]
              else [Closed(m.subId, Failed)])
  {
    HeardInRun(ops, op);
    AnswersAre(Run(ops), op);
  }

  /** A limit of 1 to 500, or below zero, stays; any other becomes 500. */
  predicate IsCapped(f: Filter, g: Filter) {
    g == f.(limit := if f.limit != None && f.limit.value != 0 && f.limit.value <= 500 then f.limit else Some(500))
  }

  /** What it leaves behind: the subscription it asked for with capped limits, and the bookmark of its answer. */
  lemma RequestLeaves(s: State, op: Operation, i: nat)
    requires Heard(s, op) && op.message.Request? && Sound(s, op) && op.kept
    ensures var t, m := Step(s, op).0, op.message;
            && m.subId in Stored(t, op.sid) && |Stored(t, op.sid)[m.subId]| == |m.filters|
            && (i < |m.filters| ==> IsCapped(m.filters[i], Stored(t, op.sid)[m.subId][i]))
            && (forall sub | sub != m.subId :: sub in Stored(t, op.sid) <==> sub in Stored(s, op.sid))
            && (forall sub | sub != m.subId && sub in Stored(s, op.sid) :: Stored(t, op.sid)[sub] == Stored(s, op.sid)[sub])
            && t.memory[op.sid].bookmark
               == if m.answer != None && m.answer.value.bookmark != "" then m.answer.value.bookmark else s.attachments[op.sid].bookmark
  {
    SessionAfter(s, op);
  }

  // ---------------------------------------------------------------- events

  /** Why an event is refused; None if it goes to policy, extensions and the store. */
  function Objection(s: State, op: Operation): Option<Reason>
    requires op.Message? && op.message.Publish? && op.sid in s.attachments
  {
    var m, pubkeys := op.message, s.attachments[op.sid].pubkeys;
    if !m.complete || m.event.kind == 22242 then Some(Invalid)
    else if pubkeys == [] then Some(AuthRequired)
    else if m.event.pubkey !in pubkeys && m.event.kind != 1059 then Some(Restricted)
    else if !m.withinRate then Some(RateLimited)
    else if !m.validSignature then Some(Invalid)
    else None
  }

  /** Each event goes, in order, to exactly the stored subscriptions of open sockets that match it. */
  ghost predicate GoesOut(s: State, deliveries: seq<(Event, set<(string, string)>)>, es: seq<Event>) {
    && |deliveries| == |es|
    && forall i | 0 <= i < |es| :: deliveries[i].0 == es[i] && Reaches(s, es[i], deliveries[i].1)
  }

  ghost predicate Reaches(s: State, e: Event, to: set<(string, string)>) {
    forall sid, sub :: (sid, sub) in to <==> sid in s.attachments && sub in Stored(s, sid) && MatchesAny(e, Stored(s, sid)[sub])
  }

  lemma BroadcastGoesOut(s: State, t: State, es: seq<Event>, nonce: string)
    requires SubscriptionsSynced(t) && t.attachments == s.attachments && t.stored == s.stored
    ensures GoesOut(s, Broadcast(t, es, nonce), es)
  {
    forall i | 0 <= i < |es| ensures Reaches(s, es[i], Delivered(t, es[i], nonce)) {
      forall sid, sub ensures (sid, sub) in Delivered(t, es[i], nonce)
                              <==> sid in s.attachments && sub in Stored(s, sid) && MatchesAny(es[i], Stored(s, sid)[sub])
      {
        DeliveredFromStorage(t, es[i], nonce, sid, sub);
      }
    }
  }

  lemma PublishDelivers(s: State, op: Operation)
    requires Heard(s, op) && op.message.Publish?
    ensures GoesOut(s, Step(s, op).1.deliveries, Outcome(View(s, op.sid), op.message, op.nonce, op.kept).broadcasts)
  {
    var h := Outcome(View(s, op.sid), op.message, op.nonce, op.kept);
    OpenedView(s, op.sid, op.nonce);
    HandlingShape(View(s, op.sid), op.message, op.nonce, op.kept);
    MidMessageSynced(s, op.sid, h.session, h.save);
    BroadcastGoesOut(s, Put(s, op.sid, h.session, h.save).(attachments := s.attachments), h.broadcasts, op.nonce);
  }

  /** A refused event is answered with its reason and goes nowhere. */
  lemma RefusedEvent(s: State, op: Operation)
    requires Heard(s, op) && op.message.Publish? && Objection(s, op) != None
    ensures Answers(s, op, [Ok(op.message.event.id, false, Objection(s, op).value)])
    ensures GoesOut(s, Step(s, op).1.deliveries, [])
  {
    AnswersAre(s, op);
    PublishDelivers(s, op);
  }

  /** Any other is answered by its verdict. What an extension made of it goes out, and then the event if it was stored. */
  lemma AdmittedEvent(s: State, op: Operation)
    requires Heard(s, op) && op.message.Publish? && Objection(s, op) == None
    ensures var m, v := op.message, op.message.verdict;
            var stored := v.Processed? && v.success;
            && Answers(s, op, [if v.Denied? then Ok(m.event.id, false, v.reason)
                               else if v.Handled? || stored then Ok(m.event.id, true, Fine)
                               else Ok(m.event.id, false, Failed)])
            && GoesOut(s, Step(s, op).1.deliveries, if stored then m.produced + [m.event] else m.produced)
            && Step(s, op).0.stored == s.stored
            && op.sid in Step(s, op).0.memory
            && Step(s, op).0.memory[op.sid].bookmark
               == if v.Processed? && v.bookmark != "" then v.bookmark else s.attachments[op.sid].bookmark
  {
    AnswersAre(s, op);
    PublishDelivers(s, op);
    SessionAfter(s, op);
    assert op.message.produced + [] == op.message.produced;
  }

  /** Events from other relay objects go out alike, and nobody is answered. */
  lemma IncomingEvent(s: State, e: Event, nonce: string)
    requires Synced(s)
    ensures Step(s, Incoming(e, nonce)).1.frames == [] && GoesOut(s, Step(s, Incoming(e, nonce)).1.deliveries, [e])
  {
    BroadcastGoesOut(s, s, [e], nonce);
  }

  // ---------------------------------------------------------------- closing and authenticating

  lemma CloseGetsOneFrame(s: State, op: Operation)
    requires Heard(s, op) && op.message.CloseSubscription?
    ensures var sub := op.message.subId;
            && Answers(s, op, [if sub == "" then Notice
                               else if sub !in Stored(s, op.sid) then Closed(sub, NotFound)
                               else if op.kept then Closed(sub, Closing) else Notice])
            && (sub != "" && op.kept ==> sub !in Stored(Step(s, op).0, op.sid))
            && forall x | x != sub :: x in Stored(s, op.sid) <==> x in Stored(Step(s, op).0, op.sid)
  {
    AnswersAre(s, op);
    SessionAfter(s, op);
  }

  /** The first tag of the name has a value, and it is this one. */
  predicate FirstValue(tags: seq<seq<string>>, name: string, value: string) {
    exists i | 0 <= i < |tags| ::
      && |tags[i]| >= 2 && tags[i][0] == name && tags[i][1] == value != ""
      && forall j | 0 <= j < i :: tags[j] == [] || tags[j][0] != name
  }

  lemma {:induction false} FirstTagIs(tags: seq<seq<string>>, name: string, value: string)
    ensures TagValue(tags, name) == Some(value) <==> FirstValue(tags, name, value)
  {
    if tags != [] {
      var rest := tags[1..];
      FirstTagIs(rest, name, value);
      if i :| 0 <= i < |tags| && |tags[i]| >= 2 && tags[i][0] == name && tags[i][1] == value != ""
              && forall j | 0 <= j < i :: tags[j] == [] || tags[j][0] != name {
        if i > 0 {
          assert rest[i - 1] == tags[i];
          assert forall j | 0 <= j < i - 1 :: rest[j] == tags[j + 1];
        }
      }
      if tags[0] == [] || tags[0][0] != name {
        if i :| 0 <= i < |rest| && |rest[i]| >= 2 && rest[i][0] == name && rest[i][1] == value != ""
                && forall j | 0 <= j < i :: rest[j] == [] || rest[j][0] != name {
          assert tags[i + 1] == rest[i];
          forall j | 0 <= j < i + 1 ensures tags[j] == [] || tags[j][0] != name { if j > 0 { assert rest[j - 1] == tags[j]; } }
        }
      }
    }
  }

  /** A signed AUTH event of the last minute that answers the session's challenge and names its host. */
  ghost predicate Proves(s: State, op: Operation)
    requires op.Message? && op.message.Authenticate? && op.sid in s.attachments
  {
    var m, a := op.message, s.attachments[op.sid];
    && m.complete && m.validSignature && m.event.kind == 22242
    && m.event.createdAt - 60 <= m.now <= m.event.createdAt + 60
    && FirstValue(m.event.tags, "challenge", a.challenge)
    && (exists url :: FirstValue(m.event.tags, "relay", url)) && m.relayHost == Some(a.host)
  }

  lemma ProvesExactly(s: State, op: Operation)
    requires Heard(s, op) && op.message.Authenticate?
    ensures AuthAccepted(View(s, op.sid), op.message) <==> Proves(s, op)
  {
    var tags := op.message.event.tags;
    FirstTagIs(tags, "challenge", s.attachments[op.sid].challenge);
    if TagValue(tags, "relay") != None { FirstTagIs(tags, "relay", TagValue(tags, "relay").value); }
    if url :| FirstValue(tags, "relay", url) { FirstTagIs(tags, "relay", url); }
  }

  /** It authenticates its author and renews the challenge. Anything else is refused and changes nothing. */
  lemma AuthGetsOneFrame(s: State, op: Operation)
    requires Heard(s, op) && op.message.Authenticate?
    ensures Answers(s, op, [if Proves(s, op) then Ok(op.message.event.id, true, Fine) else Ok(op.message.event.id, false, Invalid)])
    ensures op.sid in Step(s, op).0.memory && Step(s, op).0.stored == s.stored
    ensures var m, x, a := op.message, Step(s, op).0.memory[op.sid], s.attachments[op.sid];
            && x.host == a.host && x.bookmark == a.bookmark
            && (!Proves(s, op) ==> x.challenge == a.challenge && x.pubkeys == a.pubkeys && x.hasPaid == a.hasPaid)
            && (Proves(s, op) ==>
                  && x.challenge == op.nonce
                  && x.pubkeys == (if m.event.pubkey in a.pubkeys then a.pubkeys else a.pubkeys + [m.event.pubkey])
                  && x.hasPaid == if m.paid != None then m.paid else a.hasPaid)
  {
    AnswersAre(s, op);
    ProvesExactly(s, op);
    SessionAfter(s, op);
  }

  lemma GarbageGetsANotice(s: State, op: Operation)
    requires Heard(s, op) && op.message.Garbage?
    ensures Answers(s, op, [Notice]) && Step(s, op).1.deliveries == [] && SameDurable(s, Step(s, op).0)
  {
    AnswersAre(s, op);
    SessionAfter(s, op);
    assert s.attachments[op.sid := AttachmentOf(View(s, op.sid))] == s.attachments;
  }

  // ---------------------------------------------------------------- everything else

  /** A message leaves the sessions of other sockets as they were. */
  lemma OthersAreLeftAlone(s: State, op: Operation, other: string)
    requires Heard(s, op) && other != op.sid
    ensures var t := Step(s, op).0;
            && (other in t.attachments <==> other in s.attachments)
            && (other in s.attachments ==> t.attachments[other] == s.attachments[other])
            && Stored(t, other) == Stored(s, other)
  {
    var h := Outcome(View(s, op.sid), op.message, op.nonce, op.kept);
    ReceiveIsPut(s, op.sid, op.message, op.nonce, op.kept);
    OthersInPut(s, op.sid, h.session, h.save, other);
  }

  lemma OthersInPut(s: State, sid: string, x: Session, save: bool, other: string)
    requires other != sid
    ensures var t := Put(s, sid, x, save);
            && (other in t.attachments <==> other in s.attachments)
            && (other in s.attachments ==> t.attachments[other] == s.attachments[other])
            && Stored(t, other) == Stored(s, other)
  {
  }

  /** A new socket is told its challenge and nobody has authenticated on it. */
  lemma ConnectingIs(s: State, sid: string, host: string, nonce: string)
    ensures var (t, out) := Step(s, Connect(sid, host, nonce));
            && out == Output([], [Challenge(nonce)], []) && t.stored == s.stored
            && t.attachments == s.attachments[sid := Attachment("first-unconstrained", host, nonce, [], None)]
            && t.memory == s.memory[sid := Session(map[], "first-unconstrained", host, nonce, [], None)]
  {
  }

  /** What a closed socket leaves, and an erroneous one, and the alarm. */
  lemma EndingsAre(s: State, sid: string, dropped: bool, other: string)
    ensures var t := Step(s, Disconnect(sid)).0;
            && (other in t.attachments <==> other in s.attachments && other != sid)
            && (other in t.stored <==> other in s.stored && other != sid)
            && (other in t.memory <==> other in s.memory && other != sid)
    ensures var t := Step(s, SocketError(sid, dropped)).0;
            && (other in t.attachments <==> other in s.attachments && !(dropped && other == sid))
            && t.stored == s.stored && (other in t.memory <==> other in s.memory && other != sid)
    ensures Step(s, Alarm).0 == if s.attachments == map[] then State(map[], map[], map[]) else s
  {
  }
}
