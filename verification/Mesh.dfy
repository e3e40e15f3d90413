/** The broadcast mesh of nine relay objects and its deduplication. */
module Mesh {
  const RETENTION := 300000

  const ENDPOINTS: seq<string> := [
    "relay-WNAM-primary", "relay-ENAM-primary", "relay-WEUR-primary", "relay-EEUR-primary", "relay-APAC-primary",
    "relay-OC-primary", "relay-SAM-primary", "relay-AFR-primary", "relay-ME-primary"]

  const NODES: set<string> := set e | e in ENDPOINTS

  /** Event identifiers already seen, with the time they were. */
  type Processed = map<string, int>

  datatype Packet = Packet(target: string, id: string, sentAt: int)

  function Recent(p: Processed, now: int): Processed {
    map id | id in p && p[id] >= now - RETENTION :: p[id]
  }

  /** A packet is broadcast locally unless its event is known; only then are old entries dropped. */
  function Received(p: Processed, id: string, now: int): (r: (Processed, bool))
    ensures r.1 <==> id !in p
  {
    if id in p then (p, false) else (Recent(p[id := now], now), true)
  }

  /** A new event is remembered with its time, and with it every event of the last five minutes, and no older one. */
  lemma AfterReceiving(p: Processed, id: string, now: int, x: string)
    ensures id in p ==> Received(p, id, now).0 == p
    ensures id !in p ==>
              (x in Received(p, id, now).0 <==> x == id || (x in p && now - 300000 <= p[x]))
    ensures id !in p && x in Received(p, id, now).0 ==> Received(p, id, now).0[x] == if x == id then now else p[x]
  {
  }

  function PacketsFor(nodes: set<string>, source: string, id: string, now: int): set<Packet> {
    set t | t in nodes && t != source :: Packet(t, id, now)
  }

  class RelayNode {
    const doName: string
    var processedEvents: Processed

    constructor (name: string)
      ensures doName == name && processedEvents == map[]
    {
      doName, processedEvents := name, map[];
    }

    /** Answers whether the event was new, in which case it is broadcast to local sessions. */
    method HandleDOBroadcast(id: string, now: int) returns (broadcast: bool)
      modifies this
      ensures (processedEvents, broadcast) == Received(old(processedEvents), id, now)
    {
      if id in processedEvents {
        return false;
      }
      processedEvents := processedEvents[id := now];
      ghost var seen := processedEvents;
      var fiveMinutesAgo := now - RETENTION;
      var rest := processedEvents.Keys;
      while rest != {}
        invariant rest <= processedEvents.Keys
        invariant processedEvents == map k | k in seen && (k in rest || seen[k] >= fiveMinutesAgo) :: seen[k]
        decreases |rest|
      {
        var k :| k in rest;
        if processedEvents[k] < fiveMinutesAgo {
          processedEvents := processedEvents - {k};
        }
        rest := rest - {k};
      }
      assert processedEvents == Recent(seen, now);
      return true;
    }

    method MarkProcessed(id: string, now: int)
      modifies this
      ensures processedEvents == old(processedEvents)[id := now]
    {
      processedEvents := processedEvents[id := now];
    }

    /** One packet to every endpoint but this one. */
    method BroadcastToOtherDOs(id: string, now: int) returns (sent: set<Packet>)
      ensures sent == PacketsFor(NODES, doName, id, now)
    {
      sent := {};
      for i := 0 to |ENDPOINTS|
        invariant sent == set t | t in ENDPOINTS[..i] && t != doName :: Packet(t, id, now)
      {
        if ENDPOINTS[i] != doName {
          sent := sent + {Packet(ENDPOINTS[i], id, now)};
        }
        assert ENDPOINTS[..i + 1] == ENDPOINTS[..i] + [ENDPOINTS[i]];
      }
      assert ENDPOINTS[..|ENDPOINTS|] == ENDPOINTS;
    }
  }

  // ---------------------------------------------------------------- the mesh as a whole

  datatype Publication = Publication(node: string, id: string, time: int)

  /** `published` records where and when events entered; `log` every local broadcast, as (node, event). */
  datatype State = State(
    clock: int, processed: map<string, Processed>, sent: set<Packet>,
    published: seq<Publication>, log: seq<(string, string)>, clears: seq<string>)

  /** A packet may arrive late, never, or many times; `marked` is false for replies of a protocol extension. */
  datatype Operation =
    | Publish(node: string, id: string, now: int, marked: bool)
    | Deliver(packet: Packet, now: int)
    | Clear(node: string)

  ghost predicate Initial(s: State) {
    s.processed.Keys == NODES && (forall n | n in NODES :: s.processed[n] == map[])
    && s.sent == {} && s.published == [] && s.log == [] && s.clears == []
  }

  /** Time does not run backwards, and a packet arrives within five minutes; an event may be published again. */
  predicate Enabled(s: State, op: Operation) {
    match op
    case Publish(node, _, now, _) => node in s.processed && s.clock <= now
    case Deliver(packet, now) =>
      packet in s.sent && packet.target in s.processed && s.clock <= now <= packet.sentAt + RETENTION
    case Clear(node) => node in s.processed
  }

  /** Publishing asks no memory: the event is broadcast and sent whether or not the node has seen it. */
  function Step(s: State, op: Operation): State
    requires Enabled(s, op)
  {
    match op
    case Publish(node, id, now, marked) =>
      s.(clock := now,
         processed := if marked then s.processed[node := s.processed[node][id := now]] else s.processed,
         sent := s.sent + PacketsFor(s.processed.Keys, node, id, now),
         published := s.published + [Publication(node, id, now)],
         log := s.log + [(node, id)])
    case Deliver(p, now) =>
      var r := Received(s.processed[p.target], p.id, now);
      s.(clock := now,
         processed := s.processed[p.target := r.0],
         log := if r.1 then s.log + [(p.target, p.id)] else s.log)
    case Clear(node) => s.(processed := s.processed[node := map[]], clears := s.clears + [node])
  }

  ghost predicate Run(ops: seq<Operation>, states: seq<State>) {
    && |states| == |ops| + 1 && Initial(states[0])
    && forall i | 0 <= i < |ops| :: Enabled(states[i], ops[i]) && states[i + 1] == Step(states[i], ops[i])
  }

  function Count<T(==)>(xs: seq<T>, x: T): nat {
    if xs == [] then 0 else Count(xs[..|xs| - 1], x) + if xs[|xs| - 1] == x then 1 else 0
  }

  lemma CountSnoc<T>(xs: seq<T>, y: T, x: T)
    ensures Count(xs + [y], x) == Count(xs, x) + if y == x then 1 else 0
  {
    assert (xs + [y])[..|xs|] == xs;
  }

  function Publications(ps: seq<Publication>, id: string): nat {
    if ps == [] then 0 else Publications(ps[..|ps| - 1], id) + if ps[|ps| - 1].id == id then 1 else 0
  }

  /** The publications of an event at one node. */
  function Local(ps: seq<Publication>, n: string, id: string): nat {
    if ps == [] then 0
    else Local(ps[..|ps| - 1], n, id) + if ps[|ps| - 1].id == id && ps[|ps| - 1].node == n then 1 else 0
  }

  /** The publications of an event at other nodes, up to a time. */
  function Remote(ps: seq<Publication>, n: string, id: string, until: int): nat {
    if ps == [] then 0
    else
      var p := ps[|ps| - 1];
      Remote(ps[..|ps| - 1], n, id, until) + if p.id == id && p.node != n && p.time <= until then 1 else 0
  }

  lemma PublishedSnoc(ps: seq<Publication>, p: Publication, n: string, id: string, until: int)
    ensures Publications(ps + [p], id) == Publications(ps, id) + if p.id == id then 1 else 0
    ensures Local(ps + [p], n, id) == Local(ps, n, id) + if p.id == id && p.node == n then 1 else 0
    ensures Remote(ps + [p], n, id, until) == Remote(ps, n, id, until) + if p.id == id && p.node != n && p.time <= until then 1 else 0
  {
    assert (ps + [p])[..|ps|] == ps;
  }

  lemma {:induction false} PublicationsSplit(ps: seq<Publication>, n: string, id: string, until: int)
    ensures Local(ps, n, id) + Remote(ps, n, id, until) <= Publications(ps, id)
  {
    if ps != [] { PublicationsSplit(ps[..|ps| - 1], n, id, until); }
  }

  lemma {:induction false} RemoteGrows(ps: seq<Publication>, n: string, id: string, early: int, late: int)
    requires early <= late
    ensures Remote(ps, n, id, early) <= Remote(ps, n, id, late)
  {
    if ps != [] { RemoteGrows(ps[..|ps| - 1], n, id, early, late); }
  }

  /** A publication in between makes the later count strictly greater. */
  lemma {:induction false} RemoteCounts(ps: seq<Publication>, n: string, id: string, early: int, late: int, k: nat)
    requires k < |ps| && ps[k].id == id && ps[k].node != n && early < ps[k].time <= late
    ensures Remote(ps, n, id, early) < Remote(ps, n, id, late)
  {
    if k == |ps| - 1 {
      RemoteGrows(ps[..|ps| - 1], n, id, early, late);
    } else {
      RemoteCounts(ps[..|ps| - 1], n, id, early, late, k);
    }
  }

  /** Some publication at another node sent the packet. */
  ghost predicate SentBy(ps: seq<Publication>, p: Packet) {
    exists k | 0 <= k < |ps| :: ps[k].id == p.id && ps[k].node != p.target && ps[k].time == p.sentAt
  }

  ghost predicate Inv(s: State) {
    forall p | p in s.sent :: SentBy(s.published, p) && p.sentAt <= s.clock
  }

  lemma StepInv(s: State, op: Operation)
    requires Inv(s) && Enabled(s, op)
    ensures Inv(Step(s, op))
  {
    if op.Publish? {
      var t, last := Step(s, op), Publication(op.node, op.id, op.now);
      forall p | p in t.sent ensures SentBy(t.published, p) && p.sentAt <= t.clock {
        if p in s.sent {
          var k :| 0 <= k < |s.published| && s.published[k].id == p.id && s.published[k].node != p.target && s.published[k].time == p.sentAt;
          assert t.published[k] == s.published[k];
        } else {
          assert t.published[|s.published|] == last;
        }
      }
    }
  }

  lemma {:induction false} RunInv(ops: seq<Operation>, states: seq<State>, k: nat)
    requires Run(ops, states) && k < |states|
    ensures Inv(states[k])
  {
    if k > 0 {
      RunInv(ops, states, k - 1);
      StepInv(states[k - 1], ops[k - 1]);
    }
  }

  /** Nothing sent up to time `t` can make the node broadcast the event again. */
  predicate Guarded(s: State, n: string, id: string, t: int)
    requires n in s.processed
  {
    (id in s.processed[n] && s.processed[n][id] >= t) || s.clock > t + RETENTION
  }

  /**
   Broadcasts are paid for by losses of memory, by publications at the node, and by those elsewhere up to `t`.
   While one payment is to spare, no guard is needed.
   */
  ghost predicate Paid(s: State, n: string, id: string, t: int)
    requires n in s.processed
  {
    var count, own := Count(s.log, (n, id)), Count(s.clears, n) + Local(s.published, n, id);
    && t <= s.clock
    && (count <= own
        || count < own + Remote(s.published, n, id, t)
        || (count == own + Remote(s.published, n, id, t) && Guarded(s, n, id, t)))
  }

  /** The publication that sent a packet counts once the packet has arrived. */
  lemma SenderCounts(ps: seq<Publication>, p: Packet, t: int, now: int)
    requires SentBy(ps, p) && p.sentAt <= now && t <= now
    ensures Remote(ps, p.target, p.id, t) <= Remote(ps, p.target, p.id, now) && Remote(ps, p.target, p.id, now) >= 1
    ensures p.sentAt > t ==> Remote(ps, p.target, p.id, t) < Remote(ps, p.target, p.id, now)
  {
    var k :| 0 <= k < |ps| && ps[k].id == p.id && ps[k].node != p.target && ps[k].time == p.sentAt;
    RemoteGrows(ps, p.target, p.id, t, now);
    RemoteCounts(ps, p.target, p.id, p.sentAt - 1, now, k);
    if p.sentAt > t { RemoteCounts(ps, p.target, p.id, t, now, k); }
  }

  /** A packet about an unknown event is logged, and the event remembered. */
  lemma UnknownArrives(s: State, op: Operation)
    requires op.Deliver? && Enabled(s, op) && op.packet.id !in s.processed[op.packet.target]
    ensures var p, t := op.packet, Step(s, op);
            && t.log == s.log + [(p.target, p.id)] && t.published == s.published && t.clears == s.clears && t.clock == op.now
            && p.target in t.processed && p.id in t.processed[p.target] && t.processed[p.target][p.id] == op.now
  {
  }

  lemma BroadcastPaid(s: State, op: Operation, n: string, id: string, t: int)
    requires Inv(s) && op.Deliver? && Enabled(s, op) && n in s.processed && Paid(s, n, id, t)
    requires op.packet.target == n && op.packet.id == id && id !in s.processed[n]
    ensures Paid(Step(s, op), n, id, op.now)
  {
    UnknownArrives(s, op);
    CountSnoc(s.log, (n, id), (n, id));
    SenderCounts(s.published, op.packet, t, op.now);
  }

  lemma DeliverPaid(s: State, op: Operation, n: string, id: string, t: int)
    requires Inv(s) && op.Deliver? && Enabled(s, op) && n in s.processed && Paid(s, n, id, t)
    requires !(op.packet.target == n && op.packet.id == id && id !in s.processed[n])
    ensures Paid(Step(s, op), n, id, t)
  {
    CountSnoc(s.log, (op.packet.target, op.packet.id), (n, id));
  }

  lemma PublishPaid(s: State, op: Operation, n: string, id: string, t: int)
    requires op.Publish? && Enabled(s, op) && n in s.processed && Paid(s, n, id, t)
    ensures Paid(Step(s, op), n, id, t)
  {
    CountSnoc(s.log, (op.node, op.id), (n, id));
    PublishedSnoc(s.published, Publication(op.node, op.id, op.now), n, id, t);
  }

  lemma StepPaid(s: State, op: Operation, n: string, id: string, t: int) returns (t': int)
    requires Inv(s) && Enabled(s, op) && n in s.processed && Paid(s, n, id, t)
    ensures n in Step(s, op).processed && Paid(Step(s, op), n, id, t')
  {
    t' := t;
    match op
    case Publish(_, _, _, _) => PublishPaid(s, op, n, id, t);
    case Deliver(p, now) =>
      if p.target == n && p.id == id && id !in s.processed[n] {
        t' := now;
        BroadcastPaid(s, op, n, id, t);
      } else {
        DeliverPaid(s, op, n, id, t);
      }
    case Clear(node) => CountSnoc(s.clears, node, n);
  }

  lemma {:induction false} RunPaid(ops: seq<Operation>, states: seq<State>, k: nat, n: string, id: string) returns (t: int)
    requires Run(ops, states) && k < |states| && n in NODES
    ensures n in states[k].processed && Paid(states[k], n, id, t)
  {
    if k == 0 {
      t := states[0].clock;
    } else {
      var before := RunPaid(ops, states, k - 1, n, id);
      RunInv(ops, states, k - 1);
      t := StepPaid(states[k - 1], ops[k - 1], n, id, before);
    }
  }

  /** A node broadcasts an event at most as often as it is published anywhere, plus once for every loss of memory. */
  lemma BroadcastsArePaidFor(ops: seq<Operation>, states: seq<State>, k: nat, n: string, id: string)
    requires Run(ops, states) && k < |states| && n in NODES
    ensures Count(states[k].log, (n, id)) <= Count(states[k].clears, n) + Publications(states[k].published, id)
  {
    var t := RunPaid(ops, states, k, n, id);
    PublicationsSplit(states[k].published, n, id, t);
  }

  /** Published once, an event is broadcast at most once, plus once for every time the node lost its memory. */
  lemma BroadcastAtMostOnce(ops: seq<Operation>, states: seq<State>, k: nat, n: string, id: string)
    requires Run(ops, states) && k < |states| && n in NODES && Publications(states[k].published, id) <= 1
    ensures Count(states[k].log, (n, id)) <= Count(states[k].clears, n) + 1
  {
    BroadcastsArePaidFor(ops, states, k, n, id);
  }

  /** The same event published twice at one node is broadcast there twice, although the node remembers it. */
  lemma RepublishedIsRebroadcast(n: string, id: string) returns (ops: seq<Operation>, states: seq<State>)
    requires n in NODES
    ensures Run(ops, states) && |ops| == 2 && n in states[1].processed && id in states[1].processed[n]
    ensures states[2].clears == [] && Count(states[2].log, (n, id)) == 2 == Publications(states[2].published, id)
  {
    var publish := Publish(n, id, 0, true);
    var start := State(0, map x | x in NODES :: map[], {}, [], [], []);
    assert start.processed.Keys == NODES;
    var once := Step(start, publish);
    var twice := Step(once, publish);
    ops, states := [publish, publish], [start, once, twice];
    CountSnoc([], (n, id), (n, id));
    CountSnoc(once.log, (n, id), (n, id));
    PublishedSnoc([], Publication(n, id, 0), n, id, 0);
    PublishedSnoc(once.published, Publication(n, id, 0), n, id, 0);
  }

  /** The packets about an event that its publications sent. */
  function PacketsOf(ps: seq<Publication>, nodes: set<string>, id: string): set<Packet> {
    if ps == [] then {}
    else
      var p := ps[|ps| - 1];
      PacketsOf(ps[..|ps| - 1], nodes, id) + if p.id == id then PacketsFor(nodes, p.node, id, p.time) else {}
  }

  /** The packets about an event are those its publications sent, one for every other node. */
  ghost predicate OnlyPublicationSends(s: State, nodes: set<string>, id: string) {
    s.processed.Keys == nodes && About(s.sent, id) == PacketsOf(s.published, nodes, id)
  }

  function About(sent: set<Packet>, id: string): set<Packet> {
    set p | p in sent && p.id == id
  }

  lemma AboutUnion(a: set<Packet>, b: set<Packet>, id: string)
    ensures About(a + b, id) == About(a, id) + About(b, id)
  {
  }

  lemma AboutPackets(nodes: set<string>, source: string, x: string, now: int, id: string)
    ensures About(PacketsFor(nodes, source, x, now), id) == if x == id then PacketsFor(nodes, source, x, now) else {}
  {
  }

  lemma StepSends(s: State, op: Operation, nodes: set<string>, id: string)
    requires Enabled(s, op) && OnlyPublicationSends(s, nodes, id)
    ensures OnlyPublicationSends(Step(s, op), nodes, id)
  {
    if op.Publish? {
      AboutUnion(s.sent, PacketsFor(nodes, op.node, op.id, op.now), id);
      AboutPackets(nodes, op.node, op.id, op.now, id);
      var more := s.published + [Publication(op.node, op.id, op.now)];
      assert more[..|more| - 1] == s.published;
    }
  }

  /** However often packets are delivered, receiving one sends nothing. */
  lemma {:induction false} ReceivingSendsNothing(ops: seq<Operation>, states: seq<State>, k: nat, id: string)
    requires Run(ops, states) && k < |states|
    ensures OnlyPublicationSends(states[k], NODES, id)
  {
    if k > 0 {
      ReceivingSendsNothing(ops, states, k - 1, id);
      StepSends(states[k - 1], ops[k - 1], NODES, id);
    } else {
      assert About({}, id) == {};
    }
  }

  /** What a node remembers, it has broadcast. */
  ghost predicate RememberedBroadcast(s: State, n: string, id: string)
    requires n in s.processed
  {
    id in s.processed[n] ==> Count(s.log, (n, id)) >= 1
  }

  lemma StepRemembers(s: State, op: Operation, n: string, id: string)
    requires n in s.processed && Enabled(s, op) && RememberedBroadcast(s, n, id)
    ensures n in Step(s, op).processed && RememberedBroadcast(Step(s, op), n, id)
    ensures Count(Step(s, op).log, (n, id)) >= Count(s.log, (n, id))
    ensures Reaches(op, n, id) ==> Count(Step(s, op).log, (n, id)) >= 1
  {
    match op
    case Publish(node, x, now, _) => CountSnoc(s.log, (node, x), (n, id));
    case Deliver(p, now) => CountSnoc(s.log, (p.target, p.id), (n, id));
    case Clear(_) =>
  }

  /** The event enters at node `n`, or a packet carries it there. */
  predicate Reaches(op: Operation, n: string, id: string) {
    match op
    case Publish(node, x, _, _) => node == n && x == id
    case Deliver(p, _) => p.target == n && p.id == id
    case Clear(_) => false
  }

  lemma {:induction false} ReachedBroadcasts(ops: seq<Operation>, states: seq<State>, k: nat, n: string, id: string)
    requires Run(ops, states) && k < |states| && n in NODES
    ensures n in states[k].processed && RememberedBroadcast(states[k], n, id)
    ensures (exists j | 0 <= j < k :: Reaches(ops[j], n, id)) ==> Count(states[k].log, (n, id)) >= 1
  {
    if k > 0 {
      ReachedBroadcasts(ops, states, k - 1, n, id);
      StepRemembers(states[k - 1], ops[k - 1], n, id);
    }
  }

  lemma {:induction false} NotCleared(ops: seq<Operation>, states: seq<State>, k: nat, n: string)
    requires Run(ops, states) && k < |states| && forall j | 0 <= j < k :: ops[j] != Clear(n)
    ensures Count(states[k].clears, n) == 0
  {
    if k > 0 {
      NotCleared(ops, states, k - 1, n);
      if ops[k - 1].Clear? { CountSnoc(states[k - 1].clears, ops[k - 1].node, n); }
    }
  }

  /** Duplicates and losses notwithstanding: published once and arrived in any copy, an event is broadcast exactly once. */
  lemma ExactlyOnce(ops: seq<Operation>, states: seq<State>, k: nat, n: string, id: string)
    requires Run(ops, states) && k < |states| && n in NODES
    requires forall j | 0 <= j < k :: ops[j] != Clear(n)
    requires exists j | 0 <= j < k :: Reaches(ops[j], n, id)
    requires Publications(states[k].published, id) <= 1
    ensures Count(states[k].log, (n, id)) == 1
  {
    BroadcastAtMostOnce(ops, states, k, n, id);
    ReachedBroadcasts(ops, states, k, n, id);
    NotCleared(ops, states, k, n);
  }

  lemma {:induction false} DistinctSize<T>(xs: seq<T>)
    requires forall i, j | 0 <= i < j < |xs| :: xs[i] != xs[j]
    ensures |set x | x in xs| == |xs|
  {
    if xs != [] {
      var front := xs[..|xs| - 1];
      DistinctSize(front);
      assert xs == front + [xs[|xs| - 1]];
      assert (set x | x in xs) == (set x | x in front) + {xs[|xs| - 1]};
    } else {
      assert (set x | x in xs) == {};
    }
  }

  function PacketsTo(targets: set<string>, id: string, now: int): set<Packet> {
    set t | t in targets :: Packet(t, id, now)
  }

  lemma {:induction false} PacketsToSize(targets: set<string>, id: string, now: int)
    ensures |PacketsTo(targets, id, now)| == |targets|
    decreases targets
  {
    if targets == {} {
      assert PacketsTo(targets, id, now) == {};
    } else {
      var t :| t in targets;
      PacketsToSize(targets - {t}, id, now);
      assert PacketsTo(targets, id, now) == PacketsTo(targets - {t}, id, now) + {Packet(t, id, now)};
    }
  }

  /** The names of the endpoints differ in their seventh or eighth letter. */
  lemma NineNodes()
    ensures |NODES| == 9
  {
    forall i, j | 0 <= i < j < 9 ensures ENDPOINTS[i] != ENDPOINTS[j] {
      assert ENDPOINTS[i][6] != ENDPOINTS[j][6] || ENDPOINTS[i][7] != ENDPOINTS[j][7];
    }
    DistinctSize(ENDPOINTS);
  }

  lemma EightPackets(source: string, id: string, now: int)
    requires source in NODES
    ensures |PacketsFor(NODES, source, id, now)| == 8
  {
    NineNodes();
    var others := NODES - {source};
    assert NODES == others + {source};
    PacketsToSize(others, id, now);
    PacketsToOthers(NODES, source, id, now);
  }

  lemma {:induction false} UnionOfEight(ps: seq<Publication>, id: string)
    requires forall k | 0 <= k < |ps| :: ps[k].node in NODES
    ensures |PacketsOf(ps, NODES, id)| <= 8 * Publications(ps, id)
  {
    if ps != [] {
      var front, p := ps[..|ps| - 1], ps[|ps| - 1];
      UnionOfEight(front, id);
      if p.id == id {
        EightPackets(p.node, id, p.time);
        UnionSize(PacketsOf(front, NODES, id), PacketsFor(NODES, p.node, id, p.time));
      }
    }
  }

  lemma UnionSize<T>(a: set<T>, b: set<T>)
    ensures |a + b| <= |a| + |b|
  {
    assert a + b == a + (b - a) && b == (b - a) + (b * a);
  }

  lemma {:induction false} PublishedAtNodes(ops: seq<Operation>, states: seq<State>, k: nat)
    requires Run(ops, states) && k < |states|
    ensures states[k].processed.Keys == NODES
    ensures forall i | 0 <= i < |states[k].published| :: states[k].published[i].node in states[k].processed
  {
    if k > 0 {
      PublishedAtNodes(ops, states, k - 1);
      assert states[k].processed.Keys == states[k - 1].processed.Keys;
    }
  }

  /** In every run an event costs at most eight packets for each of its publications. */
  lemma EightPacketsEach(ops: seq<Operation>, states: seq<State>, k: nat, id: string)
    requires Run(ops, states) && k < |states|
    ensures |About(states[k].sent, id)| <= 8 * Publications(states[k].published, id)
  {
    ReceivingSendsNothing(ops, states, k, id);
    PublishedAtNodes(ops, states, k);
    UnionOfEight(states[k].published, id);
  }

  lemma PacketsToOthers(nodes: set<string>, source: string, id: string, now: int)
    ensures PacketsFor(nodes, source, id, now) == PacketsTo(nodes - {source}, id, now)
  {
  }
}
