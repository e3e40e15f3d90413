/** Grants, likes, matches and blocks: the shared tables of the dating protocol and what every run keeps. */
module Dating {
  import opened Options

  const GRANT_TTL := 86400
  const SEEN_RETENTION := 604800
  const LIKE_EXPIRY := 7776000

  /** Pubkeys and the member identifiers derived from them correspond one to one. */
  type Member = string

  /** A grant token is a digest of exactly these three. */
  datatype Token = Token(viewer: Member, candidate: Member, time: int)
  datatype Grant = Grant(token: Token, grantedAt: int, expiresAt: int)
  datatype IntentState = IntentActive | Revoked
  datatype Intent = Intent(state: IntentState, createdAt: int, expiresAt: int)
  datatype MatchState = MatchActive | UnmatchedA | UnmatchedB | BlockedA
  datatype Match = Match(memberA: Member, memberB: Member, state: MatchState)

  type Pair = (Member, Member)

  /** A match is stored under a digest of its two members in sorted order, which is to say of their set. */
  datatype Tables = Tables(
    grants: map<Pair, Grant>, seen: map<Pair, int>, intents: map<Pair, Intent>,
    matches: map<set<Member>, Match>, blocks: set<Pair>)

  const EMPTY_TABLES := Tables(map[], map[], map[], map[], {})

  predicate Blocked(s: Tables, a: Member, b: Member) {
    (a, b) in s.blocks || (b, a) in s.blocks
  }

  /** The part of discovery's WHERE clause that reads these tables. */
  predicate Grantable(s: Tables, viewer: Member, c: Member, now: int) {
    && c != viewer
    && (viewer, c) !in s.seen
    && !Blocked(s, viewer, c)
    && ((viewer, c) in s.grants ==> s.grants[(viewer, c)].expiresAt <= now)
  }

  datatype LikeResult = InvalidTarget | MissingGrant | RateLimited | NoValidGrant | Liked(matchCreated: bool)

  datatype Operation =
    | IssueGrants(viewer: Member, candidates: seq<Member>, now: int)
    | ChangePreferences(viewer: Member, now: int)
    | Like(sender: Member, target: Member, token: Option<Token>, withinQuota: bool, now: int)
    | Revoke(sender: Member, target: Member, now: int)
    | Block(blocker: Member, blocked: Member, now: int)
    | Unblock(blocker: Member, blocked: Member, now: int)
    | Unmatch(member: Member, target: Member, now: int)
    | DeleteAccount(member: Member, now: int)
    | PruneGrants(pruned: set<Pair>, now: int)
    | PurgeSeen(purged: set<Pair>, now: int)

  // ---------------------------------------------------------------- what each operation does

  function NewGrant(viewer: Member, c: Member, now: int): Grant {
    Grant(Token(viewer, c, now), now, now + GRANT_TTL)
  }

  function Elements(cs: seq<Member>): set<Member> {
    set c | c in cs
  }

  function PairsWith(viewer: Member, cs: set<Member>): set<Pair> {
    set c | c in cs :: (viewer, c)
  }

  function GrantsTo(viewer: Member, cs: set<Member>, now: int): map<Pair, Grant> {
    map p | p in PairsWith(viewer, cs) :: NewGrant(viewer, p.1, now)
  }

  function SeenBy(viewer: Member, cs: set<Member>, now: int): map<Pair, int> {
    map p | p in PairsWith(viewer, cs) :: now
  }

  function Issue(s: Tables, viewer: Member, cs: set<Member>, now: int): Tables {
    s.(grants := s.grants + GrantsTo(viewer, cs, now), seen := SeenBy(viewer, cs, now) + s.seen)
  }

  predicate ConsumesGrant(s: Tables, sender: Member, target: Member, token: Option<Token>, now: int) {
    (sender, target) in s.grants
    && token == Some(s.grants[(sender, target)].token) && s.grants[(sender, target)].expiresAt > now
  }

  function LikeOutcome(s: Tables, op: Operation): LikeResult
    requires op.Like?
  {
    if op.target == "" || op.target == op.sender then InvalidTarget
    else if op.token.None? then MissingGrant
    else if !op.withinQuota then RateLimited
    else if !ConsumesGrant(s, op.sender, op.target, op.token, op.now) then NoValidGrant
    else Liked((op.target, op.sender) in s.intents && s.intents[(op.target, op.sender)].state.IntentActive?)
  }

  function Liking(s: Tables, sender: Member, target: Member, now: int, matched: bool): Tables {
    var key := {sender, target};
    s.(grants := s.grants - {(sender, target)},
       intents := if (sender, target) in s.intents then s.intents
                  else s.intents[(sender, target) := Intent(IntentActive, now, now + LIKE_EXPIRY)],
       matches := if matched && key !in s.matches then s.matches[key := Match(sender, target, MatchActive)] else s.matches)
  }

  function RevokeIntents(intents: map<Pair, Intent>, pairs: set<Pair>): map<Pair, Intent> {
    map p | p in intents :: if p in pairs then intents[p].(state := Revoked) else intents[p]
  }

  function Blocking(s: Tables, a: Member, b: Member): Tables {
    var pairs: set<Pair> := {(a, b), (b, a)};
    s.(blocks := s.blocks + {(a, b)},
       matches := if {a, b} in s.matches then s.matches[{a, b} := s.matches[{a, b}].(state := BlockedA)] else s.matches,
       intents := RevokeIntents(s.intents, pairs),
       grants := s.grants - pairs)
  }

  /** The side that unmatches is recorded. */
  function Unmatching(s: Tables, m: Member, target: Member): Tables {
    if {m, target} !in s.matches || !s.matches[{m, target}].state.MatchActive? then s
    else
      var row := s.matches[{m, target}];
      s.(matches := s.matches[{m, target} := row.(state := if row.memberA == m then UnmatchedA else UnmatchedB)])
  }

  predicate Involves(p: Pair, m: Member) {
    p.0 == m || p.1 == m
  }

  function UnmatchAll(matches: map<set<Member>, Match>, m: Member): map<set<Member>, Match> {
    map k | k in matches :: if m in k && matches[k].state.MatchActive? then matches[k].(state := UnmatchedA) else matches[k]
  }

  function Deleting(s: Tables, m: Member): Tables {
    s.(intents := RevokeIntents(s.intents, (set p | p in s.intents && p.0 == m)),
       matches := UnmatchAll(s.matches, m),
       blocks := (set p | p in s.blocks && !Involves(p, m)),
       grants := s.grants - (set p | p in s.grants && Involves(p, m)))
  }

  predicate Enabled(s: Tables, op: Operation) {
    match op
    case IssueGrants(v, cs, now) => forall c | c in cs :: Grantable(s, v, c, now)
    case PruneGrants(ps, now) => forall p | p in ps :: p in s.grants && s.grants[p].expiresAt < now
    case PurgeSeen(ps, now) => forall p | p in ps :: p in s.seen && s.seen[p] < now - SEEN_RETENTION
    case _ => true
  }

  function Step(s: Tables, op: Operation): Tables {
    match op
    case IssueGrants(v, cs, now) => Issue(s, v, Elements(cs), now)
    case ChangePreferences(v, _) => s.(grants := s.grants - (set p | p in s.grants && p.0 == v))
    case Like(a, b, _, _, now) =>
      var r := LikeOutcome(s, op);
      if r.Liked? then Liking(s, a, b, now, r.matchCreated) else s
    case Revoke(a, b, _) => s.(intents := RevokeIntents(s.intents, {(a, b)}))
    case Block(a, b, _) => Blocking(s, a, b)
    case Unblock(a, b, _) => s.(blocks := s.blocks - {(a, b)})
    case Unmatch(m, t, _) => Unmatching(s, m, t)
    case DeleteAccount(m, _) => Deleting(s, m)
    case PruneGrants(ps, _) => s.(grants := s.grants - ps)
    case PurgeSeen(ps, _) => s.(seen := s.seen - ps)
  }

  // ---------------------------------------------------------------- runs

  ghost predicate Run(ops: seq<Operation>, states: seq<Tables>) {
    && |states| == |ops| + 1 && states[0] == EMPTY_TABLES
    && (forall i | 0 <= i < |ops| :: Enabled(states[i], ops[i]) && states[i + 1] == Step(states[i], ops[i]))
    && forall i, j | 0 <= i < j < |ops| :: ops[i].now <= ops[j].now
  }

  predicate Grants(op: Operation, v: Member, c: Member) {
    op.IssueGrants? && op.viewer == v && c in op.candidates
  }

  predicate AcceptedLike(s: Tables, op: Operation, a: Member, b: Member) {
    op.Like? && op.sender == a && op.target == b && LikeOutcome(s, op).Liked?
  }

  /** A grant row carries the time and the token of the operation that issued it. */
  lemma StepGrant(s: Tables, op: Operation, v: Member, c: Member)
    requires (v, c) in Step(s, op).grants
    ensures if Grants(op, v, c) then Step(s, op).grants[(v, c)] == NewGrant(v, c, op.now)
            else (v, c) in s.grants && Step(s, op).grants[(v, c)] == s.grants[(v, c)]
  {
  }

  lemma StepSeen(s: Tables, op: Operation, v: Member, c: Member)
    ensures (v, c) in s.seen && (v, c) in Step(s, op).seen ==> Step(s, op).seen[(v, c)] == s.seen[(v, c)]
    ensures (v, c) in s.seen && (v, c) !in Step(s, op).seen ==> op.PurgeSeen? && (v, c) in op.purged
    ensures Grants(op, v, c) ==> (v, c) in Step(s, op).seen && ((v, c) !in s.seen ==> Step(s, op).seen[(v, c)] == op.now)
  {
  }

  lemma {:induction false} SeenLasts(ops: seq<Operation>, states: seq<Tables>, i: nat, k: nat, v: Member, c: Member)
    requires Run(ops, states) && i < k <= |ops| && Grants(ops[i], v, c)
    ensures ((v, c) in states[k].seen && states[k].seen[(v, c)] == ops[i].now)
            || ops[k - 1].now > ops[i].now + SEEN_RETENTION
    decreases k
  {
    StepSeen(states[k - 1], ops[k - 1], v, c);
    assert Enabled(states[k - 1], ops[k - 1]);
    if k > i + 1 {
      SeenLasts(ops, states, i, k - 1, v, c);
      assert ops[k - 2].now <= ops[k - 1].now;
    }
  }

  /** Nobody is shown the same candidate twice within a week. */
  lemma GrantsAreAWeekApart(ops: seq<Operation>, states: seq<Tables>, i: nat, j: nat, v: Member, c: Member)
    requires Run(ops, states) && i < j < |ops| && Grants(ops[i], v, c) && Grants(ops[j], v, c)
    ensures ops[j].now - ops[i].now > 604800
  {
    SeenLasts(ops, states, i, j, v, c);
    assert Enabled(states[j], ops[j]);
    assert ops[j - 1].now <= ops[j].now;
  }

  /** A grant present at `k` and absent at `i` was issued in between. */
  lemma {:induction false} GrantOrigin(ops: seq<Operation>, states: seq<Tables>, i: nat, k: nat, v: Member, c: Member) returns (m: nat)
    requires Run(ops, states) && i <= k < |states|
    requires (v, c) !in states[i].grants && (v, c) in states[k].grants
    ensures i <= m < k && Grants(ops[m], v, c) && states[k].grants[(v, c)] == NewGrant(v, c, ops[m].now)
    decreases k
  {
    StepGrant(states[k - 1], ops[k - 1], v, c);
    if Grants(ops[k - 1], v, c) {
      m := k - 1;
    } else {
      m := GrantOrigin(ops, states, i, k - 1, v, c);
    }
  }

  /** Nobody can like the same person twice within six days. */
  lemma LikesAreSixDaysApart(ops: seq<Operation>, states: seq<Tables>, i: nat, j: nat, a: Member, b: Member)
    requires Run(ops, states) && i < j < |ops|
    requires AcceptedLike(states[i], ops[i], a, b) && AcceptedLike(states[j], ops[j], a, b)
    ensures ops[j].now - ops[i].now > 518400
  {
    var m := GrantOrigin(ops, states, 0, i, a, b);
    assert states[i + 1] == Step(states[i], ops[i]);
    var n := GrantOrigin(ops, states, i + 1, j, a, b);
    GrantsAreAWeekApart(ops, states, m, n, a, b);
  }

  // ---------------------------------------------------------------- matches

  /** Each match row sits under its own two members, so a pair of members has at most one. */
  ghost predicate WellKeyed(matches: map<set<Member>, Match>) {
    forall k | k in matches :: k == {matches[k].memberA, matches[k].memberB} && matches[k].memberA != matches[k].memberB
  }

  /** No grant, and no active match, across a block. */
  ghost predicate BlocksHold(s: Tables) {
    && (forall p | p in s.grants :: !Blocked(s, p.0, p.1))
    && forall p | p in s.blocks && {p.0, p.1} in s.matches :: s.matches[{p.0, p.1}].state.BlockedA?
  }

  /** What may happen to a match row: its members stay, and its state only leaves 'active', or becomes blocked. */
  predicate Succeeds(old': Match, new': Match) {
    && old'.memberA == new'.memberA && old'.memberB == new'.memberB
    && (new'.state == old'.state || old'.state.MatchActive? || new'.state.BlockedA?)
    && (old'.state.BlockedA? ==> new'.state.BlockedA?)
    && (new'.state.MatchActive? ==> old'.state.MatchActive?)
  }

  lemma StepMatch(s: Tables, op: Operation, k: set<Member>)
    requires k in s.matches
    ensures k in Step(s, op).matches && Succeeds(s.matches[k], Step(s, op).matches[k])
  {
  }

  lemma StepWellKeyed(s: Tables, op: Operation)
    requires WellKeyed(s.matches)
    ensures WellKeyed(Step(s, op).matches)
  {
  }

  lemma StepIntent(s: Tables, op: Operation, p: Pair)
    ensures p in s.intents && s.intents[p].state.Revoked? ==> p in Step(s, op).intents && Step(s, op).intents[p].state.Revoked?
    ensures p in Step(s, op).intents && p !in s.intents ==> AcceptedLike(s, op, p.0, p.1)
  {
  }

  lemma {:induction false} RunWellKeyed(ops: seq<Operation>, states: seq<Tables>, k: nat)
    requires Run(ops, states) && k < |states|
    ensures WellKeyed(states[k].matches)
  {
    if k > 0 {
      RunWellKeyed(ops, states, k - 1);
      StepWellKeyed(states[k - 1], ops[k - 1]);
    }
  }

  /** Rows stay, keep their members, never become active again, and stay blocked once blocked. */
  lemma {:induction false} MatchesOnlyEnd(ops: seq<Operation>, states: seq<Tables>, i: nat, j: nat, k: set<Member>)
    requires Run(ops, states) && i <= j < |states| && k in states[i].matches
    ensures k in states[j].matches && Succeeds(states[i].matches[k], states[j].matches[k])
    decreases j
  {
    if i < j {
      MatchesOnlyEnd(ops, states, i, j - 1, k);
      StepMatch(states[j - 1], ops[j - 1], k);
    }
  }

  lemma {:induction false} RevokedStaysRevoked(ops: seq<Operation>, states: seq<Tables>, i: nat, j: nat, p: Pair)
    requires Run(ops, states) && i <= j < |states| && p in states[i].intents && states[i].intents[p].state.Revoked?
    ensures p in states[j].intents && states[j].intents[p].state.Revoked?
    decreases j
  {
    if i < j {
      RevokedStaysRevoked(ops, states, i, j - 1, p);
      StepIntent(states[j - 1], ops[j - 1], p);
    }
  }

  /** An intent goes back to a like that consumed a live grant. */
  lemma {:induction false} IntentOrigin(ops: seq<Operation>, states: seq<Tables>, k: nat, p: Pair) returns (m: nat)
    requires Run(ops, states) && k < |states| && p in states[k].intents
    ensures m < k && AcceptedLike(states[m], ops[m], p.0, p.1)
  {
    StepIntent(states[k - 1], ops[k - 1], p);
    if p in states[k - 1].intents {
      m := IntentOrigin(ops, states, k - 1, p);
    } else {
      m := k - 1;
    }
  }

  lemma NewMatch(s: Tables, op: Operation, k: set<Member>)
    requires k in Step(s, op).matches && k !in s.matches
    ensures op.Like? && k == {op.sender, op.target} && AcceptedLike(s, op, op.sender, op.target)
    ensures (op.target, op.sender) in s.intents && Step(s, op).matches[k] == Match(op.sender, op.target, MatchActive)
  {
  }

  /** Whoever is matched has spent a live grant for the other, on both sides. */
  lemma {:induction false} MatchNeedsBothGrants(ops: seq<Operation>, states: seq<Tables>, k: nat, key: set<Member>)
    returns (i: nat, j: nat)
    requires Run(ops, states) && k < |states| && key in states[k].matches
    ensures i < k && j < k
    ensures var row := states[k].matches[key];
            && AcceptedLike(states[i], ops[i], row.memberA, row.memberB)
            && AcceptedLike(states[j], ops[j], row.memberB, row.memberA)
  {
    if key in states[k - 1].matches {
      i, j := MatchNeedsBothGrants(ops, states, k - 1, key);
      StepMatch(states[k - 1], ops[k - 1], key);
    } else {
      NewMatch(states[k - 1], ops[k - 1], key);
      i := k - 1;
      j := IntentOrigin(ops, states, k - 1, (ops[i].target, ops[i].sender));
    }
  }

  /** An accepted like had an unexpired grant issued within the last day, with the very token that names it. */
  lemma AcceptedLikeHadGrant(ops: seq<Operation>, states: seq<Tables>, k: nat, a: Member, b: Member) returns (m: nat)
    requires Run(ops, states) && k < |ops| && AcceptedLike(states[k], ops[k], a, b)
    ensures m < k && Grants(ops[m], a, b) && ops[k].token == Some(Token(a, b, ops[m].now))
    ensures ops[m].now <= ops[k].now < ops[m].now + 86400
  {
    m := GrantOrigin(ops, states, 0, k, a, b);
  }

  // ---------------------------------------------------------------- blocks

  lemma StepGrantsRespectBlocks(s: Tables, op: Operation, p: Pair)
    requires BlocksHold(s) && Enabled(s, op) && p in Step(s, op).grants
    ensures !Blocked(Step(s, op), p.0, p.1)
  {
    StepGrant(s, op, p.0, p.1);
    if Grants(op, p.0, p.1) {
      assert Grantable(s, p.0, p.1, op.now);
    }
  }

  lemma StepMatchesRespectBlocks(s: Tables, op: Operation, p: Pair)
    requires BlocksHold(s) && p in Step(s, op).blocks && {p.0, p.1} in Step(s, op).matches
    ensures Step(s, op).matches[{p.0, p.1}].state.BlockedA?
  {
    var k := {p.0, p.1};
    if k in s.matches {
      StepMatch(s, op, k);
    } else {
      NewMatch(s, op, k);
    }
  }

  lemma {:induction false} RunBlocksHold(ops: seq<Operation>, states: seq<Tables>, k: nat)
    requires Run(ops, states) && k < |states|
    ensures BlocksHold(states[k])
  {
    if k > 0 {
      RunBlocksHold(ops, states, k - 1);
      var s, op := states[k - 1], ops[k - 1];
      forall p | p in Step(s, op).grants { StepGrantsRespectBlocks(s, op, p); }
      forall p | p in Step(s, op).blocks && {p.0, p.1} in Step(s, op).matches { StepMatchesRespectBlocks(s, op, p); }
    }
  }

  /** Across a standing block no like goes through, and none changes anything. */
  lemma NoLikeAcrossBlock(ops: seq<Operation>, states: seq<Tables>, k: nat, op: Operation)
    requires Run(ops, states) && k < |states| && op.Like? && Blocked(states[k], op.sender, op.target)
    ensures !LikeOutcome(states[k], op).Liked? && Step(states[k], op) == states[k]
  {
    RunBlocksHold(ops, states, k);
  }

  /** While a block stands, in either direction, the pair has no grant, no new match, and none that is active. */
  lemma {:induction false} NothingAcrossBlock(ops: seq<Operation>, states: seq<Tables>, i: nat, j: nat, a: Member, b: Member)
    requires Run(ops, states) && i <= j < |states|
    requires forall k | i <= k <= j :: Blocked(states[k], a, b)
    ensures (a, b) !in states[j].grants && (b, a) !in states[j].grants
    ensures {a, b} in states[j].matches ==> {a, b} in states[i].matches && states[j].matches[{a, b}].state.BlockedA?
    decreases j
  {
    RunBlocksHold(ops, states, j);
    assert {a, b} == {b, a};
    assert (a, b) in states[j].blocks ==> {a, b} in states[j].matches ==> states[j].matches[{(a, b).0, (a, b).1}].state.BlockedA?;
    assert (b, a) in states[j].blocks ==> {a, b} in states[j].matches ==> states[j].matches[{(b, a).0, (b, a).1}].state.BlockedA?;
    if i < j {
      NothingAcrossBlock(ops, states, i, j - 1, a, b);
      if {a, b} in states[j].matches && {a, b} !in states[j - 1].matches {
        NewMatch(states[j - 1], ops[j - 1], {a, b});
        RunBlocksHold(ops, states, j - 1);
      }
    }
  }

  // ---------------------------------------------------------------- what a like reports

  /** `match_created` tells the truth exactly when the pair has no match that ended earlier. */
  lemma MatchCreatedIsTrueExactly(s: Tables, op: Operation)
    requires op.Like? && LikeOutcome(s, op) == Liked(true)
    ensures var k := {op.sender, op.target};
            k in Step(s, op).matches
            && (Step(s, op).matches[k].state.MatchActive? <==> k in s.matches ==> s.matches[k].state.MatchActive?)
  {
  }

  /** Two members like each other, one unmatches, and a week later likes the other again. */
  function Story(a: Member, b: Member): seq<Operation> {
    [IssueGrants(a, [b], 0), IssueGrants(b, [a], 0),
     Like(a, b, Some(Token(a, b, 0)), true, 1), Like(b, a, Some(Token(b, a, 0)), true, 2),
     Unmatch(a, b, 3), PurgeSeen({(a, b)}, 700000), IssueGrants(a, [b], 700000)]
  }

  function StoryState(a: Member, b: Member, n: nat): Tables
    requires n <= 7
  {
    var ab, ba := NewGrant(a, b, 0), NewGrant(b, a, 0);
    var likeA, likeB := Intent(IntentActive, 1, 1 + LIKE_EXPIRY), Intent(IntentActive, 2, 2 + LIKE_EXPIRY);
    Tables(
      if n == 0 then map[] else if n == 1 then map[(a, b) := ab] else if n == 2 then map[(a, b) := ab, (b, a) := ba]
      else if n == 3 then map[(b, a) := ba] else if n < 7 then map[] else map[(a, b) := NewGrant(a, b, 700000)],
      if n == 0 then map[] else if n == 1 then map[(a, b) := 0] else if n < 6 then map[(a, b) := 0, (b, a) := 0]
      else if n == 6 then map[(b, a) := 0] else map[(b, a) := 0, (a, b) := 700000],
      if n < 3 then map[] else if n == 3 then map[(a, b) := likeA] else map[(a, b) := likeA, (b, a) := likeB],
      if n < 4 then map[] else map[{a, b} := Match(b, a, if n == 4 then MatchActive else UnmatchedB)],
      {})
  }

  lemma IssueOne(s: Tables, v: Member, c: Member, now: int)
    requires (v, c) !in s.seen
    ensures s.grants + GrantsTo(v, {} + {c}, now) == s.grants[(v, c) := NewGrant(v, c, now)]
    ensures SeenBy(v, {} + {c}, now) + s.seen == s.seen[(v, c) := now]
    ensures Elements([c]) == {} + {c}
  {
    assert GrantsTo(v, {}, now) == map[] && SeenBy(v, {}, now) == map[];
    IssueAdd(s, v, {}, c, now);
  }

  lemma StoryGrants(a: Member, b: Member, n: nat)
    requires a != b && n in {0, 1, 6}
    ensures Enabled(StoryState(a, b, n), Story(a, b)[n]) && StoryState(a, b, n + 1) == Step(StoryState(a, b, n), Story(a, b)[n])
  {
    if n == 1 {
      IssueOne(StoryState(a, b, 1), b, a, 0);
    } else {
      IssueOne(StoryState(a, b, n), a, b, if n == 0 then 0 else 700000);
    }
  }

  lemma StoryLikes(a: Member, b: Member, n: nat)
    requires a != b && a != "" && b != "" && n in {2, 3}
    ensures StoryState(a, b, n + 1) == Step(StoryState(a, b, n), Story(a, b)[n])
  {
    assert {b, a} == {a, b};
    var t := Step(StoryState(a, b, n), Story(a, b)[n]);
    assert t.grants == StoryState(a, b, n + 1).grants;
    assert t.intents == StoryState(a, b, n + 1).intents;
  }

  lemma StoryEnds(a: Member, b: Member, n: nat)
    requires a != b && n in {4, 5}
    ensures Enabled(StoryState(a, b, n), Story(a, b)[n]) && StoryState(a, b, n + 1) == Step(StoryState(a, b, n), Story(a, b)[n])
  {
    assert {b, a} == {a, b};
  }

  /** A reachable state in which a like announces a match although the pair stays unmatched. */
  lemma StaleMatchAnnounced(a: Member, b: Member) returns (ops: seq<Operation>, states: seq<Tables>, op: Operation)
    requires a != b && a != "" && b != ""
    ensures Run(ops, states) && op.Like? && LikeOutcome(states[|ops|], op) == Liked(true)
    ensures {a, b} == {op.sender, op.target} && {a, b} in Step(states[|ops|], op).matches
    ensures Step(states[|ops|], op).matches[{a, b}].state.UnmatchedB?
  {
    ops, states := Story(a, b), seq(8, n requires 0 <= n < 8 => StoryState(a, b, n));
    op := Like(a, b, Some(Token(a, b, 700000)), true, 700001);
    forall n | 0 <= n < 7 ensures Enabled(states[n], ops[n]) && states[n + 1] == Step(states[n], ops[n]) {
      if n in {0, 1, 6} { StoryGrants(a, b, n); } else if n in {2, 3} { StoryLikes(a, b, n); } else { StoryEnds(a, b, n); }
    }
  }

  // ---------------------------------------------------------------- the service

  const MAINTENANCE_BATCH_SIZE := 200

  lemma IssueMore(s: Tables, viewer: Member, cs: seq<Member>, i: nat, now: int)
    requires i < |cs|
    ensures var t := Issue(s, viewer, Elements(cs[..i]), now);
            Issue(s, viewer, Elements(cs[..i + 1]), now)
            == t.(grants := t.grants[(viewer, cs[i]) := NewGrant(viewer, cs[i], now)],
                  seen := if (viewer, cs[i]) in t.seen then t.seen else t.seen[(viewer, cs[i]) := now])
  {
    var before, c := Elements(cs[..i]), cs[i];
    assert cs[..i + 1] == cs[..i] + [c];
    assert Elements(cs[..i + 1]) == before + {c};
    IssueAdd(s, viewer, before, c, now);
  }

  lemma IssueAdd(s: Tables, viewer: Member, cs: set<Member>, c: Member, now: int)
    ensures s.grants + GrantsTo(viewer, cs + {c}, now)
            == (s.grants + GrantsTo(viewer, cs, now))[(viewer, c) := NewGrant(viewer, c, now)]
    ensures var t := SeenBy(viewer, cs, now) + s.seen;
            SeenBy(viewer, cs + {c}, now) + s.seen == if (viewer, c) in t then t else t[(viewer, c) := now]
  {
    assert PairsWith(viewer, cs + {c}) == PairsWith(viewer, cs) + {(viewer, c)};
  }

  // UPDATE statements over match rows, as their WHERE clauses read the columns

  function UpdateBlocked(matches: map<set<Member>, Match>, a: Member, b: Member): map<set<Member>, Match> {
    map k | k in matches ::
      var row := matches[k];
      if (row.memberA == a && row.memberB == b) || (row.memberA == b && row.memberB == a) then row.(state := BlockedA) else row
  }

  function UpdateUnmatched(matches: map<set<Member>, Match>, a: Member, b: Member, st: MatchState): map<set<Member>, Match> {
    map k | k in matches ::
      var row := matches[k];
      if row.memberA == a && row.memberB == b && row.state.MatchActive? then row.(state := st) else row
  }

  function UpdateDeleted(matches: map<set<Member>, Match>, m: Member): map<set<Member>, Match> {
    map k | k in matches ::
      var row := matches[k];
      if (row.memberA == m || row.memberB == m) && row.state.MatchActive? then row.(state := UnmatchedA) else row
  }

  lemma RowOf(matches: map<set<Member>, Match>, k: set<Member>, a: Member, b: Member)
    requires WellKeyed(matches) && k in matches
    ensures k == {a, b} <==>
            (matches[k].memberA == a && matches[k].memberB == b) || (matches[k].memberA == b && matches[k].memberB == a)
  {
    if k == {a, b} {
      assert matches[k].memberA in {a, b} && matches[k].memberB in {a, b};
      assert a in {matches[k].memberA, matches[k].memberB} && b in {matches[k].memberA, matches[k].memberB};
    }
  }

  lemma UpdateBlockedKeyed(matches: map<set<Member>, Match>, a: Member, b: Member)
    requires WellKeyed(matches)
    ensures UpdateBlocked(matches, a, b)
            == if {a, b} in matches then matches[{a, b} := matches[{a, b}].(state := BlockedA)] else matches
  {
    forall k | k in matches { RowOf(matches, k, a, b); }
  }

  lemma UpdateUnmatchedKeyed(matches: map<set<Member>, Match>, a: Member, b: Member, st: MatchState)
    requires WellKeyed(matches)
    ensures UpdateUnmatched(matches, a, b, st)
            == if {a, b} in matches && matches[{a, b}].memberA == a && matches[{a, b}].state.MatchActive?
               then matches[{a, b} := matches[{a, b}].(state := st)] else matches
  {
    forall k | k in matches { RowOf(matches, k, a, b); }
  }

  lemma UpdateDeletedKeyed(matches: map<set<Member>, Match>, m: Member)
    requires WellKeyed(matches)
    ensures UpdateDeleted(matches, m) == UnmatchAll(matches, m)
  {
  }

  class DatingStore {
    var grants: map<Pair, Grant>
    var seen: map<Pair, int>
    var intents: map<Pair, Intent>
    var matches: map<set<Member>, Match>
    var blocks: set<Pair>

    function Current(): Tables
      reads this
    {
      Tables(grants, seen, intents, matches, blocks)
    }

    constructor ()
      ensures Current() == EMPTY_TABLES
    {
      grants, seen, intents, matches, blocks := map[], map[], map[], map[], {};
    }

    /** Replaces the grant rows, and records each candidate as seen unless it already is. */
    method PersistGrants(viewer: Member, candidates: seq<Member>, now: int)
      modifies this
      ensures Current() == Step(old(Current()), IssueGrants(viewer, candidates, now))
    {
      ghost var s := Current();
      assert GrantsTo(viewer, {}, now) == map[] && SeenBy(viewer, {}, now) == map[];
      for i := 0 to |candidates|
        invariant Current() == Issue(s, viewer, Elements(candidates[..i]), now)
      {
        IssueMore(s, viewer, candidates, i, now);
        var c := candidates[i];
        grants := grants[(viewer, c) := NewGrant(viewer, c, now)];
        if (viewer, c) !in seen {
          seen := seen[(viewer, c) := now];
        }
      }
      assert candidates[..|candidates|] == candidates;
    }

    /** Changed preferences make the viewer's outstanding grants stale. */
    method DropGrantsOf(viewer: Member, now: int)
      modifies this`grants
      ensures Current() == Step(old(Current()), ChangePreferences(viewer, now))
    {
      grants := map p | p in grants && p.0 != viewer :: grants[p];
    }

    method HandleLike(sender: Member, target: Member, token: Option<Token>, withinQuota: bool, now: int) returns (r: LikeResult)
      modifies this
      ensures r == LikeOutcome(old(Current()), Like(sender, target, token, withinQuota, now))
      ensures Current() == Step(old(Current()), Like(sender, target, token, withinQuota, now))
    {
      if target == "" || target == sender {
        return InvalidTarget;
      }
      if token.None? {
        return MissingGrant;
      }
      if !withinQuota {
        return RateLimited;
      }
      var consumed := set p | p in grants && p == (sender, target) && grants[p].token == token.value && grants[p].expiresAt > now;
      assert ConsumesGrant(Current(), sender, target, token, now) ==> (sender, target) in consumed;
      if consumed == {} {
        return NoValidGrant;
      }
      assert consumed == {(sender, target)};
      grants := grants - consumed;
      if (sender, target) !in intents {
        intents := intents[(sender, target) := Intent(IntentActive, now, now + LIKE_EXPIRY)];
      }
      var reciprocal := (target, sender) in intents && intents[(target, sender)].state.IntentActive?;
      if reciprocal {
        if {sender, target} !in matches {
          matches := matches[{sender, target} := Match(sender, target, MatchActive)];
        }
      }
      r := Liked(reciprocal);
    }

    method HandleRevoke(sender: Member, target: Member, now: int)
      modifies this`intents
      ensures Current() == Step(old(Current()), Revoke(sender, target, now))
    {
      if (sender, target) in intents {
        intents := intents[(sender, target) := intents[(sender, target)].(state := Revoked)];
      }
    }

    method CreateBlock(member: Member, target: Member, now: int)
      requires WellKeyed(matches)
      modifies this
      ensures Current() == Step(old(Current()), Block(member, target, now))
    {
      blocks := blocks + {(member, target)};
      UpdateBlockedKeyed(matches, member, target);
      matches := UpdateBlocked(matches, member, target);
      intents := RevokeIntents(intents, {(member, target), (target, member)});
      grants := grants - {(member, target), (target, member)};
    }

    method RemoveBlock(member: Member, target: Member, now: int)
      modifies this`blocks
      ensures Current() == Step(old(Current()), Unblock(member, target, now))
    {
      blocks := blocks - {(member, target)};
    }

    /** Tries the row with the member on one side, and only if that changed nothing, on the other. */
    method CreateUnmatch(member: Member, target: Member, now: int)
      requires WellKeyed(matches)
      modifies this`matches
      ensures Current() == Step(old(Current()), Unmatch(member, target, now))
    {
      var first := matches;
      UpdateUnmatchedKeyed(first, member, target, UnmatchedA);
      UpdateUnmatchedKeyed(first, target, member, UnmatchedB);
      matches := UpdateUnmatched(first, member, target, UnmatchedA);
      assert {target, member} == {member, target};
      if {member, target} in first {
        RowOf(first, {member, target}, member, target);
        assert first[{member, target}].memberA == member && first[{member, target}].state.MatchActive?
               ==> matches[{member, target}] != first[{member, target}];
      }
      if matches == first {
        matches := UpdateUnmatched(matches, target, member, UnmatchedB);
      }
    }

    method DeleteAccountOf(member: Member, now: int)
      requires WellKeyed(matches)
      modifies this
      ensures Current() == Step(old(Current()), DeleteAccount(member, now))
    {
      UpdateDeletedKeyed(matches, member);
      intents := RevokeIntents(intents, set p | p in intents && p.0 == member);
      matches := UpdateDeleted(matches, member);
      blocks := set p | p in blocks && !Involves(p, member);
      grants := grants - set p | p in grants && Involves(p, member);
    }

    /** Deletes at most one batch of expired grants; fewer than a batch means none is left. */
    method PruneExpiredGrants(now: int) returns (pruned: set<Pair>)
      modifies this`grants
      ensures Enabled(old(Current()), PruneGrants(pruned, now))
      ensures Current() == Step(old(Current()), PruneGrants(pruned, now))
      ensures |pruned| <= 200
      ensures |pruned| < 200 ==> forall p | p in grants :: grants[p].expiresAt >= now
    {
      pruned := {};
      var expired := set p | p in grants && grants[p].expiresAt < now;
      while expired != {} && |pruned| < MAINTENANCE_BATCH_SIZE
        invariant |pruned| <= MAINTENANCE_BATCH_SIZE && expired !! pruned
        invariant pruned + expired == set p | p in grants && grants[p].expiresAt < now
        decreases |expired|
      {
        var p :| p in expired;
        expired := expired - {p};
        pruned := pruned + {p};
      }
      grants := grants - pruned;
    }

    method PurgeStaleSeenCandidates(now: int) returns (purged: set<Pair>)
      modifies this`seen
      ensures Enabled(old(Current()), PurgeSeen(purged, now))
      ensures Current() == Step(old(Current()), PurgeSeen(purged, now))
      ensures |purged| <= 200
      ensures |purged| < 200 ==> forall p | p in seen :: seen[p] >= now - 604800
    {
      var cutoff := now - SEEN_RETENTION;
      purged := {};
      var stale := set p | p in seen && seen[p] < cutoff;
      while stale != {} && |purged| < MAINTENANCE_BATCH_SIZE
        invariant |purged| <= MAINTENANCE_BATCH_SIZE && stale !! purged
        invariant purged + stale == set p | p in seen && seen[p] < cutoff
        decreases |stale|
      {
        var p :| p in stale;
        stale := stale - {p};
        purged := purged + {p};
      }
      seen := seen - purged;
    }
  }
}
