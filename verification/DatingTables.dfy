/** What each operation of the dating protocol does to each table, row by row, and what runs make of it. */
module DatingTables {
  import opened Dating
  import opened Options

  // ---------------------------------------------------------------- likes

  /** The like names another member and presents the token of an unexpired grant, within the daily quota. */
  predicate GoesThrough(s: Tables, op: Operation) {
    && op.Like? && op.target != "" && op.target != op.sender && op.withinQuota
    && (op.sender, op.target) in s.grants
    && op.token == Some(s.grants[(op.sender, op.target)].token) && op.now < s.grants[(op.sender, op.target)].expiresAt
  }

  predicate LikedBack(s: Tables, op: Operation)
    requires op.Like?
  {
    (op.target, op.sender) in s.intents && s.intents[(op.target, op.sender)].state == IntentActive
  }

  /** Every answer to a like, and exactly when it is given. */
  lemma LikesAnswered(s: Tables, op: Operation)
    requires op.Like?
    ensures var r, named := LikeOutcome(s, op), op.target != "" && op.target != op.sender;
            && (r == InvalidTarget <==> !named)
            && (r == MissingGrant <==> named && op.token == None)
            && (r == RateLimited <==> named && op.token != None && !op.withinQuota)
            && (r == NoValidGrant <==> named && op.token != None && op.withinQuota && !GoesThrough(s, op))
            && (r == Liked(true) <==> GoesThrough(s, op) && LikedBack(s, op))
            && (r == Liked(false) <==> GoesThrough(s, op) && !LikedBack(s, op))
  {
  }

  // ---------------------------------------------------------------- the tables, row by row

  predicate DropsGrant(s: Tables, op: Operation, p: Pair) {
    match op
    case ChangePreferences(v, _) => p.0 == v
    case Like(a, b, _, _, _) => p == (a, b) && GoesThrough(s, op)
    case Block(a, b, _) => p == (a, b) || p == (b, a)
    case DeleteAccount(m, _) => p.0 == m || p.1 == m
    case PruneGrants(ps, _) => p in ps
    case _ => false
  }

  lemma GrantRow(s: Tables, op: Operation, p: Pair)
    ensures p in Step(s, op).grants
            <==> (op.IssueGrants? && op.viewer == p.0 && p.1 in op.candidates) || (p in s.grants && !DropsGrant(s, op, p))
    ensures p in Step(s, op).grants ==>
              Step(s, op).grants[p]
              == if op.IssueGrants? && op.viewer == p.0 && p.1 in op.candidates
                 then Grant(Token(p.0, p.1, op.now), op.now, op.now + 86400) else s.grants[p]
  {
    if op.Like? { LikesAnswered(s, op); }
  }

  lemma SeenRow(s: Tables, op: Operation, p: Pair)
    ensures p in Step(s, op).seen
            <==> (op.IssueGrants? && op.viewer == p.0 && p.1 in op.candidates)
                 || (p in s.seen && !(op.PurgeSeen? && p in op.purged))
    ensures p in Step(s, op).seen ==> Step(s, op).seen[p] == if p in s.seen then s.seen[p] else op.now
  {
  }

  predicate RevokesIntent(op: Operation, p: Pair) {
    match op
    case Revoke(a, b, _) => p == (a, b)
    case Block(a, b, _) => p == (a, b) || p == (b, a)
    case DeleteAccount(m, _) => p.0 == m
    case _ => false
  }

  lemma IntentRow(s: Tables, op: Operation, p: Pair)
    ensures p in Step(s, op).intents <==> p in s.intents || (GoesThrough(s, op) && p == (op.sender, op.target))
    ensures p in Step(s, op).intents && p !in s.intents ==>
              Step(s, op).intents[p] == Intent(IntentActive, op.now, op.now + 7776000)
    ensures p in s.intents ==>
              Step(s, op).intents[p] == if RevokesIntent(op, p) then s.intents[p].(state := Revoked) else s.intents[p]
  {
    if op.Like? { LikesAnswered(s, op); }
  }

  /** The state a match row is left in. */
  function StateAfter(op: Operation, row: Match): MatchState {
    match op
    case Block(a, b, _) =>
      if {a, b} == {row.memberA, row.memberB} then BlockedA else row.state
    case Unmatch(m, t, _) =>
      if row.state != MatchActive then row.state
      else if row.memberA == m && row.memberB == t then UnmatchedA
      else if row.memberA == t && row.memberB == m then UnmatchedB else row.state
    case DeleteAccount(m, _) =>
      if row.state == MatchActive && (row.memberA == m || row.memberB == m) then UnmatchedA else row.state
    case _ => row.state
  }

  lemma MatchRow(s: Tables, op: Operation, k: set<Member>)
    requires WellKeyed(s.matches)
    ensures k in Step(s, op).matches
            <==> k in s.matches || (GoesThrough(s, op) && LikedBack(s, op) && k == {op.sender, op.target})
    ensures k in Step(s, op).matches && k !in s.matches ==> Step(s, op).matches[k] == Match(op.sender, op.target, MatchActive)
    ensures k in s.matches ==> Step(s, op).matches[k] == s.matches[k].(state := StateAfter(op, s.matches[k]))
  {
    if op.Like? { LikesAnswered(s, op); }
    if op.Unmatch? && k in s.matches { RowOf(s.matches, k, op.member, op.target); }
  }

  predicate LiftsBlock(op: Operation, p: Pair) {
    match op
    case Unblock(a, b, _) => p == (a, b)
    case DeleteAccount(m, _) => p.0 == m || p.1 == m
    case _ => false
  }

  lemma BlockRow(s: Tables, op: Operation, p: Pair)
    ensures p in Step(s, op).blocks
            <==> (op.Block? && p == (op.blocker, op.blocked)) || (p in s.blocks && !LiftsBlock(op, p))
  {
  }

  // ---------------------------------------------------------------- blocks over runs

  /** Operation i blocks, and nothing before state j lifts that block again. */
  predicate BlockStands(ops: seq<Operation>, i: nat, j: nat, p: Pair) {
    && i < j <= |ops| && ops[i].Block? && p == (ops[i].blocker, ops[i].blocked)
    && forall m | i < m < j :: !LiftsBlock(ops[m], p)
  }

  /** The stored blocks are exactly the blocks that were made and not lifted since, each in its own direction. */
  lemma {:induction false} BlocksAreThoseMade(ops: seq<Operation>, states: seq<Tables>, j: nat, p: Pair)
    requires Run(ops, states) && j < |states|
    ensures p in states[j].blocks <==> exists i: nat :: BlockStands(ops, i, j, p)
  {
    if j > 0 {
      BlocksAreThoseMade(ops, states, j - 1, p);
      BlockRow(states[j - 1], ops[j - 1], p);
      if i: nat :| BlockStands(ops, i, j, p) {
        assert i < j - 1 ==> BlockStands(ops, i, j - 1, p);
      }
      var front: nat := j - 1;
      if i: nat :| BlockStands(ops, i, front, p) {
        assert !LiftsBlock(ops[j - 1], p) ==> BlockStands(ops, i, j, p);
      }
      if ops[j - 1].Block? && p == (ops[j - 1].blocker, ops[j - 1].blocked) {
        assert BlockStands(ops, j - 1, j, p);
      }
    }
  }

  lemma NoGrantAcrossBlock(s: Tables, op: Operation, v: Member, c: Member)
    requires op.IssueGrants? && Enabled(s, op) && ((v, c) in s.blocks || (c, v) in s.blocks)
    ensures !(op.viewer == v && c in op.candidates)
  {
    assert c in op.candidates ==> Grantable(s, op.viewer, c, op.now);
  }

  /** Since a block that nobody lifted: no grant, no like that goes through, and no match but a blocked one. */
  lemma NothingSinceBlock(ops: seq<Operation>, states: seq<Tables>, i: nat, j: nat, a: Member, b: Member)
    requires Run(ops, states) && j < |states| && (BlockStands(ops, i, j, (a, b)) || BlockStands(ops, i, j, (b, a)))
    ensures (a, b) !in states[j].grants && (b, a) !in states[j].grants
    ensures {a, b} in states[j].matches ==> states[j].matches[{a, b}].state == BlockedA
    ensures forall op: Operation | GoesThrough(states[j], op) :: (op.sender, op.target) != (a, b) && (op.sender, op.target) != (b, a)
    ensures forall op: Operation | Enabled(states[j], op) && op.IssueGrants? ::
              !(op.viewer == a && b in op.candidates) && !(op.viewer == b && a in op.candidates)
  {
    BlocksAreThoseMade(ops, states, j, (a, b));
    BlocksAreThoseMade(ops, states, j, (b, a));
    NothingAcrossBlock(ops, states, j, j, a, b);
    forall op: Operation | Enabled(states[j], op) && op.IssueGrants?
      ensures !(op.viewer == a && b in op.candidates) && !(op.viewer == b && a in op.candidates)
    {
      NoGrantAcrossBlock(states[j], op, a, b);
      NoGrantAcrossBlock(states[j], op, b, a);
    }
  }

  // ---------------------------------------------------------------- likes over runs

  /** Only time can make the grant useless. */
  predicate LeavesGrant(s: Tables, op: Operation, p: Pair) {
    op.PruneGrants? || !DropsGrant(s, op, p)
  }

  lemma NoSecondGrant(ops: seq<Operation>, states: seq<Tables>, i: nat, m: nat, a: Member, b: Member)
    requires Run(ops, states) && i < m < |ops| && Grants(ops[i], a, b) && ops[m].now < ops[i].now + 86400
    ensures !Grants(ops[m], a, b)
  {
    if Grants(ops[m], a, b) { GrantsAreAWeekApart(ops, states, i, m, a, b); }
  }

  lemma {:induction false} GrantLasts(ops: seq<Operation>, states: seq<Tables>, i: nat, k: nat, a: Member, b: Member)
    requires Run(ops, states) && i < k <= |ops| && Grants(ops[i], a, b)
    requires forall m | i < m < k :: LeavesGrant(states[m], ops[m], (a, b)) && ops[m].now < ops[i].now + 86400
    ensures (a, b) in states[k].grants
            && states[k].grants[(a, b)] == Grant(Token(a, b, ops[i].now), ops[i].now, ops[i].now + 86400)
    decreases k
  {
    GrantRow(states[k - 1], ops[k - 1], (a, b));
    if i < k - 1 {
      GrantLasts(ops, states, i, k - 1, a, b);
      assert Enabled(states[k - 1], ops[k - 1]);
      NoSecondGrant(ops, states, i, k - 1, a, b);
    }
  }

  /** A grant is good for a day: a like with its token goes through unless the grant was spent or withdrawn. */
  lemma GrantedLikeGoesThrough(ops: seq<Operation>, states: seq<Tables>, i: nat, k: nat, a: Member, b: Member)
    requires Run(ops, states) && i < k < |ops| && Grants(ops[i], a, b) && b != ""
    requires forall m | i < m < k :: LeavesGrant(states[m], ops[m], (a, b))
    requires ops[k] == Like(a, b, Some(Token(a, b, ops[i].now)), true, ops[k].now) && ops[k].now < ops[i].now + 86400
    ensures GoesThrough(states[k], ops[k]) && LikeOutcome(states[k], ops[k]).Liked?
  {
    assert Enabled(states[i], ops[i]) && Grantable(states[i], a, b, ops[i].now);
    assert forall m | i < m < k :: ops[m].now <= ops[k].now;
    GrantLasts(ops, states, i, k, a, b);
  }

  lemma {:induction false} IntentLasts(ops: seq<Operation>, states: seq<Tables>, i: nat, k: nat, p: Pair)
    requires Run(ops, states) && i < k < |states| && AcceptedLike(states[i], ops[i], p.0, p.1)
    requires forall m | 0 <= m < k :: !RevokesIntent(ops[m], p)
    ensures p in states[k].intents && states[k].intents[p].state == IntentActive
    decreases k
  {
    LikesAnswered(states[i], ops[i]);
    IntentRow(states[k - 1], ops[k - 1], p);
    if i < k - 1 {
      IntentLasts(ops, states, i, k - 1, p);
    } else if p in states[i].intents {
      var m := IntentOrigin(ops, states, i, p);
      IntentLasts(ops, states, m, i, p);
    }
  }

  /** Two members who like each other are matched by the second like, unless the first took theirs back. */
  lemma MutualLikesMatch(ops: seq<Operation>, states: seq<Tables>, i: nat, k: nat, a: Member, b: Member)
    requires Run(ops, states) && i < k < |ops|
    requires AcceptedLike(states[i], ops[i], a, b) && AcceptedLike(states[k], ops[k], b, a)
    requires forall m | 0 <= m < k :: !RevokesIntent(ops[m], (a, b))
    ensures LikeOutcome(states[k], ops[k]) == Liked(true) && {a, b} in states[k + 1].matches
    ensures {a, b} !in states[k].matches ==> states[k + 1].matches[{a, b}] == Match(b, a, MatchActive)
  {
    IntentLasts(ops, states, i, k, (a, b));
    RunWellKeyed(ops, states, k);
    LikesAnswered(states[k], ops[k]);
    assert {b, a} == {a, b};
    MatchRow(states[k], ops[k], {a, b});
  }
}
