/** What each profile request does to its member's three rows, and what a deletion amounts to over runs. */
module MemberRows {
  import opened Membership
  import opened Options

  /** The four requests that first see to it that the member exists. */
  predicate Admits(op: Operation) {
    op.Create? || op.Update? || op.UpdateLocation? || op.UpdatePreferences?
  }

  predicate Gone(s: Tables, m: Member) {
    m in s.members && (s.members[m] == Deleted || s.members[m] == Banned)
  }

  /** Deleted and banned members are refused; a payload that fails its checks is rejected; anything else is done. */
  lemma Replies(s: Tables, op: Operation)
    ensures var r := Step(s, op).1;
            var faulty := (op.Update? && op.profile != None && !op.valid)
                          || (op.UpdateLocation? && !op.valid) || (op.UpdatePreferences? && !op.valid);
            && (r == Refused <==> Admits(op) && Gone(s, op.member))
            && (r == Rejected <==> faulty && !Gone(s, op.member))
            && (r == Done <==> !(Admits(op) && Gone(s, op.member)) && !faulty)
  {
  }

  /** The status is active from the first request on, and then what the last pause, resumption or deletion made it. */
  lemma StatusRow(s: Tables, op: Operation)
    ensures var t, m := Step(s, op).0, op.member;
            && (m in t.members <==> m in s.members || Admits(op))
            && (m in t.members ==>
                  t.members[m] == if m !in s.members then Active
                                  else if op.Pause? then Paused else if op.Resume? then Active else if op.Delete? then Deleted
                                  else s.members[m])
  {
  }

  /** The content is what was last accepted, and the visibility what was last set, by name or by one of the three. */
  lemma ProfileRow(s: Tables, op: Operation)
    requires s.profiles.Keys == s.members.Keys
    ensures var t, m := Step(s, op).0, op.member;
            var updates := op.Update? && op.profile != None && op.valid && !Gone(s, m);
            && (m in t.profiles <==> m in s.profiles || Admits(op))
            && (m in t.profiles ==>
                  && t.profiles[m].content
                     == (if updates then op.profile.value
                         else if m in s.profiles then s.profiles[m].content else Content(None, None, None))
                  && t.profiles[m].visibility
                     == if m !in s.profiles then "discoverable"
                        else if op.Pause? then "paused" else if op.Resume? then "discoverable" else if op.Delete? then "hidden"
                        else if op.SetVisibility? then op.visibility else s.profiles[m].visibility)
  {
  }

  /** The row of the index has the content and location of the member, and is visible if that is wanted and the member active. */
  lemma IndexRow(s: Tables, op: Operation)
    requires Mirrors(s) && op.member in s.index
    ensures var t, m := Step(s, op).0, op.member;
            var faulty := (op.UpdateLocation? || op.UpdatePreferences?) && !op.valid;
            var moves := op.UpdateLocation? && op.valid && !Gone(s, m);
            && m in t.index && t.index[m].geohash == (if moves then op.geohash else s.index[m].geohash)
            && (op.Pause? || op.Delete? ==> !t.index[m].visible)
            && (op.Resume? ==> t.index[m].visible && t.index[m].content == s.profiles[m].content)
            && (op.SetVisibility? ==>
                  (t.index[m].visible <==> op.visibility == "discoverable" && s.members[m] == Active))
            && (op.Create? || faulty || (Admits(op) && Gone(s, m)) ==> t.index[m] == s.index[m])
            && (op.Update? && op.profile != None && op.valid && !Gone(s, m) ==> t.index[m].content == op.profile.value)
  {
  }

  /** A new member is active and would be seen, but is not until a request refreshes the index. */
  lemma NewMember(s: Tables, m: Member)
    requires Mirrors(s) && m !in s.members
    ensures var t := Step(s, Create(m)).0;
            && t.members == s.members[m := Active] && t.profiles == s.profiles[m := Profile(Content(None, None, None), "discoverable")]
            && t.index == s.index[m := Entry(Content(None, None, None), false, "")]
  {
    assert m !in s.index && m !in s.profiles;
  }

  // ---------------------------------------------------------------- runs

  lemma RunSnoc(ops: seq<Operation>, n: nat)
    requires n < |ops|
    ensures Run(ops[..n + 1]) == Step(Run(ops[..n]), ops[n]).0
  {
    assert ops[..n + 1][..n] == ops[..n];
  }

  lemma {:induction false} StaysDeleted(ops: seq<Operation>, i: nat, j: nat, m: Member)
    requires i < j <= |ops| && ops[i] == Delete(m) && m in Run(ops[..i]).members
    requires forall k | i < k < j :: ops[k] != Resume(m) && ops[k] != Pause(m)
    ensures m in Run(ops[..j]).members && Run(ops[..j]).members[m] == Deleted
    decreases j
  {
    RunSnoc(ops, j - 1);
    var s, op := Run(ops[..j - 1]), ops[j - 1];
    if op.member == m { StatusRow(s, op); } else { StepLeavesOthers(s, op, m); }
    if i < j - 1 { StaysDeleted(ops, i, j - 1, m); }
  }

  /** A deleted member who neither resumes nor pauses stays deleted: invisible, and refused whatever is asked. */
  lemma DeletedMeans(ops: seq<Operation>, i: nat, m: Member, op: Operation)
    requires i < |ops| && ops[i] == Delete(m) && m in Run(ops[..i]).members
    requires forall k | i < k < |ops| :: ops[k] != Resume(m) && ops[k] != Pause(m)
    ensures m in Run(ops).index ==> !Run(ops).index[m].visible
    ensures op.member == m && Admits(op) ==> Step(Run(ops), op) == (Run(ops), Refused)
  {
    assert ops[..|ops|] == ops;
    StaysDeleted(ops, i, |ops|, m);
    VisibleMeansDiscoverable(ops);
    if op.member == m && Admits(op) {
      Replies(Run(ops), op);
      RefusedChangesNothing(Run(ops), op);
    }
  }

  /** Resuming asks nothing of the status: whoever is in the index is active and visible afterwards, even once deleted. */
  lemma ResumingRevives(s: Tables, m: Member)
    requires Mirrors(s) && m in s.index
    ensures var t := Step(s, Resume(m)).0; t.members[m] == Active && t.index[m].visible
  {
    StatusRow(s, Resume(m));
    IndexRow(s, Resume(m));
  }

  /** A member who was deleted and resumes is visible again. */
  lemma RevivedMember(m: Member)
    ensures var s := Run([Create(m), Delete(m)]);
            m in s.members && s.members[m] == Deleted && m in s.index && Step(s, Resume(m)).0.index[m].visible
  {
    var ops := [Create(m), Delete(m)];
    assert ops[..0] == [] && ops[..1][..0] == [] && ops[..2] == ops;
    RunSnoc(ops, 0);
    RunSnoc(ops, 1);
    VisibleMeansDiscoverable(ops);
    ResumingRevives(Run(ops), m);
  }
}
