/** Members, profiles and the discovery index that mirrors them. */
module Membership {
  import opened Options

  type Member = string

  datatype Status = Active | Paused | Deleted | Banned

  /** The columns of a profile that discovery filters on. */
  datatype Content = Content(age: Option<int>, gender: Option<string>, intent: Option<string>)
  datatype Profile = Profile(content: Content, visibility: string)
  datatype Entry = Entry(content: Content, visible: bool, geohash: string)

  datatype Tables = Tables(members: map<Member, Status>, profiles: map<Member, Profile>, index: map<Member, Entry>)

  const EMPTY_TABLES := Tables(map[], map[], map[])
  const NO_CONTENT := Content(None, None, None)
  const DISCOVERABLE := "discoverable"

  datatype Reply = Done | Refused | Rejected

  /** One request; `valid` is the verdict of the payload checks, and an update may come without a profile. */
  datatype Operation =
    | Create(member: Member)
    | Update(member: Member, profile: Option<Content>, valid: bool)
    | Pause(member: Member)
    | Resume(member: Member)
    | Delete(member: Member)
    | SetVisibility(member: Member, visibility: string)
    | UpdateLocation(member: Member, geohash: string, valid: bool)
    | UpdatePreferences(member: Member, valid: bool)

  // ---------------------------------------------------------------- statements

  function Created(s: Tables, m: Member): Tables {
    Tables(
      if m in s.members then s.members else s.members[m := Active],
      if m in s.profiles then s.profiles else s.profiles[m := Profile(NO_CONTENT, DISCOVERABLE)],
      if m in s.index then s.index else s.index[m := Entry(NO_CONTENT, false, "")])
  }

  /** A known member who is neither deleted nor banned, or a new one. */
  predicate Admitted(s: Tables, m: Member) {
    m in s.members ==> !s.members[m].Deleted? && !s.members[m].Banned?
  }

  function Ensured(s: Tables, m: Member): Tables {
    if m in s.members then s else Created(s, m)
  }

  /** The batch behind pausing, resuming and deleting: three updates of rows that may not exist. */
  function Marked(s: Tables, m: Member, status: Status, visibility: string, visible: bool): Tables {
    Tables(
      if m in s.members then s.members[m := status] else s.members,
      if m in s.profiles then s.profiles[m := s.profiles[m].(visibility := visibility)] else s.profiles,
      if m in s.index then s.index[m := s.index[m].(visible := visible)] else s.index)
  }

  function WithContent(s: Tables, m: Member, c: Content): Tables {
    s.(profiles := s.profiles[m := if m in s.profiles then s.profiles[m].(content := c) else Profile(c, DISCOVERABLE)])
  }

  function WithVisibility(s: Tables, m: Member, visibility: string): Tables {
    s.(profiles := if m in s.profiles then s.profiles[m := s.profiles[m].(visibility := visibility)] else s.profiles,
       index := if m in s.index then s.index[m := s.index[m].(visible := visibility == DISCOVERABLE)] else s.index)
  }

  function WithLocation(s: Tables, m: Member, geohash: string): Tables {
    s.(index := s.index[m := if m in s.index then s.index[m].(geohash := geohash) else Entry(NO_CONTENT, false, geohash)])
  }

  predicate Discoverable(s: Tables, m: Member) {
    && m in s.members && s.members[m].Active?
    && m in s.profiles && s.profiles[m].visibility == DISCOVERABLE
  }

  function ContentOf(s: Tables, m: Member): Content {
    if m in s.profiles then s.profiles[m].content else NO_CONTENT
  }

  /** Mirrors a member's profile into the index; the location is kept. */
  function Synced(s: Tables, m: Member): Tables {
    if m !in s.members then s
    else
      var geohash := if m in s.index then s.index[m].geohash else "";
      s.(index := s.index[m := Entry(ContentOf(s, m), Discoverable(s, m), geohash)])
  }

  // ---------------------------------------------------------------- handlers

  function Step(s: Tables, op: Operation): (Tables, Reply) {
    var m := op.member;
    match op
    case Create(_) => if Admitted(s, m) then (Ensured(s, m), Done) else (s, Refused)
    case Update(_, profile, valid) =>
      if !Admitted(s, m) then (s, Refused)
      else
        var t := Ensured(s, m);
        if profile.None? then (t, Done)
        else if !valid then (t, Rejected)
        else (Synced(WithContent(t, m, profile.value), m), Done)
    case Pause(_) => (Synced(Marked(s, m, Paused, "paused", false), m), Done)
    case Resume(_) => (Synced(Marked(s, m, Active, DISCOVERABLE, true), m), Done)
    case Delete(_) => (Marked(s, m, Deleted, "hidden", false), Done)
    case SetVisibility(_, visibility) => (Synced(WithVisibility(s, m, visibility), m), Done)
    case UpdateLocation(_, geohash, valid) =>
      if !Admitted(s, m) then (s, Refused)
      else
        var t := Ensured(s, m);
        if !valid then (t, Rejected) else (Synced(WithLocation(t, m, geohash), m), Done)
    case UpdatePreferences(_, valid) =>
      if !Admitted(s, m) then (s, Refused)
      else
        var t := Ensured(s, m);
        if !valid then (t, Rejected) else (Synced(t, m), Done)
  }

  /** A visible row mirrors a discoverable profile of an active member, and every row is a member's. */
  ghost predicate Mirrors(s: Tables) {
    && s.index.Keys <= s.members.Keys && s.profiles.Keys == s.members.Keys
    && forall m | m in s.index && s.index[m].visible :: Discoverable(s, m) && s.index[m].content == s.profiles[m].content
  }

  function Without<V>(rows: map<Member, V>, m: Member): map<Member, V> {
    rows - {m}
  }

  predicate SameOthers(s: Tables, t: Tables, m: Member) {
    Without(t.members, m) == Without(s.members, m) && Without(t.profiles, m) == Without(s.profiles, m)
    && Without(t.index, m) == Without(s.index, m)
  }

  lemma StatementsAreLocal(s: Tables, m: Member)
    ensures SameOthers(s, Ensured(s, m), m) && SameOthers(s, Synced(s, m), m)
  {
  }

  lemma MarkingIsLocal(s: Tables, m: Member, status: Status, visibility: string, visible: bool)
    ensures SameOthers(s, Marked(s, m, status, visibility, visible), m)
  {
  }

  lemma WritesAreLocal(s: Tables, m: Member, c: Content, visibility: string, geohash: string)
    ensures SameOthers(s, WithContent(s, m, c), m) && SameOthers(s, WithVisibility(s, m, visibility), m)
    ensures SameOthers(s, WithLocation(s, m, geohash), m)
  {
  }

  /** Nobody else's rows are touched. */
  lemma StepIsLocal(s: Tables, op: Operation)
    ensures SameOthers(s, Step(s, op).0, op.member)
  {
    var m := op.member;
    StatementsAreLocal(s, m);
    match op
    case Update(_, profile, valid) =>
      if profile.Some? {
        WritesAreLocal(Ensured(s, m), m, profile.value, "", "");
        StatementsAreLocal(WithContent(Ensured(s, m), m, profile.value), m);
      }
    case Pause(_) =>
      MarkingIsLocal(s, m, Paused, "paused", false);
      StatementsAreLocal(Marked(s, m, Paused, "paused", false), m);
    case Resume(_) =>
      MarkingIsLocal(s, m, Active, DISCOVERABLE, true);
      StatementsAreLocal(Marked(s, m, Active, DISCOVERABLE, true), m);
    case Delete(_) => MarkingIsLocal(s, m, Deleted, "hidden", false);
    case SetVisibility(_, visibility) =>
      WritesAreLocal(s, m, NO_CONTENT, visibility, "");
      StatementsAreLocal(WithVisibility(s, m, visibility), m);
    case UpdateLocation(_, geohash, _) =>
      WritesAreLocal(Ensured(s, m), m, NO_CONTENT, "", geohash);
      StatementsAreLocal(WithLocation(Ensured(s, m), m, geohash), m);
    case UpdatePreferences(_, _) => StatementsAreLocal(Ensured(s, m), m);
    case Create(_) =>
  }

  lemma StepLeavesOthers(s: Tables, op: Operation, m: Member)
    requires m != op.member
    ensures var t := Step(s, op).0;
            && (m in t.members <==> m in s.members) && (m in s.members ==> t.members[m] == s.members[m])
            && (m in t.profiles <==> m in s.profiles) && (m in s.profiles ==> t.profiles[m] == s.profiles[m])
            && (m in t.index <==> m in s.index) && (m in s.index ==> t.index[m] == s.index[m])
  {
    var t := Step(s, op).0;
    StepIsLocal(s, op);
    assert m in t.members <==> m in Without(t.members, op.member);
    assert m in t.profiles <==> m in Without(t.profiles, op.member);
    assert m in t.index <==> m in Without(t.index, op.member);
    assert m in s.members ==> s.members[m] == Without(s.members, op.member)[m];
    assert m in s.profiles ==> s.profiles[m] == Without(s.profiles, op.member)[m];
    assert m in s.index ==> s.index[m] == Without(s.index, op.member)[m];
  }

  lemma StepMirrorsOwn(s: Tables, op: Operation)
    requires Mirrors(s)
    ensures var t, m := Step(s, op).0, op.member;
            && (m in t.index ==> m in t.members) && (m in t.profiles <==> m in t.members)
            && (m in t.index && t.index[m].visible ==> Discoverable(t, m) && t.index[m].content == t.profiles[m].content)
  {
  }

  lemma StepMirrors(s: Tables, op: Operation)
    requires Mirrors(s)
    ensures Mirrors(Step(s, op).0)
  {
    var t := Step(s, op).0;
    StepMirrorsOwn(s, op);
    forall m
      ensures (m in t.index ==> m in t.members) && (m in t.profiles <==> m in t.members)
      ensures m in t.index && t.index[m].visible ==> Discoverable(t, m) && t.index[m].content == t.profiles[m].content
    {
      if m != op.member { StepLeavesOthers(s, op, m); }
    }
    assert t.profiles.Keys == t.members.Keys;
  }

  function Run(ops: seq<Operation>): Tables {
    if ops == [] then EMPTY_TABLES else Step(Run(ops[..|ops| - 1]), ops[|ops| - 1]).0
  }

  /** In every reachable state, whoever discovery can see is an active member who wants to be seen, as they are. */
  lemma {:induction false} VisibleMeansDiscoverable(ops: seq<Operation>)
    ensures Mirrors(Run(ops))
  {
    if ops != [] {
      VisibleMeansDiscoverable(ops[..|ops| - 1]);
      StepMirrors(Run(ops[..|ops| - 1]), ops[|ops| - 1]);
    }
  }

  /** The requests that refresh the index, when they are not turned away. */
  predicate Refreshes(s: Tables, op: Operation) {
    match op
    case Create(_) => false
    case Update(m, profile, valid) => Admitted(s, m) && profile.Some? && valid
    case UpdateLocation(m, _, valid) => Admitted(s, m) && valid
    case UpdatePreferences(m, valid) => Admitted(s, m) && valid
    case _ => op.member in s.members
  }

  /** After a refreshing request the member is visible exactly when discoverable, with the profile's content. */
  lemma RefreshedExactly(s: Tables, op: Operation)
    requires Mirrors(s) && Refreshes(s, op) && (op.Delete? ==> op.member in s.index)
    ensures var t, m := Step(s, op).0, op.member;
            && m in t.index && (t.index[m].visible <==> Discoverable(t, m))
            && (!op.Delete? ==> t.index[m].content == t.profiles[m].content)
  {
  }

  /** A refused request changes nothing. */
  lemma RefusedChangesNothing(s: Tables, op: Operation)
    ensures Step(s, op).1.Refused? ==> Step(s, op).0 == s && op.member in s.members
  {
  }

  /** Setting visibility shows a paused member until the index is refreshed: the two statements belong together. */
  lemma VisibilityAloneShowsPaused(s: Tables, m: Member)
    requires Mirrors(s) && m in s.index && s.members[m].Paused?
    ensures !Mirrors(WithVisibility(s, m, DISCOVERABLE)) && Mirrors(Synced(WithVisibility(s, m, DISCOVERABLE), m))
  {
    var t := WithVisibility(s, m, DISCOVERABLE);
    assert t.index[m].visible && !Discoverable(t, m);
    StepMirrors(s, SetVisibility(m, DISCOVERABLE));
  }

  // ---------------------------------------------------------------- the store

  class MembershipStore {
    var members: map<Member, Status>
    var profiles: map<Member, Profile>
    var index: map<Member, Entry>

    function Current(): Tables
      reads this
    {
      Tables(members, profiles, index)
    }

    constructor ()
      ensures Current() == EMPTY_TABLES
    {
      members, profiles, index := map[], map[], map[];
    }

    method CreateMember(m: Member)
      modifies this
      ensures Current() == Created(old(Current()), m)
    {
      if m !in members {
        members := members[m := Active];
      }
      if m !in profiles {
        profiles := profiles[m := Profile(NO_CONTENT, DISCOVERABLE)];
      }
      if m !in index {
        index := index[m := Entry(NO_CONTENT, false, "")];
      }
    }

    /** False stands for the exception thrown at deleted and banned members. */
    method EnsureMember(m: Member) returns (ok: bool)
      modifies this
      ensures ok == Admitted(old(Current()), m)
      ensures Current() == if ok then Ensured(old(Current()), m) else old(Current())
    {
      if m in members {
        return members[m] != Deleted && members[m] != Banned;
      }
      CreateMember(m);
      return true;
    }

    method Mark(m: Member, status: Status, visibility: string, visible: bool)
      modifies this
      ensures Current() == Marked(old(Current()), m, status, visibility, visible)
    {
      if m in members {
        members := members[m := status];
      }
      if m in profiles {
        profiles := profiles[m := profiles[m].(visibility := visibility)];
      }
      if m in index {
        index := index[m := index[m].(visible := visible)];
      }
    }

    method UpdateProfileContent(m: Member, c: Content)
      modifies this`profiles
      ensures Current() == WithContent(old(Current()), m, c)
    {
      if m in profiles {
        profiles := profiles[m := profiles[m].(content := c)];
      } else {
        profiles := profiles[m := Profile(c, DISCOVERABLE)];
      }
    }

    method SyncDiscoveryIndex(m: Member)
      modifies this`index
      ensures Current() == Synced(old(Current()), m)
    {
      if m !in members {
        return;
      }
      var content, visibility := NO_CONTENT, "";
      if m in profiles {
        content, visibility := profiles[m].content, profiles[m].visibility;
      }
      var visible := members[m] == Active && visibility == DISCOVERABLE;
      if m in index {
        index := index[m := index[m].(content := content, visible := visible)];
      } else {
        index := index[m := Entry(content, visible, "")];
      }
    }

    method Handle(op: Operation) returns (r: Reply)
      modifies this
      ensures (Current(), r) == Step(old(Current()), op)
    {
      var m := op.member;
      match op {
        case Create(_) =>
          var ok := EnsureMember(m);
          return if ok then Done else Refused;
        case Update(_, profile, valid) =>
          var ok := EnsureMember(m);
          if !ok {
            return Refused;
          }
          if profile.None? {
            return Done;
          }
          if !valid {
            return Rejected;
          }
          UpdateProfileContent(m, profile.value);
          SyncDiscoveryIndex(m);
        case Pause(_) =>
          Mark(m, Paused, "paused", false);
          SyncDiscoveryIndex(m);
        case Resume(_) =>
          Mark(m, Active, DISCOVERABLE, true);
          SyncDiscoveryIndex(m);
        case Delete(_) =>
          Mark(m, Deleted, "hidden", false);
        case SetVisibility(_, visibility) =>
          if m in profiles {
            profiles := profiles[m := profiles[m].(visibility := visibility)];
          }
          if m in index {
            index := index[m := index[m].(visible := visibility == DISCOVERABLE)];
          }
          SyncDiscoveryIndex(m);
        case UpdateLocation(_, geohash, valid) =>
          var ok := EnsureMember(m);
          if !ok {
            return Refused;
          }
          if !valid {
            return Rejected;
          }
          if m in index {
            index := index[m := index[m].(geohash := geohash)];
          } else {
            index := index[m := Entry(NO_CONTENT, false, geohash)];
          }
          SyncDiscoveryIndex(m);
        case UpdatePreferences(_, valid) =>
          var ok := EnsureMember(m);
          if !ok {
            return Refused;
          }
          if !valid {
            return Rejected;
          }
          SyncDiscoveryIndex(m);
      }
      return Done;
    }
  }
}
