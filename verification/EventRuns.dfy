/** What holds in every state the event store can reach. */
module EventRuns {
  import opened Nostr
  import opened Options
  import opened Schema
  import opened Sql
  import opened EventStore
  import QueryCompiler

  datatype Operation =
    | Submit(event: Event, edgeHit: bool, batches: nat)
    | PruneOnce(batch: set<string>)

  ghost predicate Step(w: Relay, op: Operation, w': Relay) {
    match op
    case Submit(e, hit, batches) => exists r: Outcome :: SubmitStep(w, e, hit, batches, w', r)
    case PruneOnce(batch) =>
      && OldestBatchOf(w.db.events, PRUNE_BATCH_SIZE, batch)
      && w'.eventCache == w.eventCache
      && w'.db == ExecAll(w.db, PruneStatements(batch))
  }

  const START := Relay(EMPTY_TABLES, {})

  ghost predicate Run(ops: seq<Operation>, states: seq<Relay>) {
    && |states| == |ops| + 1 && states[0] == START
    && forall i | 0 <= i < |ops| :: Step(states[i], ops[i], states[i + 1])
  }

  ghost function Last(states: seq<Relay>): Relay
    requires states != []
  {
    states[|states| - 1]
  }

  lemma RunPrefix(ops: seq<Operation>, states: seq<Relay>)
    requires Run(ops, states) && ops != []
    ensures Run(ops[..|ops| - 1], states[..|states| - 1])
    ensures Step(Last(states[..|states| - 1]), ops[|ops| - 1], Last(states))
  {
    assert Step(states[|ops| - 1], ops[|ops| - 1], states[|ops|]);
  }

  // ---------------------------------------------------------------- the tag tables

  lemma StepIndexed(w: Relay, op: Operation, w': Relay)
    requires Indexed(w.db) && Step(w, op, w')
    ensures Indexed(w'.db)
  {
    match op
    case PruneOnce(batch) => PruneRun(w.db, batch);
    case Submit(e, hit, batches) =>
      var r: Outcome :| SubmitStep(w, e, hit, batches, w', r);
      BatchPrefixIndexed(w.db, Deletable(w.db, e), batches);
      if w' != w {
        SaveIndexed(if e.kind == 5 then AfterBatches(w.db, Deletable(w.db, e), batches) else w.db,
                    e, hit && e.id in w.eventCache, w'.db, r);
      }
  }

  /** In every reachable state the tag tables are exactly the projection of the stored events. */
  lemma {:induction false} AlwaysIndexed(ops: seq<Operation>, states: seq<Relay>)
    requires Run(ops, states)
    ensures Indexed(Last(states).db)
  {
    if ops != [] {
      RunPrefix(ops, states);
      AlwaysIndexed(ops[..|ops| - 1], states[..|states| - 1]);
      StepIndexed(Last(states[..|states| - 1]), ops[|ops| - 1], Last(states));
    }
  }

  /** End to end: in every reachable state, every filter's query selects exactly what it accepts. */
  lemma ReachableQueriesCorrect(ops: seq<Operation>, states: seq<Relay>, f: Filter, id: string)
    requires Run(ops, states) && ValidFilter(f) && id in Last(states).db.events
    ensures var s, e := Last(states).db, Last(states).db.events[id];
            && (Selects(s, QueryCompiler.Compile(f), e) <==> QueryCompiler.Accepts(e, f))
            && (QueryCompiler.TagsIndexable(e) ==>
                  (Selects(s, QueryCompiler.Compile(f), e) <==> Matches(e, f) && AfterCursor(e, f)))
  {
    AlwaysIndexed(ops, states);
    var s, e := Last(states).db, Last(states).db.events[id];
    QueryCompiler.CompileCorrect(s, f, e);
    if QueryCompiler.TagsIndexable(e) { QueryCompiler.CompileAgreesWithMatches(s, f, e); }
  }

  // ---------------------------------------------------------------- one event per address

  datatype Address = Plain(kind: int, pubkey: string) | Named(kind: int, pubkey: string, d: string)

  /** The address a replaceable event occupies: with a nonempty first `d` tag when parameterized. */
  function AddressOf(e: Event): Option<Address> {
    if Replaceable(e.kind) then Some(Plain(e.kind, e.pubkey))
    else if Parameterized(e.kind) && FirstD(e.tags) != "" then Some(Named(e.kind, e.pubkey, FirstD(e.tags)))
    else None
  }

  ghost predicate OnePerAddress(s: Tables) {
    forall a, b | a in s.events && b in s.events && AddressOf(s.events[a]).Some?
                  && AddressOf(s.events[a]) == AddressOf(s.events[b]) :: a == b
  }

  /** An empty first `d` tag hides a later one, which is nevertheless the one stored in the column. */
  predicate Shadowed(e: Event) {
    && Parameterized(e.kind) && FirstD(e.tags) == ""
    && Column(e.tags, "d").Text? && Column(e.tags, "d").text != ""
  }

  predicate HasD(tags: seq<seq<string>>) {
    exists i | 0 <= i < |tags| :: |tags[i]| > 0 && tags[i][0] == "d"
  }

  lemma {:induction false} FirstDOfPrefix(tags: seq<seq<string>>)
    requires tags != []
    ensures var front := tags[..|tags| - 1];
            FirstD(tags) == if HasD(front) then FirstD(front) else FirstD([tags[|tags| - 1]])
  {
    var front, n := tags[..|tags| - 1], |tags| - 1;
    if n == 0 {
      assert tags == [tags[0]];
    } else {
      FirstDOfPrefix(tags[1..]);
      assert tags[1..][..n - 1] == front[1..];
      assert tags[1..][n - 1] == tags[n];
      if |tags[0]| > 0 && tags[0][0] == "d" {
        assert front[0] == tags[0];
      } else {
        assert HasD(front) <==> HasD(front[1..]) by {
          if i :| 0 <= i < |front| && |front[i]| > 0 && front[i][0] == "d" { assert front[1..][i - 1] == front[i]; }
          if i :| 0 <= i < |front[1..]| && |front[1..][i]| > 0 && front[1..][i][0] == "d" { assert front[i + 1] == front[1..][i]; }
        }
        assert front[0] == tags[0];
      }
    }
  }

  /** A nonempty first `d` value is the value of the `tag_d` column. */
  lemma {:induction false} ColumnOfFirstD(tags: seq<seq<string>>)
    ensures !HasD(tags) ==> Column(tags, "d") == Null && FirstD(tags) == ""
    ensures FirstD(tags) != "" ==> Column(tags, "d") == Text(FirstD(tags))
  {
    if tags != [] {
      var front, last := tags[..|tags| - 1], tags[|tags| - 1];
      ColumnOfFirstD(front);
      FirstDOfPrefix(tags);
      assert [last][1..] == [];
      if HasD(front) {
        var i :| 0 <= i < |front| && |front[i]| > 0 && front[i][0] == "d";
        assert tags[i] == front[i];
      }
    }
  }

  lemma RivalsAreNeighbours(x: Event, e: Event)
    requires AddressOf(e).Some?
    ensures AddressOf(x) == AddressOf(e) ==> RivalOf(x, e)
    ensures RivalOf(x, e) ==> AddressOf(x) == AddressOf(e) || Shadowed(x)
  {
    ColumnOfFirstD(x.tags);
  }

  lemma InsertedAlone(s: Tables, e: Event, s': Tables, gone: set<string>)
    requires OnePerAddress(s) && e.id !in s.events && s'.events == (s.events - gone)[e.id := e]
    requires forall x | x in s.events - gone && AddressOf(e).Some? :: AddressOf(s.events[x]) != AddressOf(e)
    ensures OnePerAddress(s')
  {
  }

  /** Some older shadowed rival could be picked while the event at e's own address stays. */
  ghost predicate WrongPickPossible(s: Tables, e: Event) {
    && (exists a | a in Rivals(s, e) :: AddressOf(s.events[a]) == AddressOf(e))
    && (exists b | b in Rivals(s, e) :: Shadowed(s.events[b]) && s.events[b].createdAt < e.createdAt)
  }

  lemma RightPickUnique(s: Tables, e: Event, s': Tables)
    requires Indexed(s) && OnePerAddress(s) && AddressOf(e).Some?
    requires SaveStep(s, e, false, s', Saved) && !WrongPickPossible(s, e)
    ensures OnePerAddress(s')
  {
    SaveIndexed(s, e, false, s', Saved);
    var gone: set<string>;
    if Rivals(s, e) == {} {
      gone := {};
      assert s.events - gone == s.events;
    } else {
      var picked :| picked in Rivals(s, e) && s.events[picked].createdAt < e.createdAt
                    && s'.events == (s.events - {picked})[e.id := e];
      gone := {picked};
    }
    forall x | x in s.events - gone ensures AddressOf(s.events[x]) != AddressOf(e) {
      RivalsAreNeighbours(s.events[x], e);
      if AddressOf(s.events[x]) == AddressOf(e) {
        assert x in Rivals(s, e);
        var picked :| picked in gone;
        RivalsAreNeighbours(s.events[picked], e);
        assert false;
      }
    }
    InsertedAlone(s, e, s', gone);
  }

  lemma WrongPickBreaks(s: Tables, e: Event) returns (s': Tables)
    requires Indexed(s) && e.id !in s.events && Bindable(e) && AddressOf(e).Some? && WrongPickPossible(s, e)
    ensures SaveStep(s, e, false, s', Saved) && !OnePerAddress(s')
  {
    var a :| a in Rivals(s, e) && AddressOf(s.events[a]) == AddressOf(e);
    var b :| b in Rivals(s, e) && Shadowed(s.events[b]) && s.events[b].createdAt < e.createdAt;
    EraseIndexed(s, b);
    s' := Insert(Erase(s, b), e);
    InsertIndexed(Erase(s, b), e);
    assert ReplaceStep(s, e, b, s', Saved);
    assert a != b;
    assert s'.events[a] == s.events[a] && s'.events[e.id] == e;
  }

  /** An accepted save is sure to keep one event per address exactly when no wrong pick is possible. */
  lemma UniqueExactlyWhen(s: Tables, e: Event)
    requires Indexed(s) && OnePerAddress(s) && e.id !in s.events && Bindable(e) && AddressOf(e).Some?
    ensures (forall s' | SaveStep(s, e, false, s', Saved) :: OnePerAddress(s')) <==> !WrongPickPossible(s, e)
  {
    if WrongPickPossible(s, e) {
      var s' := WrongPickBreaks(s, e);
    } else {
      forall s' | SaveStep(s, e, false, s', Saved) ensures OnePerAddress(s') {
        RightPickUnique(s, e, s');
      }
    }
  }

  ghost predicate NoneShadowed(s: Tables) {
    forall id | id in s.events :: !Shadowed(s.events[id])
  }

  lemma UnaddressedUnique(s: Tables, e: Event, s': Tables)
    requires OnePerAddress(s) && e.id !in s.events && AddressOf(e).None? && SavedOver(s, e, s')
    ensures OnePerAddress(s')
  {
    var gone: set<string> := {};
    assert s.events - gone == s.events;
    if Rivals(s, e) != {} {
      var picked :| picked in Rivals(s, e) && s'.events == (s.events - {picked})[e.id := e];
      gone := {picked};
    }
    InsertedAlone(s, e, s', gone);
  }

  lemma FailedUnique(s: Tables, e: Event, hit: bool, s': Tables)
    requires OnePerAddress(s) && NoneShadowed(s) && SaveStep(s, e, hit, s', Failed)
    ensures OnePerAddress(s') && NoneShadowed(s')
  {
    if Rivals(s, e) != {} {
      var picked :| picked in Rivals(s, e) && ReplaceStep(s, e, picked, s', Failed);
      EraseSteps(s, picked);
    }
  }

  lemma SaveUnique(s: Tables, e: Event, hit: bool, s': Tables, r: Outcome)
    requires Indexed(s) && OnePerAddress(s) && NoneShadowed(s) && !Shadowed(e)
    requires SaveStep(s, e, hit, s', r)
    ensures OnePerAddress(s') && NoneShadowed(s')
  {
    SaveIndexed(s, e, hit, s', r);
    match r
    case Duplicate =>
    case Failed => FailedUnique(s, e, hit, s');
    case Saved =>
      if AddressOf(e).Some? {
        RightPickUnique(s, e, s');
      } else {
        UnaddressedUnique(s, e, s');
      }
  }

  lemma StepUnique(w: Relay, op: Operation, w': Relay)
    requires Indexed(w.db) && OnePerAddress(w.db) && NoneShadowed(w.db) && Step(w, op, w')
    requires op.Submit? ==> !Shadowed(op.event)
    ensures OnePerAddress(w'.db) && NoneShadowed(w'.db)
  {
    match op
    case PruneOnce(batch) => PruneRun(w.db, batch);
    case Submit(e, hit, batches) =>
      var r: Outcome :| SubmitStep(w, e, hit, batches, w', r);
      if e.kind == 5 {
        BatchPrefixIndexed(w.db, Deletable(w.db, e), batches);
        if w' != w {
          SaveUnique(AfterBatches(w.db, Deletable(w.db, e), batches), e, hit && e.id in w.eventCache, w'.db, r);
        }
      } else if w' != w {
        SaveUnique(w.db, e, hit && e.id in w.eventCache, w'.db, r);
      }
  }

  /** Over every run without shadowed `d` tags, each address holds at most one event. */
  lemma {:induction false} AlwaysOnePerAddress(ops: seq<Operation>, states: seq<Relay>)
    requires Run(ops, states)
    requires forall i | 0 <= i < |ops| :: ops[i].Submit? ==> !Shadowed(ops[i].event)
    ensures OnePerAddress(Last(states).db) && NoneShadowed(Last(states).db)
  {
    if ops != [] {
      RunPrefix(ops, states);
      AlwaysOnePerAddress(ops[..|ops| - 1], states[..|states| - 1]);
      AlwaysIndexed(ops[..|ops| - 1], states[..|states| - 1]);
      StepUnique(Last(states[..|states| - 1]), ops[|ops| - 1], Last(states));
    }
  }

  // ---------------------------------------------------------------- when uniqueness or the event is lost

  function Note(id: string, at: int, tags: seq<seq<string>>): Event {
    Event(id, "pk", at, 30000, tags, "", "sig")
  }

  lemma NoteBindable(id: string, at: int, value: string)
    ensures Bindable(Note(id, at, [["d", value]])) && Column([["d", value]], "d") == Text(value)
    ensures FirstD([["d", value]]) == value
  {
    assert [["d", value]][..0] == [];
    assert Column([], "d") == Null;
  }

  lemma ShadowBindable(id: string, at: int)
    ensures var e := Note(id, at, [["d", ""], ["d", "x"]]);
            Bindable(e) && Column(e.tags, "d") == Text("x") && FirstD(e.tags) == "" && Shadowed(e)
  {
    var tags := [["d", ""], ["d", "x"]];
    assert tags[..1] == [["d", ""]];
    NoteBindable(id, at, "");
    forall name | name in CACHED_TAGS ensures Column(tags, name) != Undefined {
      assert name != "d" ==> Column([["d", ""]], name) == Column([], name) by { assert [["d", ""]][..0] == []; }
    }
  }

  lemma FreshSave(s: Tables, e: Event) returns (s': Tables)
    requires Indexed(s) && e.id !in s.events && Bindable(e) && Rivals(s, e) == {}
    ensures SaveStep(s, e, false, s', Saved) && Indexed(s') && s'.events == s.events[e.id := e]
  {
    s' := Insert(s, e);
    InsertIndexed(s, e);
  }

  lemma ThreeSavesRun(e1: Event, e2: Event, e3: Event, s1: Tables, s2: Tables, s3: Tables)
    returns (ops: seq<Operation>, states: seq<Relay>)
    requires e1.kind == e2.kind == e3.kind == 30000
    requires SaveStep(EMPTY_TABLES, e1, false, s1, Saved)
    requires SaveStep(s1, e2, false, s2, Saved)
    requires SaveStep(s2, e3, false, s3, Saved)
    ensures Run(ops, states) && Last(states).db == s3
  {
    ops := [Submit(e1, false, 0), Submit(e2, false, 0), Submit(e3, false, 0)];
    states := [START, Relay(s1, {e1.id}), Relay(s2, {e1.id, e2.id}), Relay(s3, {e1.id, e2.id, e3.id})];
    assert SubmitStep(states[0], e1, false, 0, states[1], Saved);
    assert SubmitStep(states[1], e2, false, 0, states[2], Saved);
    assert SubmitStep(states[2], e3, false, 0, states[3], Saved);
  }

  /** An event, a newer one shadowing its `d` value, and a newer one at the first one's address. */
  ghost predicate ShadowedTriple(first: Event, shadow: Event, third: Event) {
    && first.kind == shadow.kind == third.kind == 30000
    && first.pubkey == shadow.pubkey == third.pubkey
    && first.id != shadow.id && first.id != third.id && shadow.id != third.id
    && shadow.createdAt < third.createdAt
    && Bindable(first) && Bindable(shadow) && Bindable(third)
    && Shadowed(shadow) && Column(shadow.tags, "d") == Text(FirstD(first.tags))
    && FirstD(first.tags) == FirstD(third.tags) != ""
  }

  lemma FirstSave(e: Event) returns (s: Tables)
    requires Bindable(e)
    ensures SaveStep(EMPTY_TABLES, e, false, s, Saved) && Indexed(s) && s.events == map[e.id := e]
  {
    assert Rivals(EMPTY_TABLES, e) == {};
    s := FreshSave(EMPTY_TABLES, e);
  }

  lemma SecondRivals(first: Event, shadow: Event, s: Tables)
    requires s.events == map[first.id := first] && FirstD(first.tags) != "" && Shadowed(shadow)
    requires shadow.kind == 30000
    ensures Rivals(s, shadow) == {}
  {
    ColumnOfFirstD(first.tags);
    assert !RivalOf(first, shadow);
  }

  lemma ThirdRivals(first: Event, shadow: Event, third: Event, s: Tables)
    requires ShadowedTriple(first, shadow, third) && s.events == map[first.id := first][shadow.id := shadow]
    ensures WrongPickPossible(s, third)
  {
    ColumnOfFirstD(first.tags);
    assert RivalOf(first, third) && RivalOf(shadow, third);
    assert first.id in Rivals(s, third) && shadow.id in Rivals(s, third);
  }

  lemma SecondSave(first: Event, shadow: Event, s: Tables) returns (s': Tables)
    requires Indexed(s) && s.events == map[first.id := first] && FirstD(first.tags) != ""
    requires Shadowed(shadow) && shadow.kind == 30000 && Bindable(shadow) && shadow.id != first.id
    ensures SaveStep(s, shadow, false, s', Saved) && Indexed(s')
    ensures s'.events == map[first.id := first][shadow.id := shadow]
  {
    SecondRivals(first, shadow, s);
    s' := FreshSave(s, shadow);
  }

  lemma ThirdSave(first: Event, shadow: Event, third: Event, s: Tables) returns (s': Tables)
    requires ShadowedTriple(first, shadow, third)
    requires Indexed(s) && s.events == map[first.id := first][shadow.id := shadow]
    ensures SaveStep(s, third, false, s', Saved) && !OnePerAddress(s')
  {
    ThirdRivals(first, shadow, third, s);
    s' := WrongPickBreaks(s, third);
  }

  /** Three accepted saves after which two events share an address. */
  lemma ShadowedTripleBreaksUniqueness(first: Event, shadow: Event, third: Event)
    returns (ops: seq<Operation>, states: seq<Relay>)
    requires ShadowedTriple(first, shadow, third)
    ensures Run(ops, states) && !OnePerAddress(Last(states).db)
  {
    var s1 := FirstSave(first);
    var s2 := SecondSave(first, shadow, s1);
    var s3 := ThirdSave(first, shadow, third, s2);
    ops, states := ThreeSavesRun(first, shadow, third, s1, s2, s3);
  }

  lemma ShadowedTripleExists()
    ensures ShadowedTriple(Note("1", 1, [["d", "x"]]), Note("2", 2, [["d", ""], ["d", "x"]]), Note("3", 3, [["d", "x"]]))
  {
    NoteBindable("1", 1, "x");
    NoteBindable("3", 3, "x");
    ShadowBindable("2", 2);
  }

  /** Some stored event holds the address. */
  predicate Occupied(s: Tables, a: Address) {
    exists id | id in s.events :: AddressOf(s.events[id]) == Some(a)
  }

  /** One stored event, older than e, holds the address of e alone. */
  predicate SoleOlderHolder(s: Tables, e: Event) {
    exists a | a in s.events ::
      && AddressOf(s.events[a]) == AddressOf(e) && s.events[a].createdAt < e.createdAt
      && forall b | b in s.events && AddressOf(s.events[b]) == AddressOf(e) :: b == a
  }

  lemma SaveKeepsAddress(s: Tables, e: Event, hit: bool, s': Tables, r: Outcome)
    requires Indexed(s) && AddressOf(e).Some? && Occupied(s, AddressOf(e).value) && SaveStep(s, e, hit, s', r)
    requires hit || e.id in s.events || Bindable(e) || !SoleOlderHolder(s, e)
    ensures Occupied(s', AddressOf(e).value)
  {
    SaveIndexed(s, e, hit, s', r);
    if r == Saved {
      assert s'.events[e.id] == e;
    } else if s' != s {
      var picked :| picked in Rivals(s, e) && ReplaceStep(s, e, picked, s', r);
      EraseSteps(s, picked);
      assert s'.events == s.events - {picked};
      var a :| a in s.events && AddressOf(s.events[a]) == AddressOf(e);
      if a == picked {
        var b :| b in s.events && AddressOf(s.events[b]) == AddressOf(e) && b != a;
        assert s'.events[b] == s.events[b];
      } else {
        assert s'.events[a] == s.events[a];
      }
    }
  }

  lemma UnbindableEmptiesAddress(s: Tables, e: Event) returns (s': Tables)
    requires AddressOf(e).Some? && e.id !in s.events && !Bindable(e) && SoleOlderHolder(s, e)
    ensures SaveStep(s, e, false, s', Failed) && !Occupied(s', AddressOf(e).value)
  {
    var a :| a in s.events && AddressOf(s.events[a]) == AddressOf(e) && s.events[a].createdAt < e.createdAt
             && forall b | b in s.events && AddressOf(s.events[b]) == AddressOf(e) :: b == a;
    RivalsAreNeighbours(s.events[a], e);
    assert a in Rivals(s, e);
    s' := Erase(s, a);
    EraseSteps(s, a);
    assert ReplaceStep(s, e, a, s', Failed);
  }

  /**
   An occupied address is sure to stay occupied exactly unless the new event cannot be bound while one older
   event alone holds the address.
   */
  lemma AddressKeptExactlyWhen(s: Tables, e: Event, hit: bool)
    requires Indexed(s) && AddressOf(e).Some? && Occupied(s, AddressOf(e).value)
    ensures (forall s', r | SaveStep(s, e, hit, s', r) :: Occupied(s', AddressOf(e).value))
            <==> hit || e.id in s.events || Bindable(e) || !SoleOlderHolder(s, e)
  {
    if hit || e.id in s.events || Bindable(e) || !SoleOlderHolder(s, e) {
      forall s', r | SaveStep(s, e, hit, s', r) ensures Occupied(s', AddressOf(e).value) {
        SaveKeepsAddress(s, e, hit, s', r);
      }
    } else {
      var s' := UnbindableEmptiesAddress(s, e);
    }
  }

  /** Without shadowed d tags there is no luck in it: every outcome of such a save empties the address, and no other. */
  lemma UnbindableReplacementLosesEvent(s: Tables, e: Event, hit: bool, s': Tables, r: Outcome)
    requires Indexed(s) && OnePerAddress(s) && NoneShadowed(s) && SaveStep(s, e, hit, s', r)
    requires AddressOf(e).Some? && Occupied(s, AddressOf(e).value)
    ensures !Occupied(s', AddressOf(e).value)
            <==> !hit && e.id !in s.events && !Bindable(e) && SoleOlderHolder(s, e)
    ensures !Occupied(s', AddressOf(e).value) ==> r == Failed
  {
    if hit || e.id in s.events || Bindable(e) || !SoleOlderHolder(s, e) {
      SaveKeepsAddress(s, e, hit, s', r);
    } else {
      var a :| a in s.events && AddressOf(s.events[a]) == AddressOf(e) && s.events[a].createdAt < e.createdAt;
      RivalsAreNeighbours(s.events[a], e);
      assert a in Rivals(s, e);
      var picked :| picked in Rivals(s, e) && ReplaceStep(s, e, picked, s', r);
      RivalsAreNeighbours(s.events[picked], e);
      assert picked == a;
      EraseSteps(s, picked);
    }
  }

  /** In every reachable store: a submission may empty its address exactly when it is that one unbindable case. */
  lemma ReachableAddressKept(ops: seq<Operation>, states: seq<Relay>, e: Event, hit: bool)
    requires Run(ops, states) && AddressOf(e).Some? && Occupied(Last(states).db, AddressOf(e).value)
    ensures (exists s', r :: SaveStep(Last(states).db, e, hit, s', r) && !Occupied(s', AddressOf(e).value))
            <==> !hit && e.id !in Last(states).db.events && !Bindable(e) && SoleOlderHolder(Last(states).db, e)
  {
    AlwaysIndexed(ops, states);
    AddressKeptExactlyWhen(Last(states).db, e, hit);
  }

  /** A save that fails changes nothing exactly when the event had nothing to replace. */
  lemma FailedSaveHarmlessExactly(s: Tables, e: Event, s': Tables)
    requires SaveStep(s, e, false, s', Failed)
    ensures s' == s <==> Rivals(s, e) == {}
  {
    if Rivals(s, e) != {} {
      var picked :| picked in Rivals(s, e) && ReplaceStep(s, e, picked, s', Failed);
      EraseSteps(s, picked);
      assert picked !in s'.events;
    }
  }

  lemma SaveIsStep(w: Relay, e: Event, s': Tables, r: Outcome)
    requires SaveStep(w.db, e, false, s', r) && e.kind != 5 && !Ephemeral(e.kind)
    ensures Step(w, Submit(e, false, 0), Relay(s', if r == Saved then w.eventCache + {e.id} else w.eventCache))
  {
    assert SubmitStep(w, e, false, 0, Relay(s', if r == Saved then w.eventCache + {e.id} else w.eventCache), r);
  }

  function ProfileEvent(id: string, at: int, tags: seq<seq<string>>): Event {
    Event(id, "pk", at, 0, tags, "", "sig")
  }

  lemma ProfileTags()
    ensures Bindable(ProfileEvent("1", 1, [])) && !Bindable(ProfileEvent("2", 2, [["p"]]))
  {
    assert [["p"]][..0] == [] && Column([["p"]], "p") == Undefined;
  }

  lemma TwoSavesRun(e1: Event, e2: Event, s1: Tables, s2: Tables) returns (ops: seq<Operation>, states: seq<Relay>)
    requires e1.kind == e2.kind == 0 && SaveStep(EMPTY_TABLES, e1, false, s1, Saved) && SaveStep(s1, e2, false, s2, Failed)
    ensures Run(ops, states) && |ops| == 2 && states[1].db == s1 && states[2].db == s2
  {
    ops := [Submit(e1, false, 0), Submit(e2, false, 0)];
    states := [START, Relay(s1, {} + {e1.id}), Relay(s2, {} + {e1.id})];
    SaveIsStep(START, e1, s1, Saved);
    SaveIsStep(states[1], e2, s2, Failed);
  }

  /** A profile, and a newer one with a `p` tag that has no value: afterwards the author has none. */
  lemma ProfileLost() returns (ops: seq<Operation>, states: seq<Relay>)
    ensures Run(ops, states) && |ops| == 2
    ensures Occupied(states[1].db, Plain(0, "pk")) && !Occupied(states[2].db, Plain(0, "pk"))
  {
    var first, second := ProfileEvent("1", 1, []), ProfileEvent("2", 2, [["p"]]);
    ProfileTags();
    var s1 := FirstSave(first);
    assert s1.events[first.id] == first;
    assert SoleOlderHolder(s1, second);
    var s2 := UnbindableEmptiesAddress(s1, second);
    ops, states := TwoSavesRun(first, second, s1, s2);
  }

  // ---------------------------------------------------------------- any list of plain events can be stored

  /** Bindable, and of a kind that is simply stored. */
  predicate PlainEvent(e: Event) {
    Bindable(e) && e.kind != 5 && !Replaceable(e.kind) && !Parameterized(e.kind) && !Ephemeral(e.kind)
  }

  ghost predicate DistinctIds(es: seq<Event>) {
    forall i, j | 0 <= i < j < |es| :: es[i].id != es[j].id
  }

  function EventMap(es: seq<Event>): map<string, Event> {
    if es == [] then map[] else EventMap(es[..|es| - 1])[es[|es| - 1].id := es[|es| - 1]]
  }

  lemma {:induction false} EventMapHas(es: seq<Event>, id: string)
    requires DistinctIds(es)
    ensures id in EventMap(es) <==> exists i | 0 <= i < |es| :: es[i].id == id
    ensures forall i | 0 <= i < |es| && es[i].id == id :: EventMap(es)[id] == es[i]
  {
    if es != [] {
      var front := es[..|es| - 1];
      EventMapHas(front, id);
      assert forall i | 0 <= i < |front| :: front[i] == es[i];
      if i :| 0 <= i < |es| && es[i].id == id { assert i < |front| ==> front[i].id == id; }
    }
  }

  lemma RunExtends(ops: seq<Operation>, states: seq<Relay>, op: Operation, w: Relay)
    requires Run(ops, states) && Step(Last(states), op, w)
    ensures Run(ops + [op], states + [w])
  {
    var ops', states' := ops + [op], states + [w];
    forall i | 0 <= i < |ops'| ensures Step(states'[i], ops'[i], states'[i + 1]) {
      if i < |ops| { assert states'[i] == states[i] && states'[i + 1] == states[i + 1] && ops'[i] == ops[i]; }
    }
  }

  lemma PlainStep(w: Relay, e: Event) returns (w': Relay)
    requires Indexed(w.db) && PlainEvent(e) && e.id !in w.db.events
    ensures Step(w, Submit(e, false, 0), w') && Indexed(w'.db) && w'.db.events == w.db.events[e.id := e]
  {
    assert Rivals(w.db, e) == {};
    var s' := FreshSave(w.db, e);
    w' := Relay(s', w.eventCache + {e.id});
    SaveIsStep(w, e, s', Saved);
  }

  lemma {:induction false} SavedAll(es: seq<Event>) returns (ops: seq<Operation>, states: seq<Relay>)
    requires DistinctIds(es) && forall e | e in es :: PlainEvent(e)
    ensures Run(ops, states) && Last(states).db.events == EventMap(es) && Indexed(Last(states).db)
  {
    if es == [] {
      ops, states := [], [START];
      AlwaysIndexed(ops, states);
    } else {
      var front, last := es[..|es| - 1], es[|es| - 1];
      ops, states := SavedAll(front);
      EventMapHas(front, last.id);
      assert forall i | 0 <= i < |front| :: front[i] == es[i];
      var w := PlainStep(Last(states), last);
      RunExtends(ops, states, Submit(last, false, 0), w);
      ops, states := ops + [Submit(last, false, 0)], states + [w];
    }
  }

  /** A reachable store in which a query and a live subscription disagree. */
  lemma ValuelessTagStored(id: string) returns (ops: seq<Operation>, states: seq<Relay>, e: Event, f: Filter)
    ensures Run(ops, states) && QueryCompiler.Stored(Last(states).db, e) && e.id == id && ValidFilter(f)
    ensures Selects(Last(states).db, QueryCompiler.Compile(f), e) && !Matches(e, f)
  {
    e, f := Event(id, "pk", 1, 1, [["x"]], "", "sig"), QueryCompiler.TagProbe("x", "");
    assert [["x"]][..0] == [];
    assert forall name | name in CACHED_TAGS :: Column(e.tags, name) == Null;
    ops, states := SavedAll([e]);
    EventMapHas([e], id);
    assert [e][0].id == id;
    QueryCompiler.ValuelessTagDisagrees(Last(states).db, e, "x");
  }

  // ---------------------------------------------------------------- submitting the same event again

  /** The operation submits an event and the relay answers that it was accepted. */
  ghost predicate AnsweredYes(w: Relay, op: Operation, w': Relay) {
    op.Submit? && exists r :: SubmitStep(w, op.event, op.edgeHit, op.batches, w', r) && Succeeds(w, op.event, op.batches, r)
  }

  predicate Storable(kind: int) {
    kind != 5 && !Ephemeral(kind)
  }

  lemma IndexedAt(ops: seq<Operation>, states: seq<Relay>, i: nat)
    requires Run(ops, states) && i < |states|
    ensures Indexed(states[i].db)
  {
    AlwaysIndexed(ops[..i], states[..i + 1]);
  }

  /** An accepted event of a storable kind was not stored, and then is. */
  lemma AcceptedIsStored(ops: seq<Operation>, states: seq<Relay>, i: nat)
    requires Run(ops, states) && i < |ops| && AnsweredYes(states[i], ops[i], states[i + 1]) && Storable(ops[i].event.kind)
    ensures ops[i].event.id !in states[i].db.events && ops[i].event.id in states[i + 1].db.events
  {
    IndexedAt(ops, states, i);
    var w, op, w' := states[i], ops[i], states[i + 1];
    var r :| SubmitStep(w, op.event, op.edgeHit, op.batches, w', r) && Succeeds(w, op.event, op.batches, r);
    SaveIndexed(w.db, op.event, op.edgeHit && op.event.id in w.eventCache, w'.db, r);
  }

  // ---------------------------------------------------------------- the newest submission wins

  /** A run of saves none of which fails. */
  ghost predicate SaveRun(h: seq<Event>, states: seq<Relay>) {
    && |states| == |h| + 1 && states[0] == START
    && forall i | 0 <= i < |h| :: Accepted(states[i], h[i], states[i + 1])
  }

  ghost predicate Accepted(w: Relay, e: Event, w': Relay) {
    exists hit: bool, r: Outcome :: r != Failed && StoreStep(w, w.db, e, hit, w', r)
  }

  /** Identifiers are hashes of the event. */
  ghost predicate IdsFaithful(h: seq<Event>) {
    forall i, j | 0 <= i < |h| && 0 <= j < |h| && h[i].id == h[j].id :: h[i] == h[j]
  }

  /** The submission an address should end with: a later one wins only when strictly newer. */
  function Newest(h: seq<Event>, a: Address): Option<Event> {
    if h == [] then None
    else
      var before, e := Newest(h[..|h| - 1], a), h[|h| - 1];
      if AddressOf(e) == Some(a) && (before.None? || before.value.createdAt < e.createdAt) then Some(e) else before
  }

  /** The k-th submission is the newest for its address, and the earliest of the newest. */
  ghost predicate EarliestNewest(h: seq<Event>, a: Address, k: nat) {
    && k < |h| && AddressOf(h[k]) == Some(a)
    && forall j | 0 <= j < |h| && AddressOf(h[j]) == Some(a) ::
         h[j].createdAt <= h[k].createdAt && (j < k ==> h[j].createdAt < h[k].createdAt)
  }

  lemma EarliestNewestExtends(h: seq<Event>, a: Address, k: nat)
    requires h != [] && EarliestNewest(h[..|h| - 1], a, k)
    requires AddressOf(h[|h| - 1]) == Some(a) ==> h[|h| - 1].createdAt <= h[k].createdAt
    ensures EarliestNewest(h, a, k)
  {
    var front := h[..|h| - 1];
    assert forall j | 0 <= j < |front| :: front[j] == h[j];
  }

  lemma EarliestNewestReplaced(h: seq<Event>, a: Address, k: nat)
    requires h != [] && EarliestNewest(h[..|h| - 1], a, k)
    requires AddressOf(h[|h| - 1]) == Some(a) && h[|h| - 1].createdAt > h[k].createdAt
    ensures EarliestNewest(h, a, |h| - 1)
  {
    var front := h[..|h| - 1];
    assert forall j | 0 <= j < |front| :: front[j] == h[j];
  }

  lemma {:induction false} NewestMeans(h: seq<Event>, a: Address)
    ensures Newest(h, a).None? ==> forall j | 0 <= j < |h| :: AddressOf(h[j]) != Some(a)
    ensures Newest(h, a).Some? ==> exists k: nat :: EarliestNewest(h, a, k) && h[k] == Newest(h, a).value
  {
    if h != [] {
      var front, n := h[..|h| - 1], |h| - 1;
      NewestMeans(front, a);
      if Newest(front, a).Some? {
        var k: nat :| EarliestNewest(front, a, k) && front[k] == Newest(front, a).value;
        if AddressOf(h[n]) == Some(a) && h[k].createdAt < h[n].createdAt {
          EarliestNewestReplaced(h, a, k);
        } else {
          EarliestNewestExtends(h, a, k);
        }
      } else if AddressOf(h[n]) == Some(a) {
        forall j | 0 <= j < n ensures AddressOf(h[j]) != Some(a) { assert front[j] == h[j]; }
        assert EarliestNewest(h, a, n);
      } else {
        forall j | 0 <= j < n ensures AddressOf(h[j]) != Some(a) { assert front[j] == h[j]; }
      }
    }
  }

  ghost predicate KeepsNewest(w: Relay, h: seq<Event>) {
    && Indexed(w.db) && OnePerAddress(w.db) && NoneShadowed(w.db)
    && (forall id | id in w.db.events :: w.db.events[id] in h)
    && (forall id | id in w.eventCache :: exists i | 0 <= i < |h| :: h[i].id == id)
    && (forall a | Newest(h, a).Some? :: NewestStored(w.db, h, a))
  }

  ghost predicate NewestStored(s: Tables, h: seq<Event>, a: Address)
    requires Newest(h, a).Some?
  {
    Newest(h, a).value.id in s.events && s.events[Newest(h, a).value.id] == Newest(h, a).value
  }

  lemma NewestBounds(h: seq<Event>, a: Address, e: Event)
    requires e in h && AddressOf(e) == Some(a)
    ensures Newest(h, a).Some? && Newest(h, a).value.createdAt >= e.createdAt
  {
    NewestMeans(h, a);
    var j :| 0 <= j < |h| && h[j] == e;
    if Newest(h, a).Some? {
      var k: nat :| EarliestNewest(h, a, k) && h[k] == Newest(h, a).value;
      assert h[j].createdAt <= h[k].createdAt;
    }
  }

  lemma NewestAddress(h: seq<Event>, a: Address)
    requires Newest(h, a).Some?
    ensures AddressOf(Newest(h, a).value) == Some(a)
  {
    NewestMeans(h, a);
  }

  lemma NewestAppend(h: seq<Event>, e: Event, a: Address)
    ensures Newest(h + [e], a)
            == if AddressOf(e) == Some(a) && (Newest(h, a).None? || Newest(h, a).value.createdAt < e.createdAt)
               then Some(e) else Newest(h, a)
  {
    assert (h + [e])[..|h|] == h;
  }

  lemma UnaddressedRivals(x: Event, e: Event)
    requires AddressOf(e).None? && RivalOf(x, e) && !Shadowed(x)
    ensures AddressOf(x).None?
  {
    ColumnOfFirstD(x.tags);
  }

  /** The one stored rival of an addressed event is the newest submission so far. */
  lemma RivalIsNewest(w: Relay, h: seq<Event>, e: Event, picked: string)
    requires KeepsNewest(w, h) && AddressOf(e).Some? && picked in Rivals(w.db, e)
    ensures var a := AddressOf(e).value;
            AddressOf(w.db.events[picked]) == Some(a) && Newest(h, a) == Some(w.db.events[picked])
  {
    var a := AddressOf(e).value;
    RivalsAreNeighbours(w.db.events[picked], e);
    NewestBounds(h, a, w.db.events[picked]);
    NewestAddress(h, a);
    assert NewestStored(w.db, h, a);
  }

  lemma UnchangedKeepsNewest(w: Relay, h: seq<Event>, e: Event)
    requires KeepsNewest(w, h)
    requires AddressOf(e).Some? ==>
               Newest(h, AddressOf(e).value).Some? && e.createdAt <= Newest(h, AddressOf(e).value).value.createdAt
    ensures KeepsNewest(w, h + [e])
  {
    forall a | Newest(h + [e], a).Some? ensures NewestStored(w.db, h + [e], a) {
      NewestAppend(h, e, a);
      assert NewestStored(w.db, h, a);
    }
    forall id | id in w.eventCache ensures exists i | 0 <= i < |h + [e]| :: (h + [e])[i].id == id {
      var i :| 0 <= i < |h| && h[i].id == id;
      assert (h + [e])[i].id == id;
    }
  }

  lemma DuplicateKeepsNewest(w: Relay, h: seq<Event>, e: Event, hit: bool)
    requires KeepsNewest(w, h) && IdsFaithful(h + [e])
    requires SaveStep(w.db, e, hit && e.id in w.eventCache, w.db, Duplicate)
    ensures KeepsNewest(w, h + [e])
  {
    if (hit && e.id in w.eventCache) || e.id in w.db.events {
      var i :| 0 <= i < |h| && h[i].id == e.id;
      assert (h + [e])[i] == (h + [e])[|h|];
      if AddressOf(e).Some? { NewestBounds(h, AddressOf(e).value, e); }
    } else if Rivals(w.db, e) != {} {
      var picked :| picked in Rivals(w.db, e) && ReplaceStep(w.db, e, picked, w.db, Duplicate);
      if AddressOf(e).Some? { RivalIsNewest(w, h, e, picked); }
    }
    UnchangedKeepsNewest(w, h, e);
  }

  /** No submission at e's address is stored unless it is the one that was removed. */
  lemma SavedIsNewest(w: Relay, h: seq<Event>, e: Event, s': Tables, a: Address)
    requires KeepsNewest(w, h) && e.id !in w.db.events && SavedOver(w.db, e, s')
    requires Newest(h + [e], a).Some?
    ensures NewestStored(s', h + [e], a)
  {
    NewestAppend(h, e, a);
    if Newest(h, a).Some? {
      NewestAddress(h, a);
      assert NewestStored(w.db, h, a);
      RivalsAreNeighboursIfAddressed(Newest(h, a).value, e);
    }
    if Rivals(w.db, e) != {} {
      var picked :| picked in Rivals(w.db, e) && w.db.events[picked].createdAt < e.createdAt
                    && s'.events == (w.db.events - {picked})[e.id := e];
      if AddressOf(e).Some? {
        RivalIsNewest(w, h, e, picked);
      } else {
        UnaddressedRivals(w.db.events[picked], e);
      }
    }
  }

  lemma RivalsAreNeighboursIfAddressed(x: Event, e: Event)
    ensures AddressOf(e).Some? && AddressOf(x) == AddressOf(e) ==> RivalOf(x, e)
  {
    if AddressOf(e).Some? { RivalsAreNeighbours(x, e); }
  }

  lemma AcceptedKeepsNewest(w: Relay, h: seq<Event>, e: Event, w': Relay)
    requires KeepsNewest(w, h) && IdsFaithful(h + [e]) && !Shadowed(e) && Accepted(w, e, w')
    ensures KeepsNewest(w', h + [e])
  {
    var hit: bool, r: Outcome :| r != Failed && StoreStep(w, w.db, e, hit, w', r);
    SaveIndexed(w.db, e, hit && e.id in w.eventCache, w'.db, r);
    if r == Duplicate {
      DuplicateKeepsNewest(w, h, e, hit);
    } else {
      SaveUnique(w.db, e, hit && e.id in w.eventCache, w'.db, r);
      forall a | Newest(h + [e], a).Some? ensures NewestStored(w'.db, h + [e], a) {
        SavedIsNewest(w, h, e, w'.db, a);
      }
      forall id | id in w'.eventCache ensures exists i | 0 <= i < |h + [e]| :: (h + [e])[i].id == id {
        if id in w.eventCache {
          var i :| 0 <= i < |h| && h[i].id == id;
          assert (h + [e])[i].id == id;
        } else {
          assert (h + [e])[|h|].id == id;
        }
      }
    }
  }

  lemma PrefixFaithful(h: seq<Event>, k: nat)
    requires k <= |h| && IdsFaithful(h)
    ensures IdsFaithful(h[..k])
  {
  }

  lemma StartKeepsNewest()
    ensures KeepsNewest(START, [])
  {
  }

  lemma AcceptedAt(h: seq<Event>, states: seq<Relay>, k: nat)
    requires SaveRun(h, states) && k < |h|
    ensures Accepted(states[k], h[k], states[k + 1]) && states[0] == START
  {
  }

  lemma {:induction false} SaveRunKeepsNewest(h: seq<Event>, states: seq<Relay>, k: nat)
    requires SaveRun(h, states) && IdsFaithful(h) && k <= |h|
    requires forall i | 0 <= i < |h| :: !Shadowed(h[i])
    ensures KeepsNewest(states[k], h[..k])
    decreases k
  {
    if k == 0 {
      StartKeepsNewest();
    } else {
      SaveRunKeepsNewest(h, states, k - 1);
      PrefixFaithful(h, k);
      assert h[..k] == h[..k - 1] + [h[k - 1]];
      AcceptedAt(h, states, k - 1);
      AcceptedKeepsNewest(states[k - 1], h[..k - 1], h[k - 1], states[k]);
    }
  }

  lemma RunKeepsNewest(h: seq<Event>, states: seq<Relay>)
    requires SaveRun(h, states) && IdsFaithful(h) && forall i | 0 <= i < |h| :: !Shadowed(h[i])
    ensures KeepsNewest(Last(states), h)
  {
    SaveRunKeepsNewest(h, states, |h|);
    assert h[..|h|] == h;
  }

  /**
   After any accepted saves the address of any submission holds exactly one event: the one with the
   greatest created_at submitted for it, the earliest of them on ties.
   */
  lemma NewestWins(h: seq<Event>, states: seq<Relay>, i: nat) returns (k: nat)
    requires SaveRun(h, states) && IdsFaithful(h) && i < |h| && AddressOf(h[i]).Some?
    requires forall j | 0 <= j < |h| :: !Shadowed(h[j])
    ensures EarliestNewest(h, AddressOf(h[i]).value, k)
    ensures forall id :: id in Last(states).db.events && AddressOf(Last(states).db.events[id]) == AddressOf(h[i])
                         <==> id == h[k].id
    ensures Last(states).db.events[h[k].id] == h[k]
  {
    var a := AddressOf(h[i]).value;
    RunKeepsNewest(h, states);
    NewestBounds(h, a, h[i]);
    NewestMeans(h, a);
    k :| EarliestNewest(h, a, k) && h[k] == Newest(h, a).value;
    assert NewestStored(Last(states).db, h, a);
  }
}
