/** A query that joins `tags` counts an event once for every tag it asks for, and its LIMIT counts these rows. */
module RepeatedRows {
  import opened Nostr
  import opened Options
  import opened Schema
  import opened Sql
  import opened QueryCompiler
  import opened ChunkedQuery
  import opened QueryEvents
  import EventStore
  import EventRuns

  /** The one tag such a filter asks for. */
  function TheTag(f: Filter): TagFilter
    requires TagJoin(f)
  {
    Pick(f.tagFilters, false)[0]
  }

  /** The one row of the joined table that makes the query list e. */
  predicate Fits(f: Filter, e: Event, r: TagRow)
    requires TagJoin(f)
  {
    r.eventId == e.id && r.name == TheTag(f).name && r.value in TheTag(f).values && MatchesBase(e, f) && AfterCursor(e, f)
  }

  lemma ProducedExactly(s: Tables, f: Filter, e: Event, r: TagRow)
    requires Stored(s, e) && TagJoin(f) && r in s.tags
    ensures Produces(s, Compile(f), Row(e, [TagsBinding(r)])) <==> Fits(f, e, r)
  {
    SingleJoinProduces(s, Compile(f), e, [TagsBinding(r)]);
    OneTagWhere(f, TagsTable, TheTag(f), EventKind, EventCreatedAt, e, TagsBinding(r));
  }

  /** The rows of the joined table that make the query list e. */
  function Hits(s: Tables, f: Filter, e: Event): set<int>
    requires TagJoin(f)
  {
    set i | 0 <= i < |s.tags| && Fits(f, e, s.tags[i])
  }

  lemma TimesAreHits(s: Tables, f: Filter, q: Query, e: Event)
    requires Stored(s, e) && TagJoin(f) && q == Compile(f)
    ensures Times(s, q, e) == |Hits(s, f, e)|
  {
    var at := set i | 0 <= i < |s.tags| && Produces(s, q, Row(e, [TagsBinding(s.tags[i])]));
    forall i ensures i in at <==> i in Hits(s, f, e) {
      if 0 <= i < |s.tags| { ProducedExactly(s, f, e, s.tags[i]); }
    }
    assert at == Hits(s, f, e);
  }

  lemma OnlyTheTag(f: Filter, t: TagFilter)
    requires TagJoin(f) && t in f.tagFilters && t.values != []
    ensures t == TheTag(f)
  {
    var other := Pick(f.tagFilters, false);
    PickMember(f.tagFilters, true, t);
    PickMember(f.tagFilters, false, t);
    assert t in other;
  }

  lemma AcceptsTheTag(f: Filter, e: Event)
    requires TagJoin(f)
    ensures Accepts(e, f) <==> MatchesBase(e, f) && AfterCursor(e, f) && TagStored(e, TheTag(f))
  {
    forall i | 0 <= i < |f.tagFilters| && f.tagFilters[i].values != [] ensures f.tagFilters[i] == TheTag(f) {
      OnlyTheTag(f, f.tagFilters[i]);
    }
    PickMember(f.tagFilters, false, TheTag(f));
  }

  lemma HitIsStored(s: Tables, f: Filter, e: Event, i: int)
    requires Indexed(s) && Stored(s, e) && TagJoin(f) && i in Hits(s, f, e)
    ensures Accepts(e, f)
  {
    TagsTableHas(s, e, s.tags[i].name, s.tags[i].value);
    AcceptsTheTag(f, e);
  }

  lemma AcceptedIsHit(s: Tables, f: Filter, e: Event) returns (i: int)
    requires Indexed(s) && Stored(s, e) && TagJoin(f) && Accepts(e, f)
    ensures i in Hits(s, f, e)
  {
    AcceptsTheTag(f, e);
    var v :| v in TheTag(f).values && StoredTag(e, TheTag(f).name, v);
    TagsTableHas(s, e, TheTag(f).name, v);
    i :| 0 <= i < |s.tags| && s.tags[i] == TagRow(e.id, TheTag(f).name, v);
  }

  lemma ListedMeans(s: Tables, f: Filter, q: Query, e: Event)
    requires Indexed(s) && Stored(s, e) && TagJoin(f) && q == Compile(f)
    ensures Times(s, q, e) >= 1 <==> Accepts(e, f)
  {
    TimesAreHits(s, f, q, e);
    if Accepts(e, f) {
      var i := AcceptedIsHit(s, f, e);
      assert {i} <= Hits(s, f, e);
      SubsetSize({i}, Hits(s, f, e));
    } else if i :| i in Hits(s, f, e) {
      HitIsStored(s, f, e, i);
    }
  }

  // ---------------------------------------------------------------- when the newest are sure to be in the answer

  /** No event can be accepted, or only one. */
  predicate AtMostOne(f: Filter)
    requires TagJoin(f)
  {
    || TheTag(f).name == ""
    || (Truthy(f.since) && Truthy(f.until) && f.since.value > f.until.value)
    || (f.ids != [] && forall x | x in f.ids :: x == f.ids[0])
  }

  /** The filter is not for a single uncached tag, or asks for one event, or has but one to find. */
  predicate NeverCrowded(f: Filter) {
    TagJoin(f) ==> RowLimit(f) <= 1 || AtMostOne(f)
  }

  /** Every answer to the query holds each event that fewer than the limit of others are at least as new as. */
  ghost predicate AnswerHoldsNewest(f: Filter) {
    forall s: Tables, rows: seq<Event>, e: Event :: !Crowded(s, f, rows, e)
  }

  ghost predicate Crowded(s: Tables, f: Filter, rows: seq<Event>, e: Event) {
    Indexed(s) && AnsweredBy(s, Compile(f), rows) && Wanted(s, f, e) && e !in rows
  }

  /** An answer without a listed event is full, of events at least as new. */
  lemma FullWithout(s: Tables, q: Query, rows: seq<Event>, e: Event)
    requires TopRepeated(s, q, rows) && Stored(s, e) && Times(s, q, e) >= 1 && e !in rows && q.limit >= 1
    ensures |rows| == q.limit && Stored(s, rows[0]) && Times(s, q, rows[0]) >= 1 && rows[0].createdAt >= e.createdAt
  {
    assert multiset(rows)[e] == 0;
    assert rows[0] in rows && multiset(rows)[rows[0]] >= 1;
  }

  lemma OtherRow(s: Tables, f: Filter, q: Query, rows: seq<Event>, e: Event) returns (x: Event)
    requires Indexed(s) && ValidFilter(f) && TagJoin(f) && q == Compile(f) && q.limit == RowLimit(f) >= 1
    requires TopRepeated(s, q, rows) && Stored(s, e) && Accepts(e, f) && e !in rows
    ensures x in rows && x != e && Stored(s, x) && Accepts(x, f) && x.id in AtLeastAsNew(s, q, e)
  {
    ListedMeans(s, f, q, e);
    FullWithout(s, q, rows, e);
    x := rows[0];
    ListedMeans(s, f, q, x);
    CompileCorrect(s, f, x);
  }

  lemma JoinKeepsNewest(s: Tables, f: Filter, rows: seq<Event>, e: Event)
    requires ValidFilter(f) && TagJoin(f) && (RowLimit(f) <= 1 || AtMostOne(f))
    ensures !Crowded(s, f, rows, e)
  {
    if Crowded(s, f, rows, e) {
      ChunkLimit(f, f);
      var x := OtherRow(s, f, Compile(f), rows, e);
      AcceptsTheTag(f, e);
    }
  }

  lemma OthersKeepNewest(s: Tables, f: Filter, rows: seq<Event>, e: Event)
    requires ValidFilter(f) && !TagJoin(f)
    ensures !Crowded(s, f, rows, e)
  {
    if Crowded(s, f, rows, e) {
      ChunkLimit(f, f);
      NewerDropped(s, f, rows, e);
    }
  }

  // ---------------------------------------------------------------- one event that takes the whole answer

  function Copies(tag: seq<string>, n: nat): seq<seq<string>> {
    if n == 0 then [] else Copies(tag, n - 1) + [tag]
  }

  function SceneEvent(f: Filter, id: string, copies: nat): Event
    requires TagJoin(f)
  {
    PickedHasValue(f);
    Event(id, if f.authors == [] then "" else f.authors[0],
          if Truthy(f.until) then f.until.value else if Truthy(f.since) then f.since.value else 1,
          if f.kinds == [] then 1 else f.kinds[0], Copies([TheTag(f).name, TheTag(f).values[0]], copies), "", "")
  }

  lemma PickedHasValue(f: Filter)
    requires TagJoin(f)
    ensures TheTag(f).values != []
  {
    PickMember(f.tagFilters, false, TheTag(f));
  }

  lemma {:induction false} CopiesCount(id: string, name: string, value: string, n: nat)
    requires name != ""
    ensures multiset(RowsOfTags(id, Copies([name, value], n)))[TagRow(id, name, value)] == n
  {
    if n > 0 {
      CopiesCount(id, name, value, n - 1);
      var tags := Copies([name, value], n);
      assert tags[..|tags| - 1] == Copies([name, value], n - 1);
    }
  }

  function Places(rows: seq<TagRow>, r: TagRow): set<int> {
    set i | 0 <= i < |rows| && rows[i] == r
  }

  lemma {:induction false} PlacesCount(rows: seq<TagRow>, r: TagRow)
    ensures |Places(rows, r)| == multiset(rows)[r]
  {
    if rows != [] {
      var front, last := rows[..|rows| - 1], rows[|rows| - 1];
      PlacesCount(front, r);
      assert rows == front + [last];
      assert Places(rows, r) == if last == r then Places(front, r) + {|front|} else Places(front, r);
    }
  }

  lemma SceneFits(f: Filter, id: string, n: nat)
    requires TagJoin(f) && f.cursor.None? && !AtMostOne(f) && (f.ids != [] ==> id in f.ids)
    ensures TheTag(f).values != [] && TheTag(f).name != ""
    ensures Fits(f, SceneEvent(f, id, n), TagRow(id, TheTag(f).name, TheTag(f).values[0]))
  {
    PickedHasValue(f);
  }

  lemma ManyHits(s: Tables, f: Filter, e: Event, r: TagRow)
    requires TagJoin(f) && Fits(f, e, r)
    ensures |Hits(s, f, e)| >= multiset(s.tags)[r]
  {
    PlacesCount(s.tags, r);
    SubsetSize(Places(s.tags, r), Hits(s, f, e));
  }

  lemma SceneHits(s: Tables, f: Filter, id: string, n: nat)
    requires Indexed(s) && TagJoin(f) && f.cursor.None? && !AtMostOne(f) && (f.ids != [] ==> id in f.ids)
    requires Stored(s, SceneEvent(f, id, n))
    ensures |Hits(s, f, SceneEvent(f, id, n))| >= n
  {
    SceneFits(f, id, n);
    var e, r := SceneEvent(f, id, n), TagRow(id, TheTag(f).name, TheTag(f).values[0]);
    CopiesCount(id, r.name, r.value, n);
    assert multiset(s.tags)[r] == multiset(TagRows(e))[r];
    ManyHits(s, f, e, r);
  }

  /** Both events of the scene are accepted, and the first is listed as often as it has copies of the tag. */
  lemma SceneTimes(s: Tables, f: Filter, q: Query, id: string, n: nat)
    requires Indexed(s) && TagJoin(f) && f.cursor.None? && !AtMostOne(f) && n >= 1 && q == Compile(f)
    requires (f.ids != [] ==> id in f.ids) && Stored(s, SceneEvent(f, id, n))
    ensures Accepts(SceneEvent(f, id, n), f) && Times(s, q, SceneEvent(f, id, n)) >= n
  {
    var e := SceneEvent(f, id, n);
    SceneHits(s, f, id, n);
    TimesAreHits(s, f, q, e);
    ListedMeans(s, f, q, e);
  }

  /** An answer that repeats one event, if no listed event is newer. */
  lemma LoudAnswer(s: Tables, q: Query, rows: seq<Event>, x: Event)
    requires Stored(s, x) && |rows| == q.limit && (forall i | 0 <= i < |rows| :: rows[i] == x) && Times(s, q, x) >= |rows|
    requires forall y | Stored(s, y) :: x.createdAt >= y.createdAt
    ensures TopRepeated(s, q, rows) && NewestFirst(rows)
  {
    OnlyLoud(rows, x, |rows|);
  }

  /** In a store of two events, the newer filling the answer with its copies, the other is not answered. */
  lemma TwoEventsCrowd(s: Tables, q: Query, loud: Event, quiet: Event, rows: seq<Event>)
    requires q.limit == |rows| && loud.id != quiet.id && s.events == map[loud.id := loud, quiet.id := quiet]
    requires Times(s, q, loud) >= |rows| && loud.createdAt >= quiet.createdAt && forall i | 0 <= i < |rows| :: rows[i] == loud
    ensures TopRepeated(s, q, rows) && NewestFirst(rows)
    ensures Stored(s, quiet) && quiet !in rows && |AtLeastAsNew(s, q, quiet)| <= 1
  {
    assert forall y | Stored(s, y) :: y == loud || y == quiet;
    LoudAnswer(s, q, rows, loud);
    OneOther(s, q, quiet, loud.id);
  }

  lemma CrowdedBecause(s: Tables, f: Filter, q: Query, rows: seq<Event>, e: Event)
    requires Indexed(s) && q == Compile(f) && Repeats(q) && TopRepeated(s, q, rows) && NewestFirst(rows)
    requires Stored(s, e) && Accepts(e, f) && |AtLeastAsNew(s, q, e)| < RowLimit(f) && e !in rows
    ensures Crowded(s, f, rows, e)
  {
  }

  lemma SceneIsCrowded(s: Tables, f: Filter, q: Query, a: string, b: string, rows: seq<Event>)
    requires Indexed(s) && TagJoin(f) && f.cursor.None? && !AtMostOne(f) && a != b && q == Compile(f)
    requires (f.ids != [] ==> a in f.ids && b in f.ids) && |rows| == RowLimit(f) && |rows| >= 2
    requires s.events == map[a := SceneEvent(f, a, |rows|), b := SceneEvent(f, b, 1)]
    requires forall i | 0 <= i < |rows| :: rows[i] == SceneEvent(f, a, |rows|)
    ensures Crowded(s, f, rows, SceneEvent(f, b, 1))
  {
    SceneTimes(s, f, q, a, |rows|);
    SceneTimes(s, f, q, b, 1);
    ChunkLimit(f, f);
    TwoEventsCrowd(s, q, SceneEvent(f, a, |rows|), SceneEvent(f, b, 1), rows);
    CrowdedBecause(s, f, q, rows, SceneEvent(f, b, 1));
  }

  lemma OneOther(s: Tables, q: Query, e: Event, other: string)
    requires forall id | id in s.events :: id == e.id || id == other
    ensures |AtLeastAsNew(s, q, e)| <= 1
  {
    assert AtLeastAsNew(s, q, e) <= {other};
    SubsetSize(AtLeastAsNew(s, q, e), {other});
  }

  lemma {:induction false} OnlyLoud(rows: seq<Event>, x: Event, n: nat)
    requires |rows| == n && forall i | 0 <= i < n :: rows[i] == x
    ensures multiset(rows)[x] == n && forall y | y != x :: multiset(rows)[y] == 0
  {
    if n > 0 {
      OnlyLoud(rows[..n - 1], x, n - 1);
      assert rows == rows[..n - 1] + [x];
    }
  }

  lemma TwoIds(f: Filter) returns (a: string, b: string)
    requires TagJoin(f) && !AtMostOne(f)
    ensures a != b && (f.ids != [] ==> a in f.ids && b in f.ids)
  {
    if f.ids == [] {
      a, b := "a", "b";
    } else {
      a := f.ids[0];
      b :| b in f.ids && b != a;
    }
  }

  lemma SceneStore(x: Event, y: Event) returns (s: Tables)
    requires x.id != y.id
    ensures Indexed(s) && s.events == map[x.id := x, y.id := y]
  {
    EventStore.InsertIndexed(EMPTY_TABLES, x);
    EventStore.InsertIndexed(EventStore.Insert(EMPTY_TABLES, x), y);
    s := EventStore.Insert(EventStore.Insert(EMPTY_TABLES, x), y);
  }

  /**
   For every filter without a cursor: the answer to its query is sure to hold the newest events exactly when the
   filter is not for a single uncached tag, or asks for at most one event, or can find at most one.
   */
  lemma AnswerHoldsNewestExactly(f: Filter)
    requires ValidFilter(f) && f.cursor.None?
    ensures AnswerHoldsNewest(f) <==> NeverCrowded(f)
  {
    if NeverCrowded(f) {
      forall s: Tables, rows: seq<Event>, e: Event ensures !Crowded(s, f, rows, e) {
        if TagJoin(f) { JoinKeepsNewest(s, f, rows, e); } else { OthersKeepNewest(s, f, rows, e); }
      }
    } else {
      var a, b := TwoIds(f);
      var s := SceneStore(SceneEvent(f, a, RowLimit(f)), SceneEvent(f, b, 1));
      var rows := seq(RowLimit(f), _ => SceneEvent(f, a, RowLimit(f)));
      SceneIsCrowded(s, f, Compile(f), a, b, rows);
    }
  }

  /** A reachable store in which two copies of a tag fill an answer of two rows. */
  lemma TwoCopiesFillTheAnswer()
    returns (ops: seq<EventRuns.Operation>, states: seq<EventStore.Relay>, f: Filter, rows: seq<Event>, e: Event)
    ensures EventRuns.Run(ops, states) && Crowded(EventRuns.Last(states).db, f, rows, e) && RowLimit(f) == 2
  {
    f := Filter([], [], [], None, None, Some(2), None, [TagFilter("x", ["v"])]);
    ProbeIsJoin(f);
    var loud, quiet := SceneEvent(f, "a", 2), SceneEvent(f, "b", 1);
    PlainScene(loud, 2);
    PlainScene(quiet, 1);
    ops, states := EventRuns.SavedAll([loud, quiet]);
    TwoInMap(loud, quiet);
    rows, e := [loud, loud], quiet;
    SceneIsCrowded(EventRuns.Last(states).db, f, Compile(f), "a", "b", rows);
  }

  lemma TwoInMap(x: Event, y: Event)
    requires x.id != y.id
    ensures EventRuns.EventMap([x, y]) == map[x.id := x, y.id := y]
  {
    assert [x, y][..1] == [x] && [x][..0] == [];
    assert EventRuns.EventMap([x]) == map[x.id := x];
  }

  lemma ProbeIsJoin(f: Filter)
    requires f.tagFilters == [TagFilter("x", ["v"])]
    ensures TagJoin(f) && TheTag(f) == f.tagFilters[0] && ValidFilter(f)
  {
    assert f.tagFilters[..0] == [];
  }

  lemma PlainScene(e: Event, n: nat)
    requires e.kind == 1 && e.tags == Copies(["x", "v"], n)
    ensures EventRuns.PlainEvent(e)
  {
    forall name | name in CACHED_TAGS ensures EventStore.Column(e.tags, name) != EventStore.Undefined {
      NoColumn(n, name);
    }
  }

  lemma {:induction false} NoColumn(n: nat, name: string)
    requires name in CACHED_TAGS
    ensures EventStore.Column(Copies(["x", "v"], n), name) == EventStore.Null
  {
    if n > 0 {
      NoColumn(n - 1, name);
      var tags := Copies(["x", "v"], n);
      assert tags[..|tags| - 1] == Copies(["x", "v"], n - 1);
    }
  }
}
