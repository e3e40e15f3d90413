/** When the cap of 500 rows, counted in the order they are read, costs a request its newest events. */
module ResultCap {
  import opened Nostr
  import opened Options
  import opened Schema
  import opened Sql
  import opened QueryCompiler
  import opened ChunkedQuery
  import opened QueryEvents
  import EventStore
  import EventRuns

  // ---------------------------------------------------------------- a store for a filter without room

  /** The latest time the filter admits, or one that leaves an earlier one. */
  function Late(f: Filter): int {
    if Truthy(f.until) then f.until.value else if Truthy(f.since) then f.since.value + 1 else 1
  }

  function Row(f: Filter, id: string, at: int): Event {
    Event(id, if f.authors == [] then "" else f.authors[0], at, if f.kinds == [] then 1 else f.kinds[0], [], "", "")
  }

  function RowsAt(f: Filter, ids: seq<string>, at: int): seq<Event> {
    seq(|ids|, i requires 0 <= i < |ids| => Row(f, ids[i], at))
  }

  function Olds(f: Filter, a: seq<string>): seq<Event> {
    RowsAt(f, a, Late(f) - 1)
  }

  function News(f: Filter, b: seq<string>): seq<Event> {
    RowsAt(f, b, Late(f))
  }

  predicate NoRepeats(xs: seq<string>) {
    forall i, j | 0 <= i < j < |xs| :: xs[i] != xs[j]
  }

  /** Old events in the first chunk and new ones in the second, one more than the cap in all. */
  ghost predicate Overfull(f: Filter, a: seq<string>, b: seq<string>) {
    && |f.ids| > CHUNK_SIZE && NoRepeats(a) && NoRepeats(b)
    && Elements(a) <= HeadIds(f) && Elements(b) <= NewTailIds(f)
    && |a| <= RowLimit(f) && 1 <= |b| <= RowLimit(f) && |a| + |b| == GLOBAL_MAX_EVENTS + 1
  }

  predicate TwoInstants(f: Filter) {
    TagFree(f) && f.cursor.None? && !OneInstant(f)
  }

  lemma RowFits(f: Filter, id: string, at: int)
    requires TwoInstants(f) && Late(f) - 1 <= at <= Late(f)
    ensures Accepts(Row(f, id, at), f) <==> f.ids == [] || id in f.ids
  {
  }

  lemma RowFitsChunks(f: Filter, id: string, at: int)
    requires TwoInstants(f) && Late(f) - 1 <= at <= Late(f) && |f.ids| > CHUNK_SIZE
    ensures Accepts(Row(f, id, at), Head(f)) <==> id in HeadIds(f)
    ensures Accepts(Row(f, id, at), Tail(f)) <==> id in Elements(Tail(f).ids)
  {
    RowFits(f, id, at);
    SplitMeans(f, Row(f, id, at));
  }

  ghost predicate Holding(s: Tables, es: seq<Event>) {
    Indexed(s) && EventRuns.DistinctIds(es) && s.events == EventRuns.EventMap(es)
  }

  lemma HoldingMeans(s: Tables, es: seq<Event>, x: Event)
    requires Holding(s, es)
    ensures Stored(s, x) <==> x in es
  {
    EventRuns.EventMapHas(es, x.id);
    if x in es {
      var i :| 0 <= i < |es| && es[i] == x;
      assert es[i].id == x.id;
    }
  }

  lemma SceneDistinct(f: Filter, a: seq<string>, b: seq<string>)
    requires Overfull(f, a, b)
    ensures EventRuns.DistinctIds(Olds(f, a) + News(f, b))
  {
    forall i, j | 0 <= i < |a| && 0 <= j < |b| ensures a[i] != b[j] {
      assert a[i] in Elements(a) && b[j] in Elements(b);
    }
  }

  // ---------------------------------------------------------------- how the two chunks are answered

  lemma FirstOfSorted(s: Tables, q: Query, all: seq<Event>)
    requires q.limit >= 0 && Ids(all) == Selected(s, q) && (forall e | e in all :: Stored(s, e))
    requires Distinct(all) && NewestFirst(all)
    ensures AnsweredOnce(s, q, First(all, q.limit))
  {
    var rows := First(all, q.limit);
    StoredIdsSize(s, rows);
    assert forall m | 0 <= m < |rows| :: rows[m] == all[m];
    forall x, y | x in Ids(rows) && y in Selected(s, q) - Ids(rows) ensures s.events[x].createdAt >= s.events[y].createdAt {
      var i :| 0 <= i < |rows| && rows[i].id == x;
      var e :| e in all && e.id == y;
      var j :| 0 <= j < |all| && all[j] == e;
      assert Stored(s, all[i]) && Stored(s, all[j]);
    }
  }

  /** The old events that the second chunk lists again. */
  function Again(es: seq<Event>, ids: set<string>): seq<Event> {
    if es == [] then []
    else Again(es[..|es| - 1], ids) + if es[|es| - 1].id in ids then [es[|es| - 1]] else []
  }

  lemma {:induction false} AgainMember(es: seq<Event>, ids: set<string>, x: Event)
    ensures x in Again(es, ids) <==> x in es && x.id in ids
    ensures Distinct(es) ==> Distinct(Again(es, ids))
  {
    if es != [] {
      var front := es[..|es| - 1];
      AgainMember(front, ids, x);
      AgainMember(front, ids, es[|es| - 1]);
      assert es == front + [es[|es| - 1]];
    }
  }

  function TailRows(f: Filter, a: seq<string>, b: seq<string>): seq<Event>
    requires |f.ids| > CHUNK_SIZE
  {
    News(f, b) + Again(Olds(f, a), Elements(Tail(f).ids))
  }

  lemma RowsDistinct(f: Filter, ids: seq<string>, at: int)
    requires NoRepeats(ids)
    ensures Distinct(RowsAt(f, ids, at)) && NewestFirst(RowsAt(f, ids, at))
  {
  }

  lemma TailRowsSorted(f: Filter, a: seq<string>, b: seq<string>)
    requires Overfull(f, a, b)
    ensures Distinct(TailRows(f, a, b)) && NewestFirst(TailRows(f, a, b))
  {
    var again := Again(Olds(f, a), Elements(Tail(f).ids));
    RowsDistinct(f, a, Late(f) - 1);
    RowsDistinct(f, b, Late(f));
    forall x | x in again ensures x.createdAt == Late(f) - 1 { AgainMember(Olds(f, a), Elements(Tail(f).ids), x); }
    if a != [] { AgainMember(Olds(f, a), Elements(Tail(f).ids), Olds(f, a)[0]); }
    JoinSorted(News(f, b), again, Late(f));
  }

  lemma JoinSorted(news: seq<Event>, olds: seq<Event>, late: int)
    requires Distinct(news) && Distinct(olds)
    requires (forall x | x in news :: x.createdAt == late) && forall x | x in olds :: x.createdAt == late - 1
    ensures Distinct(news + olds) && NewestFirst(news + olds)
  {
  }

  lemma RowIsScene(f: Filter, a: seq<string>, b: seq<string>, x: Event)
    requires x in Olds(f, a) + News(f, b)
    ensures if x in Olds(f, a) then x == Row(f, x.id, Late(f) - 1) && x.id in Elements(a)
            else x == Row(f, x.id, Late(f)) && x.id in Elements(b)
  {
    if x in Olds(f, a) {
      var i :| 0 <= i < |a| && Olds(f, a)[i] == x;
    } else {
      var i :| 0 <= i < |b| && News(f, b)[i] == x;
    }
  }

  lemma SceneSelected(s: Tables, f: Filter, a: seq<string>, b: seq<string>, c: Filter, rows: seq<Event>)
    requires Holding(s, Olds(f, a) + News(f, b)) && ValidFilter(c)
    requires forall x | x in Olds(f, a) + News(f, b) :: Accepts(x, c) <==> x in rows
    requires forall x | x in rows :: x in Olds(f, a) + News(f, b)
    ensures Ids(rows) == Selected(s, Compile(c)) && forall x | x in rows :: Stored(s, x)
  {
    var es := Olds(f, a) + News(f, b);
    forall x | x in es ensures Stored(s, x) && (Selects(s, Compile(c), x) <==> x in rows) {
      HoldingMeans(s, es, x);
      CompileCorrect(s, c, x);
    }
    forall id ensures id in Ids(rows) <==> id in Selected(s, Compile(c)) {
      if id in s.events { HoldingMeans(s, es, s.events[id]); StoredUnderOwnId(s, es, id); }
      if x :| x in rows && x.id == id { assert Stored(s, x); }
    }
  }

  lemma StoredUnderOwnId(s: Tables, es: seq<Event>, id: string)
    requires Holding(s, es) && id in s.events
    ensures s.events[id].id == id && s.events[id] in es
  {
    EventRuns.EventMapHas(es, id);
  }

  lemma HeadAnswered(s: Tables, f: Filter, a: seq<string>, b: seq<string>)
    requires Overfull(f, a, b) && TwoInstants(f) && ValidFilter(f) && Holding(s, Olds(f, a) + News(f, b))
    ensures AnsweredOnce(s, Compile(Head(f)), Olds(f, a))
  {
    forall x | x in Olds(f, a) + News(f, b) ensures Accepts(x, Head(f)) <==> x in Olds(f, a) {
      RowIsScene(f, a, b, x);
      RowFitsChunks(f, x.id, x.createdAt);
    }
    SceneSelected(s, f, a, b, Head(f), Olds(f, a));
    RowsDistinct(f, a, Late(f) - 1);
    ChunkLimit(f, Head(f));
    FirstOfSorted(s, Compile(Head(f)), Olds(f, a));
  }

  lemma TailAnswered(s: Tables, f: Filter, a: seq<string>, b: seq<string>)
    requires Overfull(f, a, b) && TwoInstants(f) && ValidFilter(f) && Holding(s, Olds(f, a) + News(f, b))
    ensures AnsweredOnce(s, Compile(Tail(f)), First(TailRows(f, a, b), RowLimit(f)))
  {
    var rows := TailRows(f, a, b);
    forall x ensures x in rows <==> x in News(f, b) || (x in Olds(f, a) && x.id in Elements(Tail(f).ids)) {
      AgainMember(Olds(f, a), Elements(Tail(f).ids), x);
    }
    forall x | x in Olds(f, a) + News(f, b) ensures Accepts(x, Tail(f)) <==> x in rows {
      RowIsScene(f, a, b, x);
      RowFitsChunks(f, x.id, x.createdAt);
    }
    SceneSelected(s, f, a, b, Tail(f), rows);
    TailRowsSorted(f, a, b);
    ChunkLimit(f, Tail(f));
    FirstOfSorted(s, Compile(Tail(f)), rows);
  }

  // ---------------------------------------------------------------- the last new event is cut off

  lemma {:induction false} MergeDisjoint(found: seq<Event>, rows: seq<Event>)
    requires Distinct(found + rows)
    ensures Merge(found, rows) == found + rows
  {
    if rows != [] {
      var front, last := rows[..|rows| - 1], rows[|rows| - 1];
      assert found + rows == found + front + [last];
      assert forall i | 0 <= i < |found + front| :: (found + front)[i] == (found + rows)[i];
      MergeDisjoint(found, front);
      assert (found + rows)[|found + front|] == last;
    }
  }

  lemma SceneRowsDistinct(f: Filter, a: seq<string>, b: seq<string>)
    requires Overfull(f, a, b)
    ensures Distinct(Olds(f, a) + News(f, b))
  {
    SceneDistinct(f, a, b);
  }

  /** The merged rows begin with all old events and all new ones, the last of them in place 500. */
  lemma LastIsCut(f: Filter, a: seq<string>, b: seq<string>)
    requires Overfull(f, a, b)
    ensures var merged := Merge(Olds(f, a), First(TailRows(f, a, b), RowLimit(f)));
            && Distinct(merged) && |merged| > GLOBAL_MAX_EVENTS && merged[GLOBAL_MAX_EVENTS] == News(f, b)[|b| - 1]
            && News(f, b)[|b| - 1] !in First(merged, GLOBAL_MAX_EVENTS)
  {
    var olds, news, rows := Olds(f, a), News(f, b), First(TailRows(f, a, b), RowLimit(f));
    assert rows[..|b|] == news;
    SceneRowsDistinct(f, a, b);
    MergeDisjoint(olds, news);
    MergePrefix(olds, rows, |b|);
    RowsDistinct(f, a, Late(f) - 1);
    MergeDistinct(olds, rows);
    assert (olds + news)[GLOBAL_MAX_EVENTS] == news[|b| - 1];
  }

  lemma ScanIds(c: Filter)
    requires TagFree(c) && c.ids != []
    ensures Compile(c).where.Clause? && Compile(c).where.first == TextIn(EventId, c.ids)
  {
    TagFreeScan(c);
  }

  lemma ChunksDiffer(f: Filter, b: seq<string>)
    requires TagFree(f) && |f.ids| > CHUNK_SIZE && b != [] && Elements(b) <= NewTailIds(f)
    ensures Compile(Head(f)) != Compile(Tail(f))
  {
    ScanIds(Head(f));
    ScanIds(Tail(f));
    assert b[0] in Elements(b);
  }

  lemma FewAreAsNew(s: Tables, f: Filter, a: seq<string>, b: seq<string>, e: Event)
    requires Overfull(f, a, b) && TwoInstants(f) && ValidFilter(f) && Holding(s, Olds(f, a) + News(f, b))
    requires e == News(f, b)[|b| - 1]
    ensures Wanted(s, f, e)
  {
    var es := Olds(f, a) + News(f, b);
    assert e in News(f, b) && e.id in Elements(b);
    HoldingMeans(s, es, e);
    RowFits(f, e.id, Late(f));
    assert e.id in f.ids by { assert e.id in Elements(Tail(f).ids); }
    var newer := AtLeastAsNew(s, Compile(f), e);
    forall id | id in newer ensures id in Elements(b) - {e.id} {
      StoredUnderOwnId(s, es, id);
      RowIsScene(f, a, b, s.events[id]);
    }
    SubsetSize(newer, Elements(b) - {e.id});
    ElementsSize(b);
    assert Elements(b) == (Elements(b) - {e.id}) + {e.id};
  }

  function Replies(f: Filter, head: seq<Event>, tail: seq<Event>): Database
    requires |f.ids| > CHUNK_SIZE
  {
    (q: Query) => if q == Compile(Head(f)) then head else tail
  }

  /** The filter, the store, the database's answers and the event that make a request lose what it should return. */
  ghost predicate LosesNewest(s: Tables, db: Database, f: Filter, estimate: Filter -> int, e: Event) {
    Indexed(s) && ChunksAnswered(s, db, f) && Wanted(s, f, e) && e !in Answered(RowsOf(db), [f], estimate)
  }

  lemma SceneAnswered(s: Tables, db: Database, f: Filter, head: seq<Event>, tail: seq<Event>)
    requires TagFree(f) && |f.ids| > CHUNK_SIZE && ChunkFilters(f) == [Head(f), Tail(f)]
    requires db(Compile(Head(f))) == head && db(Compile(Tail(f))) == tail
    requires AnsweredOnce(s, Compile(Head(f)), head) && AnsweredOnce(s, Compile(Tail(f)), tail)
    ensures ChunksAnswered(s, db, f)
  {
    TagFreeScan(f);
    ChunkLimit(f, Head(f));
    ChunkLimit(f, Tail(f));
  }

  lemma SceneLoses(s: Tables, f: Filter, a: seq<string>, b: seq<string>, estimate: Filter -> int) returns (db: Database, e: Event)
    requires Overfull(f, a, b) && TwoInstants(f) && ValidFilter(f) && IsRun(f, estimate)
    requires Holding(s, Olds(f, a) + News(f, b))
    ensures e == News(f, b)[|b| - 1] && LosesNewest(s, db, f, estimate, e)
  {
    var head, tail := Olds(f, a), First(TailRows(f, a, b), RowLimit(f));
    db, e := Replies(f, head, tail), News(f, b)[|b| - 1];
    TwoChunks(f);
    ChunksDiffer(f, b);
    HeadAnswered(s, f, a, b);
    TailAnswered(s, f, a, b);
    SceneAnswered(s, db, f, head, tail);
    FewAreAsNew(s, f, a, b, e);
    TwoRuns(Answer(db), Head(f), Tail(f));
    LastIsCut(f, a, b);
    SingleRead(RowsOf(db), f, estimate);
    AnswerShape(RowsOf(db), [f], estimate, e);
  }

  // ---------------------------------------------------------------- exactly which filters lose events

  /** Some n members of a set, listed. */
  lemma {:induction false} Listed(all: set<string>, n: nat) returns (xs: seq<string>)
    requires n <= |all|
    ensures |xs| == n && NoRepeats(xs) && Elements(xs) <= all
    decreases n
  {
    if n == 0 {
      xs := [];
      assert Elements(xs) == {};
    } else {
      var x :| x in all;
      var rest := Listed(all - {x}, n - 1);
      xs := rest + [x];
      assert Elements(xs) == Elements(rest) + {x};
      forall i | 0 <= i < |rest| ensures rest[i] != x { assert rest[i] in Elements(rest); }
    }
  }

  lemma NoRoomOverfull(f: Filter) returns (a: seq<string>, b: seq<string>)
    requires Simple(f) && !CapRoom(f)
    ensures Overfull(f, a, b)
  {
    TwoChunks(f);
    ElementsSize(Head(f).ids);
    var count := Least(|HeadIds(f)|, RowLimit(f));
    a := Listed(HeadIds(f), count);
    b := Listed(NewTailIds(f), GLOBAL_MAX_EVENTS + 1 - count);
  }

  function SceneStore(f: Filter, a: seq<string>, b: seq<string>): Tables {
    Tables(EventRuns.EventMap(Olds(f, a) + News(f, b)), [], map[])
  }

  lemma UntaggedIndexed(s: Tables)
    requires s.tags == [] && s.cache == map[]
    requires forall id | id in s.events :: s.events[id].id == id && s.events[id].tags == []
    ensures Indexed(s)
  {
    forall e: Event | e.tags == [] ensures TagRows(e) == [] { }
  }

  lemma SceneHolds(f: Filter, a: seq<string>, b: seq<string>)
    requires Overfull(f, a, b)
    ensures Holding(SceneStore(f, a, b), Olds(f, a) + News(f, b))
  {
    var es, s := Olds(f, a) + News(f, b), SceneStore(f, a, b);
    SceneDistinct(f, a, b);
    forall id | id in s.events ensures s.events[id].id == id && s.events[id].tags == [] {
      EventRuns.EventMapHas(es, id);
    }
    UntaggedIndexed(s);
  }

  /** For every store, every faithful database and every event, the newest events are answered. */
  ghost predicate NewestAlwaysAnswered(f: Filter, estimate: Filter -> int) {
    forall s: Tables, db: Database, e: Event :: !LosesNewest(s, db, f, estimate, e)
  }

  /**
   A filter without tags or a cursor is sure to be answered with its newest events exactly when it needs no
   chunking, admits at most one time, or its two chunks cannot fill more than the cap: at most the limit of rows
   for the first 500 identifiers and at most the limit for the further ones.
   */
  lemma NewestAnsweredExactlyWhen(f: Filter, estimate: Filter -> int)
    requires ValidFilter(f) && TagFree(f) && f.cursor.None? && IsRun(f, estimate)
    ensures NewestAlwaysAnswered(f, estimate) <==> CapRoom(f)
  {
    if CapRoom(f) {
      forall s: Tables, db: Database, e: Event ensures !LosesNewest(s, db, f, estimate, e) {
        if LosesNewest(s, db, f, estimate, e) { TagFreeScan(f); NewestAreAnswered(s, db, f, estimate, e); }
      }
    } else {
      var a, b := NoRoomOverfull(f);
      SceneHolds(f, a, b);
      var db, e := SceneLoses(SceneStore(f, a, b), f, a, b, estimate);
    }
  }

  // ---------------------------------------------------------------- a reachable loss

  /** The n-th of a list of distinct texts. */
  function Copies(n: nat): string {
    seq(n, _ => 'a')
  }

  function Names(n: nat): seq<string> {
    seq(n, i requires 0 <= i < n => Copies(i))
  }

  /** 501 identifiers, everything since the first second, and no smaller limit than 500. */
  function WideFilter(): Filter {
    Filter(Names(501), [], [], Some(1), None, Some(500), None, [])
  }

  lemma NamesDiffer(n: nat)
    ensures NoRepeats(Names(n))
  {
    forall i, j | 0 <= i < j < n ensures Names(n)[i] != Names(n)[j] {
      assert |Names(n)[i]| == i && |Names(n)[j]| == j;
    }
  }

  lemma WideIsRun(estimate: Filter -> int)
    ensures IsRun(WideFilter(), estimate) && ValidFilter(WideFilter()) && TwoInstants(WideFilter())
  {
    var f := WideFilter();
    assert ValueCount(f.tagFilters) == 0;
    assert Complexity(f) == 501.0;
  }

  /** 500 old events with the first identifiers, and one new event with the last. */
  lemma WideOverfull() returns (a: seq<string>, b: seq<string>)
    ensures Overfull(WideFilter(), a, b) && |a| == 500 && |b| == 1
  {
    var f := WideFilter();
    NamesDiffer(501);
    a, b := Names(501)[..500], Names(501)[500..];
    assert b == [Names(501)[500]];
    forall x | x in Elements(b) ensures x in NewTailIds(f) {
      assert forall i | 0 <= i < 500 :: a[i] == Names(501)[i];
    }
  }

  /** A reachable store in which a request for 501 identifiers is not answered with the newest event. */
  lemma NewestLost(estimate: Filter -> int)
    returns (ops: seq<EventRuns.Operation>, states: seq<EventStore.Relay>, db: Database, e: Event)
    ensures EventRuns.Run(ops, states) && LosesNewest(EventRuns.Last(states).db, db, WideFilter(), estimate, e)
    ensures forall x | x in EventRuns.Last(states).db.events && x != e.id ::
              EventRuns.Last(states).db.events[x].createdAt < e.createdAt
  {
    var f := WideFilter();
    var a, b := WideOverfull();
    var es := Olds(f, a) + News(f, b);
    WideIsRun(estimate);
    SceneDistinct(f, a, b);
    forall x | x in es ensures EventRuns.PlainEvent(x) { RowIsScene(f, a, b, x); RowIsPlain(f, x.id, x.createdAt); }
    ops, states := EventRuns.SavedAll(es);
    var s := EventRuns.Last(states).db;
    db, e := SceneLoses(s, f, a, b, estimate);
    forall x | x in s.events && x != e.id ensures s.events[x].createdAt < e.createdAt {
      StoredUnderOwnId(s, es, x);
      RowIsScene(f, a, b, s.events[x]);
    }
  }

  lemma RowIsPlain(f: Filter, id: string, at: int)
    requires f.kinds == []
    ensures EventRuns.PlainEvent(Row(f, id, at))
  {
    assert forall name | name in CACHED_TAGS :: EventStore.Column([], name) == EventStore.Null;
  }
}
