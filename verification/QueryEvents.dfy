/** Answering a request: the complexity gate, the cost estimate, the global cap and the final order. */
module QueryEvents {
  import opened Nostr
  import opened Options
  import opened Schema
  import opened Sql
  import opened QueryCompiler
  import opened ChunkedQuery
  import EventStore
  import EventRuns

  const GLOBAL_MAX_EVENTS := 500
  const MAX_ESTIMATED_ROWS := 10000

  // ---------------------------------------------------------------- which filters are run

  predicate Simple(f: Filter) {
    Complexity(f) <= MAX_COMPLEXITY
  }

  /** The filters past the gate that must be chunked, or that need not be. */
  function Gated(fs: seq<Filter>, chunked: bool): seq<Filter> {
    if fs == [] then []
    else
      var last := fs[|fs| - 1];
      Gated(fs[..|fs| - 1], chunked) + if Simple(last) && NeedsChunking(last) == chunked then [last] else []
  }

  /** Only filters with tags are counted first; the estimate is whatever the count query says. */
  predicate Affordable(f: Filter, estimate: Filter -> int) {
    f.tagFilters != [] ==> estimate(f) <= MAX_ESTIMATED_ROWS
  }

  function AffordableOf(fs: seq<Filter>, estimate: Filter -> int): seq<Filter> {
    if fs == [] then []
    else
      var last := fs[|fs| - 1];
      AffordableOf(fs[..|fs| - 1], estimate) + if Affordable(last, estimate) then [last] else []
  }

  // ---------------------------------------------------------------- what is read

  /** The rows one filter yields. */
  function RowsOf(db: Database): Filter -> seq<Event> {
    (f: Filter) => if NeedsChunking(f) then RunAll(Answer(db), ChunkFilters(f)) else db(Compile(f))
  }

  function Concat(rows: Filter -> seq<Event>, fs: seq<Filter>): seq<Event> {
    if fs == [] then [] else Concat(rows, fs[..|fs| - 1]) + rows(fs[|fs| - 1])
  }

  function First(es: seq<Event>, n: nat): seq<Event> {
    if |es| <= n then es else es[..n]
  }

  /** Chunked filters come first, and reading stops at the cap. */
  function Read(rows: Filter -> seq<Event>, fs: seq<Filter>, estimate: Filter -> int): seq<Event> {
    First(Concat(rows, Gated(fs, true)) + Concat(rows, AffordableOf(Gated(fs, false), estimate)), GLOBAL_MAX_EVENTS)
  }

  // ---------------------------------------------------------------- the order of the answer

  /** Newest first, then by identifier. */
  predicate Before(a: Event, b: Event) {
    a.createdAt > b.createdAt || (a.createdAt == b.createdAt && TextLess(a.id, b.id))
  }

  ghost predicate Sorted(es: seq<Event>) {
    forall i, j | 0 <= i < j < |es| :: !Before(es[j], es[i])
  }

  function InsertSorted(es: seq<Event>, e: Event): seq<Event> {
    if es == [] || !Before(e, es[|es| - 1]) then es + [e]
    else InsertSorted(es[..|es| - 1], e) + [es[|es| - 1]]
  }

  function SortNewest(es: seq<Event>): seq<Event> {
    if es == [] then [] else InsertSorted(SortNewest(es[..|es| - 1]), es[|es| - 1])
  }

  lemma {:induction false} TextLessTransitive(a: string, b: string, c: string)
    ensures !TextLess(b, a) && !TextLess(c, b) ==> !TextLess(c, a)
    ensures !(TextLess(a, b) && TextLess(b, a))
  {
    if a != [] && b != [] {
      TextLessTransitive(a[1..], b[1..], if c == [] then [] else c[1..]);
    }
  }

  lemma NotBeforeTransitive(a: Event, b: Event, c: Event)
    requires !Before(b, a) && !Before(c, b)
    ensures !Before(c, a)
  {
    TextLessTransitive(a.id, b.id, c.id);
  }

  lemma {:induction false} InsertSortedKeeps(es: seq<Event>, e: Event)
    ensures multiset(InsertSorted(es, e)) == multiset(es) + multiset{e}
  {
    if es != [] && Before(e, es[|es| - 1]) {
      InsertSortedKeeps(es[..|es| - 1], e);
      assert es == es[..|es| - 1] + [es[|es| - 1]];
    }
  }

  lemma InsertedMember(es: seq<Event>, e: Event, x: Event)
    requires x in InsertSorted(es, e)
    ensures x in es || x == e
  {
    InsertSortedKeeps(es, e);
    assert x in multiset(InsertSorted(es, e));
  }

  lemma SortedSnoc(es: seq<Event>, last: Event)
    requires Sorted(es) && forall x | x in es :: !Before(last, x)
    ensures Sorted(es + [last])
  {
  }

  lemma {:induction false} InsertSortedSorted(es: seq<Event>, e: Event)
    requires Sorted(es)
    ensures Sorted(InsertSorted(es, e))
  {
    if es == [] {
    } else if Before(e, es[|es| - 1]) {
      var front, last := es[..|es| - 1], es[|es| - 1];
      InsertSortedSorted(front, e);
      forall x | x in InsertSorted(front, e) ensures !Before(last, x) {
        InsertedMember(front, e, x);
        TextLessTransitive(e.id, last.id, last.id);
      }
      SortedSnoc(InsertSorted(front, e), last);
    } else {
      forall i | 0 <= i < |es| ensures !Before(e, es[i]) {
        if i < |es| - 1 { NotBeforeTransitive(es[i], es[|es| - 1], e); }
      }
      SortedSnoc(es, e);
    }
  }

  lemma {:induction false} SortNewestSorted(es: seq<Event>)
    ensures Sorted(SortNewest(es))
  {
    if es != [] {
      SortNewestSorted(es[..|es| - 1]);
      InsertSortedSorted(SortNewest(es[..|es| - 1]), es[|es| - 1]);
    }
  }

  lemma MultisetSnoc(es: seq<Event>, e: Event)
    ensures multiset(es + [e]) == multiset(es) + multiset{e}
  {
  }

  lemma {:induction false} SortNewestKeeps(es: seq<Event>)
    ensures multiset(SortNewest(es)) == multiset(es)
  {
    if es != [] {
      var front, last := es[..|es| - 1], es[|es| - 1];
      SortNewestKeeps(front);
      InsertSortedKeeps(SortNewest(front), last);
      MultisetSnoc(front, last);
      assert es == front + [last];
    }
  }

  /** The answer is a sorted rearrangement of what was collected. */
  lemma SortNewestSorts(es: seq<Event>)
    ensures Sorted(SortNewest(es)) && multiset(SortNewest(es)) == multiset(es)
  {
    SortNewestSorted(es);
    SortNewestKeeps(es);
  }

  /** The events a request is answered with. */
  function Answered(rows: Filter -> seq<Event>, fs: seq<Filter>, estimate: Filter -> int): seq<Event> {
    SortNewest(Merge([], Read(rows, fs, estimate)))
  }

  // ---------------------------------------------------------------- what is returned

  lemma {:induction false} GatedMember(fs: seq<Filter>, chunked: bool, f: Filter)
    ensures f in Gated(fs, chunked) <==> f in fs && Simple(f) && NeedsChunking(f) == chunked
  {
    if fs != [] {
      GatedMember(fs[..|fs| - 1], chunked, f);
      assert fs == fs[..|fs| - 1] + [fs[|fs| - 1]];
    }
  }

  lemma {:induction false} AffordableMember(fs: seq<Filter>, estimate: Filter -> int, f: Filter)
    ensures f in AffordableOf(fs, estimate) <==> f in fs && Affordable(f, estimate)
  {
    if fs != [] {
      AffordableMember(fs[..|fs| - 1], estimate, f);
      assert fs == fs[..|fs| - 1] + [fs[|fs| - 1]];
    }
  }

  lemma {:induction false} ConcatMember(rows: Filter -> seq<Event>, fs: seq<Filter>, e: Event)
    ensures e in Concat(rows, fs) <==> exists i | 0 <= i < |fs| :: e in rows(fs[i])
  {
    if fs != [] {
      var front, last := fs[..|fs| - 1], fs[|fs| - 1];
      ConcatMember(rows, front, e);
      if i :| 0 <= i < |fs| && e in rows(fs[i]) { assert i < |front| ==> front[i] == fs[i]; }
      if i :| 0 <= i < |front| && e in rows(front[i]) { assert fs[i] == front[i]; }
    }
  }

  lemma {:induction false} MergeSize(found: seq<Event>, rows: seq<Event>)
    ensures |found| <= |Merge(found, rows)| <= |found| + |rows|
  {
    if rows != [] { MergeSize(found, rows[..|rows| - 1]); }
  }

  lemma SameMembers(a: seq<Event>, b: seq<Event>, e: Event)
    requires multiset(a) == multiset(b)
    ensures |a| == |b| && (e in a <==> e in b)
  {
    assert |multiset(a)| == |a| && |multiset(b)| == |b|;
    assert e in a <==> e in multiset(a);
    assert e in b <==> e in multiset(b);
  }

  /** At most 500 events, newest first, and exactly those that were read. */
  lemma AnswerShape(rows: Filter -> seq<Event>, fs: seq<Filter>, estimate: Filter -> int, e: Event)
    ensures var a := Answered(rows, fs, estimate);
            Sorted(a) && |a| <= GLOBAL_MAX_EVENTS && (e in a <==> e in Read(rows, fs, estimate))
  {
    var read := Read(rows, fs, estimate);
    SortNewestSorts(Merge([], read));
    MergeSize([], read);
    MergeMember([], read, e);
    SameMembers(Answered(rows, fs, estimate), Merge([], read), e);
  }

  /** A filter that passes the gate and, if it is not chunked, the estimate. */
  predicate IsRun(f: Filter, estimate: Filter -> int) {
    Simple(f) && (NeedsChunking(f) || Affordable(f, estimate))
  }

  lemma AllRows(rows: Filter -> seq<Event>, fs: seq<Filter>, estimate: Filter -> int, e: Event)
    ensures e in Concat(rows, Gated(fs, true)) + Concat(rows, AffordableOf(Gated(fs, false), estimate))
            <==> exists f | f in fs :: IsRun(f, estimate) && e in rows(f)
  {
    var long, short := Gated(fs, true), AffordableOf(Gated(fs, false), estimate);
    ConcatMember(rows, long, e);
    ConcatMember(rows, short, e);
    forall f
      ensures f in long <==> f in fs && Simple(f) && NeedsChunking(f)
      ensures f in short <==> f in fs && Simple(f) && !NeedsChunking(f) && Affordable(f, estimate)
    {
      GatedMember(fs, true, f);
      GatedMember(fs, false, f);
      AffordableMember(Gated(fs, false), estimate, f);
    }
    if f :| f in fs && IsRun(f, estimate) && e in rows(f) {
      assert f in long || f in short;
    }
  }

  /** Nothing is returned but rows of filters that are run; below the cap, nothing is left out either. */
  lemma AnswerMember(rows: Filter -> seq<Event>, fs: seq<Filter>, estimate: Filter -> int, e: Event)
    ensures e in Answered(rows, fs, estimate) ==> exists f | f in fs :: IsRun(f, estimate) && e in rows(f)
    ensures |Concat(rows, Gated(fs, true))| + |Concat(rows, AffordableOf(Gated(fs, false), estimate))| <= GLOBAL_MAX_EVENTS ==>
              (e in Answered(rows, fs, estimate) <==> exists f | f in fs :: IsRun(f, estimate) && e in rows(f))
  {
    AnswerShape(rows, fs, estimate, e);
    AllRows(rows, fs, estimate, e);
  }

  /** The database answers every query with stored events that the query selects. */
  ghost predicate Faithful(s: Tables, db: Database) {
    forall q, e | e in db(q) :: Stored(s, e) && Selects(s, q, e)
  }

  lemma FaithfulRow(s: Tables, db: Database, q: Query, e: Event)
    requires Faithful(s, db) && e in db(q)
    ensures Stored(s, e) && Selects(s, q, e)
  {
  }

  lemma RowAccepted(s: Tables, db: Database, f: Filter, e: Event)
    requires Indexed(s) && Faithful(s, db) && ValidFilter(f) && e in db(Compile(f))
    ensures Stored(s, e) && Accepts(e, f)
  {
    FaithfulRow(s, db, Compile(f), e);
    CompileCorrect(s, f, e);
  }

  lemma ChunkAccepted(s: Tables, db: Database, f: Filter, i: nat, e: Event)
    requires Indexed(s) && Faithful(s, db) && ValidFilter(f) && Simple(f)
    requires i < |ChunkFilters(f)| && e in db(Compile(ChunkFilters(f)[i]))
    ensures Stored(s, e) && Accepts(e, f)
  {
    ChunkShape(f, ChunkFilters(f)[i]);
    RowAccepted(s, db, ChunkFilters(f)[i], e);
    ChunksAcceptTheFilter(f, e);
  }

  lemma RowsAccepted(s: Tables, db: Database, f: Filter, e: Event)
    requires Indexed(s) && Faithful(s, db) && ValidFilter(f) && Simple(f) && e in RowsOf(db)(f)
    ensures Stored(s, e) && Accepts(e, f)
  {
    if NeedsChunking(f) {
      RunAllMember(Answer(db), ChunkFilters(f), e);
      var i :| 0 <= i < |ChunkFilters(f)| && e in Answer(db)(ChunkFilters(f)[i]);
      ChunkAccepted(s, db, f, i, e);
    } else {
      RowAccepted(s, db, f, e);
    }
  }

  /** Whatever comes back is stored and is accepted by one of the filters asked. */
  lemma AnswersAreAccepted(s: Tables, db: Database, fs: seq<Filter>, estimate: Filter -> int, e: Event)
    requires Indexed(s) && Faithful(s, db) && forall f | f in fs :: ValidFilter(f)
    requires e in Answered(RowsOf(db), fs, estimate)
    ensures Stored(s, e) && exists f | f in fs :: Accepts(e, f)
  {
    AnswerMember(RowsOf(db), fs, estimate, e);
    var f :| f in fs && IsRun(f, estimate) && e in RowsOf(db)(f);
    RowsAccepted(s, db, f, e);
  }

  /** End to end: in every reachable state, an answer matches one of the filters as a live event would. */
  lemma ReachableAnswersMatch(ops: seq<EventRuns.Operation>, states: seq<EventStore.Relay>, db: Database,
                              fs: seq<Filter>, estimate: Filter -> int, e: Event)
    requires EventRuns.Run(ops, states) && Faithful(EventRuns.Last(states).db, db) && forall f | f in fs :: ValidFilter(f)
    requires e in Answered(RowsOf(db), fs, estimate) && TagsIndexable(e)
    ensures Stored(EventRuns.Last(states).db, e) && MatchesAny(e, fs)
  {
    var s := EventRuns.Last(states).db;
    EventRuns.AlwaysIndexed(ops, states);
    AnswersAreAccepted(s, db, fs, estimate, e);
    var f :| f in fs && Accepts(e, f);
    AcceptedMatches(s, f, e);
    var i :| 0 <= i < |fs| && fs[i] == f;
  }

  lemma AcceptedMatches(s: Tables, f: Filter, e: Event)
    requires Indexed(s) && Stored(s, e) && ValidFilter(f) && TagsIndexable(e) && Accepts(e, f)
    ensures Matches(e, f)
  {
    CompileCorrect(s, f, e);
    CompileAgreesWithMatches(s, f, e);
  }

  /** A single filter's rows are cut at the cap in the order they were read, not by age. */
  lemma SingleFilterCut(db: Database, f: Filter, estimate: Filter -> int, k: nat)
    requires IsRun(f, estimate) && k < |RowsOf(db)(f)| && Distinct(RowsOf(db)(f))
    ensures RowsOf(db)(f)[k] in Answered(RowsOf(db), [f], estimate) <==> k < GLOBAL_MAX_EVENTS
  {
    var rows := RowsOf(db)(f);
    SingleRead(RowsOf(db), f, estimate);
    AnswerShape(RowsOf(db), [f], estimate, rows[k]);
    if k < GLOBAL_MAX_EVENTS && |rows| > GLOBAL_MAX_EVENTS { assert rows[..GLOBAL_MAX_EVENTS][k] == rows[k]; }
  }

  lemma SingleRead(rows: Filter -> seq<Event>, f: Filter, estimate: Filter -> int)
    requires IsRun(f, estimate)
    ensures Read(rows, [f], estimate) == First(rows(f), GLOBAL_MAX_EVENTS)
  {
    assert [f][..0] == [];
    assert Gated([f], true) == if NeedsChunking(f) then [f] else [];
    assert Gated([f], false) == if NeedsChunking(f) then [] else [f];
    assert AffordableOf([f], estimate) == if Affordable(f, estimate) then [f] else [];
    assert Concat(rows, [f]) == rows(f);
  }

  lemma {:induction false} IdsSize(rows: seq<Event>)
    requires Distinct(rows) && forall a, b | a in rows && b in rows && a.id == b.id :: a == b
    ensures |Ids(rows)| == |rows|
  {
    if rows != [] {
      var front, last := rows[..|rows| - 1], rows[|rows| - 1];
      assert rows == front + [last];
      IdsSize(front);
      forall e | e in front ensures e.id != last.id {
        var i :| 0 <= i < |front| && front[i] == e;
        assert rows[i] == e;
      }
      assert Ids(rows) == Ids(front) + {last.id};
    }
  }

  // ---------------------------------------------------------------- the newest events under the cap

  ghost predicate NewestFirst(rows: seq<Event>) {
    forall i, j | 0 <= i < j < |rows| :: rows[i].createdAt >= rows[j].createdAt
  }

  /** ORDER BY created_at DESC, each event once, up to the LIMIT of the query. */
  ghost predicate AnsweredOnce(s: Tables, q: Query, rows: seq<Event>) {
    TopEvents(s, q, rows) && Distinct(rows) && NewestFirst(rows)
  }

  /** What the database may answer to a query. */
  ghost predicate AnsweredBy(s: Tables, q: Query, rows: seq<Event>) {
    if Repeats(q) then TopRepeated(s, q, rows) && NewestFirst(rows) else AnsweredOnce(s, q, rows)
  }

  function Elements(xs: seq<string>): set<string> {
    set x | x in xs
  }

  function Least(a: int, b: int): int {
    if a <= b then a else b
  }

  /** The two chunks of a filter past the gate with more than 500 identifiers. */
  function Head(f: Filter): Filter
    requires |f.ids| > CHUNK_SIZE
  {
    f.(ids := f.ids[..CHUNK_SIZE])
  }

  function Tail(f: Filter): Filter
    requires |f.ids| > CHUNK_SIZE
  {
    f.(ids := f.ids[CHUNK_SIZE..])
  }

  function HeadIds(f: Filter): set<string>
    requires |f.ids| > CHUNK_SIZE
  {
    Elements(Head(f).ids)
  }

  function NewTailIds(f: Filter): set<string>
    requires |f.ids| > CHUNK_SIZE
  {
    Elements(Tail(f).ids) - HeadIds(f)
  }

  /** The time bounds leave room for one time, or none. */
  predicate OneInstant(f: Filter) {
    Truthy(f.since) && Truthy(f.until) && f.since.value >= f.until.value
  }

  /** The chunks together cannot read more than 500 rows that matter. */
  predicate CapRoom(f: Filter) {
    |f.ids| <= CHUNK_SIZE || OneInstant(f)
    || Least(|HeadIds(f)|, RowLimit(f)) + Least(|NewTailIds(f)|, RowLimit(f)) <= GLOBAL_MAX_EVENTS
  }

  lemma TwoChunks(f: Filter)
    requires Simple(f) && |f.ids| > CHUNK_SIZE
    ensures |f.ids| <= 2 * CHUNK_SIZE && NeedsChunking(f) && ChunkFilters(f) == [Head(f), Tail(f)]
  {
    var terms := |f.ids| + 2 * |f.authors| + 5 * |f.kinds| + 10 * ValueCount(f.tagFilters);
    assert terms as real <= Complexity(f);
    GatedChunks(f);
    var rest := f.ids[CHUNK_SIZE..];
    assert Chunks(f.ids, CHUNK_SIZE) == [f.ids[..CHUNK_SIZE]] + Chunks(rest, CHUNK_SIZE);
    assert Chunks(rest, CHUNK_SIZE) == [rest];
  }

  lemma {:induction false} ElementsSize(xs: seq<string>)
    ensures |Elements(xs)| <= |xs|
  {
    if xs != [] {
      var front := xs[..|xs| - 1];
      ElementsSize(front);
      assert xs == front + [xs[|xs| - 1]];
      assert Elements(xs) == Elements(front) + {xs[|xs| - 1]};
    } else {
      assert Elements(xs) == {};
    }
  }

  /** Small limits leave room: at most 250 rows a chunk, or few enough identifiers for the limit. */
  lemma SmallLimitsHaveRoom(f: Filter)
    requires Simple(f) && (RowLimit(f) <= 250 || |f.ids| + RowLimit(f) <= 2 * CHUNK_SIZE)
    ensures CapRoom(f)
  {
    if |f.ids| > CHUNK_SIZE {
      TwoChunks(f);
      ElementsSize(Tail(f).ids);
      SubsetSize(NewTailIds(f), Elements(Tail(f).ids));
    }
  }

  lemma StoredIdsSize(s: Tables, rows: seq<Event>)
    requires Distinct(rows) && forall e | e in rows :: Stored(s, e)
    ensures |Ids(rows)| == |rows|
  {
    IdsSize(rows);
  }

  /** Merging only appends. */
  lemma {:induction false} MergePrefix(found: seq<Event>, rows: seq<Event>, k: nat)
    requires k <= |rows|
    ensures found <= Merge(found, rows[..k]) <= Merge(found, rows)
    decreases |rows|
  {
    if k < |rows| {
      var front := rows[..|rows| - 1];
      MergePrefix(found, front, k);
      assert front[..k] == rows[..k];
    } else {
      assert rows[..k] == rows;
      MergeStarts(found, rows);
    }
  }

  lemma {:induction false} MergeStarts(found: seq<Event>, rows: seq<Event>)
    ensures found <= Merge(found, rows)
  {
    if rows != [] { MergeStarts(found, rows[..|rows| - 1]); }
  }

  lemma {:induction false} MergeFresh(rows: seq<Event>)
    requires Distinct(rows)
    ensures Merge([], rows) == rows
  {
    if rows != [] {
      var front, last := rows[..|rows| - 1], rows[|rows| - 1];
      MergeFresh(front);
      assert last !in front;
      assert rows == front + [last];
    }
  }

  lemma TwoRuns(answer: Filter -> seq<Event>, a: Filter, b: Filter)
    requires Distinct(answer(a))
    ensures RunAll(answer, [a, b]) == Merge(answer(a), answer(b))
  {
    assert [a, b][..1] == [a] && [a][..0] == [];
    MergeFresh(answer(a));
    assert RunAll(answer, [a]) == answer(a);
  }

  /** What is merged up to a row is no more than both sides allow. */
  lemma MergedSize(s: Tables, found: seq<Event>, rows: seq<Event>, fresh': set<string>)
    requires Distinct(found) && forall e | e in found + rows :: Stored(s, e)
    requires forall e | e in rows && e !in found :: e.id in fresh'
    ensures |Merge(found, rows)| <= |found| + |fresh'|
  {
    var all := Merge(found, rows);
    forall e | e in all ensures Stored(s, e) { MergeMember(found, rows, e); }
    MergeDistinct(found, rows);
    StoredIdsSize(s, all);
    StoredIdsSize(s, found);
    forall id | id in Ids(all) ensures id in Ids(found) + fresh' {
      var e :| e in all && e.id == id;
      MergeMember(found, rows, e);
    }
    SubsetSize(Ids(all), Ids(found) + fresh');
    UnionSize(Ids(found), fresh');
  }

  lemma MergeDistinct(found: seq<Event>, rows: seq<Event>)
    requires Distinct(found)
    ensures Distinct(Merge(found, rows))
  {
    if rows != [] { MergeMember(found, rows, rows[0]); }
  }

  lemma UnionSize(a: set<string>, b: set<string>)
    ensures |a + b| <= |a| + |b|
  {
    assert a + b == a + (b - a);
    SubsetSize(b - a, b);
  }

  /** A row in an answer is stored and accepted; one left out is outranked by a full answer. */
  lemma AnswerMeans(s: Tables, c: Filter, rows: seq<Event>, x: Event)
    requires Indexed(s) && ValidFilter(c) && !TagJoin(c) && AnsweredOnce(s, Compile(c), rows)
    ensures x in rows ==> Stored(s, x) && Accepts(x, c)
    ensures |rows| == |Ids(rows)| && (|rows| <= RowLimit(c) || RowLimit(c) < 0)
    ensures Stored(s, x) && Accepts(x, c) && x !in rows ==>
              |rows| == RowLimit(c) && forall y | y in rows :: y.createdAt >= x.createdAt
  {
    ChunkLimit(c, c);
    StoredIdsSize(s, rows);
    if x in rows {
      assert x.id in Ids(rows);
      CompileCorrect(s, c, x);
    } else if Stored(s, x) && Accepts(x, c) {
      CompileCorrect(s, c, x);
      assert x.id in Selected(s, Compile(c));
      assert forall y | y in rows :: Stored(s, y) && y != x;
      assert x.id in Selected(s, Compile(c)) - Ids(rows);
    }
  }

  lemma SplitMeans(f: Filter, x: Event)
    requires |f.ids| > CHUNK_SIZE
    ensures Accepts(x, Head(f)) <==> Accepts(x, f) && x.id in HeadIds(f)
    ensures Accepts(x, Tail(f)) <==> Accepts(x, f) && x.id in Elements(Tail(f).ids)
  {
    SplitAccepts(f, Head(f), x);
    SplitAccepts(f, Tail(f), x);
  }

  lemma NewerCounted(s: Tables, f: Filter, e: Event, rows: seq<Event>)
    requires Indexed(s) && ValidFilter(f) && Stored(s, e) && e !in rows
    requires forall y | y in rows :: Stored(s, y) && Accepts(y, f) && y.createdAt >= e.createdAt
    ensures |Ids(rows)| <= |AtLeastAsNew(s, Compile(f), e)|
  {
    forall id | id in Ids(rows) ensures id in AtLeastAsNew(s, Compile(f), e) {
      var y :| y in rows && y.id == id;
      CompileCorrect(s, f, y);
    }
    SubsetSize(Ids(rows), AtLeastAsNew(s, Compile(f), e));
  }

  /** A later row at least as new as a wanted event, and not found in the first chunk, has a new identifier. */
  lemma FreshIsNew(s: Tables, f: Filter, head: seq<Event>, tail: seq<Event>, e: Event, x: Event)
    requires Indexed(s) && ValidFilter(f) && !TagJoin(f) && |f.ids| > CHUNK_SIZE
    requires AnsweredOnce(s, Compile(Head(f)), head) && AnsweredOnce(s, Compile(Tail(f)), tail)
    requires Stored(s, e) && e !in head && |AtLeastAsNew(s, Compile(f), e)| < RowLimit(f)
    requires x in tail && x !in head && x.createdAt >= e.createdAt
    ensures x.id in NewTailIds(f)
  {
    AnswerMeans(s, Tail(f), tail, x);
    SplitMeans(f, x);
    if x.id in HeadIds(f) {
      AnswerMeans(s, Head(f), head, x);
      forall y | y in head ensures Stored(s, y) && Accepts(y, f) && y.createdAt >= e.createdAt {
        AnswerMeans(s, Head(f), head, y);
        SplitMeans(f, y);
      }
      NewerCounted(s, f, e, head);
    }
  }

  lemma HeadSize(s: Tables, f: Filter, head: seq<Event>)
    requires Indexed(s) && ValidFilter(f) && !TagJoin(f) && |f.ids| > CHUNK_SIZE
    requires AnsweredOnce(s, Compile(Head(f)), head)
    ensures |head| <= |HeadIds(f)| <= CHUNK_SIZE && (RowLimit(f) >= 0 ==> |head| <= RowLimit(f))
  {
    StoredIdsSize(s, head);
    forall id | id in Ids(head) ensures id in HeadIds(f) {
      var y :| y in head && y.id == id;
      AnswerMeans(s, Head(f), head, y);
      SplitMeans(f, y);
    }
    SubsetSize(Ids(head), HeadIds(f));
    ElementsSize(Head(f).ids);
    ChunkLimit(f, Head(f));
  }

  /** Up to the wanted row, the merged chunks hold no more than the cap. */
  lemma MergedUpTo(s: Tables, f: Filter, head: seq<Event>, tail: seq<Event>, k: nat)
    requires Indexed(s) && ValidFilter(f) && !TagJoin(f) && |f.ids| > CHUNK_SIZE
    requires AnsweredOnce(s, Compile(Head(f)), head) && AnsweredOnce(s, Compile(Tail(f)), tail)
    requires k < |tail| && tail[k] !in head && |AtLeastAsNew(s, Compile(f), tail[k])| < RowLimit(f)
    ensures |Merge(head, tail[..k + 1])| <= Least(|HeadIds(f)|, RowLimit(f)) + Least(|NewTailIds(f)|, RowLimit(f))
  {
    var e, upTo := tail[k], tail[..k + 1];
    var fresh' := Ids(upTo) * NewTailIds(f);
    AnswerMeans(s, Tail(f), tail, e);
    forall x | x in upTo && x !in head ensures x.id in fresh' {
      var j :| 0 <= j < k + 1 && upTo[j] == x;
      assert x == tail[j] && tail[j].createdAt >= tail[k].createdAt;
      FreshIsNew(s, f, head, tail, e, x);
    }
    MergedSize(s, head, upTo, fresh');
    HeadSize(s, f, head);
    FreshSize(s, f, tail, k, fresh');
  }

  lemma FreshSize(s: Tables, f: Filter, tail: seq<Event>, k: nat, fresh': set<string>)
    requires !TagJoin(f) && |f.ids| > CHUNK_SIZE && TopEvents(s, Compile(Tail(f)), tail) && Distinct(tail) && k < |tail|
    requires RowLimit(f) >= 0 && fresh' == Ids(tail[..k + 1]) * NewTailIds(f)
    ensures |fresh'| <= Least(|NewTailIds(f)|, RowLimit(f))
  {
    SubsetSize(fresh', NewTailIds(f));
    SubsetSize(fresh', Ids(tail[..k + 1]));
    IdsAtMost(tail[..k + 1]);
    StoredIdsSize(s, tail);
    ChunkLimit(f, Tail(f));
  }

  lemma {:induction false} IdsAtMost(rows: seq<Event>)
    ensures |Ids(rows)| <= |rows|
  {
    if rows != [] {
      var front, last := rows[..|rows| - 1], rows[|rows| - 1];
      IdsAtMost(front);
      assert rows == front + [last];
      assert Ids(rows) == Ids(front) + {last.id};
    } else {
      assert Ids(rows) == {};
    }
  }

  ghost predicate ChunksAnswered(s: Tables, db: Database, f: Filter) {
    forall c | c in ChunkFilters(f) :: AnsweredBy(s, Compile(c), db(Compile(c)))
  }

  /** A stored event that the filter accepts and that fewer others than the limit are at least as new as. */
  ghost predicate Wanted(s: Tables, f: Filter, e: Event) {
    Stored(s, e) && Accepts(e, f) && |AtLeastAsNew(s, Compile(f), e)| < RowLimit(f)
  }

  lemma ChunkAnswer(s: Tables, db: Database, f: Filter, c: Filter)
    requires ChunksAnswered(s, db, f) && c in ChunkFilters(f)
    requires !TagJoin(f) && c.tagFilters == f.tagFilters && c.limit == f.limit
    ensures AnsweredOnce(s, Compile(c), db(Compile(c))) && TopRows(s, Compile(c), db(Compile(c)))
  {
    ChunkLimit(f, c);
  }

  lemma TwoAnswers(s: Tables, db: Database, f: Filter, e: Event)
    requires Indexed(s) && ValidFilter(f) && !TagJoin(f) && Simple(f) && |f.ids| > CHUNK_SIZE
    requires ChunksAnswered(s, db, f) && Wanted(s, f, e)
    ensures var head, tail := db(Compile(Head(f))), db(Compile(Tail(f)));
            && AnsweredOnce(s, Compile(Head(f)), head) && AnsweredOnce(s, Compile(Tail(f)), tail)
            && RowsOf(db)(f) == Merge(head, tail) && (e in head || e in tail)
  {
    TwoChunks(f);
    assert Head(f) in ChunkFilters(f) && Tail(f) in ChunkFilters(f);
    CompileCorrect(s, f, e);
    ChunkAnswer(s, db, f, Head(f));
    ChunkAnswer(s, db, f, Tail(f));
    ChunkedKeepsNewest(s, f, db, e);
    TwoRuns(Answer(db), Head(f), Tail(f));
    MergeMember(db(Compile(Head(f))), db(Compile(Tail(f))), e);
  }

  lemma ChunkedNewestRead(s: Tables, db: Database, f: Filter, e: Event)
    requires Indexed(s) && ValidFilter(f) && !TagJoin(f) && Simple(f) && |f.ids| > CHUNK_SIZE
    requires ChunksAnswered(s, db, f) && Wanted(s, f, e)
    requires Least(|HeadIds(f)|, RowLimit(f)) + Least(|NewTailIds(f)|, RowLimit(f)) <= GLOBAL_MAX_EVENTS
    ensures e in First(RowsOf(db)(f), GLOBAL_MAX_EVENTS)
  {
    var head, tail := db(Compile(Head(f))), db(Compile(Tail(f)));
    TwoAnswers(s, db, f, e);
    if e in head {
      HeadSize(s, f, head);
      HeadIsFirst(head, tail, e);
    } else {
      var k :| 0 <= k < |tail| && tail[k] == e;
      MergedUpTo(s, f, head, tail, k);
      TailIsFirst(head, tail, k);
    }
  }

  lemma HeadIsFirst(head: seq<Event>, tail: seq<Event>, e: Event)
    requires |head| <= GLOBAL_MAX_EVENTS && e in head
    ensures e in First(Merge(head, tail), GLOBAL_MAX_EVENTS)
  {
    MergeStarts(head, tail);
    InFirst(head, Merge(head, tail), e);
  }

  lemma TailIsFirst(head: seq<Event>, tail: seq<Event>, k: nat)
    requires k < |tail| && |Merge(head, tail[..k + 1])| <= GLOBAL_MAX_EVENTS
    ensures tail[k] in First(Merge(head, tail), GLOBAL_MAX_EVENTS)
  {
    MergePrefix(head, tail, k + 1);
    assert tail[..k + 1][k] == tail[k];
    MergeMember(head, tail[..k + 1], tail[k]);
    InFirst(Merge(head, tail[..k + 1]), Merge(head, tail), tail[k]);
  }

  lemma InFirst(a: seq<Event>, b: seq<Event>, e: Event)
    requires a <= b && |a| <= GLOBAL_MAX_EVENTS && e in a
    ensures e in First(b, GLOBAL_MAX_EVENTS)
  {
    var i :| 0 <= i < |a| && a[i] == e;
    assert b[i] == e;
    assert |b| > GLOBAL_MAX_EVENTS ==> b[..GLOBAL_MAX_EVENTS][i] == e;
  }

  /** When all accepted events are of one time, fewer than the limit of them means fewer than the cap. */
  lemma OneInstantRead(s: Tables, db: Database, f: Filter, e: Event)
    requires Indexed(s) && ValidFilter(f) && !TagJoin(f) && Simple(f) && |f.ids| > CHUNK_SIZE
    requires ChunksAnswered(s, db, f) && Wanted(s, f, e) && OneInstant(f)
    ensures e in First(RowsOf(db)(f), GLOBAL_MAX_EVENTS)
  {
    var head, tail := db(Compile(Head(f))), db(Compile(Tail(f)));
    TwoAnswers(s, db, f, e);
    var all := Merge(head, tail);
    forall y | y in all ensures Stored(s, y) && Accepts(y, f) {
      MergeMember(head, tail, y);
      AnswerMeans(s, Head(f), head, y);
      AnswerMeans(s, Tail(f), tail, y);
      SplitMeans(f, y);
    }
    MergeDistinct(head, tail);
    StoredIdsSize(s, all);
    InstantCount(s, f, e, all);
    MergeMember(head, tail, e);
    InFirst(all, all, e);
  }

  lemma InstantCount(s: Tables, f: Filter, e: Event, all: seq<Event>)
    requires Indexed(s) && ValidFilter(f) && Wanted(s, f, e) && OneInstant(f)
    requires forall y | y in all :: Stored(s, y) && Accepts(y, f)
    ensures |Ids(all)| <= GLOBAL_MAX_EVENTS
  {
    var newer := AtLeastAsNew(s, Compile(f), e);
    forall id | id in Ids(all) ensures id in newer + {e.id} {
      var y :| y in all && y.id == id;
      CompileCorrect(s, f, y);
    }
    SubsetSize(Ids(all), newer + {e.id});
  }

  /**
   A request with one filter, other than for a single uncached tag, returns every stored event it accepts that has fewer than the limit of
   others at least as new, as long as its chunks fit under the cap.
   */
  lemma NewestAreAnswered(s: Tables, db: Database, f: Filter, estimate: Filter -> int, e: Event)
    requires Indexed(s) && ValidFilter(f) && !TagJoin(f) && IsRun(f, estimate) && CapRoom(f)
    requires ChunksAnswered(s, db, f) && Wanted(s, f, e)
    ensures e in Answered(RowsOf(db), [f], estimate)
  {
    SingleRead(RowsOf(db), f, estimate);
    AnswerShape(RowsOf(db), [f], estimate, e);
    if |f.ids| <= CHUNK_SIZE {
      GatedChunks(f);
      OnlyIdsExceed(f);
      assert f in ChunkFilters(f);
      ChunkAnswer(s, db, f, f);
      AnswerMeans(s, f, db(Compile(f)), e);
      var rows := db(Compile(f));
      if e !in rows { NewerDropped(s, f, rows, e); }
    } else if OneInstant(f) {
      OneInstantRead(s, db, f, e);
    } else {
      ChunkedNewestRead(s, db, f, e);
    }
  }

  lemma NewerDropped(s: Tables, f: Filter, rows: seq<Event>, e: Event)
    requires Indexed(s) && ValidFilter(f) && !TagJoin(f) && AnsweredOnce(s, Compile(f), rows)
    requires Stored(s, e) && Accepts(e, f) && e !in rows
    ensures |AtLeastAsNew(s, Compile(f), e)| >= RowLimit(f)
  {
    AnswerMeans(s, f, rows, e);
    forall y | y in rows ensures Stored(s, y) && Accepts(y, f) { AnswerMeans(s, f, rows, y); }
    NewerCounted(s, f, e, rows);
  }

  // ---------------------------------------------------------------- the method

  method SplitFilters(fs: seq<Filter>) returns (chunked: seq<Filter>, batchable: seq<Filter>)
    ensures chunked == Gated(fs, true) && batchable == Gated(fs, false)
  {
    chunked, batchable := [], [];
    for i := 0 to |fs|
      invariant chunked == Gated(fs[..i], true) && batchable == Gated(fs[..i], false)
    {
      assert fs[..i + 1][..i] == fs[..i];
      var complexity := CalculateComplexity(fs[i]);
      if complexity > MAX_COMPLEXITY {
        continue;
      }
      if NeedsChunking(fs[i]) {
        chunked := chunked + [fs[i]];
      } else {
        batchable := batchable + [fs[i]];
      }
    }
    assert fs[..|fs|] == fs;
  }

  method Precheck(fs: seq<Filter>, estimate: Filter -> int) returns (valid: seq<Filter>)
    ensures valid == AffordableOf(fs, estimate)
  {
    valid := [];
    for i := 0 to |fs|
      invariant valid == AffordableOf(fs[..i], estimate)
    {
      assert fs[..i + 1][..i] == fs[..i];
      if fs[i].tagFilters != [] {
        var estimatedRows := estimate(fs[i]);
        if estimatedRows > MAX_ESTIMATED_ROWS {
          continue;
        }
      }
      valid := valid + [fs[i]];
    }
    assert fs[..|fs|] == fs;
  }

  /** Reads rows until the cap; `read` is everything read so far, `found` each event once. */
  method ReadRows(rows: seq<Event>, found: seq<Event>, total: nat, ghost read: seq<Event>)
    returns (found': seq<Event>, total': nat)
    requires total == |read| <= GLOBAL_MAX_EVENTS && found == Merge([], read)
    ensures var more := First(read + rows, GLOBAL_MAX_EVENTS); total' == |more| && found' == Merge([], more)
  {
    found', total' := found, total;
    ghost var all := read + rows;
    var i := 0;
    while i < |rows| && total' < GLOBAL_MAX_EVENTS
      invariant 0 <= i <= |rows| && total' == total + i <= GLOBAL_MAX_EVENTS
      invariant found' == Merge([], all[..total'])
      decreases |rows| - i
    {
      assert all[..total' + 1][..total'] == all[..total'] && all[total'] == rows[i];
      if rows[i] !in found' {
        found' := found' + [rows[i]];
      }
      total' := total' + 1;
      i := i + 1;
    }
    assert all[..total'] == First(all, GLOBAL_MAX_EVENTS);
  }

  lemma FirstMore(a: seq<Event>, b: seq<Event>, n: nat)
    ensures First(First(a, n) + b, n) == First(a + b, n)
    ensures |First(a, n)| == n ==> First(a + b, n) == First(a, n)
  {
  }

  /** Chunked filters, one after another until the cap is reached. */
  method ReadChunked(db: Database, chunked: seq<Filter>, ghost rows: Filter -> seq<Event>)
    returns (found: seq<Event>, total: nat)
    requires rows == RowsOf(db) && forall f | f in chunked :: NeedsChunking(f)
    ensures var read := First(Concat(rows, chunked), GLOBAL_MAX_EVENTS); total == |read| && found == Merge([], read)
  {
    found, total := [], 0;
    for i := 0 to |chunked|
      invariant total == |First(Concat(rows, chunked[..i]), GLOBAL_MAX_EVENTS)|
      invariant found == Merge([], First(Concat(rows, chunked[..i]), GLOBAL_MAX_EVENTS))
    {
      ghost var before := Concat(rows, chunked[..i]);
      assert chunked[..i + 1][..i] == chunked[..i] && chunked[i] in chunked;
      FirstMore(before, rows(chunked[i]), GLOBAL_MAX_EVENTS);
      if total < GLOBAL_MAX_EVENTS {
        var more := QueryDatabaseChunked(chunked[i], db);
        found, total := ReadRows(more, found, total, First(before, GLOBAL_MAX_EVENTS));
      }
    }
    assert chunked[..|chunked|] == chunked;
  }

  lemma BatchStep(rows: Filter -> seq<Event>, long: seq<Event>, valid: seq<Filter>, i: nat)
    requires i < |valid|
    ensures valid[i] in valid
    ensures var before, after := long + Concat(rows, valid[..i]), long + Concat(rows, valid[..i + 1]);
            First(after, GLOBAL_MAX_EVENTS) == First(First(before, GLOBAL_MAX_EVENTS) + rows(valid[i]), GLOBAL_MAX_EVENTS)
  {
    var before := long + Concat(rows, valid[..i]);
    assert valid[..i + 1][..i] == valid[..i];
    FirstMore(before, rows(valid[i]), GLOBAL_MAX_EVENTS);
    assert before + rows(valid[i]) == long + Concat(rows, valid[..i + 1]);
  }

  /** The remaining filters, in one batch. */
  method ReadBatch(db: Database, valid: seq<Filter>, start: seq<Event>, count: nat, ghost rows: Filter -> seq<Event>, ghost long: seq<Event>)
    returns (found: seq<Event>, total: nat)
    requires rows == RowsOf(db) && forall f | f in valid :: !NeedsChunking(f)
    requires count == |First(long, GLOBAL_MAX_EVENTS)| && start == Merge([], First(long, GLOBAL_MAX_EVENTS))
    ensures var read := First(long + Concat(rows, valid), GLOBAL_MAX_EVENTS); total == |read| && found == Merge([], read)
  {
    found, total := start, count;
    assert long + Concat(rows, []) == long;
    for i := 0 to |valid|
      invariant total == |First(long + Concat(rows, valid[..i]), GLOBAL_MAX_EVENTS)|
      invariant found == Merge([], First(long + Concat(rows, valid[..i]), GLOBAL_MAX_EVENTS))
    {
      ghost var before := long + Concat(rows, valid[..i]);
      BatchStep(rows, long, valid, i);
      var q := BuildQuery(valid[i]);
      found, total := ReadRows(db(q), found, total, First(before, GLOBAL_MAX_EVENTS));
    }
    assert valid[..|valid|] == valid;
  }

  lemma GatedSplit(fs: seq<Filter>, estimate: Filter -> int)
    ensures forall f | f in Gated(fs, true) :: NeedsChunking(f)
    ensures forall f | f in AffordableOf(Gated(fs, false), estimate) :: !NeedsChunking(f)
  {
    forall f | f in Gated(fs, true) ensures NeedsChunking(f) { GatedMember(fs, true, f); }
    forall f | f in AffordableOf(Gated(fs, false), estimate) ensures !NeedsChunking(f) {
      AffordableMember(Gated(fs, false), estimate, f);
      GatedMember(fs, false, f);
    }
  }

  /** Answers a request: gate, chunked filters, estimates, the batch, and the final order. */
  method QueryEvents(db: Database, fs: seq<Filter>, estimate: Filter -> int) returns (events: seq<Event>)
    ensures events == Answered(RowsOf(db), fs, estimate)
  {
    ghost var rows := RowsOf(db);
    var chunked, batchable := SplitFilters(fs);
    GatedSplit(fs, estimate);
    var found, total := ReadChunked(db, chunked, rows);
    ghost var long := Concat(rows, chunked);
    if batchable != [] && total < GLOBAL_MAX_EVENTS {
      var valid := Precheck(batchable, estimate);
      found, total := ReadBatch(db, valid, found, total, rows, long);
    } else {
      FirstMore(long, Concat(rows, AffordableOf(batchable, estimate)), GLOBAL_MAX_EVENTS);
      assert batchable == [] ==> long + [] == long;
    }
    events := SortNewest(found);
  }
}
