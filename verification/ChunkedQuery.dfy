/**
 Long filters: the complexity gate, splitting a long list into chunks, and running one query a chunk.
 */
module ChunkedQuery {
  import opened Nostr
  import opened Options
  import opened Schema
  import opened Sql
  import opened QueryCompiler

  const CHUNK_SIZE := 500
  const MAX_COMPLEXITY := 1000.0

  // ---------------------------------------------------------------- the complexity gate

  function ValueCount(ts: seq<TagFilter>): nat {
    if ts == [] then 0 else ValueCount(ts[..|ts| - 1]) + |ts[|ts| - 1].values|
  }

  function Complexity(f: Filter): real {
    var terms := (|f.ids| + 2 * |f.authors| + 5 * |f.kinds| + 10 * ValueCount(f.tagFilters)) as real;
    var timed := if !Truthy(f.since) && !Truthy(f.until) then terms * 2.0 else terms;
    if f.limit.Some? && f.limit.value > 1000 then timed * 1.5 else timed
  }

  method CalculateComplexity(f: Filter) returns (complexity: real)
    ensures complexity == Complexity(f)
  {
    var terms := |f.ids| + 2 * |f.authors| + 5 * |f.kinds|;
    for i := 0 to |f.tagFilters|
      invariant terms == |f.ids| + 2 * |f.authors| + 5 * |f.kinds| + 10 * ValueCount(f.tagFilters[..i])
    {
      assert f.tagFilters[..i + 1][..i] == f.tagFilters[..i];
      terms := terms + 10 * |f.tagFilters[i].values|;
    }
    assert f.tagFilters[..|f.tagFilters|] == f.tagFilters;
    complexity := terms as real;
    if !Truthy(f.since) && !Truthy(f.until) {
      complexity := complexity * 2.0;
    }
    if f.limit.Some? && f.limit.value > 1000 {
      complexity := complexity * 1.5;
    }
  }

  lemma {:induction false} ValueCountBounds(ts: seq<TagFilter>, i: nat)
    requires i < |ts|
    ensures |ts[i].values| <= ValueCount(ts)
  {
    if i < |ts| - 1 { ValueCountBounds(ts[..|ts| - 1], i); }
  }

  predicate LongTag(t: TagFilter) {
    |t.values| > CHUNK_SIZE
  }

  predicate NeedsChunking(f: Filter) {
    || |f.ids| > CHUNK_SIZE || |f.authors| > CHUNK_SIZE || |f.kinds| > CHUNK_SIZE
    || exists i | 0 <= i < |f.tagFilters| :: LongTag(f.tagFilters[i])
  }

  /** Past the gate only `ids` can be too long, and then only with a time bound. */
  lemma OnlyIdsExceed(f: Filter)
    requires Complexity(f) <= MAX_COMPLEXITY
    ensures |f.authors| <= CHUNK_SIZE && |f.kinds| <= CHUNK_SIZE
    ensures forall i | 0 <= i < |f.tagFilters| :: !LongTag(f.tagFilters[i])
    ensures |f.ids| > CHUNK_SIZE ==> Truthy(f.since) || Truthy(f.until)
  {
    var terms := |f.ids| + 2 * |f.authors| + 5 * |f.kinds| + 10 * ValueCount(f.tagFilters);
    assert terms as real <= Complexity(f);
    assert terms <= 1000;
    forall i | 0 <= i < |f.tagFilters| ensures !LongTag(f.tagFilters[i]) { ValueCountBounds(f.tagFilters, i); }
  }

  // ---------------------------------------------------------------- chunks

  function Chunks<T>(a: seq<T>, size: nat): seq<seq<T>>
    requires size > 0
  {
    if |a| <= size then (if a == [] then [] else [a])
    else [a[..size]] + Chunks(a[size..], size)
  }

  function Flatten<T>(chunks: seq<seq<T>>): seq<T> {
    if chunks == [] then [] else chunks[0] + Flatten(chunks[1..])
  }

  /** The chunks are the array cut into consecutive, nonempty pieces of at most the given size. */
  lemma {:induction false} ChunksCut<T>(a: seq<T>, size: nat)
    requires size > 0
    ensures Flatten(Chunks(a, size)) == a
    ensures forall i | 0 <= i < |Chunks(a, size)| :: 0 < |Chunks(a, size)[i]| <= size
    ensures forall i | 0 <= i < |Chunks(a, size)| - 1 :: |Chunks(a, size)[i]| == size
  {
    if |a| > size {
      ChunksCut(a[size..], size);
      assert Chunks(a, size)[1..] == Chunks(a[size..], size);
      assert a[..size] + a[size..] == a;
    } else if a != [] {
      assert [a][1..] == [];
    }
  }

  lemma {:induction false} FlattenMember<T>(chunks: seq<seq<T>>, x: T)
    ensures x in Flatten(chunks) <==> exists i | 0 <= i < |chunks| :: x in chunks[i]
  {
    if chunks != [] {
      FlattenMember(chunks[1..], x);
      if i :| 0 <= i < |chunks| && x in chunks[i] {
        assert i > 0 ==> chunks[1..][i - 1] == chunks[i];
      }
      if i :| 0 <= i < |chunks[1..]| && x in chunks[1..][i] {
        assert chunks[i + 1] == chunks[1..][i];
      }
    }
  }

  /** The chunks of what is left of the list from place i on. */
  function ChunksFrom<T>(a: seq<T>, size: nat, i: nat): seq<seq<T>>
    requires size > 0
  {
    if i < |a| then Chunks(a[i..], size) else []
  }

  lemma NextChunk<T>(a: seq<T>, size: nat, i: nat, end: nat)
    requires size > 0 && i < |a| && end == if i + size <= |a| then i + size else |a|
    ensures ChunksFrom(a, size, i) == [a[i..end]] + ChunksFrom(a, size, i + size)
  {
    if i + size < |a| {
      assert a[i..][..size] == a[i..end] && a[i..][size..] == a[end..];
    } else {
      assert a[i..] == a[i..end];
    }
  }

  lemma Regroup<T>(done: seq<T>, x: T, rest: seq<T>)
    ensures done + ([x] + rest) == done + [x] + rest
  {
  }

  method ChunkArray<T>(a: seq<T>, size: nat) returns (chunks: seq<seq<T>>)
    requires size > 0
    ensures chunks == Chunks(a, size)
  {
    chunks := [];
    var i := 0;
    assert a[0..] == a;
    while i < |a|
      invariant 0 <= i
      invariant Chunks(a, size) == chunks + ChunksFrom(a, size, i)
    {
      var end := if i + size <= |a| then i + size else |a|;
      NextChunk(a, size, i, end);
      Regroup(chunks, a[i..end], ChunksFrom(a, size, i + size));
      chunks := chunks + [a[i..end]];
      i := i + size;
    }
  }

  // ---------------------------------------------------------------- the filters that are run

  function ShortTags(ts: seq<TagFilter>): seq<TagFilter> {
    if ts == [] then []
    else ShortTags(ts[..|ts| - 1]) + if LongTag(ts[|ts| - 1]) then [] else [ts[|ts| - 1]]
  }

  /** The filter without the lists that are too long. */
  function BaseFilter(f: Filter): Filter {
    f.(ids := if |f.ids| > CHUNK_SIZE then [] else f.ids,
       authors := if |f.authors| > CHUNK_SIZE then [] else f.authors,
       kinds := if |f.kinds| > CHUNK_SIZE then [] else f.kinds,
       tagFilters := ShortTags(f.tagFilters))
  }

  function WithIds(base: Filter, chunks: seq<seq<string>>): seq<Filter> {
    seq(|chunks|, i requires 0 <= i < |chunks| => base.(ids := chunks[i]))
  }

  function WithAuthors(base: Filter, chunks: seq<seq<string>>): seq<Filter> {
    seq(|chunks|, i requires 0 <= i < |chunks| => base.(authors := chunks[i]))
  }

  function WithKinds(base: Filter, chunks: seq<seq<int>>): seq<Filter> {
    seq(|chunks|, i requires 0 <= i < |chunks| => base.(kinds := chunks[i]))
  }

  function WithTag(base: Filter, name: string, chunks: seq<seq<string>>): seq<Filter> {
    seq(|chunks|, i requires 0 <= i < |chunks| =>
          base.(tagFilters := base.tagFilters + [TagFilter(name, chunks[i])]))
  }

  function IdFilters(f: Filter): seq<Filter> {
    if |f.ids| > CHUNK_SIZE then WithIds(BaseFilter(f), Chunks(f.ids, CHUNK_SIZE)) else []
  }

  function AuthorFilters(f: Filter): seq<Filter> {
    if |f.authors| > CHUNK_SIZE then WithAuthors(BaseFilter(f), Chunks(f.authors, CHUNK_SIZE)) else []
  }

  function KindFilters(f: Filter): seq<Filter> {
    if |f.kinds| > CHUNK_SIZE then WithKinds(BaseFilter(f), Chunks(f.kinds, CHUNK_SIZE)) else []
  }

  function OneTagFilters(f: Filter, t: TagFilter): seq<Filter> {
    if LongTag(t) then WithTag(BaseFilter(f), t.name, Chunks(t.values, CHUNK_SIZE)) else []
  }

  function TagFilters(f: Filter, ts: seq<TagFilter>): seq<Filter> {
    if ts == [] then [] else TagFilters(f, ts[..|ts| - 1]) + OneTagFilters(f, ts[|ts| - 1])
  }

  function ChunkFilters(f: Filter): seq<Filter> {
    if !NeedsChunking(f) then [f]
    else IdFilters(f) + AuthorFilters(f) + KindFilters(f) + TagFilters(f, f.tagFilters)
  }

  // ---------------------------------------------------------------- running them

  /** The database's answer to a query; errors are logged and skipped, and are not modelled. */
  type Database = Query -> seq<Event>

  /** Adds the rows not found before, in the order they come. */
  function Merge(found: seq<Event>, rows: seq<Event>): seq<Event> {
    if rows == [] then found
    else
      var before, row := Merge(found, rows[..|rows| - 1]), rows[|rows| - 1];
      if row in before then before else before + [row]
  }

  /** What the database answers to the query compiled from a filter. */
  function Answer(db: Database): Filter -> seq<Event> {
    f => db(Compile(f))
  }

  function RunAll(answer: Filter -> seq<Event>, filters: seq<Filter>): seq<Event> {
    if filters == [] then []
    else Merge(RunAll(answer, filters[..|filters| - 1]), answer(filters[|filters| - 1]))
  }

  lemma RunAllSnoc(answer: Filter -> seq<Event>, filters: seq<Filter>, f: Filter)
    ensures RunAll(answer, filters + [f]) == Merge(RunAll(answer, filters), answer(f))
  {
    assert (filters + [f])[..|filters|] == filters;
  }

  ghost predicate Distinct(rows: seq<Event>) {
    forall i, j | 0 <= i < j < |rows| :: rows[i] != rows[j]
  }

  lemma {:induction false} MergeMember(found: seq<Event>, rows: seq<Event>, e: Event)
    ensures e in Merge(found, rows) <==> e in found || e in rows
    ensures Distinct(found) ==> Distinct(Merge(found, rows))
  {
    if rows != [] {
      MergeMember(found, rows[..|rows| - 1], e);
      assert rows == rows[..|rows| - 1] + [rows[|rows| - 1]];
    }
  }

  /** The result holds each row of each answer, once. */
  lemma {:induction false} RunAllMember(answer: Filter -> seq<Event>, filters: seq<Filter>, e: Event)
    ensures e in RunAll(answer, filters) <==> exists i | 0 <= i < |filters| :: e in answer(filters[i])
    ensures Distinct(RunAll(answer, filters))
  {
    if filters != [] {
      var front, last := filters[..|filters| - 1], filters[|filters| - 1];
      RunAllMember(answer, front, e);
      MergeMember(RunAll(answer, front), answer(last), e);
      if i :| 0 <= i < |filters| && e in answer(filters[i]) {
        assert i < |front| ==> front[i] == filters[i];
      }
      if i :| 0 <= i < |front| && e in answer(front[i]) {
        assert filters[i] == front[i];
      }
    }
  }

  method AddEach(rows: seq<Event>, before: seq<Event>) returns (found: seq<Event>)
    ensures found == Merge(before, rows)
  {
    found := before;
    for k := 0 to |rows|
      invariant found == Merge(before, rows[..k])
    {
      assert rows[..k + 1][..k] == rows[..k];
      if rows[k] !in found {
        found := found + [rows[k]];
      }
    }
    assert rows[..|rows|] == rows;
  }

  method AddRows(db: Database, f: Filter, before: seq<Event>) returns (found: seq<Event>)
    ensures found == Merge(before, Answer(db)(f))
  {
    var q := BuildQuery(f);
    found := AddEach(db(q), before);
  }

  method AddChunks(db: Database, filters: seq<Filter>, before: seq<Event>, ghost answer: Filter -> seq<Event>, ghost run: seq<Filter>)
    returns (found: seq<Event>)
    requires answer == Answer(db) && before == RunAll(answer, run)
    ensures found == RunAll(answer, run + filters)
  {
    found := before;
    assert run + filters[..0] == run;
    for i := 0 to |filters|
      invariant found == RunAll(answer, run + filters[..i])
    {
      found := AddRows(db, filters[i], found);
      assert run + filters[..i + 1] == run + filters[..i] + [filters[i]];
      RunAllSnoc(answer, run + filters[..i], filters[i]);
    }
    assert filters[..|filters|] == filters;
  }

  method AddOneTag(f: Filter, t: TagFilter, db: Database, before: seq<Event>, ghost answer: Filter -> seq<Event>, ghost run: seq<Filter>)
    returns (found: seq<Event>)
    requires answer == Answer(db) && before == RunAll(answer, run)
    ensures found == RunAll(answer, run + OneTagFilters(f, t))
  {
    if |t.values| > CHUNK_SIZE {
      var chunks := ChunkArray(t.values, CHUNK_SIZE);
      found := AddChunks(db, WithTag(BaseFilter(f), t.name, chunks), before, answer, run);
    } else {
      assert run + [] == run;
      found := before;
    }
  }

  lemma TagFiltersSnoc(f: Filter, k: nat)
    requires k < |f.tagFilters|
    ensures TagFilters(f, f.tagFilters[..k + 1]) == TagFilters(f, f.tagFilters[..k]) + OneTagFilters(f, f.tagFilters[k])
  {
    assert f.tagFilters[..k + 1][..k] == f.tagFilters[..k];
  }

  lemma Associates(a: seq<Filter>, b: seq<Filter>, c: seq<Filter>)
    ensures a + (b + c) == a + b + c
  {
  }

  method AddTagChunks(f: Filter, db: Database, before: seq<Event>, ghost answer: Filter -> seq<Event>, ghost run: seq<Filter>)
    returns (found: seq<Event>)
    requires answer == Answer(db) && before == RunAll(answer, run)
    ensures found == RunAll(answer, run + TagFilters(f, f.tagFilters))
  {
    found := before;
    assert run + TagFilters(f, []) == run;
    for k := 0 to |f.tagFilters|
      invariant found == RunAll(answer, run + TagFilters(f, f.tagFilters[..k]))
    {
      found := AddOneTag(f, f.tagFilters[k], db, found, answer, run + TagFilters(f, f.tagFilters[..k]));
      TagFiltersSnoc(f, k);
      Associates(run, TagFilters(f, f.tagFilters[..k]), OneTagFilters(f, f.tagFilters[k]));
    }
    assert f.tagFilters[..|f.tagFilters|] == f.tagFilters;
  }

  /** Rows are collected once each, in the order in which they are first found. */
  method QueryDatabaseChunked(f: Filter, db: Database) returns (found: seq<Event>)
    ensures found == RunAll(Answer(db), ChunkFilters(f))
  {
    ghost var answer := Answer(db);
    found := [];
    ghost var run: seq<Filter> := IdFilters(f);
    if |f.ids| > CHUNK_SIZE {
      var chunks := ChunkArray(f.ids, CHUNK_SIZE);
      found := AddChunks(db, WithIds(BaseFilter(f), chunks), found, answer, []);
      assert [] + run == run;
    }
    assert found == RunAll(answer, run);
    assert run + [] == run;
    if |f.authors| > CHUNK_SIZE {
      var chunks := ChunkArray(f.authors, CHUNK_SIZE);
      found := AddChunks(db, WithAuthors(BaseFilter(f), chunks), found, answer, run);
    }
    run := run + AuthorFilters(f);
    assert found == RunAll(answer, run);
    assert run + [] == run;
    if |f.kinds| > CHUNK_SIZE {
      var chunks := ChunkArray(f.kinds, CHUNK_SIZE);
      found := AddChunks(db, WithKinds(BaseFilter(f), chunks), found, answer, run);
    }
    run := run + KindFilters(f);
    assert found == RunAll(answer, run);
    found := AddTagChunks(f, db, found, answer, run);
    if !NeedsChunking(f) {
      NoTagChunks(f, f.tagFilters);
      found := AddRows(db, f, found);
      RunAllSnoc(answer, [], f);
      assert [] + [f] == [f];
    }
  }

  // ---------------------------------------------------------------- past the gate nothing is lost

  lemma {:induction false} ShortTagsAll(ts: seq<TagFilter>)
    requires forall i | 0 <= i < |ts| :: !LongTag(ts[i])
    ensures ShortTags(ts) == ts
  {
    if ts != [] { ShortTagsAll(ts[..|ts| - 1]); }
  }

  lemma {:induction false} NoTagChunks(f: Filter, ts: seq<TagFilter>)
    requires forall i | 0 <= i < |ts| :: !LongTag(ts[i])
    ensures TagFilters(f, ts) == []
  {
    if ts != [] { NoTagChunks(f, ts[..|ts| - 1]); }
  }

  /** A filter past the gate is run as itself, or split along `ids` alone. */
  lemma GatedChunks(f: Filter)
    requires Complexity(f) <= MAX_COMPLEXITY
    ensures |f.ids| <= CHUNK_SIZE ==> ChunkFilters(f) == [f]
    ensures |f.ids| > CHUNK_SIZE ==>
              ChunkFilters(f) == WithIds(f, Chunks(f.ids, CHUNK_SIZE))
  {
    OnlyIdsExceed(f);
    ShortTagsAll(f.tagFilters);
    NoTagChunks(f, f.tagFilters);
    if |f.ids| > CHUNK_SIZE {
      assert BaseFilter(f) == f.(ids := []);
      assert WithIds(BaseFilter(f), Chunks(f.ids, CHUNK_SIZE)) == WithIds(f, Chunks(f.ids, CHUNK_SIZE));
    }
  }

  lemma ChunkShape(f: Filter, c: Filter)
    requires Complexity(f) <= MAX_COMPLEXITY && c in ChunkFilters(f)
    ensures c.tagFilters == f.tagFilters && c.limit == f.limit
  {
    GatedChunks(f);
  }

  lemma SplitAccepts(f: Filter, c: Filter, e: Event)
    requires f.ids != [] && c.ids != [] && c == f.(ids := c.ids) && forall x | x in c.ids :: x in f.ids
    ensures Accepts(e, c) <==> Accepts(e, f) && e.id in c.ids
  {
    assert MatchesBase(e, c) <==> MatchesBase(e, f) && e.id in c.ids;
  }

  lemma OneChunkAccepts(f: Filter, i: nat, e: Event)
    requires |f.ids| > CHUNK_SIZE && i < |Chunks(f.ids, CHUNK_SIZE)|
    ensures var c := f.(ids := Chunks(f.ids, CHUNK_SIZE)[i]);
            Accepts(e, c) <==> Accepts(e, f) && e.id in Chunks(f.ids, CHUNK_SIZE)[i]
  {
    var chunks := Chunks(f.ids, CHUNK_SIZE);
    ChunksCut(f.ids, CHUNK_SIZE);
    forall x | x in chunks[i] ensures x in f.ids { FlattenMember(chunks, x); }
    SplitAccepts(f, f.(ids := chunks[i]), e);
  }

  lemma ChunksAcceptTheFilter(f: Filter, e: Event)
    requires Complexity(f) <= MAX_COMPLEXITY
    ensures Accepts(e, f) <==> exists i | 0 <= i < |ChunkFilters(f)| :: Accepts(e, ChunkFilters(f)[i])
  {
    GatedChunks(f);
    if |f.ids| > CHUNK_SIZE {
      var chunks := Chunks(f.ids, CHUNK_SIZE);
      ChunksCut(f.ids, CHUNK_SIZE);
      FlattenMember(chunks, e.id);
      forall i | 0 <= i < |chunks| ensures Accepts(e, ChunkFilters(f)[i]) <==> Accepts(e, f) && e.id in chunks[i] {
        OneChunkAccepts(f, i, e);
      }
    } else {
      assert ChunkFilters(f)[0] == f;
    }
  }

  /** Before LIMIT, the chunks together select exactly what the whole filter selects. */
  lemma ChunksSelectTheFilter(s: Tables, f: Filter, e: Event)
    requires Indexed(s) && Stored(s, e) && ValidFilter(f) && Complexity(f) <= MAX_COMPLEXITY
    ensures Selects(s, Compile(f), e)
            <==> exists i | 0 <= i < |ChunkFilters(f)| :: Selects(s, Compile(ChunkFilters(f)[i]), e)
  {
    CompileCorrect(s, f, e);
    ChunksAcceptTheFilter(f, e);
    forall i | 0 <= i < |ChunkFilters(f)|
      ensures Selects(s, Compile(ChunkFilters(f)[i]), e) <==> Accepts(e, ChunkFilters(f)[i])
    {
      ChunkShape(f, ChunkFilters(f)[i]);
      CompileCorrect(s, ChunkFilters(f)[i], e);
    }
  }

  // ---------------------------------------------------------------- LIMIT

  ghost function Selected(s: Tables, q: Query): set<string> {
    set id | id in s.events && Selects(s, q, s.events[id])
  }

  function Ids(rows: seq<Event>): set<string> {
    set e | e in rows :: e.id
  }

  /** The query joins `tags` and has neither DISTINCT nor GROUP BY, so an event is a row for each of its joined tags. */
  predicate Repeats(q: Query) {
    q.joins != [] && q.joins[0].source == TagsTable && q.having.None?
  }

  /** How often an event is among the rows of such a query. */
  ghost function Times(s: Tables, q: Query, e: Event): nat {
    |set i | 0 <= i < |s.tags| && Produces(s, q, Row(e, [TagsBinding(s.tags[i])]))|
  }

  /** ORDER BY created_at DESC LIMIT n of rows that repeat events, ties in any order. A negative limit is no limit. */
  ghost predicate TopRepeated(s: Tables, q: Query, rows: seq<Event>) {
    && (forall e | e in rows :: Stored(s, e))
    && (forall e | Stored(s, e) :: multiset(rows)[e] <= Times(s, q, e))
    && (|rows| == q.limit || forall e | Stored(s, e) :: multiset(rows)[e] == Times(s, q, e))
    && (q.limit >= 0 ==> |rows| <= q.limit)
    && forall x, y | x in rows && Stored(s, y) && multiset(rows)[y] < Times(s, q, y) :: x.createdAt >= y.createdAt
  }

  /** The answer to a query, as far as it says which events are in it. */
  ghost predicate TopRows(s: Tables, q: Query, rows: seq<Event>) {
    if Repeats(q) then TopRepeated(s, q, rows) else TopEvents(s, q, rows)
  }

  /** ORDER BY created_at DESC LIMIT n of rows that are different events, ties in any order. */
  ghost predicate TopEvents(s: Tables, q: Query, rows: seq<Event>) {
    var ids := Ids(rows);
    && (forall e | e in rows :: Stored(s, e))
    && ids <= Selected(s, q)
    && (|ids| == q.limit || ids == Selected(s, q))
    && (q.limit >= 0 ==> |ids| <= q.limit)
    && forall x, y | x in ids && y in Selected(s, q) - ids :: s.events[x].createdAt >= s.events[y].createdAt
  }

  /** The other selected events that are at least as new as e. */
  ghost function AtLeastAsNew(s: Tables, q: Query, e: Event): set<string> {
    set id | id in Selected(s, q) && id != e.id && s.events[id].createdAt >= e.createdAt
  }

  lemma SubsetSize<T>(a: set<T>, b: set<T>)
    requires a <= b
    ensures |a| <= |b|
  {
    assert b == a + (b - a);
  }

  lemma DroppedMeansFull(s: Tables, f: Filter, c: Filter, rows: seq<Event>, e: Event)
    requires Stored(s, e) && e.id in Selected(s, Compile(c)) && e !in rows
    requires Selected(s, Compile(c)) <= Selected(s, Compile(f))
    requires TopEvents(s, Compile(c), rows)
    ensures |AtLeastAsNew(s, Compile(f), e)| >= Compile(c).limit
  {
    var ids := Ids(rows);
    assert e.id !in ids;
    assert ids != Selected(s, Compile(c));
    forall x | x in ids ensures x in AtLeastAsNew(s, Compile(f), e) {
      assert e.id in Selected(s, Compile(c)) - ids;
    }
    SubsetSize(ids, AtLeastAsNew(s, Compile(f), e));
  }

  predicate TagFree(f: Filter) {
    forall i | 0 <= i < |f.tagFilters| :: f.tagFilters[i].values == []
  }

  lemma TagFreeScan(f: Filter)
    requires TagFree(f)
    ensures Compile(f) == Scan(f) && !TagJoin(f)
  {
    forall t, cached ensures t !in Pick(f.tagFilters, cached) { PickMember(f.tagFilters, cached, t); }
    assert Pick(f.tagFilters, true) == [] && Pick(f.tagFilters, false) == [] by {
      if Pick(f.tagFilters, true) != [] { assert Pick(f.tagFilters, true)[0] in Pick(f.tagFilters, true); }
      if Pick(f.tagFilters, false) != [] { assert Pick(f.tagFilters, false)[0] in Pick(f.tagFilters, false); }
    }
  }

  /** Asking for values of a single tag that is not cached. */
  predicate TagJoin(f: Filter) {
    Pick(f.tagFilters, true) == [] && |Pick(f.tagFilters, false)| == 1
  }

  /** Only such a filter is answered with repeated rows; all shapes have the same LIMIT. */
  lemma ChunkLimit(f: Filter, c: Filter)
    requires c.tagFilters == f.tagFilters && c.limit == f.limit
    ensures Compile(c).limit == RowLimit(f) && (Repeats(Compile(c)) <==> TagJoin(f))
  {
  }

  lemma ChunkWithin(s: Tables, f: Filter, i: nat)
    requires Indexed(s) && ValidFilter(f) && Complexity(f) <= MAX_COMPLEXITY && i < |ChunkFilters(f)|
    ensures Selected(s, Compile(ChunkFilters(f)[i])) <= Selected(s, Compile(f))
  {
    forall id | id in Selected(s, Compile(ChunkFilters(f)[i])) ensures id in Selected(s, Compile(f)) {
      ChunksSelectTheFilter(s, f, s.events[id]);
    }
  }

  /**
   Although each chunk has its own LIMIT, an event the filter selects is found whenever fewer than the
   limit of the other selected events are at least as new.
   */
  lemma ChunkedKeepsNewest(s: Tables, f: Filter, db: Database, e: Event)
    requires Indexed(s) && Stored(s, e) && ValidFilter(f) && !TagJoin(f) && Complexity(f) <= MAX_COMPLEXITY
    requires forall i | 0 <= i < |ChunkFilters(f)| :: TopRows(s, Compile(ChunkFilters(f)[i]), db(Compile(ChunkFilters(f)[i])))
    requires Selects(s, Compile(f), e)
    requires |AtLeastAsNew(s, Compile(f), e)| < RowLimit(f)
    ensures e in RunAll(Answer(db), ChunkFilters(f))
  {
    RunAllMember(Answer(db), ChunkFilters(f), e);
    ChunksSelectTheFilter(s, f, e);
    var i :| 0 <= i < |ChunkFilters(f)| && Selects(s, Compile(ChunkFilters(f)[i]), e);
    var c := ChunkFilters(f)[i];
    ChunkWithin(s, f, i);
    ChunkShape(f, c);
    ChunkLimit(f, c);
    if e !in db(Compile(c)) {
      DroppedMeansFull(s, f, c, db(Compile(c)), e);
    }
  }
}
