/** What a filter asks, which filters are run, and what chunks together accept, told from the lists of the filter alone. */
module QueryRules {
  import opened Nostr
  import opened Options
  import opened Schema
  import opened Sql
  import opened QueryCompiler
  import opened ChunkedQuery
  import opened QueryEvents

  // ---------------------------------------------------------------- what a filter asks

  const EVERYTHING := Filter([], [], [], None, None, None, None, [])

  /** A filter without fields matches everything, and each field narrows it by its own condition and nothing else. */
  lemma FieldsNarrow(e: Event, f: Filter, xs: seq<string>, ks: seq<int>, t: int)
    ensures Matches(e, EVERYTHING)
    ensures Matches(e, f.(ids := xs)) <==> Matches(e, f.(ids := [])) && (xs == [] || e.id in xs)
    ensures Matches(e, f.(authors := xs)) <==> Matches(e, f.(authors := [])) && (xs == [] || e.pubkey in xs)
    ensures Matches(e, f.(kinds := ks)) <==> Matches(e, f.(kinds := [])) && (ks == [] || e.kind in ks)
    ensures Matches(e, f.(since := Some(t))) <==> Matches(e, f.(since := None)) && (t == 0 || t <= e.createdAt)
    ensures Matches(e, f.(until := Some(t))) <==> Matches(e, f.(until := None)) && (t == 0 || e.createdAt <= t)
    ensures Matches(e, f.(limit := Some(t))) <==> Matches(e, f)
  {
    assert forall i | 0 <= i < |f.tagFilters| :: f.(ids := xs).tagFilters[i] == f.tagFilters[i];
  }

  lemma TagsNarrow(e: Event, f: Filter, name: string, values: seq<string>)
    ensures Matches(e, f.(tagFilters := f.tagFilters + [TagFilter(name, values)]))
            <==> Matches(e, f)
                 && (values == [] || exists i | 0 <= i < |e.tags| :: |e.tags[i]| >= 2 && e.tags[i][0] == name && e.tags[i][1] in values)
  {
    var more := f.tagFilters + [TagFilter(name, values)];
    assert forall i | 0 <= i < |f.tagFilters| :: more[i] == f.tagFilters[i];
    assert more[|f.tagFilters|] == TagFilter(name, values);
    if i :| 0 <= i < |e.tags| && |e.tags[i]| >= 2 && e.tags[i][0] == name && e.tags[i][1] in values {
      assert HasTag(e, name, e.tags[i][1]);
    }
  }

  /** A cursor lets through what comes after it: older events, and of its own time those with a greater identifier. */
  lemma CursorNarrows(e: Event, f: Filter, t: int, id: string)
    ensures AfterCursor(e, f.(cursor := None))
    ensures AfterCursor(e, f.(cursor := Some(Cursor(t, id)))) <==> e.createdAt < t || (e.createdAt == t && TextLess(id, e.id))
  {
  }

  /** Identifiers are ordered by the first letter in which they differ, a shorter one before its extensions. */
  lemma {:induction false} TextOrder(common: string, a: char, x: string, b: char, y: string)
    ensures a != b ==> (TextLess(common + [a] + x, common + [b] + y) <==> a < b)
    ensures TextLess(common, common + [a] + x) && !TextLess(common + [a] + x, common) && !TextLess(common, common)
  {
    if common != [] {
      TextOrder(common[1..], a, x, b, y);
      assert (common + [a] + x)[1..] == common[1..] + [a] + x;
      assert (common + [b] + y)[1..] == common[1..] + [b] + y;
    }
  }

  /** A query asks for at most 500 rows, or for as many as the filter does if that is less. */
  lemma LimitOfQuery(f: Filter)
    ensures Compile(f).limit == if f.limit != None && f.limit.value != 0 && f.limit.value <= 500 then f.limit.value else 500
  {
  }

  // ---------------------------------------------------------------- the gate

  /** All tag values a filter lists, one after the other. */
  function TagValues(ts: seq<TagFilter>): seq<string> {
    Flatten(seq(|ts|, i requires 0 <= i < |ts| => ts[i].values))
  }

  lemma {:induction false} FlattenSnoc<T>(chunks: seq<seq<T>>, last: seq<T>)
    ensures Flatten(chunks + [last]) == Flatten(chunks) + last
  {
    if chunks == [] {
      assert [last][1..] == [];
    } else {
      FlattenSnoc(chunks[1..], last);
      assert (chunks + [last])[1..] == chunks[1..] + [last];
    }
  }

  lemma {:induction false} ValueCountIs(ts: seq<TagFilter>)
    ensures ValueCount(ts) == |TagValues(ts)|
  {
    if ts != [] {
      var front := ts[..|ts| - 1];
      ValueCountIs(front);
      var lists := seq(|front|, i requires 0 <= i < |front| => front[i].values);
      FlattenSnoc(lists, ts[|ts| - 1].values);
      assert seq(|ts|, i requires 0 <= i < |ts| => ts[i].values) == lists + [ts[|ts| - 1].values];
    }
  }

  /** An id counts one, an author two, a kind five and a tag value ten; twice that without a time, half more for a large limit. */
  function Cost(f: Filter): real {
    var items := |f.ids| + 2 * |f.authors| + 5 * |f.kinds| + 10 * |TagValues(f.tagFilters)|;
    var timed := (f.since != None && f.since.value != 0) || (f.until != None && f.until.value != 0);
    items as real * (if timed then 1.0 else 2.0) * (if f.limit != None && f.limit.value > 1000 then 1.5 else 1.0)
  }

  lemma GateExactly(f: Filter)
    ensures Simple(f) <==> Cost(f) <= 1000.0
  {
    ValueCountIs(f.tagFilters);
  }

  // ---------------------------------------------------------------- what chunks accept

  /** The event meets every condition of the filter whose list is not too long. */
  predicate MeetsShort(e: Event, f: Filter) {
    && (f.ids == [] || |f.ids| > 500 || e.id in f.ids)
    && (f.authors == [] || |f.authors| > 500 || e.pubkey in f.authors)
    && (f.kinds == [] || |f.kinds| > 500 || e.kind in f.kinds)
    && (Truthy(f.since) ==> f.since.value <= e.createdAt) && (Truthy(f.until) ==> e.createdAt <= f.until.value)
    && AfterCursor(e, f)
    && forall i | 0 <= i < |f.tagFilters| && 1 <= |f.tagFilters[i].values| <= 500 :: TagStored(e, f.tagFilters[i])
  }

  /** And some condition whose list is. */
  predicate MeetsSomeLong(e: Event, f: Filter) {
    || (|f.ids| > 500 && e.id in f.ids) || (|f.authors| > 500 && e.pubkey in f.authors) || (|f.kinds| > 500 && e.kind in f.kinds)
    || exists i | 0 <= i < |f.tagFilters| && |f.tagFilters[i].values| > 500 :: TagStored(e, f.tagFilters[i])
  }

  lemma {:induction false} ShortTagsMember(ts: seq<TagFilter>, t: TagFilter)
    ensures t in ShortTags(ts) <==> t in ts && |t.values| <= 500
  {
    if ts != [] {
      ShortTagsMember(ts[..|ts| - 1], t);
      assert ts == ts[..|ts| - 1] + [ts[|ts| - 1]];
    }
  }

  lemma BaseAccepts(e: Event, f: Filter)
    ensures Accepts(e, BaseFilter(f)) <==> MeetsShort(e, f)
  {
    TagsOfBase(e, f.tagFilters);
  }

  lemma TagsOfBase(e: Event, ts: seq<TagFilter>)
    ensures (forall i | 0 <= i < |ShortTags(ts)| && ShortTags(ts)[i].values != [] :: TagStored(e, ShortTags(ts)[i]))
            <==> forall i | 0 <= i < |ts| && 1 <= |ts[i].values| <= 500 :: TagStored(e, ts[i])
  {
    var short := ShortTags(ts);
    forall i | 0 <= i < |ts| && 1 <= |ts[i].values| <= 500 ensures ts[i] in short { ShortTagsMember(ts, ts[i]); }
    forall i | 0 <= i < |short| ensures short[i] in ts && |short[i].values| <= 500 { ShortTagsMember(ts, short[i]); }
  }

  predicate SomeAccepts(e: Event, fs: seq<Filter>) {
    exists i | 0 <= i < |fs| :: Accepts(e, fs[i])
  }

  lemma SomeAcceptsConcat(e: Event, a: seq<Filter>, b: seq<Filter>)
    ensures SomeAccepts(e, a + b) <==> SomeAccepts(e, a) || SomeAccepts(e, b)
  {
    if i :| 0 <= i < |a| && Accepts(e, a[i]) { assert (a + b)[i] == a[i]; }
    if i :| 0 <= i < |b| && Accepts(e, b[i]) { assert (a + b)[|a| + i] == b[i]; }
    if i :| 0 <= i < |a + b| && Accepts(e, (a + b)[i]) {
      if i < |a| { assert a[i] == (a + b)[i]; } else { assert b[i - |a|] == (a + b)[i]; }
    }
  }

  lemma IdChunksAccept(e: Event, base: Filter, ids: seq<string>)
    requires base.ids == []
    ensures SomeAccepts(e, WithIds(base, Chunks(ids, CHUNK_SIZE))) <==> Accepts(e, base) && e.id in ids
  {
    var chunks := Chunks(ids, CHUNK_SIZE);
    ChunksCut(ids, CHUNK_SIZE);
    FlattenMember(chunks, e.id);
    forall i | 0 <= i < |chunks| ensures Accepts(e, WithIds(base, chunks)[i]) <==> Accepts(e, base) && e.id in chunks[i] { }
  }

  lemma AuthorChunksAccept(e: Event, base: Filter, authors: seq<string>)
    requires base.authors == []
    ensures SomeAccepts(e, WithAuthors(base, Chunks(authors, CHUNK_SIZE))) <==> Accepts(e, base) && e.pubkey in authors
  {
    var chunks := Chunks(authors, CHUNK_SIZE);
    ChunksCut(authors, CHUNK_SIZE);
    FlattenMember(chunks, e.pubkey);
    forall i | 0 <= i < |chunks| ensures Accepts(e, WithAuthors(base, chunks)[i]) <==> Accepts(e, base) && e.pubkey in chunks[i] { }
  }

  lemma KindChunksAccept(e: Event, base: Filter, kinds: seq<int>)
    requires base.kinds == []
    ensures SomeAccepts(e, WithKinds(base, Chunks(kinds, CHUNK_SIZE))) <==> Accepts(e, base) && e.kind in kinds
  {
    var chunks := Chunks(kinds, CHUNK_SIZE);
    ChunksCut(kinds, CHUNK_SIZE);
    FlattenMember(chunks, e.kind);
    forall i | 0 <= i < |chunks| ensures Accepts(e, WithKinds(base, chunks)[i]) <==> Accepts(e, base) && e.kind in chunks[i] { }
  }

  lemma OneMoreTag(e: Event, base: Filter, t: TagFilter)
    requires t.values != []
    ensures Accepts(e, base.(tagFilters := base.tagFilters + [t])) <==> Accepts(e, base) && TagStored(e, t)
  {
    var more := base.tagFilters + [t];
    assert forall i | 0 <= i < |base.tagFilters| :: more[i] == base.tagFilters[i];
    assert more[|base.tagFilters|] == t;
  }

  lemma TagChunksAccept(e: Event, base: Filter, t: TagFilter)
    ensures SomeAccepts(e, WithTag(base, t.name, Chunks(t.values, CHUNK_SIZE))) <==> Accepts(e, base) && TagStored(e, t)
  {
    var chunks := Chunks(t.values, CHUNK_SIZE);
    ChunksCut(t.values, CHUNK_SIZE);
    forall i | 0 <= i < |chunks|
      ensures Accepts(e, WithTag(base, t.name, chunks)[i]) <==> Accepts(e, base) && TagStored(e, TagFilter(t.name, chunks[i]))
    {
      OneMoreTag(e, base, TagFilter(t.name, chunks[i]));
    }
    if v :| v in t.values && StoredTag(e, t.name, v) {
      FlattenMember(chunks, v);
      var i :| 0 <= i < |chunks| && v in chunks[i];
      assert TagStored(e, TagFilter(t.name, chunks[i]));
    }
    if i :| 0 <= i < |chunks| && TagStored(e, TagFilter(t.name, chunks[i])) {
      var v :| v in chunks[i] && StoredTag(e, t.name, v);
      FlattenMember(chunks, v);
    }
  }

  predicate LongTagStored(e: Event, ts: seq<TagFilter>) {
    exists i | 0 <= i < |ts| && |ts[i].values| > 500 :: TagStored(e, ts[i])
  }

  lemma {:induction false} LongTagsAccept(e: Event, f: Filter, ts: seq<TagFilter>)
    ensures SomeAccepts(e, TagFilters(f, ts)) <==> Accepts(e, BaseFilter(f)) && LongTagStored(e, ts)
  {
    if ts != [] {
      var front, last := ts[..|ts| - 1], ts[|ts| - 1];
      LongTagsAccept(e, f, front);
      SomeAcceptsConcat(e, TagFilters(f, front), OneTagFilters(f, last));
      TagChunksAccept(e, BaseFilter(f), last);
      LongTagSnoc(e, front, last);
      assert ts == front + [last];
    }
  }

  lemma LongTagSnoc(e: Event, ts: seq<TagFilter>, t: TagFilter)
    ensures LongTagStored(e, ts + [t]) <==> LongTagStored(e, ts) || (|t.values| > 500 && TagStored(e, t))
  {
    var more := ts + [t];
    assert more[|ts|] == t;
    if i :| 0 <= i < |ts| && |ts[i].values| > 500 && TagStored(e, ts[i]) { assert more[i] == ts[i]; }
    if i :| 0 <= i < |more| && |more[i].values| > 500 && TagStored(e, more[i]) {
      if i < |ts| { assert ts[i] == more[i]; }
    }
  }

  /**
   Whatever the filter, gated or not: its chunks together accept the events that meet every condition with a
   short list and some condition with a long one. So with one long list they accept what the filter does.
   */
  lemma ChunksAcceptExactly(f: Filter, e: Event)
    requires NeedsChunking(f)
    ensures SomeAccepts(e, ChunkFilters(f)) <==> MeetsShort(e, f) && MeetsSomeLong(e, f)
  {
    var base := BaseFilter(f);
    var a, b, c, d := IdFilters(f), AuthorFilters(f), KindFilters(f), TagFilters(f, f.tagFilters);
    BaseAccepts(e, f);
    if |f.ids| > 500 { IdChunksAccept(e, base, f.ids); }
    if |f.authors| > 500 { AuthorChunksAccept(e, base, f.authors); }
    if |f.kinds| > 500 { KindChunksAccept(e, base, f.kinds); }
    LongTagsAccept(e, f, f.tagFilters);
    SomeAcceptsConcat(e, a, b);
    SomeAcceptsConcat(e, a + b, c);
    SomeAcceptsConcat(e, a + b + c, d);
    assert LongTagStored(e, f.tagFilters)
           <==> exists i | 0 <= i < |f.tagFilters| && |f.tagFilters[i].values| > 500 :: TagStored(e, f.tagFilters[i]);
  }

  lemma ChunkedExactly(f: Filter)
    ensures NeedsChunking(f)
            <==> |f.ids| > 500 || |f.authors| > 500 || |f.kinds| > 500
                 || exists i | 0 <= i < |f.tagFilters| :: |f.tagFilters[i].values| > 500
  {
    if NeedsChunking(f) && |f.ids| <= 500 && |f.authors| <= 500 && |f.kinds| <= 500 {
      var i :| 0 <= i < |f.tagFilters| && LongTag(f.tagFilters[i]);
    }
    if i :| 0 <= i < |f.tagFilters| && |f.tagFilters[i].values| > 500 { assert LongTag(f.tagFilters[i]); }
  }

  // ---------------------------------------------------------------- what a request reads

  /** Past the gate a filter is run if it is chunked, names no tag, or is expected to yield at most 10000 rows. */
  predicate Runs(f: Filter, estimate: Filter -> int) {
    Cost(f) <= 1000.0 && (NeedsChunking(f) || f.tagFilters == [] || estimate(f) <= 10000)
  }

  lemma RunsExactly(f: Filter, estimate: Filter -> int)
    ensures IsRun(f, estimate) <==> Runs(f, estimate)
  {
    GateExactly(f);
  }

  /** While 500 rows or fewer are read in all, a request is answered with exactly the rows of the filters that are run. */
  lemma AnsweredExactly(rows: Filter -> seq<Event>, fs: seq<Filter>, estimate: Filter -> int, e: Event)
    requires |Concat(rows, Gated(fs, true))| + |Concat(rows, AffordableOf(Gated(fs, false), estimate))| <= 500
    ensures e in Answered(rows, fs, estimate) <==> exists f | f in fs :: Runs(f, estimate) && e in rows(f)
  {
    AnswerMember(rows, fs, estimate, e);
    forall f | f in fs { RunsExactly(f, estimate); }
  }

  /** Newest first, and events of one time by identifier. */
  lemma AnsweredInOrder(rows: Filter -> seq<Event>, fs: seq<Filter>, estimate: Filter -> int, i: nat, j: nat)
    requires i < j < |Answered(rows, fs, estimate)|
    ensures var a := Answered(rows, fs, estimate);
            && |a| <= 500 && a[i].createdAt >= a[j].createdAt
            && (a[i].createdAt == a[j].createdAt ==> !TextLess(a[j].id, a[i].id))
  {
    AnswerShape(rows, fs, estimate, Answered(rows, fs, estimate)[i]);
  }

  /** Chunked filters are read before the others, whatever their order, and all of it up to 500 rows. */
  lemma ChunkedComeFirst(rows: Filter -> seq<Event>, short: Filter, long: Filter, estimate: Filter -> int, e: Event)
    requires Runs(short, estimate) && Runs(long, estimate) && NeedsChunking(long) && !NeedsChunking(short)
    ensures e in Answered(rows, [short, long], estimate)
            <==> exists k | 0 <= k < |rows(long) + rows(short)| && k < 500 :: (rows(long) + rows(short))[k] == e
  {
    RunsExactly(short, estimate);
    RunsExactly(long, estimate);
    TwoRead(rows, short, long, estimate);
    AnswerShape(rows, [short, long], estimate, e);
    var all := rows(long) + rows(short);
    var read := First(all, GLOBAL_MAX_EVENTS);
    assert forall k | 0 <= k < |read| :: read[k] == all[k];
  }

  lemma TwoRead(rows: Filter -> seq<Event>, short: Filter, long: Filter, estimate: Filter -> int)
    requires IsRun(short, estimate) && IsRun(long, estimate) && NeedsChunking(long) && !NeedsChunking(short)
    ensures Read(rows, [short, long], estimate) == First(rows(long) + rows(short), GLOBAL_MAX_EVENTS)
  {
    var fs := [short, long];
    assert fs[..1] == [short] && [short][..0] == [] && [long][..0] == [];
    assert Gated([short], true) == [] && Gated([short], false) == [short];
    assert Gated(fs, true) == [long] && Gated(fs, false) == [short];
    assert AffordableOf([short], estimate) == [short];
    assert Concat(rows, [long]) == rows(long) && Concat(rows, [short]) == rows(short);
  }
}
