/**
 The compiler from filters to queries. It chooses between four shapes: joins with the tag cache,
 one join with `tags`, a grouped join with `tags`, and a scan of `events`.
 */
module QueryCompiler {
  import opened Nostr
  import opened Options
  import opened Schema
  import opened Sql

  const MAX_ROWS := 500

  // ---------------------------------------------------------------- the query each filter denotes

  /** The tag filters that list a value and whose name is (or is not) one of the cached ones. */
  function Pick(ts: seq<TagFilter>, cached: bool): seq<TagFilter> {
    if ts == [] then []
    else
      var last := ts[|ts| - 1];
      Pick(ts[..|ts| - 1], cached)
      + if last.values != [] && (last.name in CACHED_TAGS) == cached then [last] else []
  }

  function Ands(cs: seq<Condition>): seq<Link> {
    seq(|cs|, i requires 0 <= i < |cs| => Link(And, cs[i]))
  }

  function Ors(cs: seq<Condition>): seq<Link> {
    seq(|cs|, i requires 0 <= i < |cs| => Link(Or, cs[i]))
  }

  function CursorConditions(f: Filter, created: IntColumn): seq<Condition> {
    if f.cursor.None? then []
    else
      var c := f.cursor.value;
      [Clause(Below(created, c.timestamp),
              [Link(Or, Clause(IntEq(created, c.timestamp), [Link(And, TextAfter(EventId, c.lastId))]))])]
  }

  function IdConditions(f: Filter): seq<Condition> {
    if f.ids != [] then [TextIn(EventId, f.ids)] else []
  }

  function AuthorConditions(f: Filter): seq<Condition> {
    if f.authors != [] then [TextIn(EventPubkey, f.authors)] else []
  }

  function KindConditions(f: Filter, kind: IntColumn): seq<Condition> {
    if f.kinds != [] then [IntIn(kind, f.kinds)] else []
  }

  function SinceConditions(f: Filter, created: IntColumn): seq<Condition> {
    if Truthy(f.since) then [AtLeast(created, f.since.value)] else []
  }

  function UntilConditions(f: Filter, created: IntColumn): seq<Condition> {
    if Truthy(f.until) then [AtMost(created, f.until.value)] else []
  }

  /** The conditions of every shape; the shapes differ in where kind and time are read from. */
  function BaseConditions(f: Filter, kind: IntColumn, created: IntColumn): seq<Condition> {
    IdConditions(f) + AuthorConditions(f) + KindConditions(f, kind)
    + SinceConditions(f, created) + UntilConditions(f, created) + CursorConditions(f, created)
  }

  function TagConditions(t: TagFilter, alias: nat): seq<Condition> {
    [TextEq(TagName(alias), t.name), TextIn(TagValue(alias), t.values)]
  }

  function TagClause(t: TagFilter): Condition {
    Clause(TagConditions(t, 0)[0], Ands(TagConditions(t, 0)[1..]))
  }

  function TagClauses(ts: seq<TagFilter>): seq<Condition> {
    seq(|ts|, i requires 0 <= i < |ts| => TagClause(ts[i]))
  }

  function CacheJoin(t: TagFilter, alias: nat): Join {
    Join(CacheTable, Clause(Joined(alias), Ands(TagConditions(t, alias))))
  }

  function CacheJoins(ts: seq<TagFilter>): seq<Join> {
    seq(|ts|, i requires 0 <= i < |ts| => CacheJoin(ts[i], i))
  }

  function RowLimit(f: Filter): int {
    if Truthy(f.limit) && f.limit.value < MAX_ROWS then f.limit.value else MAX_ROWS
  }

  function OneTag(f: Filter, source: Source, t: TagFilter, kind: IntColumn, created: IntColumn): Query {
    var cs := TagConditions(t, 0) + BaseConditions(f, kind, created);
    Query([Join(source, Joined(0))], Clause(cs[0], Ands(cs[1..])), None, RowLimit(f))
  }

  function ManyCached(f: Filter, ts: seq<TagFilter>): Query {
    Query(CacheJoins(ts), Clause(Always, Ands(BaseConditions(f, CacheKind(0), CacheCreatedAt(0)))), None, RowLimit(f))
  }

  /** `WHERE (tag) OR (tag) ... AND base`: the base conditions bind to the last tag only. */
  function Mixed(f: Filter, ts: seq<TagFilter>): Query
    requires ts != []
  {
    Query([Join(TagsTable, Joined(0))],
          Clause(TagClauses(ts)[0],
                 Ors(TagClauses(ts)[1..]) + Ands(BaseConditions(f, EventKind, EventCreatedAt))),
          Some(|ts|), RowLimit(f))
  }

  function Scan(f: Filter): Query {
    var cs := BaseConditions(f, EventKind, EventCreatedAt);
    Query([], if cs == [] then Always else Clause(cs[0], Ands(cs[1..])), None, RowLimit(f))
  }

  function Compile(f: Filter): Query {
    var direct, other := Pick(f.tagFilters, true), Pick(f.tagFilters, false);
    if direct != [] && other == [] then
      if |direct| == 1 then OneTag(f, CacheTable, direct[0], CacheKind(0), CacheCreatedAt(0))
      else ManyCached(f, direct)
    else if |direct + other| == 1 then OneTag(f, TagsTable, (direct + other)[0], EventKind, EventCreatedAt)
    else if |direct + other| > 1 then Mixed(f, direct + other)
    else Scan(f)
  }

  // ---------------------------------------------------------------- the compiler

  method PushBase(f: Filter, kind: IntColumn, created: IntColumn) returns (conditions: seq<Condition>)
    ensures conditions == BaseConditions(f, kind, created)
  {
    conditions := [];
    if |f.ids| > 0 {
      conditions := conditions + [TextIn(EventId, f.ids)];
    }
    assert conditions == IdConditions(f);
    if |f.authors| > 0 {
      conditions := conditions + [TextIn(EventPubkey, f.authors)];
    }
    assert conditions == IdConditions(f) + AuthorConditions(f);
    if |f.kinds| > 0 {
      conditions := conditions + [IntIn(kind, f.kinds)];
    }
    ghost var three := IdConditions(f) + AuthorConditions(f) + KindConditions(f, kind);
    assert conditions == three;
    if Truthy(f.since) {
      conditions := conditions + [AtLeast(created, f.since.value)];
    }
    assert conditions == three + SinceConditions(f, created);
    if Truthy(f.until) {
      conditions := conditions + [AtMost(created, f.until.value)];
    }
    ghost var five := three + SinceConditions(f, created) + UntilConditions(f, created);
    assert conditions == five;
    if f.cursor.Some? {
      var c := f.cursor.value;
      conditions := conditions
        + [Clause(Below(created, c.timestamp),
                  [Link(Or, Clause(IntEq(created, c.timestamp), [Link(And, TextAfter(EventId, c.lastId))]))])];
    }
    assert conditions == five + CursorConditions(f, created);
  }

  method SplitTags(ts: seq<TagFilter>) returns (direct: seq<TagFilter>, other: seq<TagFilter>, tagCount: nat)
    ensures direct == Pick(ts, true) && other == Pick(ts, false)
    ensures tagCount > 0 <==> direct != [] || other != []
  {
    direct, other, tagCount := [], [], 0;
    for k := 0 to |ts|
      invariant direct == Pick(ts[..k], true) && other == Pick(ts[..k], false)
      invariant tagCount > 0 <==> direct != [] || other != []
    {
      var t := ts[k];
      assert ts[..k + 1][..k] == ts[..k];
      if |t.values| > 0 {
        tagCount := tagCount + |t.values|;
        if t.name in CACHED_TAGS {
          direct := direct + [t];
        } else {
          other := other + [t];
        }
      }
    }
    assert ts[..|ts|] == ts;
  }

  method PushJoins(ts: seq<TagFilter>) returns (joins: seq<Join>)
    ensures joins == CacheJoins(ts)
  {
    joins := [];
    for i := 0 to |ts|
      invariant |joins| == i && forall k | 0 <= k < i :: joins[k] == CacheJoin(ts[k], k)
    {
      joins := joins + [CacheJoin(ts[i], i)];
    }
  }

  method BuildQuery(f: Filter) returns (q: Query)
    ensures q == Compile(f)
  {
    var direct, other, tagCount := SplitTags(f.tagFilters);
    if |direct| > 0 && |other| == 0 {
      var cs := PushBase(f, CacheKind(0), CacheCreatedAt(0));
      if |direct| == 1 {
        cs := TagConditions(direct[0], 0) + cs;
        q := Query([Join(CacheTable, Joined(0))], Clause(cs[0], Ands(cs[1..])), None, RowLimit(f));
      } else {
        var joins := PushJoins(direct);
        q := Query(joins, Clause(Always, Ands(cs)), None, RowLimit(f));
      }
      return;
    }
    var cs := PushBase(f, EventKind, EventCreatedAt);
    if tagCount > 0 {
      var all := direct + other;
      if |all| == 1 {
        cs := TagConditions(all[0], 0) + cs;
        q := Query([Join(TagsTable, Joined(0))], Clause(cs[0], Ands(cs[1..])), None, RowLimit(f));
      } else {
        var clauses := TagClauses(all);
        q := Query([Join(TagsTable, Joined(0))], Clause(clauses[0], Ors(clauses[1..]) + Ands(cs)),
                   Some(|all|), RowLimit(f));
      }
      return;
    }
    q := Query([], if cs == [] then Always else Clause(cs[0], Ands(cs[1..])), None, RowLimit(f));
  }

  // ---------------------------------------------------------------- what conditions mean

  predicate AllHold(cs: seq<Condition>, row: Row) {
    forall i | 0 <= i < |cs| :: Holds(cs[i], row)
  }

  lemma AllHoldConcat(a: seq<Condition>, b: seq<Condition>, row: Row)
    ensures AllHold(a + b, row) <==> AllHold(a, row) && AllHold(b, row)
  {
    if AllHold(a + b, row) {
      forall i | 0 <= i < |a| ensures Holds(a[i], row) { assert (a + b)[i] == a[i]; }
      forall i | 0 <= i < |b| ensures Holds(b[i], row) { assert (a + b)[|a| + i] == b[i]; }
    }
  }

  lemma {:induction false} AndsHold(group: bool, cs: seq<Condition>, row: Row)
    ensures HoldsFrom(group, Ands(cs), row) <==> group && AllHold(cs, row)
  {
    if cs != [] {
      AndsHold(group && Holds(cs[0], row), cs[1..], row);
      assert Ands(cs)[1..] == Ands(cs[1..]);
      assert cs == [cs[0]] + cs[1..];
      AllHoldConcat([cs[0]], cs[1..], row);
      assert Ands(cs)[0].condition == cs[0];
      assert AllHold([cs[0]], row) <==> Holds([cs[0]][0], row);
    }
  }

  lemma ConjunctionHolds(cs: seq<Condition>, row: Row)
    requires cs != []
    ensures Holds(Clause(cs[0], Ands(cs[1..])), row) <==> AllHold(cs, row)
  {
    AndsHold(Holds(cs[0], row), cs[1..], row);
    assert cs == [cs[0]] + cs[1..];
    AllHoldConcat([cs[0]], cs[1..], row);
    assert AllHold([cs[0]], row) <==> Holds([cs[0]][0], row);
  }

  /** AND binds tighter than OR: trailing ANDs restrict only the last alternative. */
  lemma {:induction false} OrsThenAndsHold(first: Condition, os: seq<Condition>, cs: seq<Condition>, row: Row)
    decreases |os|
    ensures HoldsFrom(Holds(first, row), Ors(os) + Ands(cs), row)
            <==> exists i | 0 <= i <= |os| ::
                   Holds(([first] + os)[i], row) && (i == |os| ==> AllHold(cs, row))
  {
    var all := [first] + os;
    if os == [] {
      assert Ors(os) + Ands(cs) == Ands(cs);
      AndsHold(Holds(first, row), cs, row);
      assert all[0] == first;
    } else {
      var links := Ors(os) + Ands(cs);
      assert links[0] == Link(Or, os[0]);
      assert links[1..] == Ors(os[1..]) + Ands(cs);
      OrsThenAndsHold(os[0], os[1..], cs, row);
      assert [os[0]] + os[1..] == os == all[1..];
      if i :| 0 <= i <= |os[1..]| && Holds(os[i], row) && (i == |os[1..]| ==> AllHold(cs, row)) {
        assert all[i + 1] == os[i];
      }
      if i :| 0 <= i <= |os| && Holds(all[i], row) && (i == |os| ==> AllHold(cs, row)) {
        assert i > 0 ==> all[i] == ([os[0]] + os[1..])[i - 1];
      }
      assert all[0] == first;
    }
  }

  lemma AlternativesHold(os: seq<Condition>, cs: seq<Condition>, row: Row)
    requires os != []
    ensures Holds(Clause(os[0], Ors(os[1..]) + Ands(cs)), row)
            <==> exists i | 0 <= i < |os| :: Holds(os[i], row) && (i == |os| - 1 ==> AllHold(cs, row))
  {
    OrsThenAndsHold(os[0], os[1..], cs, row);
    assert [os[0]] + os[1..] == os;
  }

  lemma SingleHolds(c: Condition, row: Row)
    ensures AllHold([c], row) <==> Holds(c, row)
  {
    assert [c][0] == c;
  }

  lemma CursorHolds(f: Filter, created: IntColumn, row: Row)
    requires Number(created, row) == Some(row.event.createdAt)
    ensures AllHold(CursorConditions(f, created), row) <==> AfterCursor(row.event, f)
  {
    if f.cursor.Some? {
      var c := f.cursor.value;
      var tie := Clause(IntEq(created, c.timestamp), [Link(And, TextAfter(EventId, c.lastId))]);
      assert Holds(tie, row) <==> Holds(IntEq(created, c.timestamp), row) && Holds(TextAfter(EventId, c.lastId), row) by {
        assert [Link(And, TextAfter(EventId, c.lastId))] == Ands([TextAfter(EventId, c.lastId)]);
        AndsHold(Holds(IntEq(created, c.timestamp), row), [TextAfter(EventId, c.lastId)], row);
        SingleHolds(TextAfter(EventId, c.lastId), row);
      }
      var below := Below(created, c.timestamp);
      assert [Link(Or, tie)] == Ors([tie]) + Ands([]);
      OrsThenAndsHold(below, [tie], [], row);
      assert ([below] + [tie])[0] == below && ([below] + [tie])[1] == tie;
      SingleHolds(CursorConditions(f, created)[0], row);
    }
  }

  lemma ListConditionsHold(f: Filter, kind: IntColumn, row: Row)
    requires Number(kind, row) == Some(row.event.kind)
    ensures AllHold(IdConditions(f), row) <==> (f.ids != [] ==> row.event.id in f.ids)
    ensures AllHold(AuthorConditions(f), row) <==> (f.authors != [] ==> row.event.pubkey in f.authors)
    ensures AllHold(KindConditions(f, kind), row) <==> (f.kinds != [] ==> row.event.kind in f.kinds)
  {
    SingleHolds(TextIn(EventId, f.ids), row);
    SingleHolds(TextIn(EventPubkey, f.authors), row);
    SingleHolds(IntIn(kind, f.kinds), row);
  }

  lemma BoundConditionsHold(f: Filter, created: IntColumn, row: Row)
    requires Number(created, row) == Some(row.event.createdAt)
    ensures AllHold(SinceConditions(f, created), row) <==> (Truthy(f.since) ==> row.event.createdAt >= f.since.value)
    ensures AllHold(UntilConditions(f, created), row) <==> (Truthy(f.until) ==> row.event.createdAt <= f.until.value)
  {
    if Truthy(f.since) { SingleHolds(AtLeast(created, f.since.value), row); }
    if Truthy(f.until) { SingleHolds(AtMost(created, f.until.value), row); }
  }

  /** Read from any column that agrees with the event, the base conditions are the filter's base. */
  lemma BaseHolds(f: Filter, kind: IntColumn, created: IntColumn, row: Row)
    requires Number(kind, row) == Some(row.event.kind)
    requires Number(created, row) == Some(row.event.createdAt)
    ensures AllHold(BaseConditions(f, kind, created), row) <==> MatchesBase(row.event, f) && AfterCursor(row.event, f)
  {
    var ids, authors, kinds := IdConditions(f), AuthorConditions(f), KindConditions(f, kind);
    var since, until, cursor := SinceConditions(f, created), UntilConditions(f, created), CursorConditions(f, created);
    AllHoldConcat(ids + authors + kinds + since + until, cursor, row);
    AllHoldConcat(ids + authors + kinds + since, until, row);
    AllHoldConcat(ids + authors + kinds, since, row);
    AllHoldConcat(ids + authors, kinds, row);
    AllHoldConcat(ids, authors, row);
    ListConditionsHold(f, kind, row);
    BoundConditionsHold(f, created, row);
    CursorHolds(f, created, row);
  }

  lemma TagConditionsHold(t: TagFilter, alias: nat, row: Row)
    requires alias < |row.bindings|
    ensures AllHold(TagConditions(t, alias), row)
            <==> row.bindings[alias].Name() == t.name && row.bindings[alias].Value() in t.values
  {
    var cs := TagConditions(t, alias);
    assert AllHold(cs, row) <==> Holds(cs[0], row) && Holds(cs[1], row);
  }

  // ---------------------------------------------------------------- which tag filters are compiled

  lemma {:induction false} PickMember(ts: seq<TagFilter>, cached: bool, t: TagFilter)
    ensures t in Pick(ts, cached) <==> t in ts && t.values != [] && (t.name in CACHED_TAGS) == cached
  {
    if ts != [] {
      PickMember(ts[..|ts| - 1], cached, t);
      assert ts == ts[..|ts| - 1] + [ts[|ts| - 1]];
    }
  }

  ghost predicate DistinctNames(ts: seq<TagFilter>) {
    forall i, j | 0 <= i < j < |ts| :: ts[i].name != ts[j].name
  }

  lemma {:induction false} PickDistinct(ts: seq<TagFilter>, cached: bool)
    requires DistinctNames(ts)
    ensures DistinctNames(Pick(ts, cached))
  {
    if ts != [] {
      var front, last := ts[..|ts| - 1], ts[|ts| - 1];
      PickDistinct(front, cached);
      var picked := Pick(front, cached);
      forall i | 0 <= i < |picked| ensures picked[i].name != last.name {
        PickMember(front, cached, picked[i]);
        var k :| 0 <= k < |front| && front[k] == picked[i];
      }
    }
  }

  /** The compiled tag filters are those that list a value, each name once. */
  lemma CompiledTags(f: Filter, all: seq<TagFilter>)
    requires ValidFilter(f)
    requires all == Pick(f.tagFilters, true) + Pick(f.tagFilters, false)
    ensures DistinctNames(all)
    ensures forall t :: t in all <==> t in f.tagFilters && t.values != []
  {
    var direct, other := Pick(f.tagFilters, true), Pick(f.tagFilters, false);
    PickDistinct(f.tagFilters, true);
    PickDistinct(f.tagFilters, false);
    forall t ensures t in all <==> t in f.tagFilters && t.values != [] {
      PickMember(f.tagFilters, true, t);
      PickMember(f.tagFilters, false, t);
    }
    forall i, j | 0 <= i < |direct| && 0 <= j < |other| ensures direct[i].name != other[j].name {
      PickMember(f.tagFilters, true, direct[i]);
      PickMember(f.tagFilters, false, other[j]);
    }
  }

  // ---------------------------------------------------------------- what each shape selects

  /** Some listed value of the tag filter is indexed for the event. */
  predicate TagStored(e: Event, t: TagFilter) {
    exists v | v in t.values :: StoredTag(e, t.name, v)
  }

  predicate TagsStored(e: Event, ts: seq<TagFilter>) {
    forall i | 0 <= i < |ts| :: TagStored(e, ts[i])
  }

  /** What the compiled query accepts: the filter's base and, for each listed tag, an indexed value. */
  predicate Accepts(e: Event, f: Filter) {
    && MatchesBase(e, f) && AfterCursor(e, f)
    && forall i | 0 <= i < |f.tagFilters| && f.tagFilters[i].values != [] :: TagStored(e, f.tagFilters[i])
  }

  ghost predicate Stored(s: Tables, e: Event) {
    e.id in s.events && s.events[e.id] == e
  }

  lemma TagsTableHas(s: Tables, e: Event, name: string, value: string)
    requires Indexed(s) && Stored(s, e)
    ensures TagRow(e.id, name, value) in s.tags <==> StoredTag(e, name, value)
  {
    TagRowsMember(e, TagRow(e.id, name, value));
  }

  lemma CacheTableHas(s: Tables, e: Event, name: string, value: string)
    requires Indexed(s) && Stored(s, e)
    ensures CacheKey(e.id, name, value) in s.cache <==> name in CACHED_TAGS && StoredTag(e, name, value)
    ensures CacheKey(e.id, name, value) in s.cache ==> s.cache[CacheKey(e.id, name, value)] == InfoOf(e)
  {
    TagRowsMember(e, TagRow(e.id, name, value));
    assert CacheKey(e.id, name, value) in s.cache <==> Projects(s, CacheKey(e.id, name, value));
  }

  /** Where each shape with one join reads kind and time from. */
  predicate ColumnsOf(source: Source, name: string, kind: IntColumn, created: IntColumn) {
    if source.CacheTable? then name in CACHED_TAGS && kind == CacheKind(0) && created == CacheCreatedAt(0)
    else kind == EventKind && created == EventCreatedAt
  }

  /** A row of an exact tag table that belongs to e carries one of its stored tags, and its kind and time. */
  lemma JoinedFacts(s: Tables, source: Source, e: Event, b: Binding)
    requires Indexed(s) && Stored(s, e) && RowOf(s, source, b) && b.Owner() == e.id
    ensures StoredTag(e, b.Name(), b.Value()) && b.CacheBinding? == source.CacheTable?
    ensures b.CacheBinding? ==> b.info == InfoOf(e)
  {
    if b.CacheBinding? {
      CacheTableHas(s, e, b.key.tagType, b.key.tagValue);
    } else {
      TagsTableHas(s, e, b.row.name, b.row.value);
    }
  }

  lemma OneTagWhere(f: Filter, source: Source, t: TagFilter, kind: IntColumn, created: IntColumn, e: Event, b: Binding)
    requires ColumnsOf(source, t.name, kind, created) && b.CacheBinding? == source.CacheTable?
    requires b.CacheBinding? ==> b.info == InfoOf(e)
    ensures Holds(OneTag(f, source, t, kind, created).where, Row(e, [b]))
            <==> b.Name() == t.name && b.Value() in t.values && MatchesBase(e, f) && AfterCursor(e, f)
  {
    var row, base := Row(e, [b]), BaseConditions(f, kind, created);
    ConjunctionHolds(TagConditions(t, 0) + base, row);
    AllHoldConcat(TagConditions(t, 0), base, row);
    TagConditionsHold(t, 0, row);
    BaseHolds(f, kind, created, row);
  }

  ghost predicate SingleJoin(q: Query) {
    |q.joins| == 1 && q.joins[0].on == Joined(0)
  }

  ghost predicate JoinedRow(s: Tables, q: Query, e: Event, b: Binding)
    requires SingleJoin(q)
  {
    RowOf(s, q.joins[0].source, b) && b.Owner() == e.id && Holds(q.where, Row(e, [b]))
  }

  lemma SingleJoinProduces(s: Tables, q: Query, e: Event, bindings: seq<Binding>)
    requires Stored(s, e) && SingleJoin(q)
    ensures Produces(s, q, Row(e, bindings)) <==> |bindings| == 1 && JoinedRow(s, q, e, bindings[0])
  {
    if |bindings| == 1 {
      assert bindings == [bindings[0]];
      assert Holds(Joined(0), Row(e, bindings)) <==> bindings[0].Owner() == e.id;
    }
  }

  lemma SingleJoinSelects(s: Tables, q: Query, e: Event)
    requires Stored(s, e) && SingleJoin(q) && q.having.None?
    ensures Selects(s, q, e) <==> exists b :: JoinedRow(s, q, e, b)
  {
    if Selects(s, q, e) {
      var bindings: seq<Binding> :| Produces(s, q, Row(e, bindings));
      SingleJoinProduces(s, q, e, bindings);
    }
    if b :| JoinedRow(s, q, e, b) {
      SingleJoinProduces(s, q, e, [b]);
    }
  }

  ghost function StoredBinding(source: Source, e: Event, t: TagFilter): Binding
    requires TagStored(e, t)
  {
    var v :| v in t.values && StoredTag(e, t.name, v);
    if source.TagsTable? then TagsBinding(TagRow(e.id, t.name, v))
    else CacheBinding(CacheKey(e.id, t.name, v), InfoOf(e))
  }

  lemma StoredBindingHas(s: Tables, source: Source, e: Event, t: TagFilter)
    requires Indexed(s) && Stored(s, e) && TagStored(e, t)
    requires source.CacheTable? ==> t.name in CACHED_TAGS
    ensures var b := StoredBinding(source, e, t);
            && RowOf(s, source, b) && b.Owner() == e.id && b.Name() == t.name && b.Value() in t.values
            && (b.CacheBinding? ==> b.info == InfoOf(e))
  {
    var v := StoredBinding(source, e, t).Value();
    TagsTableHas(s, e, t.name, v);
    CacheTableHas(s, e, t.name, v);
  }

  lemma OneTagSelects(s: Tables, f: Filter, source: Source, t: TagFilter, kind: IntColumn, created: IntColumn, e: Event)
    requires Indexed(s) && Stored(s, e) && ColumnsOf(source, t.name, kind, created)
    ensures Selects(s, OneTag(f, source, t, kind, created), e)
            <==> MatchesBase(e, f) && AfterCursor(e, f) && TagStored(e, t)
  {
    var q := OneTag(f, source, t, kind, created);
    SingleJoinSelects(s, q, e);
    if b :| JoinedRow(s, q, e, b) {
      JoinedFacts(s, source, e, b);
      OneTagWhere(f, source, t, kind, created, e, b);
    }
    if MatchesBase(e, f) && AfterCursor(e, f) && TagStored(e, t) {
      StoredBindingHas(s, source, e, t);
      JoinedFacts(s, source, e, StoredBinding(source, e, t));
      OneTagWhere(f, source, t, kind, created, e, StoredBinding(source, e, t));
      assert JoinedRow(s, q, e, StoredBinding(source, e, t));
    }
  }

  lemma CacheJoinHolds(t: TagFilter, alias: nat, row: Row)
    requires alias < |row.bindings|
    ensures Holds(CacheJoin(t, alias).on, row)
            <==> row.event.id == row.bindings[alias].Owner() && row.bindings[alias].Name() == t.name && row.bindings[alias].Value() in t.values
  {
    AndsHold(Holds(Joined(alias), row), TagConditions(t, alias), row);
    TagConditionsHold(t, alias, row);
  }

  lemma ManyCachedWhere(f: Filter, ts: seq<TagFilter>, row: Row)
    requires row.bindings != [] && row.bindings[0].CacheBinding? && row.bindings[0].info == InfoOf(row.event)
    ensures Holds(ManyCached(f, ts).where, row) <==> MatchesBase(row.event, f) && AfterCursor(row.event, f)
  {
    AndsHold(Holds(Always, row), BaseConditions(f, CacheKind(0), CacheCreatedAt(0)), row);
    BaseHolds(f, CacheKind(0), CacheCreatedAt(0), row);
  }

  lemma ManyCachedBinding(s: Tables, f: Filter, ts: seq<TagFilter>, e: Event, bindings: seq<Binding>, i: nat)
    requires Indexed(s) && Stored(s, e) && i < |ts| && Produces(s, ManyCached(f, ts), Row(e, bindings))
    ensures |bindings| == |ts| && TagStored(e, ts[i]) && bindings[i].CacheBinding? && bindings[i].info == InfoOf(e)
  {
    var q, row := ManyCached(f, ts), Row(e, bindings);
    assert RowOf(s, q.joins[i].source, bindings[i]) && Holds(q.joins[i].on, row);
    CacheJoinHolds(ts[i], i, row);
    CacheTableHas(s, e, bindings[i].Name(), bindings[i].Value());
  }

  lemma ManyCachedSelected(s: Tables, f: Filter, ts: seq<TagFilter>, e: Event, bindings: seq<Binding>)
    requires Indexed(s) && Stored(s, e) && ts != []
    requires Produces(s, ManyCached(f, ts), Row(e, bindings))
    ensures MatchesBase(e, f) && AfterCursor(e, f) && TagsStored(e, ts)
  {
    forall i | 0 <= i < |ts|
      ensures TagStored(e, ts[i]) && bindings[i].CacheBinding? && bindings[i].info == InfoOf(e)
    {
      ManyCachedBinding(s, f, ts, e, bindings, i);
    }
    ManyCachedWhere(f, ts, Row(e, bindings));
  }

  lemma OneCachedBinding(s: Tables, f: Filter, t: TagFilter, e: Event, bindings: seq<Binding>)
    requires Indexed(s) && Stored(s, e)
    requires Produces(s, OneTag(f, CacheTable, t, CacheKind(0), CacheCreatedAt(0)), Row(e, bindings))
    ensures |bindings| == 1 && bindings[0].CacheBinding? && bindings[0].info == InfoOf(e)
  {
    var q := OneTag(f, CacheTable, t, CacheKind(0), CacheCreatedAt(0));
    SingleJoinProduces(s, q, e, bindings);
    JoinedFacts(s, CacheTable, e, bindings[0]);
  }

  lemma CacheTime(e: Event, bindings: seq<Binding>)
    requires bindings != [] && bindings[0].CacheBinding? && bindings[0].info == InfoOf(e)
    ensures Number(CacheCreatedAt(0), Row(e, bindings)) == Some(e.createdAt)
  {
  }

  /** The cached shapes sort by a column of the cache, which holds the time of the event. */
  lemma CacheOrderIsEventOrder(s: Tables, f: Filter, e: Event, bindings: seq<Binding>)
    requires Indexed(s) && Stored(s, e) && Pick(f.tagFilters, true) != [] && Pick(f.tagFilters, false) == []
    requires Produces(s, Compile(f), Row(e, bindings))
    ensures Number(CacheCreatedAt(0), Row(e, bindings)) == Some(e.createdAt)
  {
    var direct := Pick(f.tagFilters, true);
    if |direct| == 1 {
      OneCachedBinding(s, f, direct[0], e, bindings);
    } else {
      ManyCachedBinding(s, f, direct, e, bindings, 0);
    }
    CacheTime(e, bindings);
  }

  lemma ManyCachedProduced(s: Tables, f: Filter, ts: seq<TagFilter>, e: Event) returns (bindings: seq<Binding>)
    requires Indexed(s) && Stored(s, e) && ts != []
    requires forall i | 0 <= i < |ts| :: ts[i].name in CACHED_TAGS && TagStored(e, ts[i])
    requires MatchesBase(e, f) && AfterCursor(e, f)
    ensures Produces(s, ManyCached(f, ts), Row(e, bindings))
  {
    bindings := seq(|ts|, i requires 0 <= i < |ts| => StoredBinding(CacheTable, e, ts[i]));
    var q, row := ManyCached(f, ts), Row(e, bindings);
    forall i | 0 <= i < |ts| ensures RowOf(s, q.joins[i].source, bindings[i]) && Holds(q.joins[i].on, row) {
      StoredBindingHas(s, CacheTable, e, ts[i]);
      CacheJoinHolds(ts[i], i, row);
    }
    StoredBindingHas(s, CacheTable, e, ts[0]);
    ManyCachedWhere(f, ts, row);
  }

  lemma ManyCachedSelects(s: Tables, f: Filter, ts: seq<TagFilter>, e: Event)
    requires Indexed(s) && Stored(s, e) && ts != []
    requires forall i | 0 <= i < |ts| :: ts[i].name in CACHED_TAGS
    ensures Selects(s, ManyCached(f, ts), e) <==> MatchesBase(e, f) && AfterCursor(e, f) && TagsStored(e, ts)
  {
    if Selects(s, ManyCached(f, ts), e) {
      var bindings: seq<Binding> :| Produces(s, ManyCached(f, ts), Row(e, bindings));
      ManyCachedSelected(s, f, ts, e, bindings);
    } else if MatchesBase(e, f) && AfterCursor(e, f) && TagsStored(e, ts) {
      var bindings := ManyCachedProduced(s, f, ts, e);
    }
  }

  lemma TagClauseHolds(t: TagFilter, row: Row)
    requires |row.bindings| > 0
    ensures Holds(TagClause(t), row) <==> row.bindings[0].Name() == t.name && row.bindings[0].Value() in t.values
  {
    ConjunctionHolds(TagConditions(t, 0), row);
    TagConditionsHold(t, 0, row);
  }

  /** Only the last alternative of the WHERE clause carries the base conditions. */
  predicate LastForcesBase(e: Event, f: Filter, ts: seq<TagFilter>, i: int) {
    i == |ts| - 1 ==> MatchesBase(e, f) && AfterCursor(e, f)
  }

  /** A `tags` row survives the unparenthesised WHERE through one tag, the last one with the base. */
  lemma MixedWhere(f: Filter, ts: seq<TagFilter>, e: Event, r: TagRow)
    requires ts != []
    ensures Holds(Mixed(f, ts).where, Row(e, [TagsBinding(r)]))
            <==> exists i | 0 <= i < |ts| ::
                   r.name == ts[i].name && r.value in ts[i].values && LastForcesBase(e, f, ts, i)
  {
    var row := Row(e, [TagsBinding(r)]);
    var clauses, base := TagClauses(ts), BaseConditions(f, EventKind, EventCreatedAt);
    AlternativesHold(clauses, base, row);
    BaseHolds(f, EventKind, EventCreatedAt, row);
    forall i | 0 <= i < |ts| ensures Holds(clauses[i], row) <==> r.name == ts[i].name && r.value in ts[i].values {
      TagClauseHolds(ts[i], row);
    }
  }

  function Names(ts: seq<TagFilter>): set<string> {
    set i | 0 <= i < |ts| :: ts[i].name
  }

  lemma NameIn(ts: seq<TagFilter>, n: string)
    requires ts != []
    ensures n in Names(ts) <==> n in Names(ts[..|ts| - 1]) || n == ts[|ts| - 1].name
  {
    var front := ts[..|ts| - 1];
    if i :| 0 <= i < |ts| && ts[i].name == n {
      assert i < |front| ==> front[i].name == n;
    }
    if i :| 0 <= i < |front| && front[i].name == n {
      assert ts[i].name == n;
    }
  }

  lemma {:induction false} NamesCount(ts: seq<TagFilter>)
    requires DistinctNames(ts)
    ensures |Names(ts)| == |ts|
  {
    if ts == [] {
      assert Names(ts) == {};
    } else {
      var front, last := ts[..|ts| - 1], ts[|ts| - 1];
      NamesCount(front);
      forall n ensures n in Names(ts) <==> n in Names(front) + {last.name} { NameIn(ts, n); }
      assert Names(ts) == Names(front) + {last.name};
      assert last.name !in Names(front);
    }
  }

  lemma FullSubset<T>(a: set<T>, b: set<T>)
    requires a <= b && |a| == |b|
    ensures a == b
  {
    assert b == a + (b - a);
  }

  /** What the i-th tag filter needs in order to contribute its name to the event's group. */
  predicate Contributes(e: Event, f: Filter, ts: seq<TagFilter>, i: nat)
    requires i < |ts|
  {
    TagStored(e, ts[i]) && LastForcesBase(e, f, ts, i)
  }

  lemma SingleJoinGroup(s: Tables, q: Query, e: Event, n: string)
    requires Stored(s, e) && SingleJoin(q) && q.joins[0].source.TagsTable?
    ensures n in GroupNames(s, q, e) <==> exists r: TagRow :: r.name == n && JoinedRow(s, q, e, TagsBinding(r))
  {
    if n in GroupNames(s, q, e) {
      var r :| r in s.tags && Produces(s, q, Row(e, [TagsBinding(r)])) && r.name == n;
      SingleJoinProduces(s, q, e, [TagsBinding(r)]);
    }
    if r: TagRow :| r.name == n && JoinedRow(s, q, e, TagsBinding(r)) {
      SingleJoinProduces(s, q, e, [TagsBinding(r)]);
    }
  }

  lemma MixedJoinedRow(s: Tables, f: Filter, ts: seq<TagFilter>, e: Event, r: TagRow)
    requires Indexed(s) && Stored(s, e) && ts != []
    ensures SingleJoin(Mixed(f, ts)) && Mixed(f, ts).joins[0].source.TagsTable?
    ensures JoinedRow(s, Mixed(f, ts), e, TagsBinding(r))
            <==> r == TagRow(e.id, r.name, r.value) && StoredTag(e, r.name, r.value)
                 && exists i | 0 <= i < |ts| :: r.name == ts[i].name && r.value in ts[i].values && LastForcesBase(e, f, ts, i)
  {
    MixedWhere(f, ts, e, r);
    TagsTableHas(s, e, r.name, r.value);
  }

  lemma MixedGroup(s: Tables, f: Filter, ts: seq<TagFilter>, e: Event, n: string)
    requires Indexed(s) && Stored(s, e) && ts != []
    ensures n in GroupNames(s, Mixed(f, ts), e)
            <==> exists i | 0 <= i < |ts| :: n == ts[i].name && Contributes(e, f, ts, i)
  {
    var q := Mixed(f, ts);
    SingleJoinGroup(s, q, e, n);
    if r: TagRow :| r.name == n && JoinedRow(s, q, e, TagsBinding(r)) {
      MixedJoinedRow(s, f, ts, e, r);
      var i :| 0 <= i < |ts| && n == ts[i].name && r.value in ts[i].values && LastForcesBase(e, f, ts, i);
      assert Contributes(e, f, ts, i);
    }
    if i :| 0 <= i < |ts| && n == ts[i].name && Contributes(e, f, ts, i) {
      var v :| v in ts[i].values && StoredTag(e, n, v);
      MixedJoinedRow(s, f, ts, e, TagRow(e.id, n, v));
    }
  }

  /** Counting all the names forces every tag filter, the last one included, to contribute. */
  lemma CountForcesAll(names: set<string>, e: Event, f: Filter, ts: seq<TagFilter>)
    requires DistinctNames(ts)
    requires forall n :: n in names <==> exists i | 0 <= i < |ts| :: n == ts[i].name && Contributes(e, f, ts, i)
    ensures |names| == |ts| <==> forall i | 0 <= i < |ts| :: Contributes(e, f, ts, i)
  {
    NamesCount(ts);
    if forall i | 0 <= i < |ts| :: Contributes(e, f, ts, i) {
      assert names == Names(ts);
    }
    if |names| == |ts| {
      FullSubset(names, Names(ts));
      forall i | 0 <= i < |ts| ensures Contributes(e, f, ts, i) {
        assert ts[i].name in names;
      }
    }
  }

  lemma MixedSelects(s: Tables, f: Filter, ts: seq<TagFilter>, e: Event)
    requires Indexed(s) && Stored(s, e) && ts != [] && DistinctNames(ts)
    ensures Selects(s, Mixed(f, ts), e) <==> MatchesBase(e, f) && AfterCursor(e, f) && TagsStored(e, ts)
  {
    var names := GroupNames(s, Mixed(f, ts), e);
    forall n ensures n in names <==> exists i | 0 <= i < |ts| :: n == ts[i].name && Contributes(e, f, ts, i) {
      MixedGroup(s, f, ts, e, n);
    }
    CountForcesAll(names, e, f, ts);
    ContributionsMean(e, f, ts);
  }

  lemma ContributionsMean(e: Event, f: Filter, ts: seq<TagFilter>)
    requires ts != []
    ensures (forall i | 0 <= i < |ts| :: Contributes(e, f, ts, i))
            <==> MatchesBase(e, f) && AfterCursor(e, f) && TagsStored(e, ts)
  {
    if forall i | 0 <= i < |ts| :: Contributes(e, f, ts, i) {
      assert Contributes(e, f, ts, |ts| - 1);
      forall i | 0 <= i < |ts| ensures TagStored(e, ts[i]) { assert Contributes(e, f, ts, i); }
    }
  }

  lemma ScanSelects(s: Tables, f: Filter, e: Event)
    requires Stored(s, e)
    ensures Selects(s, Scan(f), e) <==> MatchesBase(e, f) && AfterCursor(e, f)
  {
    var cs := BaseConditions(f, EventKind, EventCreatedAt);
    var row := Row(e, []);
    if cs != [] { ConjunctionHolds(cs, row); }
    BaseHolds(f, EventKind, EventCreatedAt, row);
    assert Produces(s, Scan(f), row) <==> AllHold(cs, row);
    forall bindings: seq<Binding> | Produces(s, Scan(f), Row(e, bindings)) ensures bindings == [] {}
  }

  // ---------------------------------------------------------------- main results

  lemma AcceptsCompiledTags(e: Event, f: Filter, all: seq<TagFilter>)
    requires forall t :: t in all <==> t in f.tagFilters && t.values != []
    ensures Accepts(e, f) <==> MatchesBase(e, f) && AfterCursor(e, f) && TagsStored(e, all)
  {
    if TagsStored(e, all) {
      forall i | 0 <= i < |f.tagFilters| && f.tagFilters[i].values != [] ensures TagStored(e, f.tagFilters[i]) {
        assert f.tagFilters[i] in all;
      }
    }
    if Accepts(e, f) {
      forall i | 0 <= i < |all| ensures TagStored(e, all[i]) {
        assert all[i] in all;
      }
    }
  }

  lemma CompiledCached(s: Tables, f: Filter, direct: seq<TagFilter>, e: Event)
    requires Indexed(s) && Stored(s, e)
    requires direct == Pick(f.tagFilters, true) != [] && Pick(f.tagFilters, false) == []
    ensures Selects(s, Compile(f), e) <==> MatchesBase(e, f) && AfterCursor(e, f) && TagsStored(e, direct)
  {
    forall i | 0 <= i < |direct| ensures direct[i].name in CACHED_TAGS { PickMember(f.tagFilters, true, direct[i]); }
    if |direct| == 1 {
      OneTagSelects(s, f, CacheTable, direct[0], CacheKind(0), CacheCreatedAt(0), e);
      assert Compile(f) == OneTag(f, CacheTable, direct[0], CacheKind(0), CacheCreatedAt(0));
    } else {
      ManyCachedSelects(s, f, direct, e);
    }
  }

  lemma CompiledUncached(s: Tables, f: Filter, all: seq<TagFilter>, e: Event)
    requires Indexed(s) && Stored(s, e) && DistinctNames(all)
    requires all == Pick(f.tagFilters, true) + Pick(f.tagFilters, false)
    requires Pick(f.tagFilters, true) == [] || Pick(f.tagFilters, false) != []
    ensures Selects(s, Compile(f), e) <==> MatchesBase(e, f) && AfterCursor(e, f) && TagsStored(e, all)
  {
    if |all| == 1 {
      OneTagSelects(s, f, TagsTable, all[0], EventKind, EventCreatedAt, e);
      assert Compile(f) == OneTag(f, TagsTable, all[0], EventKind, EventCreatedAt);
    } else if |all| > 1 {
      MixedSelects(s, f, all, e);
      assert Compile(f) == Mixed(f, all);
    } else {
      ScanSelects(s, f, e);
      assert Compile(f) == Scan(f);
    }
  }

  /** In all four shapes the compiled query selects exactly the stored events the filter accepts. */
  lemma CompileCorrect(s: Tables, f: Filter, e: Event)
    requires Indexed(s) && Stored(s, e) && ValidFilter(f)
    ensures Selects(s, Compile(f), e) <==> Accepts(e, f)
  {
    var direct, other := Pick(f.tagFilters, true), Pick(f.tagFilters, false);
    var all := direct + other;
    CompiledTags(f, all);
    AcceptsCompiledTags(e, f, all);
    if direct != [] && other == [] {
      assert all == direct;
      CompiledCached(s, f, direct, e);
    } else {
      CompiledUncached(s, f, all, e);
    }
  }

  lemma BaseIgnoresLimit(f: Filter, limit: Option<int>, kind: IntColumn, created: IntColumn)
    ensures BaseConditions(f.(limit := limit), kind, created) == BaseConditions(f, kind, created)
  {
    var g := f.(limit := limit);
    assert CursorConditions(g, created) == CursorConditions(f, created);
  }

  /** The limit of a filter reaches nothing but the LIMIT of its query. */
  lemma OnlyLimitChanges(f: Filter, limit: Option<int>)
    ensures Compile(f.(limit := limit)) == Compile(f).(limit := RowLimit(f.(limit := limit)))
  {
    BaseIgnoresLimit(f, limit, EventKind, EventCreatedAt);
    BaseIgnoresLimit(f, limit, CacheKind(0), CacheCreatedAt(0));
  }

  /**
   The tags of the event read the same to the tables and to `Matches`: no tag has an empty name and a
   value, and a tag with a name but no value stands beside one with that name and an empty value.
   */
  predicate TagsIndexable(e: Event) {
    forall i | 0 <= i < |e.tags| && |e.tags[i]| > 0 ::
      && (e.tags[i][0] == "" ==> |e.tags[i]| == 1)
      && (e.tags[i][0] != "" && |e.tags[i]| == 1 ==> HasTag(e, e.tags[i][0], ""))
  }

  lemma IndexableTags(e: Event, name: string, value: string)
    requires TagsIndexable(e)
    ensures StoredTag(e, name, value) <==> HasTag(e, name, value)
  {
    if StoredTag(e, name, value) {
      var i :| 0 <= i < |e.tags| && |e.tags[i]| > 0 && e.tags[i][0] == name != ""
               && value == if |e.tags[i]| >= 2 then e.tags[i][1] else "";
      assert |e.tags[i]| >= 2 ==> HasTag(e, name, value);
    }
    if HasTag(e, name, value) {
      var i :| 0 <= i < |e.tags| && |e.tags[i]| >= 2 && e.tags[i][0] == name && e.tags[i][1] == value;
      assert StoredTag(e, name, value);
    }
  }

  /** The compiled query and the live-subscription predicate accept the same events. */
  lemma CompileAgreesWithMatches(s: Tables, f: Filter, e: Event)
    requires Indexed(s) && Stored(s, e) && ValidFilter(f) && TagsIndexable(e)
    ensures Selects(s, Compile(f), e) <==> Matches(e, f) && AfterCursor(e, f)
  {
    CompileCorrect(s, f, e);
    forall i | 0 <= i < |f.tagFilters| && f.tagFilters[i].values != []
      ensures TagStored(e, f.tagFilters[i]) <==> MatchesTagFilter(e, f.tagFilters[i])
    {
      var t := f.tagFilters[i];
      forall v ensures StoredTag(e, t.name, v) <==> HasTag(e, t.name, v) { IndexableTags(e, t.name, v); }
    }
  }

  function TagProbe(name: string, value: string): Filter {
    Filter([], [], [], None, None, None, None, [TagFilter(name, [value])])
  }

  lemma ProbeMatches(e: Event, name: string, value: string)
    ensures ValidFilter(TagProbe(name, value))
    ensures Matches(e, TagProbe(name, value)) <==> HasTag(e, name, value)
    ensures Accepts(e, TagProbe(name, value)) <==> StoredTag(e, name, value)
  {
    var f := TagProbe(name, value);
    var t := f.tagFilters[0];
    assert TagStored(e, t) <==> StoredTag(e, name, value) by {
      assert value in t.values;
    }
    assert MatchesTagFilter(e, t) <==> HasTag(e, name, value) by {
      assert value in t.values;
    }
  }

  /** Exactly the events with indexable tags are treated alike by every cursor-free filter. */
  lemma AgreementExactlyWhenIndexable(s: Tables, e: Event)
    requires Indexed(s) && Stored(s, e)
    ensures (forall f | ValidFilter(f) && f.cursor.None? :: Selects(s, Compile(f), e) <==> Matches(e, f))
            <==> TagsIndexable(e)
  {
    if TagsIndexable(e) {
      forall f | ValidFilter(f) && f.cursor.None? ensures Selects(s, Compile(f), e) <==> Matches(e, f) {
        CompileAgreesWithMatches(s, f, e);
      }
    } else {
      var i :| 0 <= i < |e.tags| && |e.tags[i]| > 0
               && !((e.tags[i][0] == "" ==> |e.tags[i]| == 1)
                    && (e.tags[i][0] != "" && |e.tags[i]| == 1 ==> HasTag(e, e.tags[i][0], "")));
      var name, value := e.tags[i][0], if |e.tags[i]| >= 2 then e.tags[i][1] else "";
      ProbeMatches(e, name, value);
      CompileCorrect(s, TagProbe(name, value), e);
      assert name != "" ==> StoredTag(e, name, value);
      assert name == "" ==> HasTag(e, name, value);
    }
  }

  /** A valueless tag that is stored: the query for an empty value selects the event, the live predicate rejects it. */
  lemma ValuelessTagDisagrees(s: Tables, e: Event, name: string)
    requires Indexed(s) && Stored(s, e) && name != "" && e.tags == [[name]]
    ensures Selects(s, Compile(TagProbe(name, "")), e) && !Matches(e, TagProbe(name, ""))
  {
    ProbeMatches(e, name, "");
    CompileCorrect(s, TagProbe(name, ""), e);
    assert e.tags[0][0] == name;
    assert StoredTag(e, name, "");
  }
}
