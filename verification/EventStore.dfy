/**
 Saving, replacing, deleting and pruning events. Every write is a list of statements run in atomic
 batches; the class runs them, and the relations below say what one call does to the tables.
 */
module EventStore {
  import opened Nostr
  import opened Options
  import opened Schema

  const BATCH_SIZE := 100
  const PRUNE_BATCH_SIZE := 1000
  const PRUNE_LIMIT := 100000
  const PROTECTED_KINDS := {0, 3, 10002}

  // ---------------------------------------------------------------- statements

  datatype Statement =
    | InsertEvent(event: Event)                      // ON CONFLICT DO NOTHING
    | InsertTag(row: TagRow)
    | InsertCache(key: CacheKey, info: CacheInfo)    // OR IGNORE
    | DeleteTags(ids: set<string>)
    | DeleteHashes(ids: set<string>)                 // a table this configuration never fills
    | DeleteCache(ids: set<string>)
    | DeleteEvents(ids: set<string>)                 // cascades to `tags`

  function Without(tags: seq<TagRow>, ids: set<string>): seq<TagRow> {
    if tags == [] then []
    else Without(tags[..|tags| - 1], ids) + if tags[|tags| - 1].eventId in ids then [] else [tags[|tags| - 1]]
  }

  function Exec(s: Tables, st: Statement): Tables {
    match st
    case InsertEvent(e) => if e.id in s.events then s else s.(events := s.events[e.id := e])
    case InsertTag(r) => s.(tags := s.tags + [r])
    case InsertCache(k, info) => if k in s.cache then s else s.(cache := s.cache[k := info])
    case DeleteTags(ids) => s.(tags := Without(s.tags, ids))
    case DeleteHashes(_) => s
    case DeleteCache(ids) => s.(cache := map k | k in s.cache && k.eventId !in ids :: s.cache[k])
    case DeleteEvents(ids) => s.(events := s.events - ids, tags := Without(s.tags, ids))
  }

  function ExecAll(s: Tables, sts: seq<Statement>): Tables
    decreases |sts|
  {
    if sts == [] then s else ExecAll(Exec(s, sts[0]), sts[1..])
  }

  lemma {:induction false} ExecAllConcat(s: Tables, a: seq<Statement>, b: seq<Statement>)
    ensures ExecAll(s, a + b) == ExecAll(ExecAll(s, a), b)
    decreases |a|
  {
    if a == [] {
      assert a + b == b;
    } else {
      ExecAllConcat(Exec(s, a[0]), a[1..], b);
      assert (a + b)[1..] == a[1..] + b;
    }
  }

  lemma ExecTwo(s: Tables, a: Statement, b: Statement)
    ensures ExecAll(s, [a, b]) == Exec(Exec(s, a), b)
  {
    assert [a, b][1..] == [b] && [b][1..] == [];
    assert ExecAll(Exec(s, a), [b]) == ExecAll(Exec(Exec(s, a), b), []);
  }

  lemma ExecThree(s: Tables, a: Statement, b: Statement, c: Statement)
    ensures ExecAll(s, [a, b, c]) == Exec(Exec(Exec(s, a), b), c)
  {
    assert [a, b, c][1..] == [b, c];
    ExecTwo(Exec(s, a), b, c);
  }

  // ---------------------------------------------------------------- what an event is stored as

  /** The value bound to a column; binding `Undefined` makes the statement fail. */
  datatype Bound = Null | Undefined | Text(text: string)

  predicate Falsy(b: Bound) {
    b != Null ==> b.Undefined? || b.text == ""
  }

  function Second(tag: seq<string>): Bound {
    if |tag| >= 2 then Text(tag[1]) else Undefined
  }

  /** The column of a tag name keeps the value of its tags up to the first nonempty one. */
  function Column(tags: seq<seq<string>>, name: string): Bound {
    if tags == [] then Null
    else
      var before, last := Column(tags[..|tags| - 1], name), tags[|tags| - 1];
      if |last| > 0 && last[0] == name && Falsy(before) then Second(last) else before
  }

  /** All nine columns can be bound, so the INSERT does not fail. */
  predicate Bindable(e: Event) {
    forall name | name in CACHED_TAGS :: Column(e.tags, name) != Undefined
  }

  /** The value of the first `d` tag, or empty. */
  function FirstD(tags: seq<seq<string>>): string {
    if tags == [] then ""
    else if |tags[0]| > 0 && tags[0][0] == "d" then (if |tags[0]| >= 2 then tags[0][1] else "")
    else FirstD(tags[1..])
  }

  predicate Replaceable(kind: int) {
    kind == 0 || kind == 3 || 10000 <= kind < 20000
  }

  predicate Parameterized(kind: int) {
    30000 <= kind < 40000
  }

  predicate Ephemeral(kind: int) {
    20000 <= kind < 30000
  }

  function CacheRows(rows: seq<TagRow>): seq<TagRow> {
    if rows == [] then []
    else CacheRows(rows[..|rows| - 1]) + if rows[|rows| - 1].name in CACHED_TAGS then [rows[|rows| - 1]] else []
  }

  function TagInserts(rows: seq<TagRow>): seq<Statement> {
    seq(|rows|, i requires 0 <= i < |rows| => InsertTag(rows[i]))
  }

  function CacheInserts(rows: seq<TagRow>, info: CacheInfo): seq<Statement> {
    seq(|rows|, i requires 0 <= i < |rows| => InsertCache(KeyOf(rows[i]), info))
  }

  function PostInserts(e: Event): seq<Statement> {
    TagInserts(TagRows(e)) + CacheInserts(CacheRows(TagRows(e)), InfoOf(e))
  }

  function DeleteStatements(id: string): seq<Statement> {
    [DeleteTags({id}), DeleteHashes({id}), DeleteCache({id}), DeleteEvents({id})]
  }

  function DeleteAll(ids: seq<string>): seq<Statement> {
    if ids == [] then [] else DeleteStatements(ids[0]) + DeleteAll(ids[1..])
  }

  function Insert(s: Tables, e: Event): Tables {
    ExecAll(Exec(s, InsertEvent(e)), PostInserts(e))
  }

  function Erase(s: Tables, id: string): Tables {
    ExecAll(s, DeleteStatements(id))
  }

  // ---------------------------------------------------------------- one call, as a relation

  datatype Outcome = Saved | Duplicate | Failed

  /** The stored event the replacement query finds for e. */
  predicate RivalOf(x: Event, e: Event) {
    && x.kind == e.kind && x.pubkey == e.pubkey
    && (Replaceable(e.kind) || (Parameterized(e.kind) && Column(x.tags, "d") == Text(FirstD(e.tags))))
  }

  function Rivals(s: Tables, e: Event): set<string> {
    set id | id in s.events && RivalOf(s.events[id], e)
  }

  predicate InsertStep(s: Tables, e: Event, s': Tables, r: Outcome) {
    if Bindable(e) then s' == Insert(s, e) && r == Saved else s' == s && r == Failed
  }

  /** The replacement query has LIMIT 1 and no order, so it picks any one rival. */
  predicate ReplaceStep(s: Tables, e: Event, picked: string, s': Tables, r: Outcome)
    requires picked in s.events
  {
    if e.createdAt <= s.events[picked].createdAt then s' == s && r == Duplicate
    else InsertStep(Erase(s, picked), e, s', r)
  }

  ghost predicate SaveStep(s: Tables, e: Event, hit: bool, s': Tables, r: Outcome) {
    if hit || e.id in s.events then s' == s && r == Duplicate
    else if Rivals(s, e) == {} then InsertStep(s, e, s', r)
    else exists picked | picked in Rivals(s, e) :: ReplaceStep(s, e, picked, s', r)
  }

  /** The `e` tags of a deletion; a tag without a value makes the ownership query fail. */
  function Referenced(tags: seq<seq<string>>): seq<Bound> {
    if tags == [] then []
    else
      var last := tags[|tags| - 1];
      Referenced(tags[..|tags| - 1]) + if |last| > 0 && last[0] == "e" then [Second(last)] else []
  }

  /** The referenced events that are stored and owned by the deletion's author, in order. */
  function Owned(s: Tables, pubkey: string, refs: seq<Bound>): seq<string> {
    if refs == [] then []
    else
      var last := refs[|refs| - 1];
      Owned(s, pubkey, refs[..|refs| - 1])
      + if last.Text? && last.text in s.events && s.events[last.text].pubkey == pubkey != "" then [last.text] else []
  }

  function Deletable(s: Tables, e: Event): seq<string> {
    var refs := Referenced(e.tags);
    if Undefined in refs then [] else Owned(s, e.pubkey, refs)
  }

  function Min(a: int, b: int): int { if a <= b then a else b }

  /** The tables after the first `batches` batches of the deletion have been committed. */
  function AfterBatches(s: Tables, ids: seq<string>, batches: nat): Tables {
    ExecAll(s, DeleteAll(ids)[..Min(batches * BATCH_SIZE, |DeleteAll(ids)|)])
  }

  // ---------------------------------------------------------------- the tag tables stay exact

  lemma {:induction false} WithoutCount(tags: seq<TagRow>, ids: set<string>, r: TagRow)
    ensures multiset(Without(tags, ids))[r] == if r.eventId in ids then 0 else multiset(tags)[r]
  {
    if tags != [] {
      var front, last := tags[..|tags| - 1], tags[|tags| - 1];
      WithoutCount(front, ids, r);
      assert tags == front + [last];
      assert multiset(tags)[r] == multiset(front)[r] + if last == r then 1 else 0;
    }
  }

  lemma EraseFields(s: Tables, ids: set<string>, s': Tables)
    requires s' == Exec(Exec(s, DeleteCache(ids)), DeleteEvents(ids))
    ensures s'.events == s.events - ids
    ensures forall r: TagRow :: multiset(s'.tags)[r] == if r.eventId in ids then 0 else multiset(s.tags)[r]
    ensures s'.cache == map k | k in s.cache && k.eventId !in ids :: s.cache[k]
  {
    forall r: TagRow ensures multiset(s'.tags)[r] == if r.eventId in ids then 0 else multiset(s.tags)[r] {
      WithoutCount(s.tags, ids, r);
    }
  }

  lemma RestrictIndexed(s: Tables, ids: set<string>, s': Tables)
    requires Indexed(s)
    requires s'.events == s.events - ids
    requires forall r: TagRow :: multiset(s'.tags)[r] == if r.eventId in ids then 0 else multiset(s.tags)[r]
    requires s'.cache == map k | k in s.cache && k.eventId !in ids :: s.cache[k]
    ensures Indexed(s')
  {
    forall k: CacheKey ensures k in s'.cache <==> Projects(s', k) {
      assert k in s.cache <==> Projects(s, k);
    }
  }

  /** Deleting rows of the cache and of `events` (which cascades) keeps both tables exact. */
  lemma DeleteIndexed(s: Tables, ids: set<string>)
    requires Indexed(s)
    ensures var s' := ExecAll(s, [DeleteCache(ids), DeleteEvents(ids)]);
            Indexed(s') && s'.events == s.events - ids
  {
    ExecTwo(s, DeleteCache(ids), DeleteEvents(ids));
    var s' := ExecAll(s, [DeleteCache(ids), DeleteEvents(ids)]);
    EraseFields(s, ids, s');
    RestrictIndexed(s, ids, s');
  }

  lemma EraseSteps(s: Tables, id: string)
    ensures Erase(s, id) == Exec(Exec(Exec(s, DeleteTags({id})), DeleteCache({id})), DeleteEvents({id}))
    ensures Erase(s, id).events == s.events - {id}
  {
    var sts := DeleteStatements(id);
    assert sts[1..] == [DeleteHashes({id}), DeleteCache({id}), DeleteEvents({id})];
    ExecThree(Exec(s, sts[0]), DeleteHashes({id}), DeleteCache({id}), DeleteEvents({id}));
  }

  lemma EraseIndexed(s: Tables, id: string)
    requires Indexed(s)
    ensures Indexed(Erase(s, id)) && Erase(s, id).events == s.events - {id}
  {
    EraseSteps(s, id);
    var s1 := Exec(s, DeleteTags({id}));
    EraseFields(s1, {id}, Erase(s, id));
    forall r: TagRow ensures multiset(Erase(s, id).tags)[r] == if r.eventId in {id} then 0 else multiset(s.tags)[r] {
      WithoutCount(s.tags, {id}, r);
    }
    RestrictIndexed(s, {id}, Erase(s, id));
  }

  lemma {:induction false} TagInsertsRun(s: Tables, rows: seq<TagRow>)
    ensures ExecAll(s, TagInserts(rows)) == s.(tags := s.tags + rows)
    decreases |rows|
  {
    if rows == [] {
      assert s.tags + rows == s.tags;
    } else {
      assert TagInserts(rows)[1..] == TagInserts(rows[1..]);
      TagInsertsRun(Exec(s, InsertTag(rows[0])), rows[1..]);
      assert s.tags + [rows[0]] + rows[1..] == s.tags + rows;
    }
  }

  /** INSERT OR IGNORE adds the absent keys and leaves the present ones alone. */
  lemma {:induction false} CacheInsertsRun(s: Tables, rows: seq<TagRow>, info: CacheInfo)
    ensures var s' := ExecAll(s, CacheInserts(rows, info));
            && s'.events == s.events && s'.tags == s.tags
            && (forall k :: k in s'.cache <==> k in s.cache || exists i | 0 <= i < |rows| :: k == KeyOf(rows[i]))
            && (forall k | k in s'.cache :: s'.cache[k] == if k in s.cache then s.cache[k] else info)
    decreases |rows|
  {
    if rows != [] {
      var t := Exec(s, InsertCache(KeyOf(rows[0]), info));
      assert CacheInserts(rows, info)[1..] == CacheInserts(rows[1..], info);
      CacheInsertsRun(t, rows[1..], info);
      var s' := ExecAll(s, CacheInserts(rows, info));
      forall k ensures k in s'.cache <==> k in s.cache || exists i | 0 <= i < |rows| :: k == KeyOf(rows[i]) {
        if i :| 0 <= i < |rows| && k == KeyOf(rows[i]) {
          assert i > 0 ==> k == KeyOf(rows[1..][i - 1]);
        }
        if i :| 0 <= i < |rows[1..]| && k == KeyOf(rows[1..][i]) {
          assert k == KeyOf(rows[i + 1]);
        }
      }
    }
  }

  lemma {:induction false} CacheRowsMember(rows: seq<TagRow>, r: TagRow)
    ensures r in CacheRows(rows) <==> r in rows && r.name in CACHED_TAGS
  {
    if rows != [] {
      CacheRowsMember(rows[..|rows| - 1], r);
      assert rows == rows[..|rows| - 1] + [rows[|rows| - 1]];
    }
  }

  lemma InsertFields(s: Tables, e: Event)
    requires e.id !in s.events
    ensures Insert(s, e).events == s.events[e.id := e]
    ensures Insert(s, e).tags == s.tags + TagRows(e)
    ensures forall k: CacheKey :: k in Insert(s, e).cache
              <==> k in s.cache || (k.tagType in CACHED_TAGS && TagRow(k.eventId, k.tagType, k.tagValue) in TagRows(e))
    ensures forall k: CacheKey | k in Insert(s, e).cache ::
              Insert(s, e).cache[k] == if k in s.cache then s.cache[k] else InfoOf(e)
  {
    var s1, rows := Exec(s, InsertEvent(e)), TagRows(e);
    ExecAllConcat(s1, TagInserts(rows), CacheInserts(CacheRows(rows), InfoOf(e)));
    TagInsertsRun(s1, rows);
    CacheInsertsRun(s1.(tags := s1.tags + rows), CacheRows(rows), InfoOf(e));
    forall k: CacheKey
      ensures (exists i | 0 <= i < |CacheRows(rows)| :: k == KeyOf(CacheRows(rows)[i]))
              <==> k.tagType in CACHED_TAGS && TagRow(k.eventId, k.tagType, k.tagValue) in rows
    {
      var r := TagRow(k.eventId, k.tagType, k.tagValue);
      CacheRowsMember(rows, r);
      if i :| 0 <= i < |CacheRows(rows)| && k == KeyOf(CacheRows(rows)[i]) {
        assert CacheRows(rows)[i] == r;
      }
    }
  }

  lemma InsertIndexed(s: Tables, e: Event)
    requires Indexed(s) && e.id !in s.events
    ensures Indexed(Insert(s, e)) && Insert(s, e).events == s.events[e.id := e]
  {
    InsertFields(s, e);
    var s' := Insert(s, e);
    forall r: TagRow
      ensures multiset(s'.tags)[r] == if r.eventId in s'.events then multiset(TagRows(s'.events[r.eventId]))[r] else 0
    {
      TagRowsMember(e, r);
      assert multiset(s'.tags)[r] == multiset(s.tags)[r] + multiset(TagRows(e))[r];
    }
    forall k: CacheKey ensures k in s'.cache <==> Projects(s', k) {
      assert k in s.cache <==> Projects(s, k);
      TagRowsMember(e, TagRow(k.eventId, k.tagType, k.tagValue));
    }
    forall k: CacheKey | k in s'.cache && k.eventId in s'.events ensures s'.cache[k] == InfoOf(s'.events[k.eventId]) {
      assert k in s.cache <==> Projects(s, k);
      TagRowsMember(e, TagRow(k.eventId, k.tagType, k.tagValue));
    }
  }

  lemma InsertStepIndexed(s: Tables, e: Event, s': Tables, r: Outcome)
    requires Indexed(s) && e.id !in s.events && InsertStep(s, e, s', r)
    ensures Indexed(s') && r != Duplicate
    ensures s'.events == if r == Saved then s.events[e.id := e] else s.events
  {
    if Bindable(e) {
      InsertIndexed(s, e);
    }
  }

  /** What a save leaves in `events`: the new event, without the one older rival that was picked. */
  ghost predicate SavedOver(s: Tables, e: Event, s': Tables) {
    if Rivals(s, e) == {} then s'.events == s.events[e.id := e]
    else exists picked | picked in Rivals(s, e) ::
           s.events[picked].createdAt < e.createdAt && s'.events == (s.events - {picked})[e.id := e]
  }

  /** Saving keeps the projection exact, whatever rival is picked and even if the INSERT fails. */
  lemma SaveIndexed(s: Tables, e: Event, hit: bool, s': Tables, r: Outcome)
    requires Indexed(s) && SaveStep(s, e, hit, s', r)
    ensures Indexed(s')
    ensures r == Duplicate ==> s' == s
    ensures r == Saved ==> e.id !in s.events && SavedOver(s, e, s')
  {
    if hit || e.id in s.events {
    } else if Rivals(s, e) == {} {
      InsertStepIndexed(s, e, s', r);
    } else {
      var picked :| picked in Rivals(s, e) && ReplaceStep(s, e, picked, s', r);
      if e.createdAt > s.events[picked].createdAt {
        EraseIndexed(s, picked);
        InsertStepIndexed(Erase(s, picked), e, s', r);
      }
    }
  }

  // ---------------------------------------------------------------- deletion in batches

  lemma {:induction false} DeleteAllLength(ids: seq<string>)
    ensures |DeleteAll(ids)| == 4 * |ids|
  {
    if ids != [] { DeleteAllLength(ids[1..]); }
  }

  lemma Associates(a: seq<Statement>, b: seq<Statement>, c: seq<Statement>)
    ensures a + (b + c) == (a + b) + c
  {
  }

  lemma DeleteAllHead(ids: seq<string>)
    requires ids != []
    ensures DeleteAll(ids) == DeleteStatements(ids[0]) + DeleteAll(ids[1..])
  {
  }

  lemma {:induction false} DeleteAllConcat(a: seq<string>, b: seq<string>)
    ensures DeleteAll(a + b) == DeleteAll(a) + DeleteAll(b)
    decreases |a|
  {
    if a == [] {
      assert a + b == b;
    } else {
      DeleteAllConcat(a[1..], b);
      assert (a + b)[1..] == a[1..] + b;
      DeleteAllHead(a);
      DeleteAllHead(a + b);
      Associates(DeleteStatements(a[0]), DeleteAll(a[1..]), DeleteAll(b));
    }
  }

  function Elements(ids: seq<string>): set<string> {
    set id | id in ids
  }

  lemma {:induction false} DeleteAllIndexed(s: Tables, ids: seq<string>)
    requires Indexed(s)
    ensures Indexed(ExecAll(s, DeleteAll(ids)))
    ensures ExecAll(s, DeleteAll(ids)).events == s.events - Elements(ids)
    decreases |ids|
  {
    if ids == [] {
      assert s.events - Elements(ids) == s.events;
    } else {
      EraseIndexed(s, ids[0]);
      ExecAllConcat(s, DeleteStatements(ids[0]), DeleteAll(ids[1..]));
      DeleteAllIndexed(Erase(s, ids[0]), ids[1..]);
      assert Elements(ids) == {ids[0]} + Elements(ids[1..]) by {
        assert ids == [ids[0]] + ids[1..];
      }
      assert s.events - {ids[0]} - Elements(ids[1..]) == s.events - Elements(ids);
    }
  }

  /**
   However many batches commit, whole events are gone and the tag tables are exact: a batch of 100
   holds the four statements of exactly 25 events.
   */
  lemma BatchPrefixIndexed(s: Tables, ids: seq<string>, batches: nat)
    requires Indexed(s)
    ensures Indexed(AfterBatches(s, ids, batches))
    ensures AfterBatches(s, ids, batches).events == s.events - Elements(ids[..Min(batches * 25, |ids|)])
  {
    var n := Min(batches * 25, |ids|);
    DeleteAllLength(ids);
    DeleteAllLength(ids[..n]);
    DeleteAllConcat(ids[..n], ids[n..]);
    assert ids[..n] + ids[n..] == ids;
    assert Min(batches * BATCH_SIZE, 4 * |ids|) == 4 * n;
    assert DeleteAll(ids)[..4 * n] == DeleteAll(ids[..n]);
    DeleteAllIndexed(s, ids[..n]);
  }

  lemma ThreeOfFour(s: Tables, id: string)
    ensures ExecAll(s, DeleteAll([id])[..3]).events == s.events
    ensures ExecAll(s, DeleteAll([id])[..3]).tags == Without(s.tags, {id})
  {
    assert DeleteAll([id])[..3] == [DeleteTags({id}), DeleteHashes({id}), DeleteCache({id})] by {
      assert DeleteAll([id]) == DeleteStatements(id) + DeleteAll([]);
    }
    ExecThree(s, DeleteTags({id}), DeleteHashes({id}), DeleteCache({id}));
  }

  /** Stopping inside an event's four statements leaves it stored without its tag rows. */
  lemma PartialDeleteBreaksIndex(s: Tables, id: string)
    requires Indexed(s) && id in s.events && TagRows(s.events[id]) != []
    ensures !Indexed(ExecAll(s, DeleteAll([id])[..3]))
  {
    ThreeOfFour(s, id);
    var s' := ExecAll(s, DeleteAll([id])[..3]);
    var r := TagRows(s.events[id])[0];
    TagRowsMember(s.events[id], r);
    WithoutCount(s.tags, {id}, r);
    assert r.eventId == id && multiset(s'.tags)[r] == 0;
    assert r in multiset(TagRows(s.events[id]));
  }

  lemma {:induction false} OwnedMember(s: Tables, pubkey: string, refs: seq<Bound>, id: string)
    ensures id in Owned(s, pubkey, refs)
            <==> Text(id) in refs && id in s.events && s.events[id].pubkey == pubkey != ""
  {
    if refs != [] {
      OwnedMember(s, pubkey, refs[..|refs| - 1], id);
      assert refs == refs[..|refs| - 1] + [refs[|refs| - 1]];
    }
  }

  /** A completed deletion removes exactly the listed events of its own author. */
  lemma DeletionExact(s: Tables, e: Event, batches: nat, id: string)
    requires Indexed(s) && batches * 25 >= |Deletable(s, e)| && id in s.events
    ensures id !in AfterBatches(s, Deletable(s, e), batches).events
            <==> Undefined !in Referenced(e.tags) && Text(id) in Referenced(e.tags) && s.events[id].pubkey == e.pubkey != ""
  {
    var ids := Deletable(s, e);
    BatchPrefixIndexed(s, ids, batches);
    assert ids[..Min(batches * 25, |ids|)] == ids;
    OwnedMember(s, e.pubkey, Referenced(e.tags), id);
  }

  // ---------------------------------------------------------------- pruning

  function Unprotected(events: map<string, Event>): set<string> {
    set id | id in events && events[id].kind !in PROTECTED_KINDS
  }

  /** No unprotected event outside `gone` is older than one inside. */
  ghost predicate OldestFirst(events: map<string, Event>, gone: set<string>) {
    && gone <= Unprotected(events)
    && forall d, x | d in gone && x in Unprotected(events) - gone :: events[d].createdAt <= events[x].createdAt
  }

  /** ORDER BY created_at ASC LIMIT n over the unprotected events, ties in any order. */
  ghost predicate OldestBatchOf(events: map<string, Event>, limit: nat, batch: set<string>) {
    && OldestFirst(events, batch)
    && |batch| <= limit
    && (|batch| == limit || batch == Unprotected(events))
  }

  function PruneStatements(batch: set<string>): seq<Statement> {
    [DeleteCache(batch), DeleteEvents(batch)]
  }

  /** `gone` was pruned from s: oldest unprotected events first, with their tag rows. */
  ghost predicate PrunedBy(s: Tables, s': Tables, gone: set<string>) {
    && s'.events == s.events - gone
    && OldestFirst(s.events, gone)
    && (Indexed(s) ==> Indexed(s'))
  }

  lemma PruneRun(s: Tables, batch: set<string>)
    ensures ExecAll(s, PruneStatements(batch)).events == s.events - batch
    ensures Indexed(s) ==> Indexed(ExecAll(s, PruneStatements(batch)))
  {
    ExecTwo(s, DeleteCache(batch), DeleteEvents(batch));
    if Indexed(s) { DeleteIndexed(s, batch); }
  }

  lemma PrunedStart(s: Tables)
    ensures PrunedBy(s, s, {})
  {
    var none: set<string> := {};
    assert s.events - none == s.events;
  }

  lemma OldestFirstGrows(events: map<string, Event>, batch: set<string>, x: string)
    requires OldestFirst(events, batch) && x in Unprotected(events) - batch
    requires forall y | y in Unprotected(events) - batch :: events[x].createdAt <= events[y].createdAt
    ensures OldestFirst(events, batch + {x})
    ensures |Unprotected(events) - (batch + {x})| < |Unprotected(events) - batch|
  {
    var all := Unprotected(events);
    assert all - batch == (all - (batch + {x})) + {x};
  }

  lemma OldestFirstJoins(events: map<string, Event>, gone: set<string>, batch: set<string>)
    requires OldestFirst(events, gone) && OldestFirst(events - gone, batch)
    ensures OldestFirst(events, gone + batch)
    ensures gone !! batch
  {
    assert Unprotected(events - gone) == Unprotected(events) - gone;
  }

  lemma RemoveShrinks(events: map<string, Event>, batch: set<string>)
    requires batch != {} && batch <= events.Keys
    ensures |events - batch| < |events|
  {
    assert events.Keys == (events - batch).Keys + batch;
    assert |events.Keys| == |(events - batch).Keys| + |batch|;
  }

  lemma PrunedMore(s: map<string, Event>, mid: map<string, Event>, gone: set<string>, batch: set<string>)
    requires mid == s - gone && OldestFirst(s, gone) && OldestFirst(mid, batch) && batch != {}
    ensures mid - batch == s - (gone + batch) && OldestFirst(s, gone + batch)
    ensures |gone + batch| == |gone| + |batch|
    ensures |mid - batch| < |mid|
  {
    OldestFirstJoins(s, gone, batch);
    RemoveShrinks(mid, batch);
  }

  /** The first n readings are above the target. */
  predicate Above(target: int, sizes: seq<int>, n: nat) {
    n < |sizes| && forall x | x in sizes[..n] :: x > target
  }

  lemma AboveMore(target: int, sizes: seq<int>, n: nat)
    requires Above(target, sizes, n) && sizes[n] > target && n + 1 < |sizes|
    ensures Above(target, sizes, n + 1)
  {
    assert sizes[..n + 1] == sizes[..n] + [sizes[n]];
  }

  /** After some rounds: what is gone are oldest events, and as many as the rounds could take unless none are left. */
  ghost predicate Pruning(s: Tables, t: Tables, gone: set<string>, rounds: nat) {
    && PrunedBy(s, t, gone) && |gone| <= 1000 * rounds && (|gone| < 1000 * rounds ==> Unprotected(t.events) == {})
  }

  lemma PrunedOnceMore(s: Tables, before: Tables, after: Tables, gone: set<string>, batch: set<string>)
    requires PrunedBy(s, before, gone) && OldestFirst(before.events, batch) && batch != {}
    requires after == ExecAll(before, PruneStatements(batch))
    ensures PrunedBy(s, after, gone + batch) && after.events == before.events - batch
    ensures |gone + batch| == |gone| + |batch| && |after.events| < |before.events|
  {
    PruneRun(before, batch);
    PrunedMore(s.events, before.events, gone, batch);
  }

  lemma NoneLeft(events: map<string, Event>, batch: set<string>)
    requires OldestBatchOf(events, PRUNE_BATCH_SIZE, batch) && |batch| < PRUNE_BATCH_SIZE
    ensures Unprotected(events - batch) == {}
  {
  }

  lemma PrunedAgain(s: Tables, before: Tables, after: Tables, gone: set<string>, batch: set<string>, rounds: nat)
    requires Pruning(s, before, gone, rounds) && OldestBatchOf(before.events, PRUNE_BATCH_SIZE, batch) && batch != {}
    requires after == ExecAll(before, PruneStatements(batch))
    ensures Pruning(s, after, gone + batch, rounds + 1)
    ensures |gone + batch| == |gone| + |batch| && |batch| <= PRUNE_BATCH_SIZE && |after.events| < |before.events|
    ensures |gone| == 1000 * rounds
  {
    PrunedOnceMore(s, before, after, gone, batch);
    if |batch| < PRUNE_BATCH_SIZE { NoneLeft(before.events, batch); }
  }

  lemma PrunedIds(s: Tables, s': Tables, gone: set<string>)
    requires PrunedBy(s, s', gone)
    ensures s.events.Keys - s'.events.Keys == gone
  {
  }

  // ---------------------------------------------------------------- the relay's state, and one submitted event

  datatype Relay = Relay(db: Tables, eventCache: set<string>)

  ghost predicate StoreStep(w: Relay, db: Tables, e: Event, edgeHit: bool, w': Relay, r: Outcome) {
    && SaveStep(db, e, edgeHit && e.id in w.eventCache, w'.db, r)
    && w'.eventCache == if r == Saved then w.eventCache + {e.id} else w.eventCache
  }

  datatype DeletionOutcome = NothingListed | Deleted(count: nat) | NoneFound | Unauthorized | CheckFailed | BatchFailed

  predicate Refused(s: Tables, pubkey: string, b: Bound) {
    b.Text? && b.text in s.events && s.events[b.text].pubkey != "" && s.events[b.text].pubkey != pubkey
  }

  predicate AnyRefused(s: Tables, pubkey: string, refs: seq<Bound>) {
    exists b | b in refs :: Refused(s, pubkey, b)
  }

  function DeletionResult(s: Tables, e: Event, committed: bool): DeletionOutcome {
    var refs := Referenced(e.tags);
    if refs == [] then NothingListed
    else if Undefined in refs then CheckFailed
    else if AnyRefused(s, e.pubkey, refs) then Unauthorized
    else if !committed then BatchFailed
    else if Deletable(s, e) == [] then NoneFound
    else Deleted(|Deletable(s, e)|)
  }

  /**
   Deletions delete and are then stored; ephemeral events are not stored; all others are saved. Nothing is
   saved, and nothing can fail, for ephemeral events and for deletions that list nothing.
   */
  ghost predicate SubmitStep(w: Relay, e: Event, edgeHit: bool, batches: nat, w': Relay, r: Outcome) {
    if e.kind == 5 then
      if Referenced(e.tags) == [] then w' == w && r == Saved
      else StoreStep(w, AfterBatches(w.db, Deletable(w.db, e), batches), e, edgeHit, w', r)
    else if Ephemeral(e.kind) then w' == w && r == Saved
    else StoreStep(w, w.db, e, edgeHit, w', r)
  }

  /** What the relay answers: a deletion by how it went, anything else by whether it was saved. */
  function Succeeds(w: Relay, e: Event, batches: nat, r: Outcome): bool {
    if e.kind == 5 then
      var d := DeletionResult(w.db, e, |Deletable(w.db, e)| <= batches * 25);
      d.NothingListed? || d.Deleted? || d.NoneFound?
    else r == Saved
  }

  /** Submitted again while it is stored, an event is accepted only if ephemeral, or as a deletion without error. */
  lemma ResubmissionSucceedsExactly(w: Relay, e: Event, edgeHit: bool, batches: nat, w': Relay, r: Outcome)
    requires SubmitStep(w, e, edgeHit, batches, w', r) && e.id in w.db.events
    ensures Succeeds(w, e, batches, r)
            <==> Ephemeral(e.kind)
                 || (e.kind == 5 && var d := DeletionResult(w.db, e, |Deletable(w.db, e)| <= batches * 25);
                                    d.NothingListed? || d.Deleted? || d.NoneFound?)
    ensures e.kind != 5 && !Ephemeral(e.kind) ==> w' == w && r == Duplicate
  {
  }

  /** An ephemeral event is accepted every time, and leaves no trace by which to know it again. */
  lemma EphemeralAlwaysAccepted(w: Relay, e: Event, edgeHit: bool, batches: nat)
    requires Ephemeral(e.kind)
    ensures SubmitStep(w, e, edgeHit, batches, w, Saved) && Succeeds(w, e, batches, Saved)
    ensures forall w', r | SubmitStep(w, e, edgeHit, batches, w', r) :: w' == w && Succeeds(w, e, batches, r)
  {
  }

  lemma SaveOnlyAdds(s: Tables, e: Event, hit: bool, s': Tables, r: Outcome)
    requires SaveStep(s, e, hit, s', r)
    ensures forall id | id in s'.events :: s'.events[id] == e || (id in s.events && s'.events[id] == s.events[id])
  {
    if !hit && e.id !in s.events {
      if Rivals(s, e) == {} {
        InsertFields(s, e);
      } else {
        var picked :| picked in Rivals(s, e) && ReplaceStep(s, e, picked, s', r);
        EraseSteps(s, picked);
        InsertFields(Erase(s, picked), e);
      }
    }
  }

  lemma NotRefusedLater(s: Tables, s': Tables, e: Event, b: Bound)
    requires !Refused(s, e.pubkey, b)
    requires forall id | id in s'.events :: s'.events[id] == e || (id in s.events && s'.events[id] == s.events[id])
    ensures !Refused(s', e.pubkey, b)
  {
  }

  lemma NoneRefusedLater(w: Relay, e: Event, edgeHit: bool, batches: nat, w': Relay, r: Outcome)
    requires Indexed(w.db) && e.kind == 5 && SubmitStep(w, e, edgeHit, batches, w', r) && Referenced(e.tags) != []
    requires !AnyRefused(w.db, e.pubkey, Referenced(e.tags))
    ensures !AnyRefused(w'.db, e.pubkey, Referenced(e.tags))
  {
    var db := AfterBatches(w.db, Deletable(w.db, e), batches);
    BatchPrefixIndexed(w.db, Deletable(w.db, e), batches);
    SaveOnlyAdds(db, e, edgeHit && e.id in w.eventCache, w'.db, r);
    forall b | b in Referenced(e.tags) ensures !Refused(w'.db, e.pubkey, b) {
      NotRefusedLater(w.db, w'.db, e, b);
    }
  }

  /** A deletion accepted once is accepted again, unless its batches fail the second time. */
  lemma DeletionAcceptedAgain(w: Relay, e: Event, edgeHit: bool, batches: nat, w': Relay, r: Outcome, more: nat, r': Outcome)
    requires Indexed(w.db) && e.kind == 5 && SubmitStep(w, e, edgeHit, batches, w', r) && Succeeds(w, e, batches, r)
    ensures Succeeds(w', e, more, r') <==> Referenced(e.tags) == [] || |Deletable(w'.db, e)| <= more * 25
  {
    if Referenced(e.tags) != [] { NoneRefusedLater(w, e, edgeHit, batches, w', r); }
  }

  lemma OwnersStep(s: Tables, pubkey: string, refs: seq<Bound>, i: nat)
    requires i < |refs|
    ensures AnyRefused(s, pubkey, refs[..i + 1]) <==> AnyRefused(s, pubkey, refs[..i]) || Refused(s, pubkey, refs[i])
    ensures Owned(s, pubkey, refs[..i + 1])
            == Owned(s, pubkey, refs[..i])
               + if refs[i].Text? && refs[i].text in s.events && s.events[refs[i].text].pubkey == pubkey != "" then [refs[i].text] else []
  {
    assert refs[..i + 1] == refs[..i] + [refs[i]];
    assert (refs[..i] + [refs[i]])[..i] == refs[..i];
  }

  /** The first error, or how much was deleted. */
  function Report(refs: seq<Bound>, ids: seq<string>, unauthorized: bool, committed: bool): DeletionOutcome {
    if Undefined in refs then CheckFailed
    else if unauthorized then Unauthorized
    else if !committed then BatchFailed
    else if ids == [] then NoneFound
    else Deleted(|ids|)
  }

  // ---------------------------------------------------------------- the store

  class Store {
    var db: Tables
    var eventCache: set<string>

    constructor ()
      ensures db == EMPTY_TABLES && eventCache == {}
    {
      db, eventCache := EMPTY_TABLES, {};
    }

    method RunBatch(sts: seq<Statement>)
      modifies this`db
      ensures db == ExecAll(old(db), sts)
    {
      for i := 0 to |sts|
        invariant ExecAll(db, sts[i..]) == ExecAll(old(db), sts)
      {
        assert sts[i..][1..] == sts[i + 1..];
        db := Exec(db, sts[i]);
      }
    }

    /** Runs the statements in batches of 100, of which the first `limit` commit. */
    method RunBatches(sts: seq<Statement>, limit: nat) returns (committed: bool)
      modifies this`db
      ensures db == ExecAll(old(db), sts[..Min(limit * BATCH_SIZE, |sts|)])
      ensures committed <==> |sts| <= limit * BATCH_SIZE
    {
      var i, done := 0, 0;
      while i < |sts|
        invariant i == Min(done * BATCH_SIZE, |sts|) && done <= limit
        invariant db == ExecAll(old(db), sts[..i])
        decreases |sts| - i
      {
        if done == limit {
          return false;
        }
        var next := Min(i + BATCH_SIZE, |sts|);
        RunBatch(sts[i..next]);
        ExecAllConcat(old(db), sts[..i], sts[i..next]);
        assert sts[..i] + sts[i..next] == sts[..next];
        i, done := i + BATCH_SIZE, done + 1;
        if i > |sts| { i := |sts|; }
      }
      assert sts[..|sts|] == sts;
      committed := true;
    }

    /** A tag fills the column of its name while that holds no value. */
    method FillColumn(columns: map<string, Bound>, names: seq<string>, tag: seq<string>, ghost before: seq<seq<string>>)
      returns (filled: map<string, Bound>)
      requires forall n :: n in columns <==> n in names
      requires forall n | n in names :: columns[n] == Column(before, n)
      ensures forall n :: n in filled <==> n in names
      ensures forall n | n in names :: filled[n] == Column(before + [tag], n)
    {
      assert (before + [tag])[..|before|] == before;
      filled := columns;
      if |tag| > 0 && tag[0] in names && Falsy(columns[tag[0]]) {
        filled := columns[tag[0] := Second(tag)];
      }
    }

    method ReadAllTags(e: Event, names: seq<string>) returns (rows: seq<TagRow>, columns: map<string, Bound>)
      requires "" !in names
      ensures rows == TagRows(e)
      ensures forall n :: n in columns <==> n in names
      ensures forall n | n in names :: columns[n] == Column(e.tags, n)
    {
      rows, columns := [], map n | n in names :: Null;
      for i := 0 to |e.tags|
        invariant rows == RowsOfTags(e.id, e.tags[..i])
        invariant forall n :: n in columns <==> n in names
        invariant forall n | n in names :: columns[n] == Column(e.tags[..i], n)
      {
        var tag := e.tags[i];
        assert e.tags[..i + 1][..i] == e.tags[..i] && e.tags[..i + 1] == e.tags[..i] + [tag];
        if |tag| > 0 && tag[0] != "" {
          rows := rows + [TagRow(e.id, tag[0], if |tag| >= 2 then tag[1] else "")];
          columns := FillColumn(columns, names, tag, e.tags[..i]);
        }
      }
      assert e.tags[..|e.tags|] == e.tags;
    }

    /** The rows and the nine columns, read off the tags in one pass. */
    method ReadTags(e: Event) returns (rows: seq<TagRow>, columns: map<string, Bound>)
      ensures rows == TagRows(e)
      ensures forall n :: n in columns <==> n in CACHED_TAGS
      ensures forall n | n in CACHED_TAGS :: columns[n] == Column(e.tags, n)
    {
      rows, columns := ReadAllTags(e, CACHED_TAGS);
    }

    method CacheableRows(rows: seq<TagRow>) returns (cached: seq<TagRow>)
      ensures cached == CacheRows(rows)
    {
      cached := [];
      for i := 0 to |rows|
        invariant cached == CacheRows(rows[..i])
      {
        assert rows[..i + 1][..i] == rows[..i];
        if rows[i].name in CACHED_TAGS {
          cached := cached + [rows[i]];
        }
      }
      assert rows[..|rows|] == rows;
    }

    method InsertNew(e: Event) returns (r: Outcome)
      requires e.id !in db.events
      modifies this
      ensures InsertStep(old(db), e, db, r)
      ensures eventCache == if r == Saved then old(eventCache) + {e.id} else old(eventCache)
    {
      var rows, columns := ReadTags(e);
      if exists n | n in CACHED_TAGS :: columns[n] == Undefined {
        return Failed;
      }
      db := Exec(db, InsertEvent(e));
      var cached := CacheableRows(rows);
      var sts := TagInserts(rows) + CacheInserts(cached, InfoOf(e));
      var committed := RunBatches(sts, |sts|);
      assert sts[..|sts|] == sts;
      eventCache := eventCache + {e.id};
      return Saved;
    }

    /** `edgeHit` says whether the edge cache still answers for an event it was given. */
    method SaveEvent(e: Event, edgeHit: bool) returns (r: Outcome)
      modifies this
      ensures SaveStep(old(db), e, edgeHit && e.id in old(eventCache), db, r)
      ensures eventCache == if r == Saved then old(eventCache) + {e.id} else old(eventCache)
    {
      if edgeHit && e.id in eventCache {
        return Duplicate;
      }
      if e.id in db.events {
        return Duplicate;
      }
      var rivals := Rivals(db, e);
      if rivals != {} {
        var picked :| picked in rivals;
        if e.createdAt <= db.events[picked].createdAt {
          return Duplicate;
        }
        ghost var before := db;
        RunBatch(DeleteStatements(picked));
        assert db == Erase(before, picked);
        EraseSteps(before, picked);
        r := InsertNew(e);
        assert ReplaceStep(before, e, picked, db, r);
      } else {
        r := InsertNew(e);
      }
    }

    method ReadReferenced(tags: seq<seq<string>>) returns (refs: seq<Bound>)
      ensures refs == Referenced(tags)
    {
      refs := [];
      for i := 0 to |tags|
        invariant refs == Referenced(tags[..i])
      {
        assert tags[..i + 1][..i] == tags[..i];
        if |tags[i]| > 0 && tags[i][0] == "e" {
          refs := refs + [Second(tags[i])];
        }
      }
      assert tags[..|tags|] == tags;
    }

    method CheckOwners(pubkey: string, refs: seq<Bound>) returns (ids: seq<string>, unauthorized: bool)
      ensures ids == Owned(db, pubkey, refs)
      ensures unauthorized <==> AnyRefused(db, pubkey, refs)
    {
      ids, unauthorized := [], false;
      for i := 0 to |refs|
        invariant ids == Owned(db, pubkey, refs[..i])
        invariant unauthorized <==> AnyRefused(db, pubkey, refs[..i])
      {
        OwnersStep(db, pubkey, refs, i);
        var owner := if refs[i].Text? && refs[i].text in db.events then db.events[refs[i].text].pubkey else "";
        if owner == "" {
          continue;
        }
        if owner != pubkey {
          unauthorized := true;
          continue;
        }
        ids := ids + [refs[i].text];
      }
      assert refs[..|refs|] == refs;
    }

    method PushDeletes(ids: seq<string>) returns (sts: seq<Statement>)
      ensures sts == DeleteAll(ids)
    {
      sts := [];
      for i := 0 to |ids|
        invariant sts == DeleteAll(ids[..i])
      {
        DeleteAllConcat(ids[..i], [ids[i]]);
        assert ids[..i + 1] == ids[..i] + [ids[i]];
        assert DeleteAll([ids[i]]) == DeleteStatements(ids[i]) + DeleteAll([]);
        sts := sts + DeleteStatements(ids[i]);
      }
      assert ids[..|ids|] == ids;
    }

    method DeleteInBatches(ids: seq<string>, limit: nat) returns (committed: bool)
      modifies this`db
      ensures db == AfterBatches(old(db), ids, limit) && (committed <==> |ids| <= limit * 25)
    {
      var sts := PushDeletes(ids);
      DeleteAllLength(ids);
      committed := RunBatches(sts, limit);
    }

    /** `limit` is the number of batches that commit before the database fails. */
    method ProcessDeletion(e: Event, edgeHit: bool, limit: nat) returns (r: DeletionOutcome, saved: Outcome)
      modifies this
      ensures r == DeletionResult(old(db), e, |Deletable(old(db), e)| <= limit * 25)
      ensures r.NothingListed? ==> db == old(db) && eventCache == old(eventCache) && saved == Saved
      ensures !r.NothingListed? ==>
                SaveStep(AfterBatches(old(db), Deletable(old(db), e), limit), e,
                         edgeHit && e.id in old(eventCache), db, saved)
      ensures !r.NothingListed? ==>
                eventCache == if saved == Saved then old(eventCache) + {e.id} else old(eventCache)
    {
      var refs := ReadReferenced(e.tags);
      if |refs| == 0 {
        return NothingListed, Saved;
      }
      var ids, unauthorized := FindDeletable(e, refs);
      var committed := DeleteInBatches(ids, limit);
      saved := SaveEvent(e, edgeHit);
      r := Report(refs, ids, unauthorized, committed);
    }

    /** A reference without a value makes the whole check fail, and then nothing is deleted. */
    method FindDeletable(e: Event, refs: seq<Bound>) returns (ids: seq<string>, unauthorized: bool)
      requires refs == Referenced(e.tags)
      ensures ids == Deletable(db, e)
      ensures unauthorized <==> Undefined !in refs && AnyRefused(db, e.pubkey, refs)
    {
      ids, unauthorized := [], false;
      if Undefined !in refs {
        ids, unauthorized := CheckOwners(e.pubkey, refs);
      }
    }

    method ProcessEvent(e: Event, edgeHit: bool, limit: nat) returns (r: Outcome, success: bool)
      modifies this
      ensures SubmitStep(Relay(old(db), old(eventCache)), e, edgeHit, limit, Relay(db, eventCache), r)
      ensures success == Succeeds(Relay(old(db), old(eventCache)), e, limit, r)
    {
      if e.kind == 5 {
        var d;
        d, r := ProcessDeletion(e, edgeHit, limit);
        success := d.NothingListed? || d.Deleted? || d.NoneFound?;
      } else {
        if 20000 <= e.kind < 30000 {
          r := Saved;
        } else {
          r := SaveEvent(e, edgeHit);
        }
        success := r == Saved;
      }
    }

    method OldestOf(ids: set<string>) returns (oldest: string)
      requires ids != {} && ids <= db.events.Keys
      ensures oldest in ids
      ensures forall x | x in ids :: db.events[oldest].createdAt <= db.events[x].createdAt
    {
      oldest :| oldest in ids;
      var rest := ids - {oldest};
      while rest != {}
        invariant oldest in ids && rest <= ids
        invariant forall x | x in ids - rest :: db.events[oldest].createdAt <= db.events[x].createdAt
        decreases |rest|
      {
        var x :| x in rest;
        if db.events[x].createdAt < db.events[oldest].createdAt {
          oldest := x;
        }
        rest := rest - {x};
      }
    }

    method OldestBatch(limit: nat) returns (batch: set<string>)
      ensures OldestBatchOf(db.events, limit, batch)
    {
      batch := {};
      var all := Unprotected(db.events);
      while all - batch != {} && |batch| < limit
        invariant batch <= all && |batch| <= limit
        invariant OldestFirst(db.events, batch)
        decreases |all - batch|
      {
        var x := OldestOf(all - batch);
        OldestFirstGrows(db.events, batch, x);
        batch := batch + {x};
      }
      assert all - batch == {} ==> batch == all;
    }

    method PruneBatch() returns (batch: set<string>)
      modifies this`db
      ensures OldestBatchOf(old(db).events, PRUNE_BATCH_SIZE, batch)
      ensures db == if batch == {} then old(db) else ExecAll(old(db), PruneStatements(batch))
    {
      batch := OldestBatch(PRUNE_BATCH_SIZE);
      if batch != {} {
        RunBatch(PruneStatements(batch));
      }
    }

    /** `sizes` are the readings of the database's size, one before the first batch and one after each, of which there are at most 100. */
    method Prune(target: int, sizes: seq<int>) returns (deleted: nat, finalSize: int, ghost rounds: nat)
      requires |sizes| > 100
      modifies this`db
      ensures var gone := old(db).events.Keys - db.events.Keys;
              Pruning(old(db), db, gone, rounds) && deleted == |gone| < 101000
      ensures Above(target, sizes, rounds) && finalSize == sizes[rounds]
      ensures finalSize <= target || deleted >= 100000 || Unprotected(db.events) == {}
    {
      deleted, rounds := 0, 0;
      finalSize := sizes[0];
      var reading := 0;
      ghost var gone: set<string> := {};
      PrunedStart(db);
      while finalSize > target
        invariant Pruning(old(db), db, gone, rounds) && deleted == |gone| < PRUNE_LIMIT
        invariant reading == rounds && rounds <= 100 && Above(target, sizes, rounds) && finalSize == sizes[rounds]
        decreases |db.events|
      {
        ghost var before := db;
        var batch := PruneBatch();
        if batch == {} {
          break;
        }
        PrunedAgain(old(db), before, db, gone, batch, rounds);
        AboveMore(target, sizes, rounds);
        deleted, gone := deleted + |batch|, gone + batch;
        reading, rounds := reading + 1, rounds + 1;
        finalSize := sizes[reading];
        if deleted >= PRUNE_LIMIT {
          break;
        }
      }
      PrunedIds(old(db), db, gone);
    }
  }
}
