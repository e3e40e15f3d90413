/** What the query cache answers, keeps and drops, told from times, counters and the lists of the filters. */
module CacheAnswers {
  import opened Nostr
  import opened Options
  import opened QueryCache

  // ---------------------------------------------------------------- one request

  /** All entries but one are the same. */
  ghost predicate SameBut(c: Cache, c': Cache, key: QueryKey) {
    forall k | k != key :: (k in c <==> k in c') && (k in c ==> c'[k] == c[k])
  }

  /** A shared answer is stored afresh, a young one of our own is counted, and anything else is asked of the database. */
  lemma AskIs(c: Cache, key: QueryKey, now: int, global: Option<QueryResult>, computed: QueryResult, c': Cache, r: QueryResult)
    requires AskStep(c, key, now, global, computed, c', r)
    ensures global.Some? ==> r == global.value && SameBut(c, c', key) && key in c' && c'[key] == Entry(r, now, 1, now)
    ensures global.None? && key in c && now < c[key].timestamp + 60000 ==>
              && r == c[key].result && SameBut(c, c', key) && key in c'
              && c'[key] == Entry(r, c[key].timestamp, c[key].accessCount + 1, now)
    ensures global.None? && !(key in c && now < c[key].timestamp + 60000) ==> r == computed
    ensures global.None? && !(key in c && now < c[key].timestamp + 60000) && |c.Keys + {key}| <= 100 ==>
              SameBut(c, c', key) && key in c' && c'[key] == Entry(computed, now, 1, now)
  {
    var stored := c[key := Entry(computed, now, 1, now)];
    assert stored.Keys == c.Keys + {key};
    KeysOf(c.Keys + {key}, stored);
  }

  // ---------------------------------------------------------------- eviction

  /** One access is worth ten minutes of being accessed later. */
  function Worth(e: Entry): int {
    e.lastAccessed + 600000 * e.accessCount
  }

  lemma ScoreIsWorth(a: Entry, b: Entry, now: int)
    ensures Score(a, now) <= Score(b, now) <==> Worth(a) <= Worth(b)
  {
    ScoreValue(a, now);
    ScoreValue(b, now);
  }

  lemma ScoreValue(e: Entry, now: int)
    ensures Score(e, now) == (Worth(e) - now) as real / 60000.0
  {
    var idle := now - e.lastAccessed;
    assert (idle as real / 1000.0) / 60.0 == idle as real / 60000.0;
    assert (600000 * e.accessCount - idle) as real == 600000.0 * (e.accessCount as real) - idle as real;
  }

  /** The entries at most a minute old. */
  function Young(c: Cache, now: int): set<QueryKey> {
    set k | k in c && now - c[k].timestamp <= 60000
  }

  /** Cleaning keeps young entries only: all of them up to 100, else all but the twenty of least worth. */
  lemma CleaningIs(c: Cache, now: int, c': Cache)
    requires Cleaned(c, now, c')
    ensures c'.Keys <= Young(c, now) && forall k | k in c' :: c'[k] == c[k]
    ensures |Young(c, now)| <= 100 ==> c'.Keys == Young(c, now)
    ensures |Young(c, now)| > 100 ==> |c'| == |Young(c, now)| - 20
    ensures forall d, x | d in Young(c, now) && d !in c' && x in c' :: Worth(c[d]) <= Worth(c[x])
  {
    CleanedSize(c, now, c');
    assert Live(c, now) == Young(c, now);
    forall d, x | d in Young(c, now) && d !in c' && x in c' ensures Worth(c[d]) <= Worth(c[x]) {
      ScoreIsWorth(c[d], c[x], now);
    }
  }

  // ---------------------------------------------------------------- invalidation

  /** Some filter lists the event's kind or author, or a tag value that reads like one of the event's tags. */
  ghost predicate Shares(k: QueryKey, e: Event) {
    exists i | 0 <= i < |k.filters| :: SharesWith(k.filters[i], e)
  }

  ghost predicate SharesWith(f: Filter, e: Event) {
    || e.kind in f.kinds || e.pubkey in f.authors
    || exists j, t | 0 <= j < |f.tagFilters| && 0 <= t < |e.tags| ::
         |e.tags[t]| >= 2 && ReadsLike(f.tagFilters[j], e.tags[t][0] + ":" + e.tags[t][1])
  }

  predicate ReadsLike(t: TagFilter, text: string) {
    exists v | v in t.values :: t.name + ":" + v == text
  }

  lemma ValueTermIs(t: TagFilter, text: string)
    ensures TagTerm(text) in ValueTerms(t) <==> ReadsLike(t, text)
  {
    if v :| v in t.values && t.name + ":" + v == text { assert TagTermOf(t.name, v) in ValueTerms(t); }
  }

  lemma SharedTerm(f: Filter, e: Event)
    ensures (exists t :: t in FilterTerms(f) && t in EventTerms(e)) <==> SharesWith(f, e)
  {
    if t :| t in FilterTerms(f) && t in EventTerms(e) {
      TagTermsMember(f.tagFilters, t);
      if t.TagTerm? { TagShares(f, e, t); }
    }
    if SharesWith(f, e) {
      var t := SharingTerm(f, e);
    }
  }

  lemma SharingTerm(f: Filter, e: Event) returns (term: Term)
    requires SharesWith(f, e)
    ensures term in FilterTerms(f) && term in EventTerms(e)
  {
    if e.kind in f.kinds {
      term := KindTerm(e.kind);
    } else if e.pubkey in f.authors {
      term := AuthorTerm(e.pubkey);
    } else {
      var j, t :| 0 <= j < |f.tagFilters| && 0 <= t < |e.tags| && |e.tags[t]| >= 2
                  && ReadsLike(f.tagFilters[j], e.tags[t][0] + ":" + e.tags[t][1]);
      term := TagTermOf(e.tags[t][0], e.tags[t][1]);
      ValueTermIs(f.tagFilters[j], term.text);
      TagTermsMember(f.tagFilters, term);
      assert term in EventTagTerms(e.tags);
    }
  }

  lemma TagShares(f: Filter, e: Event, t: Term)
    requires t in FilterTerms(f) && t in EventTerms(e) && t.TagTerm?
    ensures SharesWith(f, e)
  {
    TagTermsMember(f.tagFilters, t);
    var j :| 0 <= j < |f.tagFilters| && t in ValueTerms(f.tagFilters[j]);
    ValueTermIs(f.tagFilters[j], t.text);
    var i :| 0 <= i < |e.tags| && |e.tags[i]| >= 2 && TagTermOf(e.tags[i][0], e.tags[i][1]) == t;
  }

  /** An event takes exactly the entries that share something with it out of the cache, and touches no other. */
  lemma InvalidationIs(c: Cache, e: Event, k: QueryKey)
    ensures k in Without(c, Touched(c, e)) <==> k in c && !Shares(k, e)
    ensures k in Without(c, Touched(c, e)) ==> Without(c, Touched(c, e))[k] == c[k]
  {
    if t :| t in Terms(k) && t in EventTerms(e) {
      FiltersTermsMember(k.filters, t);
      var i :| 0 <= i < |k.filters| && t in FilterTerms(k.filters[i]);
      SharedTerm(k.filters[i], e);
      assert t in Terms(k) * EventTerms(e);
    }
    if i :| 0 <= i < |k.filters| && SharesWith(k.filters[i], e) {
      SharedTerm(k.filters[i], e);
      var t :| t in FilterTerms(k.filters[i]) && t in EventTerms(e);
      FiltersTermsMember(k.filters, t);
      assert t in Terms(k) * EventTerms(e);
    }
  }

  // ---------------------------------------------------------------- runs

  /** The m-th operation fetched this answer to this query. */
  ghost predicate FetchedAt(ops: seq<Operation>, m: nat, k: QueryKey, entry: Entry) {
    m < |ops| && ops[m].Ask? && ops[m].key == k && entry.result == Fetched(ops[m]) && entry.timestamp == ops[m].now
  }

  predicate KeptEntry(c: Cache, c': Cache, k: QueryKey)
    requires k in c'
  {
    k in c && c'[k].result == c[k].result && c'[k].timestamp == c[k].timestamp
  }

  lemma StepOrigin(c: Cache, op: Operation, c': Cache, k: QueryKey)
    requires Step(c, op, c') && k in c'
    ensures KeptEntry(c, c', k)
            || (op.Ask? && op.key == k && c'[k].result == Fetched(op) && c'[k].timestamp == op.now)
  {
    if op.Ask? {
      var r :| AskStep(c, op.key, op.now, op.global, op.computed, c', r);
      if op.global.None? && !LocalHit(c, op.key, op.now) {
        var stored := c[op.key := Entry(op.computed, op.now, 1, op.now)];
        if |stored| > MAX_CACHE_SIZE { CleanedSize(stored, op.now, c'); }
      }
    }
  }

  lemma {:induction false} EntryWasFetched(ops: seq<Operation>, states: seq<Cache>, j: nat, k: QueryKey) returns (m: nat)
    requires Run(ops, states) && states[0] == map[] && j < |states| && k in states[j]
    ensures m < j && FetchedAt(ops, m, k, states[j][k])
  {
    assert Step(states[j - 1], ops[j - 1], states[j]);
    StepOrigin(states[j - 1], ops[j - 1], states[j], k);
    if KeptEntry(states[j - 1], states[j], k) {
      m := EntryWasFetched(ops, states, j - 1, k);
    } else {
      m := j - 1;
    }
  }

  /** Every answer was fetched for the same query: just now, or less than a minute ago. */
  lemma AnswersAreFresh(ops: seq<Operation>, states: seq<Cache>, j: nat, r: QueryResult) returns (m: nat)
    requires Run(ops, states) && states[0] == map[] && j < |ops| && ops[j].Ask?
    requires AskStep(states[j], ops[j].key, ops[j].now, ops[j].global, ops[j].computed, states[j + 1], r)
    ensures m <= j && ops[m].Ask? && ops[m].key == ops[j].key && r == Fetched(ops[m])
    ensures m == j || ops[j].now - ops[m].now < 60000
  {
    AskIs(states[j], ops[j].key, ops[j].now, ops[j].global, ops[j].computed, states[j + 1], r);
    if ops[j].global.None? && ops[j].key in states[j] && ops[j].now < states[j][ops[j].key].timestamp + 60000 {
      m := EntryWasFetched(ops, states, j, ops[j].key);
    } else {
      m := j;
    }
  }
}
