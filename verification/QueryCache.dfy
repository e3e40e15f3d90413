/** The relay object's query cache: an inverted index for invalidation, and scored eviction. */
module QueryCache {
  import opened Nostr
  import opened Options

  const TTL := 60000
  const MAX_CACHE_SIZE := 100
  const EVICTED := 20

  /** The JSON text of filters and bookmark, which determines both. */
  datatype QueryKey = QueryKey(filters: seq<Filter>, bookmark: string)
  datatype QueryResult = QueryResult(events: seq<Event>, bookmark: Option<string>)
  datatype Entry = Entry(result: QueryResult, timestamp: int, accessCount: int, lastAccessed: int)

  /** Index keys. A tag name and value are joined into one text, so two pairs may share a term. */
  datatype Term = KindTerm(kind: int) | AuthorTerm(pubkey: string) | TagTerm(text: string)

  type Cache = map<QueryKey, Entry>
  type Index = map<Term, set<QueryKey>>

  function TagTermOf(name: string, value: string): Term {
    TagTerm(name + ":" + value)
  }

  function ValueTerms(t: TagFilter): set<Term> {
    set v | v in t.values :: TagTermOf(t.name, v)
  }

  function TagTerms(ts: seq<TagFilter>): set<Term> {
    if ts == [] then {} else TagTerms(ts[..|ts| - 1]) + ValueTerms(ts[|ts| - 1])
  }

  function KindTerms(kinds: seq<int>): set<Term> {
    set k | k in kinds :: KindTerm(k)
  }

  function AuthorTerms(authors: seq<string>): set<Term> {
    set a | a in authors :: AuthorTerm(a)
  }

  function FilterTerms(f: Filter): set<Term> {
    KindTerms(f.kinds) + AuthorTerms(f.authors) + TagTerms(f.tagFilters)
  }

  function FiltersTerms(filters: seq<Filter>): set<Term> {
    if filters == [] then {} else FiltersTerms(filters[..|filters| - 1]) + FilterTerms(filters[|filters| - 1])
  }

  function Terms(k: QueryKey): set<Term> {
    FiltersTerms(k.filters)
  }

  function EventTagTerms(tags: seq<seq<string>>): set<Term> {
    set i | 0 <= i < |tags| && |tags[i]| >= 2 :: TagTermOf(tags[i][0], tags[i][1])
  }

  function EventTerms(e: Event): set<Term> {
    {KindTerm(e.kind), AuthorTerm(e.pubkey)} + EventTagTerms(e.tags)
  }

  /** The index is the exact inverse of the cache, with no empty sets. */
  ghost predicate Exact(cache: Cache, index: Index) {
    && (forall t :: t in index ==> index[t] != {})
    && (forall t, k :: (t in index && k in index[t]) <==> (k in cache && t in Terms(k)))
  }

  // ---------------------------------------------------------------- what each operation does to the cache

  function Live(cache: Cache, now: int): set<QueryKey> {
    set k | k in cache && now - cache[k].timestamp <= TTL
  }

  /** More accesses raise the score by ten each; a minute without access lowers it by one. */
  function Score(e: Entry, now: int): real {
    (e.accessCount * 10) as real - ((now - e.lastAccessed) as real / 1000.0) / 60.0
  }

  ghost predicate LowestScoring(cache: Cache, now: int, live: set<QueryKey>, out: set<QueryKey>) {
    && out <= live <= cache.Keys
    && forall d, x | d in out && x in live - out :: Score(cache[d], now) <= Score(cache[x], now)
  }

  /** Expired entries go first; if too many remain, the twenty lowest-scoring ones follow. */
  ghost predicate Cleaned(cache: Cache, now: int, cache': Cache) {
    var live := Live(cache, now);
    if |live| <= MAX_CACHE_SIZE then cache' == map k | k in live :: cache[k]
    else exists out: set<QueryKey> :: |out| == EVICTED && LowestScoring(cache, now, live, out)
           && cache' == map k | k in live - out :: cache[k]
  }

  predicate LocalHit(cache: Cache, key: QueryKey, now: int) {
    key in cache && now - cache[key].timestamp < TTL
  }

  /** `global` is an unexpired answer of the shared cache, `computed` what the database would answer. */
  ghost predicate AskStep(cache: Cache, key: QueryKey, now: int, global: Option<QueryResult>, computed: QueryResult, cache': Cache, r: QueryResult) {
    if global.Some? then r == global.value && cache' == cache[key := Entry(global.value, now, 1, now)]
    else if LocalHit(cache, key, now) then
      && r == cache[key].result
      && cache' == cache[key := cache[key].(accessCount := cache[key].accessCount + 1, lastAccessed := now)]
    else
      var stored := cache[key := Entry(computed, now, 1, now)];
      r == computed && if |stored| > MAX_CACHE_SIZE then Cleaned(stored, now, cache') else cache' == stored
  }

  /** The cached queries with a term among `ts`. */
  function Mentioning(cache: Cache, ts: set<Term>): set<QueryKey> {
    set k | k in cache && Terms(k) * ts != {}
  }

  function Touched(cache: Cache, e: Event): set<QueryKey> {
    Mentioning(cache, EventTerms(e))
  }

  function Without(cache: Cache, keys: set<QueryKey>): Cache {
    map k | k in cache && k !in keys :: cache[k]
  }

  // ---------------------------------------------------------------- the index

  ghost predicate Adds(index: Index, key: QueryKey, ts: set<Term>, index': Index) {
    && index'.Keys == index.Keys + ts
    && forall t | t in index' :: index'[t] == (if t in index then index[t] else {}) + if t in ts then {key} else {}
  }

  lemma AddsThen(a: Index, key: QueryKey, ts: set<Term>, b: Index, us: set<Term>, c: Index)
    requires Adds(a, key, ts, b) && Adds(b, key, us, c)
    ensures Adds(a, key, ts + us, c)
  {
  }

  lemma AddsExact(cache: Cache, index: Index, key: QueryKey, entry: Entry, index': Index)
    requires Exact(cache, index) && Adds(index, key, Terms(key), index')
    ensures Exact(cache[key := entry], index')
  {
  }

  ghost predicate Removes(index: Index, key: QueryKey, index': Index) {
    && (forall t | t in index' :: index'[t] != {})
    && forall t, k :: (t in index' && k in index'[t]) <==> (k != key && t in index && k in index[t])
  }

  lemma RemovedExact(cache: Cache, index: Index, key: QueryKey, index': Index)
    requires Exact(cache, index) && Removes(index, key, index')
    ensures Exact(Without(cache, {key}), index')
  {
    forall t, k ensures (t in index' && k in index'[t]) <==> (k in Without(cache, {key}) && t in Terms(k)) {
      assert (t in index && k in index[t]) <==> (k in cache && t in Terms(k));
    }
  }

  lemma MentioningUnion(cache: Cache, ts: set<Term>, us: set<Term>)
    ensures Mentioning(cache, ts + us) == Mentioning(cache, ts) + Mentioning(cache, us)
  {
    forall k ensures Terms(k) * (ts + us) == Terms(k) * ts + Terms(k) * us { }
  }

  class RelayCache {
    var queryCache: Cache
    var queryCacheIndex: Index

    ghost predicate Valid()
      reads this
    {
      Exact(queryCache, queryCacheIndex)
    }

    constructor ()
      ensures Valid() && queryCache == map[]
    {
      queryCache, queryCacheIndex := map[], map[];
    }

    method AddTerm(t: Term, key: QueryKey)
      modifies this`queryCacheIndex
      ensures Adds(old(queryCacheIndex), key, {t}, queryCacheIndex)
    {
      if t !in queryCacheIndex {
        queryCacheIndex := queryCacheIndex[t := {}];
      }
      queryCacheIndex := queryCacheIndex[t := queryCacheIndex[t] + {key}];
    }

    method AddKinds(key: QueryKey, kinds: seq<int>)
      modifies this`queryCacheIndex
      ensures Adds(old(queryCacheIndex), key, KindTerms(kinds), queryCacheIndex)
    {
      ghost var start := queryCacheIndex;
      for i := 0 to |kinds|
        invariant Adds(start, key, KindTerms(kinds[..i]), queryCacheIndex)
      {
        ghost var before := queryCacheIndex;
        AddTerm(KindTerm(kinds[i]), key);
        AddsThen(start, key, KindTerms(kinds[..i]), before, {KindTerm(kinds[i])}, queryCacheIndex);
        assert kinds[..i + 1] == kinds[..i] + [kinds[i]];
        assert KindTerms(kinds[..i + 1]) == KindTerms(kinds[..i]) + {KindTerm(kinds[i])};
      }
      assert kinds[..|kinds|] == kinds;
    }

    method AddAuthors(key: QueryKey, authors: seq<string>)
      modifies this`queryCacheIndex
      ensures Adds(old(queryCacheIndex), key, AuthorTerms(authors), queryCacheIndex)
    {
      ghost var start := queryCacheIndex;
      for i := 0 to |authors|
        invariant Adds(start, key, AuthorTerms(authors[..i]), queryCacheIndex)
      {
        ghost var before := queryCacheIndex;
        AddTerm(AuthorTerm(authors[i]), key);
        AddsThen(start, key, AuthorTerms(authors[..i]), before, {AuthorTerm(authors[i])}, queryCacheIndex);
        assert authors[..i + 1] == authors[..i] + [authors[i]];
        assert AuthorTerms(authors[..i + 1]) == AuthorTerms(authors[..i]) + {AuthorTerm(authors[i])};
      }
      assert authors[..|authors|] == authors;
    }

    method AddValues(key: QueryKey, t: TagFilter)
      modifies this`queryCacheIndex
      ensures Adds(old(queryCacheIndex), key, ValueTerms(t), queryCacheIndex)
    {
      ghost var start := queryCacheIndex;
      for i := 0 to |t.values|
        invariant Adds(start, key, ValueTerms(TagFilter(t.name, t.values[..i])), queryCacheIndex)
      {
        ghost var before := queryCacheIndex;
        AddTerm(TagTermOf(t.name, t.values[i]), key);
        AddsThen(start, key, ValueTerms(TagFilter(t.name, t.values[..i])), before, {TagTermOf(t.name, t.values[i])}, queryCacheIndex);
        assert t.values[..i + 1] == t.values[..i] + [t.values[i]];
        assert ValueTerms(TagFilter(t.name, t.values[..i + 1]))
            == ValueTerms(TagFilter(t.name, t.values[..i])) + {TagTermOf(t.name, t.values[i])};
      }
      assert t.values[..|t.values|] == t.values;
    }

    method AddTagFilters(key: QueryKey, ts: seq<TagFilter>)
      modifies this`queryCacheIndex
      ensures Adds(old(queryCacheIndex), key, TagTerms(ts), queryCacheIndex)
    {
      ghost var start := queryCacheIndex;
      for i := 0 to |ts|
        invariant Adds(start, key, TagTerms(ts[..i]), queryCacheIndex)
      {
        ghost var before := queryCacheIndex;
        AddValues(key, ts[i]);
        AddsThen(start, key, TagTerms(ts[..i]), before, ValueTerms(ts[i]), queryCacheIndex);
        assert ts[..i + 1][..i] == ts[..i];
      }
      assert ts[..|ts|] == ts;
    }

    method AddFilterToIndex(key: QueryKey, f: Filter)
      modifies this`queryCacheIndex
      ensures Adds(old(queryCacheIndex), key, FilterTerms(f), queryCacheIndex)
    {
      ghost var a := queryCacheIndex;
      AddKinds(key, f.kinds);
      ghost var b := queryCacheIndex;
      AddAuthors(key, f.authors);
      ghost var c := queryCacheIndex;
      AddTagFilters(key, f.tagFilters);
      AddsThen(a, key, KindTerms(f.kinds), b, AuthorTerms(f.authors), c);
      AddsThen(a, key, KindTerms(f.kinds) + AuthorTerms(f.authors), c, TagTerms(f.tagFilters), queryCacheIndex);
    }

    method AddToCacheIndex(key: QueryKey)
      modifies this`queryCacheIndex
      ensures Adds(old(queryCacheIndex), key, Terms(key), queryCacheIndex)
    {
      var filters := key.filters;
      ghost var start := queryCacheIndex;
      for i := 0 to |filters|
        invariant Adds(start, key, FiltersTerms(filters[..i]), queryCacheIndex)
      {
        ghost var before := queryCacheIndex;
        AddFilterToIndex(key, filters[i]);
        AddsThen(start, key, FiltersTerms(filters[..i]), before, FilterTerms(filters[i]), queryCacheIndex);
        assert filters[..i + 1][..i] == filters[..i];
      }
      assert filters[..|filters|] == filters;
    }

    /** Visits every term, drops the key from its set, and drops the set once it is empty. */
    method RemoveFromCacheIndex(key: QueryKey)
      requires forall t | t in queryCacheIndex :: queryCacheIndex[t] != {}
      modifies this`queryCacheIndex
      ensures Removes(old(queryCacheIndex), key, queryCacheIndex)
    {
      var rest := queryCacheIndex.Keys;
      while rest != {}
        invariant rest <= old(queryCacheIndex).Keys
        invariant forall t | t in rest :: t in queryCacheIndex && queryCacheIndex[t] == old(queryCacheIndex)[t]
        invariant forall t | t in queryCacheIndex :: queryCacheIndex[t] != {}
        invariant forall t, k :: t !in rest ==>
                    ((t in queryCacheIndex && k in queryCacheIndex[t])
                     <==> (k != key && t in old(queryCacheIndex) && k in old(queryCacheIndex)[t]))
        decreases |rest|
      {
        var t :| t in rest;
        var keys := queryCacheIndex[t] - {key};
        if keys == {} {
          queryCacheIndex := queryCacheIndex - {t};
        } else {
          queryCacheIndex := queryCacheIndex[t := keys];
        }
        rest := rest - {t};
      }
    }

    method Remove(key: QueryKey)
      requires Valid()
      modifies this
      ensures Valid() && queryCache == Without(old(queryCache), {key})
    {
      queryCache := queryCache - {key};
      RemoveFromCacheIndex(key);
      RemovedExact(old(queryCache), old(queryCacheIndex), key, queryCacheIndex);
      assert queryCache == Without(old(queryCache), {key});
    }

    method RemoveAll(keys: set<QueryKey>)
      requires Valid()
      modifies this
      ensures Valid() && queryCache == Without(old(queryCache), keys)
    {
      var rest := keys;
      while rest != {}
        invariant Valid() && rest <= keys
        invariant queryCache == Without(old(queryCache), keys - rest)
        decreases |rest|
      {
        var k :| k in rest;
        Remove(k);
        rest := rest - {k};
      }
    }

    /** The first `n` entries in ascending order of score, ties in any order. */
    method LowestScores(live: set<QueryKey>, now: int, n: nat) returns (out: set<QueryKey>)
      requires live <= queryCache.Keys && n <= |live|
      ensures |out| == n && LowestScoring(queryCache, now, live, out)
    {
      out := {};
      while |out| < n
        invariant |out| <= n && LowestScoring(queryCache, now, live, out)
        decreases n - |out|
      {
        assert live == out + (live - out);
        var low :| low in live - out;
        var rest := live - out;
        while rest != {}
          invariant low in live - out && rest <= live - out
          invariant forall x | x in live - out - rest :: Score(queryCache[low], now) <= Score(queryCache[x], now)
          decreases |rest|
        {
          var x :| x in rest;
          if Score(queryCache[x], now) < Score(queryCache[low], now) {
            low := x;
          }
          rest := rest - {x};
        }
        out := out + {low};
      }
    }

    method CleanupQueryCache(now: int)
      requires Valid()
      modifies this
      ensures Valid() && Cleaned(old(queryCache), now, queryCache)
    {
      var live := Live(queryCache, now);
      RemoveAll(queryCache.Keys - live);
      assert queryCache == map k | k in live :: old(queryCache)[k];
      assert queryCache.Keys == live;
      if |queryCache| > MAX_CACHE_SIZE {
        var out := LowestScores(live, now, EVICTED);
        RemoveAll(out);
        assert queryCache == map k | k in live - out :: old(queryCache)[k];
      }
    }

    method GetCachedOrQuery(filters: seq<Filter>, bookmark: string, now: int, global: Option<QueryResult>, computed: QueryResult)
      returns (r: QueryResult)
      requires Valid()
      modifies this
      ensures Valid() && AskStep(old(queryCache), QueryKey(filters, bookmark), now, global, computed, queryCache, r)
    {
      var key := QueryKey(filters, bookmark);
      if global.Some? {
        Store(key, Entry(global.value, now, 1, now));
        return global.value;
      }
      if key in queryCache && now - queryCache[key].timestamp < TTL {
        var e := queryCache[key];
        queryCache := queryCache[key := e.(accessCount := e.accessCount + 1, lastAccessed := now)];
        return e.result;
      }
      Store(key, Entry(computed, now, 1, now));
      if |queryCache| > MAX_CACHE_SIZE {
        CleanupQueryCache(now);
      }
      return computed;
    }

    method Store(key: QueryKey, entry: Entry)
      requires Valid()
      modifies this
      ensures Valid() && queryCache == old(queryCache)[key := entry]
    {
      ghost var index := queryCacheIndex;
      queryCache := queryCache[key := entry];
      AddToCacheIndex(key);
      AddsExact(old(queryCache), index, key, entry, queryCacheIndex);
    }

    /** Adds the cached queries indexed under a term. */
    method Collect(t: Term, keys: set<QueryKey>) returns (more: set<QueryKey>)
      requires Valid()
      ensures more == keys + Mentioning(queryCache, {t})
    {
      more := keys;
      if t in queryCacheIndex {
        more := more + queryCacheIndex[t];
      }
      assert forall k | t in Terms(k) :: t in Terms(k) * {t};
    }

    method CollectTags(tags: seq<seq<string>>) returns (keys: set<QueryKey>)
      requires Valid()
      ensures keys == Mentioning(queryCache, EventTagTerms(tags))
    {
      keys := {};
      for i := 0 to |tags|
        invariant keys == Mentioning(queryCache, EventTagTerms(tags[..i]))
      {
        EventTagTermsSnoc(tags, i);
        if |tags[i]| >= 2 {
          var t := TagTermOf(tags[i][0], tags[i][1]);
          keys := Collect(t, keys);
          MentioningUnion(queryCache, EventTagTerms(tags[..i]), {t});
        }
      }
      assert tags[..|tags|] == tags;
    }

    method InvalidateRelevantCaches(e: Event)
      requires Valid()
      modifies this
      ensures Valid() && queryCache == Without(old(queryCache), Touched(old(queryCache), e))
    {
      var keys := Collect(KindTerm(e.kind), {});
      keys := Collect(AuthorTerm(e.pubkey), keys);
      var tagged := CollectTags(e.tags);
      MentioningUnion(queryCache, {KindTerm(e.kind)}, {AuthorTerm(e.pubkey)});
      MentioningUnion(queryCache, {KindTerm(e.kind)} + {AuthorTerm(e.pubkey)}, EventTagTerms(e.tags));
      assert EventTerms(e) == {KindTerm(e.kind)} + {AuthorTerm(e.pubkey)} + EventTagTerms(e.tags);
      RemoveAll(keys + tagged);
    }

    method Clear()
      modifies this
      ensures Valid() && queryCache == map[]
    {
      queryCache, queryCacheIndex := map[], map[];
    }
  }

  lemma EventTagTermsSnoc(tags: seq<seq<string>>, i: nat)
    requires i < |tags|
    ensures EventTagTerms(tags[..i + 1])
            == EventTagTerms(tags[..i]) + if |tags[i]| >= 2 then {TagTermOf(tags[i][0], tags[i][1])} else {}
  {
    var a, b := EventTagTerms(tags[..i + 1]), EventTagTerms(tags[..i]);
    forall t | t in a ensures t in b || (|tags[i]| >= 2 && t == TagTermOf(tags[i][0], tags[i][1])) {
      var k :| 0 <= k < i + 1 && |tags[..i + 1][k]| >= 2 && t == TagTermOf(tags[..i + 1][k][0], tags[..i + 1][k][1]);
      if k < i { assert tags[..i][k] == tags[k]; }
    }
    forall t | t in b ensures t in a {
      var k :| 0 <= k < i && |tags[..i][k]| >= 2 && t == TagTermOf(tags[..i][k][0], tags[..i][k][1]);
      assert tags[..i + 1][k] == tags[k];
    }
    if |tags[i]| >= 2 { assert tags[..i + 1][i] == tags[i]; }
  }

  // ---------------------------------------------------------------- size and eviction

  lemma KeysOf<V>(keys: set<QueryKey>, m: map<QueryKey, V>)
    requires m.Keys == keys
    ensures |m| == |keys|
  {
    assert |m.Keys| == |m|;
  }

  /** Only an answer of the shared cache for a new query can take a full cache past its bound. */
  lemma AskKeepsBoundExactly(cache: Cache, key: QueryKey, now: int, global: Option<QueryResult>, computed: QueryResult, cache': Cache, r: QueryResult)
    requires |cache| <= MAX_CACHE_SIZE && AskStep(cache, key, now, global, computed, cache', r)
    ensures |cache'| <= MAX_CACHE_SIZE <==> !(global.Some? && key !in cache && |cache| == MAX_CACHE_SIZE)
  {
    if global.Some? || LocalHit(cache, key, now) {
      assert cache'.Keys == cache.Keys + {key};
      KeysOf(cache.Keys + {key}, cache');
    } else {
      var stored := cache[key := Entry(computed, now, 1, now)];
      assert stored.Keys == cache.Keys + {key};
      KeysOf(cache.Keys + {key}, stored);
      if |stored| > MAX_CACHE_SIZE {
        CleanedSize(stored, now, cache');
      }
    }
  }

  lemma SubsetSize<T>(a: set<T>, b: set<T>)
    requires a <= b
    ensures |b| == |a| + |b - a|
  {
    assert b == a + (b - a);
  }

  /** Eviction removes exactly twenty live entries, none scoring above a survivor. */
  lemma CleanedSize(cache: Cache, now: int, cache': Cache)
    requires Cleaned(cache, now, cache')
    ensures cache'.Keys <= Live(cache, now) && forall k | k in cache' :: cache'[k] == cache[k]
    ensures |cache'| == if |Live(cache, now)| <= MAX_CACHE_SIZE then |Live(cache, now)| else |Live(cache, now)| - EVICTED
    ensures |cache| <= MAX_CACHE_SIZE + 1 ==> |cache'| <= MAX_CACHE_SIZE
    ensures forall d, x | d in Live(cache, now) && d !in cache' && x in cache' :: Score(cache[d], now) <= Score(cache[x], now)
  {
    var live := Live(cache, now);
    SubsetSize(live, cache.Keys);
    if |live| <= MAX_CACHE_SIZE {
      KeysOf(live, cache');
    } else {
      var out: set<QueryKey> :| |out| == EVICTED && LowestScoring(cache, now, live, out)
                                && cache' == map k | k in live - out :: cache[k];
      SubsetSize(out, live);
      KeysOf(live - out, cache');
    }
  }

  // ---------------------------------------------------------------- invalidation

  predicate ListsATerm(f: Filter) {
    f.kinds != [] || f.authors != [] || exists i | 0 <= i < |f.tagFilters| :: f.tagFilters[i].values != []
  }

  lemma {:induction false} TagTermsMember(ts: seq<TagFilter>, t: Term)
    ensures t in TagTerms(ts) <==> exists i | 0 <= i < |ts| :: t in ValueTerms(ts[i])
  {
    if ts != [] {
      var front := ts[..|ts| - 1];
      TagTermsMember(front, t);
      if i :| 0 <= i < |ts| && t in ValueTerms(ts[i]) {
        assert i < |front| ==> front[i] == ts[i];
      }
      if i :| 0 <= i < |front| && t in ValueTerms(front[i]) {
        assert ts[i] == front[i];
      }
    }
  }

  lemma {:induction false} FiltersTermsMember(fs: seq<Filter>, t: Term)
    ensures t in FiltersTerms(fs) <==> exists i | 0 <= i < |fs| :: t in FilterTerms(fs[i])
  {
    if fs != [] {
      var front := fs[..|fs| - 1];
      FiltersTermsMember(front, t);
      if i :| 0 <= i < |fs| && t in FilterTerms(fs[i]) {
        assert i < |front| ==> front[i] == fs[i];
      }
      if i :| 0 <= i < |front| && t in FilterTerms(front[i]) {
        assert fs[i] == front[i];
      }
    }
  }

  lemma NoTerms(f: Filter)
    requires !ListsATerm(f)
    ensures FilterTerms(f) == {}
  {
    forall t ensures t !in FilterTerms(f) { TagTermsMember(f.tagFilters, t); }
  }

  lemma MatchingShares(e: Event, f: Filter) returns (t: Term)
    requires Matches(e, f) && ListsATerm(f)
    ensures t in FilterTerms(f) && t in EventTerms(e)
  {
    if f.kinds != [] {
      t := KindTerm(e.kind);
    } else if f.authors != [] {
      t := AuthorTerm(e.pubkey);
    } else {
      var i :| 0 <= i < |f.tagFilters| && f.tagFilters[i].values != [];
      assert MatchesTagFilter(e, f.tagFilters[i]);
      var v :| v in f.tagFilters[i].values && HasTag(e, f.tagFilters[i].name, v);
      t := TagTermOf(f.tagFilters[i].name, v);
      TagTermsMember(f.tagFilters, t);
    }
  }

  /** A cached query whose filters all match the event is dropped exactly when one lists a term. */
  lemma InvalidatedExactly(cache: Cache, k: QueryKey, e: Event)
    requires k in cache && forall i | 0 <= i < |k.filters| :: Matches(e, k.filters[i])
    ensures k !in Without(cache, Touched(cache, e)) <==> exists i | 0 <= i < |k.filters| :: ListsATerm(k.filters[i])
  {
    if i :| 0 <= i < |k.filters| && ListsATerm(k.filters[i]) {
      var t := MatchingShares(e, k.filters[i]);
      FiltersTermsMember(k.filters, t);
      assert t in Terms(k) * EventTerms(e);
    } else {
      forall t ensures t !in Terms(k) {
        FiltersTermsMember(k.filters, t);
        if i :| 0 <= i < |k.filters| && t in FilterTerms(k.filters[i]) { NoTerms(k.filters[i]); }
      }
    }
  }

  /** One matching filter that lists a term is enough for the entry to go. */
  lemma InvalidatedWhenMatching(cache: Cache, k: QueryKey, e: Event, i: nat)
    requires i < |k.filters| && Matches(e, k.filters[i]) && ListsATerm(k.filters[i])
    ensures k !in Without(cache, Touched(cache, e))
  {
    var t := MatchingShares(e, k.filters[i]);
    FiltersTermsMember(k.filters, t);
    assert t in Terms(k) * EventTerms(e);
  }

  // ---------------------------------------------------------------- runs

  datatype Operation =
    | Ask(key: QueryKey, now: int, global: Option<QueryResult>, computed: QueryResult)
    | Invalidate(event: Event)
    | Reset

  ghost predicate Step(c: Cache, op: Operation, c': Cache) {
    match op
    case Ask(key, now, global, computed) => exists r :: AskStep(c, key, now, global, computed, c', r)
    case Invalidate(e) => c' == Without(c, Touched(c, e))
    case Reset => c' == map[]
  }

  ghost predicate Run(ops: seq<Operation>, states: seq<Cache>) {
    && |states| == |ops| + 1
    && forall i | 0 <= i < |ops| :: Step(states[i], ops[i], states[i + 1])
  }

  /** What an `Ask` that is no local hit stores. */
  function Fetched(op: Operation): QueryResult
    requires op.Ask?
  {
    if op.global.Some? then op.global.value else op.computed
  }

  /** An entry's result is either the one it had, or what this very step fetched for its query. */
  lemma EntryOrigin(c: Cache, op: Operation, c': Cache, k: QueryKey)
    requires Step(c, op, c') && k in c'
    ensures (k in c && c'[k].result == c[k].result) || (op.Ask? && op.key == k && c'[k].result == Fetched(op))
  {
    if op.Ask? {
      var r :| AskStep(c, op.key, op.now, op.global, op.computed, c', r);
      if op.global.None? && !LocalHit(c, op.key, op.now) {
        var stored := c[op.key := Entry(op.computed, op.now, 1, op.now)];
        if |stored| > MAX_CACHE_SIZE { CleanedSize(stored, op.now, c'); }
      }
    }
  }

  /**
   After an event has been invalidated, a cached answer to a query with a filter that matches it and
   lists a term was fetched later than the invalidation.
   */
  lemma {:induction false} NoStaleEntry(ops: seq<Operation>, states: seq<Cache>, i: nat, j: nat, k: QueryKey, n: nat)
    requires Run(ops, states) && i < j < |states| && ops[i].Invalidate?
    requires n < |k.filters| && Matches(ops[i].event, k.filters[n]) && ListsATerm(k.filters[n])
    requires k in states[j]
    ensures exists m | i < m < j :: ops[m].Ask? && ops[m].key == k && states[j][k].result == Fetched(ops[m])
    decreases j
  {
    assert Step(states[j - 1], ops[j - 1], states[j]);
    EntryOrigin(states[j - 1], ops[j - 1], states[j], k);
    if j == i + 1 {
      InvalidatedWhenMatching(states[i], k, ops[i].event, n);
    } else if k in states[j - 1] {
      NoStaleEntry(ops, states, i, j - 1, k, n);
    }
  }

  lemma WithoutSize(c: Cache, keys: set<QueryKey>)
    ensures |Without(c, keys)| <= |c|
  {
    KeysOf(c.Keys - keys, Without(c, keys));
    SubsetSize(c.Keys - keys, c.Keys);
  }

  /** Without answers of the shared cache, a run that starts empty never holds more than 100 entries. */
  lemma {:induction false} AlwaysBounded(ops: seq<Operation>, states: seq<Cache>, j: nat)
    requires Run(ops, states) && states[0] == map[] && j < |states|
    requires forall i | 0 <= i < j :: ops[i].Ask? ==> ops[i].global.None?
    ensures |states[j]| <= MAX_CACHE_SIZE
  {
    if j > 0 {
      AlwaysBounded(ops, states, j - 1);
      var c, op, c' := states[j - 1], ops[j - 1], states[j];
      assert Step(c, op, c');
      if op.Ask? {
        var r :| AskStep(c, op.key, op.now, op.global, op.computed, c', r);
        AskKeepsBoundExactly(c, op.key, op.now, op.global, op.computed, c', r);
      } else if op.Invalidate? {
        WithoutSize(c, Touched(c, op.event));
      }
    }
  }

  // ---------------------------------------------------------------- a run that goes past the bound

  /** The n-th of a list of distinct queries. */
  function NthKey(n: nat): QueryKey {
    QueryKey([], seq(n, _ => 'a'))
  }

  const NOTHING := QueryResult([], None)

  function Filled(n: nat): Cache {
    if n == 0 then map[] else Filled(n - 1)[NthKey(n - 1) := Entry(NOTHING, 0, 1, 0)]
  }

  lemma {:induction false} FilledKeys(n: nat, k: QueryKey)
    ensures k in Filled(n) <==> exists i | 0 <= i < n :: k == NthKey(i)
  {
    if n > 0 { FilledKeys(n - 1, k); }
  }

  lemma NextIsNew(n: nat)
    ensures NthKey(n) !in Filled(n)
  {
    FilledKeys(n, NthKey(n));
    forall i | 0 <= i < n ensures NthKey(i) != NthKey(n) { assert |NthKey(i).bookmark| == i && |NthKey(n).bookmark| == n; }
  }

  lemma AddedSize(c: Cache, k: QueryKey, e: Entry)
    requires k !in c
    ensures |c[k := e]| == |c| + 1
  {
    assert c[k := e].Keys == c.Keys + {k};
    KeysOf(c.Keys, c);
    KeysOf(c.Keys + {k}, c[k := e]);
  }

  lemma {:induction false} FilledSize(n: nat)
    ensures |Filled(n)| == n
  {
    if n > 0 {
      FilledSize(n - 1);
      NextIsNew(n - 1);
      AddedSize(Filled(n - 1), NthKey(n - 1), Entry(NOTHING, 0, 1, 0));
    }
  }

  /** A hundred queries answered by the database, and one more answered by the shared cache. */
  function FillingUp(): seq<Operation> {
    seq(101, i requires 0 <= i < 101 => Ask(NthKey(i), 0, if i < 100 then None else Some(NOTHING), NOTHING))
  }

  lemma FillingStep(n: nat)
    requires n <= MAX_CACHE_SIZE
    ensures Step(Filled(n), FillingUp()[n], Filled(n + 1))
  {
    NextIsNew(n);
    FilledSize(n + 1);
    assert AskStep(Filled(n), NthKey(n), 0, FillingUp()[n].global, NOTHING, Filled(n + 1), NOTHING);
  }

  /** A reachable full cache that an answer of the shared cache takes past its bound. */
  lemma SharedAnswerOverflows() returns (states: seq<Cache>)
    ensures Run(FillingUp(), states) && states[0] == map[]
    ensures |states[100]| == MAX_CACHE_SIZE && |states[101]| == MAX_CACHE_SIZE + 1
  {
    states := seq(102, i requires 0 <= i < 102 => Filled(i));
    forall i | 0 <= i < 101 ensures Step(states[i], FillingUp()[i], states[i + 1]) { FillingStep(i); }
    FilledSize(100);
    FilledSize(101);
  }
}
