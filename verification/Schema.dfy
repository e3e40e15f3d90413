/** The relay's tables, and what the two tag tables must hold for the stored events. */
module Schema {
  import opened Nostr

  datatype TagRow = TagRow(eventId: string, name: string, value: string)

  /** Primary key and remaining columns of `event_tags_cache_multi`. */
  datatype CacheKey = CacheKey(eventId: string, tagType: string, tagValue: string)
  datatype CacheInfo = CacheInfo(pubkey: string, kind: int, createdAt: int)

  /** `tags` has no key, so it is a list of rows; the other two tables are keyed. */
  datatype Tables = Tables(
    events: map<string, Event>, tags: seq<TagRow>, cache: map<CacheKey, CacheInfo>)

  const EMPTY_TABLES := Tables(map[], [], map[])

  const CACHED_TAGS := ["p", "e", "a", "t", "d", "r", "L", "s", "u"]

  /** The rows one tag contributes: none without a name, an empty value without a value. */
  function RowOfTag(eventId: string, tag: seq<string>): seq<TagRow> {
    if |tag| == 0 || tag[0] == "" then []
    else [TagRow(eventId, tag[0], if |tag| >= 2 then tag[1] else "")]
  }

  function RowsOfTags(eventId: string, tags: seq<seq<string>>): seq<TagRow> {
    if tags == [] then []
    else RowsOfTags(eventId, tags[..|tags| - 1]) + RowOfTag(eventId, tags[|tags| - 1])
  }

  function TagRows(e: Event): seq<TagRow> {
    RowsOfTags(e.id, e.tags)
  }

  /** The name and value under which some tag of the event is indexed. */
  predicate StoredTag(e: Event, name: string, value: string) {
    exists i | 0 <= i < |e.tags| ::
      && |e.tags[i]| > 0 && e.tags[i][0] == name != ""
      && value == if |e.tags[i]| >= 2 then e.tags[i][1] else ""
  }

  function InfoOf(e: Event): CacheInfo {
    CacheInfo(e.pubkey, e.kind, e.createdAt)
  }

  function KeyOf(r: TagRow): CacheKey {
    CacheKey(r.eventId, r.name, r.value)
  }

  ghost predicate TagsProjected(s: Tables) {
    forall r: TagRow ::
      multiset(s.tags)[r] == if r.eventId in s.events then multiset(TagRows(s.events[r.eventId]))[r] else 0
  }

  /** The cache holds this key exactly when a stored event projects to it. */
  ghost predicate Projects(s: Tables, k: CacheKey) {
    && k.eventId in s.events
    && k.tagType in CACHED_TAGS
    && TagRow(k.eventId, k.tagType, k.tagValue) in TagRows(s.events[k.eventId])
  }

  ghost predicate CacheProjected(s: Tables) {
    && (forall k: CacheKey :: k in s.cache <==> Projects(s, k))
    && (forall k: CacheKey | k in s.cache && k.eventId in s.events :: s.cache[k] == InfoOf(s.events[k.eventId]))
  }

  /** Both tag tables are exactly the projection of the stored events. */
  ghost predicate Indexed(s: Tables) {
    && (forall id | id in s.events :: s.events[id].id == id)
    && TagsProjected(s)
    && CacheProjected(s)
  }

  lemma {:induction false} RowsOfTagsMember(eventId: string, tags: seq<seq<string>>, r: TagRow)
    ensures r in RowsOfTags(eventId, tags) <==> exists i | 0 <= i < |tags| :: r in RowOfTag(eventId, tags[i])
  {
    if tags != [] {
      var front := tags[..|tags| - 1];
      RowsOfTagsMember(eventId, front, r);
      assert forall i | 0 <= i < |front| :: front[i] == tags[i];
      if i :| 0 <= i < |tags| && r in RowOfTag(eventId, tags[i]) {
        assert i < |front| ==> r in RowOfTag(eventId, front[i]);
      }
    }
  }

  /** A row is inserted for an event exactly when the event stores that name and value. */
  lemma TagRowsMember(e: Event, r: TagRow)
    ensures r in TagRows(e) <==> r.eventId == e.id && StoredTag(e, r.name, r.value)
  {
    RowsOfTagsMember(e.id, e.tags, r);
    if i :| 0 <= i < |e.tags| && r in RowOfTag(e.id, e.tags[i]) {
      assert r == RowOfTag(e.id, e.tags[i])[0];
    }
    if r.eventId == e.id && StoredTag(e, r.name, r.value) {
      var i :| 0 <= i < |e.tags| && |e.tags[i]| > 0 && e.tags[i][0] == r.name != ""
               && r.value == if |e.tags[i]| >= 2 then e.tags[i][1] else "";
      assert RowOfTag(e.id, e.tags[i]) == [r];
    }
  }
}
