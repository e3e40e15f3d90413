/** Optional values, for the JavaScript fields that may be absent. */
module Options {
  datatype Option<+T> = None | Some(value: T)
}

/** Events, filters and the plain predicate that says which events a filter accepts. */
module Nostr {
  import opened Options

  datatype Event = Event(
    id: string, pubkey: string, createdAt: int, kind: int,
    tags: seq<seq<string>>, content: string, sig: string)

  /** One `#name: [values]` entry of a filter. */
  datatype TagFilter = TagFilter(name: string, values: seq<string>)

  datatype Cursor = Cursor(timestamp: int, lastId: string)

  /** An absent list and an empty list are treated alike everywhere, so both are []. */
  datatype Filter = Filter(
    ids: seq<string>, authors: seq<string>, kinds: seq<int>,
    since: Option<int>, until: Option<int>, limit: Option<int>,
    cursor: Option<Cursor>, tagFilters: seq<TagFilter>)

  /** The keys of a JavaScript object are distinct, hence so are the tag names of a filter. */
  ghost predicate ValidFilter(f: Filter) {
    forall i, j | 0 <= i < j < |f.tagFilters| :: f.tagFilters[i].name != f.tagFilters[j].name
  }

  /** JavaScript truthiness of an optional number: zero counts as absent. */
  predicate Truthy(o: Option<int>) {
    o.Some? && o.value != 0
  }

  /** The event carries a tag whose first two items are `name` and `value`. */
  predicate HasTag(e: Event, name: string, value: string) {
    exists i | 0 <= i < |e.tags| :: |e.tags[i]| >= 2 && e.tags[i][0] == name && e.tags[i][1] == value
  }

  predicate MatchesTagFilter(e: Event, t: TagFilter) {
    t.values != [] ==> exists v | v in t.values :: HasTag(e, t.name, v)
  }

  /** Everything a filter says except its tags. */
  predicate MatchesBase(e: Event, f: Filter) {
    && (f.ids != [] ==> e.id in f.ids)
    && (f.authors != [] ==> e.pubkey in f.authors)
    && (f.kinds != [] ==> e.kind in f.kinds)
    && (Truthy(f.since) ==> e.createdAt >= f.since.value)
    && (Truthy(f.until) ==> e.createdAt <= f.until.value)
  }

  predicate Matches(e: Event, f: Filter) {
    && MatchesBase(e, f)
    && forall i | 0 <= i < |f.tagFilters| :: MatchesTagFilter(e, f.tagFilters[i])
  }

  predicate MatchesAny(e: Event, filters: seq<Filter>) {
    exists i | 0 <= i < |filters| :: Matches(e, filters[i])
  }

  /** Lexicographic order of event identifiers. */
  predicate TextLess(a: string, b: string) {
    b != [] && (a == [] || a[0] < b[0] || (a[0] == b[0] && TextLess(a[1..], b[1..])))
  }

  /** The position a cursor leaves off at: newest first, then by identifier. */
  predicate AfterCursor(e: Event, f: Filter) {
    f.cursor.Some? ==>
      var c := f.cursor.value;
      e.createdAt < c.timestamp || (e.createdAt == c.timestamp && TextLess(c.lastId, e.id))
  }
}
