/**
 A small relational language: joins over the event row, a WHERE clause kept as the flat text the
 compiler writes (conditions linked by AND and OR, with AND binding tighter), and GROUP BY / HAVING.
 */
module Sql {
  import opened Nostr
  import opened Options
  import opened Schema

  datatype TextColumn = EventId | EventPubkey | TagName(alias: nat) | TagValue(alias: nat)
  datatype IntColumn = EventKind | EventCreatedAt | CacheKind(alias: nat) | CacheCreatedAt(alias: nat)

  datatype Connective = And | Or
  datatype Link = Link(connective: Connective, condition: Condition)
  datatype Condition =
    | Always
    | Joined(alias: nat)
    | TextEq(text: TextColumn, value: string)
    | TextIn(text: TextColumn, values: seq<string>)
    | TextAfter(text: TextColumn, value: string)
    | IntIn(column: IntColumn, numbers: seq<int>)
    | IntEq(column: IntColumn, number: int)
    | AtLeast(column: IntColumn, number: int)
    | AtMost(column: IntColumn, number: int)
    | Below(column: IntColumn, number: int)
    | Clause(first: Condition, rest: seq<Link>)  // written in parentheses when nested

  datatype Source = TagsTable | CacheTable
  datatype Join = Join(source: Source, on: Condition)

  datatype Query = Query(joins: seq<Join>, where: Condition, having: Option<nat>, limit: int)

  /** A row of one of the joined tables. */
  datatype Binding = TagsBinding(row: TagRow) | CacheBinding(key: CacheKey, info: CacheInfo)
  {
    function Owner(): string { if TagsBinding? then row.eventId else key.eventId }
    function Name(): string { if TagsBinding? then row.name else key.tagType }
    function Value(): string { if TagsBinding? then row.value else key.tagValue }
  }

  /** One combination of rows: the event and a row for each joined alias. */
  datatype Row = Row(event: Event, bindings: seq<Binding>)

  function Text(c: TextColumn, row: Row): Option<string> {
    match c
    case EventId => Some(row.event.id)
    case EventPubkey => Some(row.event.pubkey)
    case TagName(a) => if a < |row.bindings| then Some(row.bindings[a].Name()) else None
    case TagValue(a) => if a < |row.bindings| then Some(row.bindings[a].Value()) else None
  }

  function Number(c: IntColumn, row: Row): Option<int> {
    match c
    case EventKind => Some(row.event.kind)
    case EventCreatedAt => Some(row.event.createdAt)
    case CacheKind(a) =>
      if a < |row.bindings| && row.bindings[a].CacheBinding? then Some(row.bindings[a].info.kind) else None
    case CacheCreatedAt(a) =>
      if a < |row.bindings| && row.bindings[a].CacheBinding? then Some(row.bindings[a].info.createdAt) else None
  }

  predicate Holds(c: Condition, row: Row)
    decreases c, 1
  {
    match c
    case Always => true
    case Joined(a) => a < |row.bindings| && row.event.id == row.bindings[a].Owner()
    case TextEq(t, v) => Text(t, row) == Some(v)
    case TextIn(t, vs) => Text(t, row).Some? && Text(t, row).value in vs
    case TextAfter(t, v) => Text(t, row).Some? && TextLess(v, Text(t, row).value)
    case IntIn(i, ns) => Number(i, row).Some? && Number(i, row).value in ns
    case IntEq(i, n) => Number(i, row) == Some(n)
    case AtLeast(i, n) => Number(i, row).Some? && Number(i, row).value >= n
    case AtMost(i, n) => Number(i, row).Some? && Number(i, row).value <= n
    case Below(i, n) => Number(i, row).Some? && Number(i, row).value < n
    case Clause(first, rest) => HoldsFrom(Holds(first, row), rest, row)
  }

  predicate LinkHolds(link: Link, row: Row)
    decreases link, 0
  {
    Holds(link.condition, row)
  }

  /** Left-to-right value of `group link link ...`: an OR closes the AND group read so far. */
  predicate HoldsFrom(group: bool, links: seq<Link>, row: Row)
    decreases links, 0
  {
    if links == [] then group
    else match links[0].connective
      case And => HoldsFrom(group && LinkHolds(links[0], row), links[1..], row)
      case Or => group || HoldsFrom(LinkHolds(links[0], row), links[1..], row)
  }

  predicate RowOf(s: Tables, source: Source, b: Binding) {
    match source
    case TagsTable => b.TagsBinding? && b.row in s.tags
    case CacheTable => b.CacheBinding? && b.key in s.cache && s.cache[b.key] == b.info
  }

  /** The joined row is produced by FROM, JOIN ... ON and WHERE. */
  ghost predicate Produces(s: Tables, q: Query, row: Row) {
    && row.event.id in s.events && s.events[row.event.id] == row.event
    && |row.bindings| == |q.joins|
    && (forall i | 0 <= i < |q.joins| ::
          RowOf(s, q.joins[i].source, row.bindings[i]) && Holds(q.joins[i].on, row))
    && Holds(q.where, row)
  }

  /** The distinct `tag_name` values in the group of one event. */
  ghost function GroupNames(s: Tables, q: Query, e: Event): set<string> {
    set r | r in s.tags && Produces(s, q, Row(e, [TagsBinding(r)])) :: r.name
  }

  /** The event is among the rows of the query before ORDER BY and LIMIT. */
  ghost predicate Selects(s: Tables, q: Query, e: Event) {
    match q.having
    case None => exists bindings: seq<Binding> :: Produces(s, q, Row(e, bindings))
    case Some(n) => GroupNames(s, q, e) != {} && |GroupNames(s, q, e)| == n
  }
}
