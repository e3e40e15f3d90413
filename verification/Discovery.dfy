/** Finding new candidates: widening through the geohash tiers with shrinking limits. */
module Discovery {
  import opened Options
  import Dating
  import Membership

  /** A row of the discovery index joined with its member's status; "" is a location not yet set. */
  datatype IndexRow = IndexRow(
    member: Dating.Member, geohash: string, age: Option<int>, gender: Option<string>, visible: bool, active: bool)

  /** `genders` of None is no preference. */
  datatype Viewer = Viewer(member: Dating.Member, geohash: string, ageMin: int, ageMax: int, maxDistanceKm: int, genders: Option<seq<string>>)

  datatype Found = Found(member: Dating.Member, precision: nat)

  /** The precisions of the tiers, finest first. */
  const GEO_TIERS: seq<nat> := [5, 4, 3]

  /** All three cells of a member are prefixes of one geohash, which may itself be shorter. */
  function Cell(geohash: string, precision: nat): string {
    if |geohash| < precision then geohash else geohash[..precision]
  }

  function MaxPrecision(v: Viewer): nat {
    if v.maxDistanceKm <= 10 then 5 else if v.maxDistanceKm <= 50 then 4 else 3
  }

  /** Everything the query asks of a row except its cell. */
  predicate Eligible(r: IndexRow, v: Viewer, s: Dating.Tables, now: int) {
    && r.visible && r.active
    && r.age.Some? && v.ageMin <= r.age.value <= v.ageMax
    && (v.genders.Some? ==> r.gender.Some? && r.gender.value in v.genders.value)
    && Dating.Grantable(s, v.member, r.member, now)
  }

  predicate Nearby(r: IndexRow, v: Viewer, precision: nat) {
    r.geohash != "" && Cell(r.geohash, precision) == Cell(v.geohash, precision)
  }

  function Selected(v: Viewer, s: Dating.Tables, now: int, precision: nat): IndexRow -> bool {
    (r: IndexRow) => Nearby(r, v, precision) && Eligible(r, v, s, now)
  }

  /** The first `limit` selected rows, the index being listed in its one order. */
  function Top(index: seq<IndexRow>, p: IndexRow -> bool, limit: nat): seq<IndexRow> {
    if index == [] || limit == 0 then []
    else if p(index[0]) then [index[0]] + Top(index[1..], p, limit - 1)
    else Top(index[1..], p, limit)
  }

  /** Coarser cells are prefixes of finer ones. */
  lemma CellNests(g: string, h: string, fine: nat, coarse: nat)
    requires coarse <= fine && Cell(g, fine) == Cell(h, fine)
    ensures Cell(g, coarse) == Cell(h, coarse)
  {
    assert Cell(Cell(g, fine), coarse) == Cell(g, coarse);
    assert Cell(Cell(h, fine), coarse) == Cell(h, coarse);
  }

  lemma {:induction false} TopSelected(index: seq<IndexRow>, p: IndexRow -> bool, limit: nat)
    ensures |Top(index, p, limit)| <= limit
    ensures forall r | r in Top(index, p, limit) :: r in index && p(r)
    ensures |Top(index, p, limit)| < limit ==> forall r | r in index && p(r) :: r in Top(index, p, limit)
  {
    if index != [] && limit > 0 {
      TopSelected(index[1..], p, if p(index[0]) then limit - 1 else limit);
    }
  }

  /** A row near the top of a wider selection is near the top of every narrower one that selects it. */
  lemma {:induction false} TopNarrows(index: seq<IndexRow>, wide: IndexRow -> bool, narrow: IndexRow -> bool, few: nat, many: nat, x: IndexRow)
    requires few <= many && forall r | narrow(r) :: wide(r)
    requires x in Top(index, wide, few) && narrow(x)
    ensures x in Top(index, narrow, many)
  {
    var r, rest := index[0], index[1..];
    if wide(r) {
      if x in Top(rest, wide, few - 1) {
        TopNarrows(rest, wide, narrow, few - 1, if narrow(r) then many - 1 else many, x);
      }
    } else {
      TopNarrows(rest, wide, narrow, few, many, x);
    }
  }

  /** What precedes a top row and is selected is a top row too. */
  lemma {:induction false} TopIsBest(index: seq<IndexRow>, p: IndexRow -> bool, limit: nat, i: nat, j: nat)
    requires i < j < |index| && p(index[i]) && index[j] in Top(index, p, limit)
    requires forall a, b | 0 <= a < b < |index| :: index[a] != index[b]
    ensures index[i] in Top(index, p, limit)
  {
    var r, rest := index[0], index[1..];
    TopSelected(index, p, limit);
    if i > 0 {
      assert rest[i - 1] == index[i] && rest[j - 1] == index[j];
      TopIsBest(rest, p, if p(r) then limit - 1 else limit, i - 1, j - 1);
    }
  }

  // ---------------------------------------------------------------- what the search returns

  ghost predicate DistinctMembers(index: seq<IndexRow>) {
    forall i, j | 0 <= i < j < |index| :: index[i].member != index[j].member
  }

  /** The row is eligible, within reach, and shares no finer tier with the viewer than its label says. */
  ghost predicate Justified(f: Found, r: IndexRow, v: Viewer, s: Dating.Tables, now: int) {
    && r.member == f.member && f.precision in GEO_TIERS && f.precision >= MaxPrecision(v)
    && Selected(v, s, now, f.precision)(r)
    && forall q | q in GEO_TIERS && q > f.precision :: !Nearby(r, v, q)
  }

  ghost predicate FromIndex(f: Found, index: seq<IndexRow>, v: Viewer, s: Dating.Tables, now: int) {
    exists r | r in index :: Justified(f, r, v, s, now)
  }

  ghost predicate AllJustified(found: seq<Found>, index: seq<IndexRow>, v: Viewer, s: Dating.Tables, now: int) {
    forall i | 0 <= i < |found| :: FromIndex(found[i], index, v, s, now)
  }

  function Members(found: seq<Found>): set<Dating.Member> {
    set i | 0 <= i < |found| :: found[i].member
  }

  ghost predicate DistinctFound(found: seq<Found>) {
    forall i, j | 0 <= i < j < |found| :: found[i].member != found[j].member
  }

  /** The best `limit` rows of a tier are among the members already dealt with. */
  ghost predicate Exhausted(index: seq<IndexRow>, v: Viewer, s: Dating.Tables, now: int, precision: nat, limit: nat, done: set<Dating.Member>) {
    forall r | r in Top(index, Selected(v, s, now, precision), limit) :: r.member in done
  }

  lemma ExhaustedLess(index: seq<IndexRow>, v: Viewer, s: Dating.Tables, now: int, precision: nat, few: nat, many: nat, done: set<Dating.Member>)
    requires few <= many && Exhausted(index, v, s, now, precision, many, done)
    ensures Exhausted(index, v, s, now, precision, few, done)
  {
    var p := Selected(v, s, now, precision);
    TopSelected(index, p, few);
    forall r | r in Top(index, p, few) ensures r.member in done {
      TopNarrows(index, p, p, few, many, r);
    }
  }

  /** A row that a wider tier still yields was not in reach of any finer tier searched before. */
  lemma NotFiner(index: seq<IndexRow>, v: Viewer, s: Dating.Tables, now: int, fine: nat, coarse: nat, limit: nat, done: set<Dating.Member>, r: IndexRow)
    requires coarse <= fine && Exhausted(index, v, s, now, fine, limit, done)
    requires r in Top(index, Selected(v, s, now, coarse), limit) && r.member !in done
    ensures !Nearby(r, v, fine)
  {
    var wide, narrow := Selected(v, s, now, coarse), Selected(v, s, now, fine);
    TopSelected(index, wide, limit);
    if Nearby(r, v, fine) {
      forall x: IndexRow | narrow(x) ensures wide(x) { CellNests(x.geohash, v.geohash, fine, coarse); }
      TopNarrows(index, wide, narrow, limit, limit, r);
    }
  }

  /** All tiers finer than `precision` have given up their best `limit` rows. */
  ghost predicate Searched(index: seq<IndexRow>, v: Viewer, s: Dating.Tables, now: int, tiers: seq<nat>, limit: nat, done: set<Dating.Member>) {
    forall q | q in tiers :: Exhausted(index, v, s, now, q, limit, done)
  }

  lemma SearchedMore(index: seq<IndexRow>, v: Viewer, s: Dating.Tables, now: int, tiers: seq<nat>, few: nat, many: nat, done: set<Dating.Member>, more: set<Dating.Member>)
    requires few <= many && done <= more && Searched(index, v, s, now, tiers, many, done)
    ensures Searched(index, v, s, now, tiers, few, more)
  {
    forall q | q in tiers ensures Exhausted(index, v, s, now, q, few, more) {
      ExhaustedLess(index, v, s, now, q, few, many, done);
    }
  }

  function RowMembers(rows: seq<IndexRow>): set<Dating.Member> {
    set r | r in rows :: r.member
  }

  method SelectTop(index: seq<IndexRow>, p: IndexRow -> bool, limit: nat) returns (rows: seq<IndexRow>)
    ensures rows == Top(index, p, limit)
  {
    rows := [];
    var i := 0;
    while i < |index| && |rows| < limit
      invariant 0 <= i <= |index| && |rows| <= limit
      invariant rows + Top(index[i..], p, limit - |rows|) == Top(index, p, limit)
      decreases |index| - i
    {
      if p(index[i]) {
        rows := rows + [index[i]];
      }
      assert index[i..][1..] == index[i + 1..];
      i := i + 1;
    }
  }

  lemma MembersSnoc(found: seq<Found>, f: Found)
    ensures Members(found + [f]) == Members(found) + {f.member}
  {
    var more := found + [f];
    forall i | 0 <= i < |found| ensures found[i].member in Members(more) { assert more[i] == found[i]; }
    assert more[|found|] == f;
    assert forall i | 0 <= i < |more| :: i < |found| ==> more[i] == found[i];
  }

  /** What a tier adds comes from its rows, carries its label, and was not known. */
  ghost predicate FreshFrom(rows: seq<IndexRow>, start: seq<Found>, found: seq<Found>, known: set<Dating.Member>, precision: nat) {
    && start <= found
    && forall k | |start| <= k < |found| ::
         found[k].precision == precision && exists r | r in rows :: r.member == found[k].member && r.member !in known
  }

  lemma FreshRow(rows: seq<IndexRow>, start: seq<Found>, found: seq<Found>, known: set<Dating.Member>, precision: nat, k: nat) returns (r: IndexRow)
    requires FreshFrom(rows, start, found, known, precision) && |start| <= k < |found|
    ensures r in rows && found[k] == Found(r.member, precision) && r.member !in known
  {
    assert found[k].precision == precision;
    r :| r in rows && r.member == found[k].member && r.member !in known;
  }

  lemma FoundMore(rows: seq<IndexRow>, start: seq<Found>, found: seq<Found>, known: set<Dating.Member>, precision: nat, raw: IndexRow)
    requires FreshFrom(rows, start, found, known, precision) && DistinctFound(found)
    requires raw in rows && raw.member !in known + Members(found)
    ensures var more := found + [Found(raw.member, precision)];
            FreshFrom(rows, start, more, known, precision) && DistinctFound(more) && Members(more) == Members(found) + {raw.member}
  {
    var more := found + [Found(raw.member, precision)];
    MembersSnoc(found, Found(raw.member, precision));
    forall i | 0 <= i < |found| ensures more[i] == found[i] && found[i].member != raw.member {
      assert found[i].member in Members(found);
    }
    forall k | |start| <= k < |more|
      ensures more[k].precision == precision && exists r | r in rows :: r.member == more[k].member && r.member !in known
    {
      if k < |found| {
        var r := FreshRow(rows, start, found, known, precision, k);
      }
    }
  }

  lemma RowMembersSnoc(rows: seq<IndexRow>, n: nat)
    requires n < |rows|
    ensures RowMembers(rows[..n + 1]) == RowMembers(rows[..n]) + {rows[n].member}
  {
    assert rows[..n + 1] == rows[..n] + [rows[n]];
  }

  /** One tier: takes the rows not met before, and labels them with the tier. */
  method CollectRows(rows: seq<IndexRow>, precision: nat, want: nat, start: seq<Found>, known: set<Dating.Member>)
    returns (found: seq<Found>, excluded: set<Dating.Member>)
    requires |start| <= want && |rows| <= want - |start|
    requires Members(start) <= known && DistinctFound(start)
    ensures FreshFrom(rows, start, found, known, precision) && |found| <= want && DistinctFound(found)
    ensures excluded == known + RowMembers(rows)
    ensures excluded == known + Members(found)
  {
    found, excluded := start, known;
    var n := 0;
    while n < |rows|
      invariant 0 <= n <= |rows| && |found| <= |start| + n && DistinctFound(found)
      invariant excluded == known + RowMembers(rows[..n])
      invariant excluded == known + Members(found)
      invariant FreshFrom(rows, start, found, known, precision)
    {
      var raw := rows[n];
      RowMembersSnoc(rows, n);
      if raw.member !in excluded {
        FoundMore(rows, start, found, known, precision, raw);
        found := found + [Found(raw.member, precision)];
        excluded := excluded + {raw.member};
      }
      n := n + 1;
      if |found| >= want {
        break;
      }
    }
    assert rows[..n] == rows;
  }

  /** The tier gave its best rows up to some limit, and every member it labels is among them. */
  ghost predicate TierDone(index: seq<IndexRow>, v: Viewer, s: Dating.Tables, now: int, q: nat, found: seq<Found>, done: set<Dating.Member>) {
    exists limit: nat :: Exhausted(index, v, s, now, q, limit, done) && LabelledFrom(index, v, s, now, q, found, limit)
  }

  ghost predicate LabelledFrom(index: seq<IndexRow>, v: Viewer, s: Dating.Tables, now: int, q: nat, found: seq<Found>, limit: nat) {
    forall k | 0 <= k < |found| && found[k].precision == q ::
      exists r | r in Top(index, Selected(v, s, now, q), limit) :: r.member == found[k].member
  }

  lemma TierStaysDone(index: seq<IndexRow>, v: Viewer, s: Dating.Tables, now: int, q: nat, found: seq<Found>, more: seq<Found>, done: set<Dating.Member>, done': set<Dating.Member>)
    requires TierDone(index, v, s, now, q, found, done) && found <= more && done <= done'
    requires forall k | |found| <= k < |more| :: more[k].precision != q
    ensures TierDone(index, v, s, now, q, more, done')
  {
    var limit: nat :| Exhausted(index, v, s, now, q, limit, done) && LabelledFrom(index, v, s, now, q, found, limit);
    assert Exhausted(index, v, s, now, q, limit, done') && LabelledFrom(index, v, s, now, q, more, limit);
  }

  /** No eligible member of a tier was passed over for one ranked lower in it. */
  ghost predicate NobodyPassedOver(found: seq<Found>, index: seq<IndexRow>, v: Viewer, s: Dating.Tables, now: int) {
    forall i, j, q | 0 <= i < j < |index| && q in GEO_TIERS && Selected(v, s, now, q)(index[i]) && Found(index[j].member, q) in found ::
      index[i].member in Members(found)
  }

  lemma DoneMeansNobodyPassedOver(index: seq<IndexRow>, v: Viewer, s: Dating.Tables, now: int, i: nat, j: nat, q: nat, found: seq<Found>)
    requires DistinctMembers(index) && i < j < |index| && Selected(v, s, now, q)(index[i])
    requires Found(index[j].member, q) in found
    requires TierDone(index, v, s, now, q, found, {v.member} + Members(found))
    ensures index[i].member in Members(found)
  {
    var done := {v.member} + Members(found);
    var p := Selected(v, s, now, q);
    var limit: nat :| Exhausted(index, v, s, now, q, limit, done) && LabelledFrom(index, v, s, now, q, found, limit);
    var k :| 0 <= k < |found| && found[k] == Found(index[j].member, q);
    var r :| r in Top(index, p, limit) && r.member == found[k].member;
    TopSelected(index, p, limit);
    var m :| 0 <= m < |index| && index[m] == r;
    assert m == j;
    TopIsBest(index, p, limit, i, j);
  }

  lemma AllDoneMeansNobodyPassedOver(index: seq<IndexRow>, v: Viewer, s: Dating.Tables, now: int, tiers: seq<nat>, found: seq<Found>)
    requires DistinctMembers(index) && forall k | 0 <= k < |found| :: found[k].precision in tiers
    requires forall q | q in tiers :: TierDone(index, v, s, now, q, found, {v.member} + Members(found))
    ensures NobodyPassedOver(found, index, v, s, now)
  {
    forall i, j, q | 0 <= i < j < |index| && q in GEO_TIERS && Selected(v, s, now, q)(index[i]) && Found(index[j].member, q) in found
      ensures index[i].member in Members(found)
    {
      DoneMeansNobodyPassedOver(index, v, s, now, i, j, q, found);
    }
  }

  lemma NewlyJustified(index: seq<IndexRow>, v: Viewer, s: Dating.Tables, now: int, i: nat, limit: nat, done: set<Dating.Member>, r: IndexRow)
    requires i < |GEO_TIERS| && GEO_TIERS[i] >= MaxPrecision(v) && Searched(index, v, s, now, GEO_TIERS[..i], limit, done)
    requires r in Top(index, Selected(v, s, now, GEO_TIERS[i]), limit) && r.member !in done
    ensures r in index && Justified(Found(r.member, GEO_TIERS[i]), r, v, s, now)
  {
    TopSelected(index, Selected(v, s, now, GEO_TIERS[i]), limit);
    forall q | q in GEO_TIERS && q > GEO_TIERS[i] ensures !Nearby(r, v, q) {
      assert q in GEO_TIERS[..i];
      NotFiner(index, v, s, now, q, GEO_TIERS[i], limit, done, r);
    }
  }

  lemma NobodyThere(index: seq<IndexRow>, v: Viewer, s: Dating.Tables, now: int, q: nat, limit: nat)
    requires Exhausted(index, v, s, now, q, limit, {v.member}) && limit > 0
    ensures forall r | r in index :: !Selected(v, s, now, q)(r)
  {
    var p := Selected(v, s, now, q);
    TopSelected(index, p, limit);
    if Top(index, p, limit) != [] {
      assert Top(index, p, limit)[0] in Top(index, p, limit);
    }
  }

  lemma TierJustified(index: seq<IndexRow>, v: Viewer, s: Dating.Tables, now: int, i: nat, limit: nat, rows: seq<IndexRow>, start: seq<Found>, found: seq<Found>, known: set<Dating.Member>)
    requires i < |GEO_TIERS| && GEO_TIERS[i] >= MaxPrecision(v) && Searched(index, v, s, now, GEO_TIERS[..i], limit, known)
    requires rows == Top(index, Selected(v, s, now, GEO_TIERS[i]), limit)
    requires FreshFrom(rows, start, found, known, GEO_TIERS[i])
    requires AllJustified(start, index, v, s, now)
    ensures AllJustified(found, index, v, s, now)
  {
    forall k | 0 <= k < |found| ensures FromIndex(found[k], index, v, s, now) {
      if k < |start| {
        assert found[k] == start[k];
      } else {
        var r := FreshRow(rows, start, found, known, GEO_TIERS[i], k);
        NewlyJustified(index, v, s, now, i, limit, known, r);
        assert r in index && Justified(found[k], r, v, s, now);
      }
    }
  }

  lemma TierNowDone(index: seq<IndexRow>, v: Viewer, s: Dating.Tables, now: int, q: nat, limit: nat, rows: seq<IndexRow>, start: seq<Found>, found: seq<Found>, known: set<Dating.Member>, done: set<Dating.Member>)
    requires rows == Top(index, Selected(v, s, now, q), limit) && FreshFrom(rows, start, found, known, q)
    requires forall k | 0 <= k < |start| :: start[k].precision != q
    requires Exhausted(index, v, s, now, q, limit, done)
    ensures TierDone(index, v, s, now, q, found, done)
  {
    assert forall k | 0 <= k < |start| :: found[k] == start[k];
    forall k | 0 <= k < |found| && found[k].precision == q ensures exists r | r in rows :: r.member == found[k].member { }
    assert LabelledFrom(index, v, s, now, q, found, limit);
  }

  lemma Labels(start: seq<Found>, found: seq<Found>, rows: seq<IndexRow>, known: set<Dating.Member>, i: nat)
    requires i < |GEO_TIERS| && FreshFrom(rows, start, found, known, GEO_TIERS[i])
    requires forall k | 0 <= k < |start| :: start[k].precision in GEO_TIERS[..i]
    ensures forall k | 0 <= k < |found| :: found[k].precision in GEO_TIERS[..i + 1]
    ensures GEO_TIERS[i] !in GEO_TIERS[..i] && GEO_TIERS[..i + 1] == GEO_TIERS[..i] + [GEO_TIERS[i]]
  {
    assert GEO_TIERS[..i + 1] == GEO_TIERS[..i] + [GEO_TIERS[i]];
    assert forall k | 0 <= k < |start| :: found[k] == start[k];
  }

  lemma TiersStayDone(index: seq<IndexRow>, v: Viewer, s: Dating.Tables, now: int, tiers: seq<nat>, q: nat, rows: seq<IndexRow>, start: seq<Found>, found: seq<Found>, known: set<Dating.Member>, done: set<Dating.Member>)
    requires q !in tiers && FreshFrom(rows, start, found, known, q) && known <= done
    requires forall t | t in tiers :: TierDone(index, v, s, now, t, start, known)
    ensures forall t | t in tiers :: TierDone(index, v, s, now, t, found, done)
  {
    forall t | t in tiers ensures TierDone(index, v, s, now, t, found, done) {
      TierStaysDone(index, v, s, now, t, start, found, known, done);
    }
  }

  lemma SearchedSnoc(index: seq<IndexRow>, v: Viewer, s: Dating.Tables, now: int, tiers: seq<nat>, q: nat, few: nat, many: nat, known: set<Dating.Member>, done: set<Dating.Member>)
    requires few <= many && known <= done && Searched(index, v, s, now, tiers, many, known)
    requires Exhausted(index, v, s, now, q, many, done)
    ensures Searched(index, v, s, now, tiers + [q], few, done)
  {
    SearchedMore(index, v, s, now, tiers, few, many, known, done);
    ExhaustedLess(index, v, s, now, q, few, many, done);
  }

  lemma AfterTier(index: seq<IndexRow>, v: Viewer, s: Dating.Tables, now: int, i: nat, limit: nat, few: nat, rows: seq<IndexRow>, start: seq<Found>, found: seq<Found>, known: set<Dating.Member>, done: set<Dating.Member>)
    requires i < |GEO_TIERS| && few <= limit && known <= done
    requires Searched(index, v, s, now, GEO_TIERS[..i], limit, known)
    requires rows == Top(index, Selected(v, s, now, GEO_TIERS[i]), limit) && RowMembers(rows) <= done
    requires FreshFrom(rows, start, found, known, GEO_TIERS[i])
    requires forall k | 0 <= k < |start| :: start[k].precision in GEO_TIERS[..i]
    requires forall q | q in GEO_TIERS[..i] :: TierDone(index, v, s, now, q, start, known)
    ensures forall k | 0 <= k < |found| :: found[k].precision in GEO_TIERS[..i + 1]
    ensures Searched(index, v, s, now, GEO_TIERS[..i + 1], few, done)
    ensures forall q | q in GEO_TIERS[..i + 1] :: TierDone(index, v, s, now, q, found, done)
  {
    var q := GEO_TIERS[i];
    Labels(start, found, rows, known, i);
    forall r | r in rows ensures r.member in done { assert r.member in RowMembers(rows); }
    SearchedSnoc(index, v, s, now, GEO_TIERS[..i], q, few, limit, known, done);
    TiersStayDone(index, v, s, now, GEO_TIERS[..i], q, rows, start, found, known, done);
    TierNowDone(index, v, s, now, q, limit, rows, start, found, known, done);
  }

  method SearchTier(index: seq<IndexRow>, s: Dating.Tables, v: Viewer, want: nat, now: int, i: nat, start: seq<Found>, known: set<Dating.Member>)
    returns (found: seq<Found>, excluded: set<Dating.Member>, ghost rows: seq<IndexRow>)
    requires i < |GEO_TIERS| && |start| < want && DistinctFound(start) && known == {v.member} + Members(start)
    ensures rows == Top(index, Selected(v, s, now, GEO_TIERS[i]), want - |start|)
    ensures FreshFrom(rows, start, found, known, GEO_TIERS[i])
    ensures |found| <= want && DistinctFound(found) && excluded == {v.member} + Members(found)
    ensures RowMembers(rows) <= excluded
  {
    var limit := want - |start|;
    var selected := SelectTop(index, Selected(v, s, now, GEO_TIERS[i]), limit);
    TopSelected(index, Selected(v, s, now, GEO_TIERS[i]), limit);
    found, excluded := CollectRows(selected, GEO_TIERS[i], want, start, known);
    rows := selected;
  }

  /** Where the search stands after its first `i` tiers. */
  ghost predicate Progress(index: seq<IndexRow>, v: Viewer, s: Dating.Tables, now: int, i: nat, left: nat, found: seq<Found>, excluded: set<Dating.Member>)
    requires i <= |GEO_TIERS|
  {
    && AllJustified(found, index, v, s, now)
    && (forall k | 0 <= k < |found| :: found[k].precision in GEO_TIERS[..i])
    && Searched(index, v, s, now, GEO_TIERS[..i], left, excluded)
    && forall q | q in GEO_TIERS[..i] :: TierDone(index, v, s, now, q, found, excluded)
  }

  lemma ProgressStep(index: seq<IndexRow>, v: Viewer, s: Dating.Tables, now: int, i: nat, limit: nat, left: nat, rows: seq<IndexRow>, start: seq<Found>, found: seq<Found>, known: set<Dating.Member>, excluded: set<Dating.Member>)
    requires i < |GEO_TIERS| && GEO_TIERS[i] >= MaxPrecision(v) && left <= limit && known <= excluded
    requires Progress(index, v, s, now, i, limit, start, known)
    requires rows == Top(index, Selected(v, s, now, GEO_TIERS[i]), limit) && RowMembers(rows) <= excluded
    requires FreshFrom(rows, start, found, known, GEO_TIERS[i])
    ensures Progress(index, v, s, now, i + 1, left, found, excluded)
  {
    TierJustified(index, v, s, now, i, limit, rows, start, found, known);
    AfterTier(index, v, s, now, i, limit, left, rows, start, found, known, excluded);
  }

  lemma Finished(index: seq<IndexRow>, v: Viewer, s: Dating.Tables, now: int, i: nat, want: nat, found: seq<Found>)
    requires DistinctMembers(index) && i <= |GEO_TIERS| && |found| <= want
    requires Progress(index, v, s, now, i, want - |found|, found, {v.member} + Members(found))
    requires i == |GEO_TIERS| || GEO_TIERS[i] < MaxPrecision(v) || |found| >= want
    ensures NobodyPassedOver(found, index, v, s, now)
    ensures found == [] && want > 0 ==> forall r | r in index :: !Selected(v, s, now, MaxPrecision(v))(r)
  {
    AllDoneMeansNobodyPassedOver(index, v, s, now, GEO_TIERS[..i], found);
    if found == [] && want > 0 {
      var n := 5 - MaxPrecision(v);
      assert n < i && GEO_TIERS[..i][n] == MaxPrecision(v);
      assert {v.member} + Members(found) == {v.member};
      NobodyThere(index, v, s, now, MaxPrecision(v), want);
    }
  }

  /**
   One tier after another, each query limited to what is still wanted, never excluding what was already
   collected: the result is still distinct, eligible, and labelled with the finest shared tier.
   */
  method GenerateGrants(index: seq<IndexRow>, s: Dating.Tables, v: Viewer, want: nat, now: int) returns (found: seq<Found>)
    requires DistinctMembers(index)
    ensures |found| <= want && DistinctFound(found)
    ensures AllJustified(found, index, v, s, now)
    ensures NobodyPassedOver(found, index, v, s, now)
    ensures found == [] && want > 0 ==> forall r | r in index :: !Selected(v, s, now, MaxPrecision(v))(r)
  {
    found := [];
    var excluded := {v.member};
    var i := 0;
    while i < |GEO_TIERS|
      invariant 0 <= i <= |GEO_TIERS| && |found| <= want && DistinctFound(found)
      invariant excluded == {v.member} + Members(found)
      invariant Progress(index, v, s, now, i, want - |found|, found, excluded)
      decreases |GEO_TIERS| - i
    {
      if |found| >= want {
        break;
      }
      if GEO_TIERS[i] < MaxPrecision(v) {
        break;
      }
      ghost var start, known, rows := found, excluded, [];
      found, excluded, rows := SearchTier(index, s, v, want, now, i, found, excluded);
      ProgressStep(index, v, s, now, i, want - |start|, want - |found|, rows, start, found, known, excluded);
      i := i + 1;
    }
    Finished(index, v, s, now, i, want, found);
  }

  function MemberList(found: seq<Found>): seq<Dating.Member> {
    seq(|found|, i requires 0 <= i < |found| => found[i].member)
  }

  /** What the search finds may be granted: the step of the dating protocol is enabled. */
  lemma FoundMayBeGranted(found: seq<Found>, index: seq<IndexRow>, v: Viewer, s: Dating.Tables, now: int)
    requires AllJustified(found, index, v, s, now)
    ensures Dating.Enabled(s, Dating.IssueGrants(v.member, MemberList(found), now))
  {
    forall c | c in MemberList(found) ensures Dating.Grantable(s, v.member, c, now) {
      var i :| 0 <= i < |found| && MemberList(found)[i] == c;
      assert FromIndex(found[i], index, v, s, now);
      var r :| r in index && Justified(found[i], r, v, s, now);
    }
  }

  /** The row the query reads for a member: the index joined with the member's status. */
  ghost predicate RowFrom(r: IndexRow, t: Membership.Tables) {
    && r.member in t.index && r.member in t.members
    && r.visible == t.index[r.member].visible && r.active == t.members[r.member].Active?
    && r.age == t.index[r.member].content.age && r.gender == t.index[r.member].content.gender
    && r.geohash == t.index[r.member].geohash
  }

  /** Suits what the viewer asked for, going by the profile itself. */
  predicate Suits(p: Membership.Profile, v: Viewer) {
    && p.content.age.Some? && v.ageMin <= p.content.age.value <= v.ageMax
    && (v.genders.Some? ==> p.content.gender.Some? && p.content.gender.value in v.genders.value)
  }

  /**
   End to end: over every run of profile requests, whoever a search finds is an active member with a
   discoverable profile, and it is the profile's own age and gender that suit the viewer.
   */
  lemma FoundAreDiscoverable(ops: seq<Membership.Operation>, found: seq<Found>, index: seq<IndexRow>, v: Viewer, s: Dating.Tables, now: int, i: nat)
    requires forall r | r in index :: RowFrom(r, Membership.Run(ops))
    requires AllJustified(found, index, v, s, now) && i < |found|
    ensures var t := Membership.Run(ops);
            Membership.Discoverable(t, found[i].member) && Suits(t.profiles[found[i].member], v)
  {
    Membership.VisibleMeansDiscoverable(ops);
    assert FromIndex(found[i], index, v, s, now);
    var r :| r in index && Justified(found[i], r, v, s, now);
    assert RowFrom(r, Membership.Run(ops));
  }

  /** Searches, and stores a grant and a seen row for everyone found. */
  method GrantCandidates(store: Dating.DatingStore, index: seq<IndexRow>, v: Viewer, want: nat, now: int) returns (found: seq<Found>)
    requires DistinctMembers(index)
    modifies store
    ensures |found| <= want && DistinctFound(found)
    ensures AllJustified(found, index, v, old(store.Current()), now)
    ensures Dating.Enabled(old(store.Current()), Dating.IssueGrants(v.member, MemberList(found), now))
    ensures store.Current() == Dating.Step(old(store.Current()), Dating.IssueGrants(v.member, MemberList(found), now))
  {
    ghost var s := store.Current();
    found := GenerateGrants(index, store.Current(), v, want, now);
    FoundMayBeGranted(found, index, v, s, now);
    if |found| > 0 {
      store.PersistGrants(v.member, MemberList(found), now);
    } else {
      assert MemberList(found) == [] && Dating.Elements([]) == {};
      assert Dating.GrantsTo(v.member, {}, now) == map[] && Dating.SeenBy(v.member, {}, now) == map[];
    }
  }
}
