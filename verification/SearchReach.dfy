/** Whom a search finds and whom it may miss, told from the rows of the index and the viewer's preferences. */
module SearchReach {
  import opened Options
  import opened Discovery
  import Dating

  /** A location as far as the given number of letters. */
  function Area(geohash: string, letters: nat): string {
    if |geohash| <= letters then geohash else geohash[..letters]
  }

  /** Both are somewhere, and in the same area. */
  predicate SameArea(r: IndexRow, v: Viewer, letters: nat) {
    r.geohash != "" && v.geohash != "" && Area(r.geohash, letters) == Area(v.geohash, letters)
  }

  /** Within the viewer's distance: five letters up to 10 km, four up to 50 km, and three beyond. */
  predicate WithinReach(r: IndexRow, v: Viewer) {
    if v.maxDistanceKm <= 10 then SameArea(r, v, 5)
    else if v.maxDistanceKm <= 50 then SameArea(r, v, 4)
    else SameArea(r, v, 3)
  }

  /** Somebody else, visible and active, of a suitable age and gender, not seen before, not blocked, and without a live grant. */
  predicate Suitable(r: IndexRow, v: Viewer, s: Dating.Tables, now: int) {
    && r.member != v.member && r.visible && r.active
    && r.age != None && v.ageMin <= r.age.value <= v.ageMax
    && (v.genders == None || (r.gender != None && r.gender.value in v.genders.value))
    && (v.member, r.member) !in s.seen
    && (v.member, r.member) !in s.blocks && (r.member, v.member) !in s.blocks
    && ((v.member, r.member) in s.grants ==> s.grants[(v.member, r.member)].expiresAt <= now)
  }

  lemma SelectedMeans(r: IndexRow, v: Viewer, s: Dating.Tables, now: int, letters: nat)
    requires letters > 0
    ensures Selected(v, s, now, letters)(r) <==> SameArea(r, v, letters) && Suitable(r, v, s, now)
    ensures Nearby(r, v, letters) <==> SameArea(r, v, letters)
  {
    assert Cell(r.geohash, letters) == Area(r.geohash, letters) && Cell(v.geohash, letters) == Area(v.geohash, letters);
  }

  /**
   Whoever is found is suitable and within reach, and labelled with the number of letters of the smallest area
   that both share.
   */
  lemma FoundAreSuitable(found: seq<Found>, index: seq<IndexRow>, v: Viewer, s: Dating.Tables, now: int, i: nat) returns (r: IndexRow)
    requires AllJustified(found, index, v, s, now) && i < |found|
    ensures r in index && r.member == found[i].member && Suitable(r, v, s, now) && WithinReach(r, v)
    ensures 3 <= found[i].precision <= 5 && SameArea(r, v, found[i].precision)
    ensures forall letters: nat | found[i].precision < letters <= 5 :: !SameArea(r, v, letters)
  {
    assert FromIndex(found[i], index, v, s, now);
    r :| r in index && Justified(found[i], r, v, s, now);
    var p := found[i].precision;
    assert p == 5 || p == 4 || p == 3;
    SelectedMeans(r, v, s, now, p);
    forall letters: nat | p < letters <= 5 ensures !SameArea(r, v, letters) {
      assert letters == GEO_TIERS[5 - letters];
      SelectedMeans(r, v, s, now, letters);
    }
    forall coarse: nat | 3 <= coarse <= p ensures SameArea(r, v, coarse) {
      CellNests(r.geohash, v.geohash, p, coarse);
      SelectedMeans(r, v, s, now, coarse);
    }
  }

  /** A search that finds nobody had nobody to find: no row is suitable and within reach. */
  lemma NobodyWithinReach(index: seq<IndexRow>, v: Viewer, s: Dating.Tables, now: int, r: IndexRow)
    requires r in index && forall x | x in index :: !Selected(v, s, now, MaxPrecision(v))(x)
    ensures !(Suitable(r, v, s, now) && WithinReach(r, v))
  {
    SelectedMeans(r, v, s, now, MaxPrecision(v));
  }

  /** Nobody is passed over: whoever shares the area of somebody found, and is listed before them, is found as well. */
  lemma NobodyBetterMissed(found: seq<Found>, index: seq<IndexRow>, v: Viewer, s: Dating.Tables, now: int, i: nat, j: nat, k: nat)
    requires AllJustified(found, index, v, s, now) && NobodyPassedOver(found, index, v, s, now)
    requires i < j < |index| && k < |found| && found[k].member == index[j].member
    requires Suitable(index[i], v, s, now) && SameArea(index[i], v, found[k].precision)
    ensures exists m | 0 <= m < |found| :: found[m].member == index[i].member
  {
    var r := FoundAreSuitable(found, index, v, s, now, k);
    var q := found[k].precision;
    SelectedMeans(index[i], v, s, now, q);
    assert q in GEO_TIERS by { assert q == GEO_TIERS[5 - q]; }
    assert Found(index[j].member, q) in found by { assert found[k] == Found(index[j].member, q); }
    assert index[i].member in Members(found);
  }
}
