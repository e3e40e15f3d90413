/** What saving and deleting do, told from the kinds, authors and tags of the events alone. */
module EventRules {
  import opened Nostr
  import opened Options
  import opened Schema
  import opened EventStore

  // ---------------------------------------------------------------- columns

  /** Tag i has this name. */
  predicate Named(tags: seq<seq<string>>, i: nat, name: string) {
    i < |tags| && |tags[i]| >= 1 && tags[i][0] == name
  }

  predicate Valued(tags: seq<seq<string>>, i: nat, name: string) {
    Named(tags, i, name) && |tags[i]| >= 2 && tags[i][1] != ""
  }

  /** Tag i is the first of its name with a nonempty value. */
  predicate FirstValued(tags: seq<seq<string>>, i: nat, name: string) {
    Valued(tags, i, name) && forall j: nat | j < i :: !Valued(tags, j, name)
  }

  /** No tag of the name has a nonempty value, and tag i is the last of the name. */
  predicate LastEmpty(tags: seq<seq<string>>, i: nat, name: string) {
    && Named(tags, i, name) && (forall j: nat | j < |tags| :: !Valued(tags, j, name))
    && forall j: nat | i < j < |tags| :: !Named(tags, j, name)
  }

  lemma NamedFront(tags: seq<seq<string>>, i: nat, name: string)
    requires tags != [] && i < |tags| - 1
    ensures Named(tags, i, name) <==> Named(tags[..|tags| - 1], i, name)
    ensures Valued(tags, i, name) <==> Valued(tags[..|tags| - 1], i, name)
  {
  }

  lemma ColumnStep(tags: seq<seq<string>>, name: string)
    requires tags != []
    ensures var n := |tags| - 1;
            var before := Column(tags[..n], name);
            Column(tags, name) == if Named(tags, n, name) && Falsy(before) then Second(tags[n]) else before
  {
  }

  lemma {:induction false} NullMeans(tags: seq<seq<string>>, name: string)
    ensures Column(tags, name) == Null <==> forall i: nat | i < |tags| :: !Named(tags, i, name)
  {
    if tags != [] {
      var front, n := tags[..|tags| - 1], |tags| - 1;
      NullMeans(front, name);
      ColumnStep(tags, name);
      forall i: nat | i < n { NamedFront(tags, i, name); }
      if Column(tags, name) == Null {
        forall i: nat | i < |tags| ensures !Named(tags, i, name) { if i < n { assert !Named(front, i, name); } }
      } else if Column(front, name) != Null {
        var i: nat :| i < n && Named(front, i, name);
        assert Named(tags, i, name);
      }
    }
  }

  lemma NoneValuedInFront(tags: seq<seq<string>>, n: nat, name: string)
    requires n < |tags| && forall j: nat | j < n :: !Valued(tags, j, name)
    ensures forall j: nat | j < n :: !Valued(tags[..n], j, name)
  {
    forall j: nat | j < n ensures !Valued(tags[..n], j, name) { assert !Valued(tags, j, name); }
  }

  lemma {:induction false} NoValueIsFalsy(tags: seq<seq<string>>, name: string)
    requires forall j: nat | j < |tags| :: !Valued(tags, j, name)
    ensures Falsy(Column(tags, name))
  {
    if tags != [] {
      NoneValuedInFront(tags, |tags| - 1, name);
      NoValueIsFalsy(tags[..|tags| - 1], name);
      ColumnStep(tags, name);
      assert !Valued(tags, |tags| - 1, name);
    }
  }

  lemma {:induction false} FirstMeans(tags: seq<seq<string>>, i: nat, name: string)
    requires FirstValued(tags, i, name)
    ensures Column(tags, name) == Text(tags[i][1])
  {
    var front, n := tags[..|tags| - 1], |tags| - 1;
    ColumnStep(tags, name);
    if i < n {
      NamedFront(tags, i, name);
      forall j: nat | j < i ensures !Valued(front, j, name) { NamedFront(tags, j, name); assert !Valued(tags, j, name); }
      FirstMeans(front, i, name);
    } else {
      NoneValuedInFront(tags, n, name);
      NoValueIsFalsy(front, name);
    }
  }

  lemma LastEmptyFront(tags: seq<seq<string>>, i: nat, name: string)
    requires LastEmpty(tags, i, name) && i < |tags| - 1
    ensures LastEmpty(tags[..|tags| - 1], i, name)
  {
    var front := tags[..|tags| - 1];
    NamedFront(tags, i, name);
    NoneValuedInFront(tags, |tags| - 1, name);
    forall j: nat | i < j < |front| ensures !Named(front, j, name) { NamedFront(tags, j, name); }
  }

  lemma {:induction false} EmptyMeans(tags: seq<seq<string>>, i: nat, name: string)
    requires LastEmpty(tags, i, name)
    ensures Column(tags, name) == if |tags[i]| >= 2 then Text("") else Undefined
  {
    var front, n := tags[..|tags| - 1], |tags| - 1;
    ColumnStep(tags, name);
    if i < n {
      LastEmptyFront(tags, i, name);
      EmptyMeans(front, i, name);
      assert !Named(tags, n, name);
    } else {
      NoneValuedInFront(tags, n, name);
      NoValueIsFalsy(front, name);
      assert !Valued(tags, n, name);
    }
  }

  /** The column of a name holds the first nonempty value; without one, whatever the last tag of the name has. */
  lemma ColumnMeans(tags: seq<seq<string>>, name: string)
    ensures Column(tags, name) == Null <==> forall i: nat | i < |tags| :: !Named(tags, i, name)
    ensures forall i: nat | FirstValued(tags, i, name) :: Column(tags, name) == Text(tags[i][1])
    ensures forall i: nat | LastEmpty(tags, i, name) :: Column(tags, name) == if |tags[i]| >= 2 then Text("") else Undefined
  {
    NullMeans(tags, name);
    forall i: nat | FirstValued(tags, i, name) { FirstMeans(tags, i, name); }
    forall i: nat | LastEmpty(tags, i, name) { EmptyMeans(tags, i, name); }
  }

  lemma {:induction false} LastNamed(tags: seq<seq<string>>, name: string, n: nat) returns (i: nat)
    requires n <= |tags| && exists j: nat :: j < n && Named(tags, j, name)
    ensures i < n && Named(tags, i, name) && forall j: nat | i < j < n :: !Named(tags, j, name)
  {
    if Named(tags, n - 1, name) { i := n - 1; } else { i := LastNamed(tags, name, n - 1); }
  }

  /** The INSERT fails exactly when a single-letter name of the nine never has a value and its last tag lacks one. */
  lemma BindableExactly(e: Event)
    ensures Bindable(e)
            <==> forall i: nat, name | name in ["p", "e", "a", "t", "d", "r", "L", "s", "u"] && LastEmpty(e.tags, i, name) ::
                   |e.tags[i]| >= 2
  {
    forall name | name in CACHED_TAGS ensures Column(e.tags, name) == Undefined <==>
      exists i: nat :: LastEmpty(e.tags, i, name) && |e.tags[i]| < 2
    {
      ColumnMeans(e.tags, name);
      if Column(e.tags, name) == Undefined {
        if j: nat :| FirstValued(e.tags, j, name) {
          assert false;
        }
        NoneValued(e.tags, name);
        var i := LastNamed(e.tags, name, |e.tags|);
        assert LastEmpty(e.tags, i, name);
      }
    }
  }

  lemma {:induction false} NoneValued(tags: seq<seq<string>>, name: string)
    requires forall i: nat :: !FirstValued(tags, i, name)
    ensures forall i: nat | i < |tags| :: !Valued(tags, i, name)
  {
    forall i: nat | i < |tags| ensures !Valued(tags, i, name) { NoneValuedUpTo(tags, name, i); }
  }

  lemma {:induction false} NoneValuedUpTo(tags: seq<seq<string>>, name: string, i: nat)
    requires forall j: nat :: !FirstValued(tags, j, name)
    ensures forall j: nat | j <= i :: !Valued(tags, j, name)
  {
    if i > 0 { NoneValuedUpTo(tags, name, i - 1); }
    assert !FirstValued(tags, i, name);
  }

  // ---------------------------------------------------------------- which events pruning takes

  /** Never a profile, a contact list or a relay list, never a newer event before an older one, and nothing is changed. */
  lemma PruningMeans(s: Tables, t: Tables, gone: set<string>, x: string, y: string)
    requires PrunedBy(s, t, gone)
    ensures x in gone ==> x in s.events && s.events[x].kind != 0 && s.events[x].kind != 3 && s.events[x].kind != 10002
    ensures x in t.events <==> x in s.events && x !in gone
    ensures x in t.events ==> t.events[x] == s.events[x]
    ensures x in gone && y in t.events && s.events[y].createdAt < s.events[x].createdAt ==> s.events[y].kind in {0, 3, 10002}
  {
  }

  // ---------------------------------------------------------------- which events a deletion is about

  /** Some `e` tag names the event. */
  predicate Names(tags: seq<seq<string>>, id: string) {
    exists t | 0 <= t < |tags| :: |tags[t]| >= 2 && tags[t][0] == "e" && tags[t][1] == id
  }

  /** Some `e` tag has no value. */
  predicate Dangling(tags: seq<seq<string>>) {
    exists t | 0 <= t < |tags| :: |tags[t]| == 1 && tags[t][0] == "e"
  }

  lemma {:induction false} ReferencedIs(tags: seq<seq<string>>, b: Bound)
    ensures b in Referenced(tags) <==> exists i: nat :: Named(tags, i, "e") && b == Second(tags[i])
  {
    if tags != [] {
      var front, n := tags[..|tags| - 1], |tags| - 1;
      ReferencedIs(front, b);
      if i: nat :| Named(tags, i, "e") && b == Second(tags[i]) {
        if i < n { assert Named(front, i, "e") && front[i] == tags[i]; }
      }
      if i: nat :| Named(front, i, "e") && b == Second(front[i]) {
        assert Named(tags, i, "e") && front[i] == tags[i];
      }
      if Named(tags, n, "e") { assert Second(tags[n]) in Referenced(tags); }
    }
  }

  lemma ReferencesMean(tags: seq<seq<string>>)
    ensures forall id :: Text(id) in Referenced(tags) <==> Names(tags, id)
    ensures Undefined in Referenced(tags) <==> Dangling(tags)
    ensures Referenced(tags) == [] <==> forall t | 0 <= t < |tags| :: tags[t] == [] || tags[t][0] != "e"
  {
    forall id ensures Text(id) in Referenced(tags) <==> Names(tags, id) {
      ReferencedIs(tags, Text(id));
      if t :| 0 <= t < |tags| && |tags[t]| >= 2 && tags[t][0] == "e" && tags[t][1] == id { assert Named(tags, t, "e"); }
    }
    ReferencedIs(tags, Undefined);
    if t :| 0 <= t < |tags| && |tags[t]| == 1 && tags[t][0] == "e" { assert Named(tags, t, "e"); }
    if Referenced(tags) != [] {
      ReferencedIs(tags, Referenced(tags)[0]);
    }
    forall t: nat | Named(tags, t, "e") ensures Referenced(tags) != [] {
      ReferencedIs(tags, Second(tags[t]));
    }
    if t :| 0 <= t < |tags| && !(tags[t] == [] || tags[t][0] != "e") { assert Named(tags, t, "e"); }
  }

  /** The deletion takes this stored event: it is named, the author is the same, and no reference is without value. */
  predicate Takes(s: Tables, e: Event, id: string) {
    !Dangling(e.tags) && Names(e.tags, id) && id in s.events && s.events[id].pubkey == e.pubkey != ""
  }

  /** A completed deletion removes exactly what its own tags name, and leaves the rest as it was. */
  lemma DeletionObeysItsTags(s: Tables, e: Event, batches: nat, id: string)
    requires Indexed(s) && |Deletable(s, e)| <= batches * 25
    ensures var t := AfterBatches(s, Deletable(s, e), batches);
            && (id in t.events <==> id in s.events && !Takes(s, e, id))
            && (id in t.events ==> t.events[id] == s.events[id])
  {
    BatchPrefixIndexed(s, Deletable(s, e), batches);
    ReferencesMean(e.tags);
    if id in s.events { DeletionExact(s, e, batches, id); }
  }

  predicate Lists(tags: seq<seq<string>>) {
    exists t | 0 <= t < |tags| :: tags[t] != [] && tags[t][0] == "e"
  }

  /** It names a stored event of somebody else. */
  predicate NamesForeign(s: Tables, e: Event) {
    exists id | id in s.events :: Names(e.tags, id) && s.events[id].pubkey != "" && s.events[id].pubkey != e.pubkey
  }

  predicate NamesOwn(s: Tables, e: Event) {
    exists id | id in s.events :: Names(e.tags, id) && s.events[id].pubkey == e.pubkey != ""
  }

  lemma OwnMeans(s: Tables, e: Event)
    requires !Dangling(e.tags)
    ensures Deletable(s, e) != [] <==> NamesOwn(s, e)
  {
    ReferencesMean(e.tags);
    if id :| id in s.events && Names(e.tags, id) && s.events[id].pubkey == e.pubkey != "" {
      OwnedMember(s, e.pubkey, Referenced(e.tags), id);
    }
    if Deletable(s, e) != [] {
      OwnedMember(s, e.pubkey, Referenced(e.tags), Deletable(s, e)[0]);
      assert Names(e.tags, Deletable(s, e)[0]);
    }
  }

  lemma ForeignMeans(s: Tables, e: Event)
    ensures AnyRefused(s, e.pubkey, Referenced(e.tags)) <==> NamesForeign(s, e)
  {
    ReferencesMean(e.tags);
    if id :| id in s.events && Names(e.tags, id) && s.events[id].pubkey != "" && s.events[id].pubkey != e.pubkey {
      assert Text(id) in Referenced(e.tags) && Refused(s, e.pubkey, Text(id));
    }
    if b :| b in Referenced(e.tags) && Refused(s, e.pubkey, b) { assert Names(e.tags, b.text); }
  }

  lemma ListsMeans(tags: seq<seq<string>>)
    ensures Referenced(tags) != [] <==> Lists(tags)
    ensures Undefined in Referenced(tags) <==> Dangling(tags)
    ensures Dangling(tags) ==> Lists(tags)
  {
    ReferencesMean(tags);
    if t :| 0 <= t < |tags| && |tags[t]| == 1 && tags[t][0] == "e" { assert tags[t] != []; }
  }

  /** Every answer to a deletion and its cause, from the tags and the owners of what they name. */
  lemma DeletionAnswered(s: Tables, e: Event, committed: bool)
    ensures var r, sound := DeletionResult(s, e, committed), Lists(e.tags) && !Dangling(e.tags);
            && (r == NothingListed <==> !Lists(e.tags))
            && (r == CheckFailed <==> Dangling(e.tags))
            && (r == Unauthorized <==> sound && NamesForeign(s, e))
            && (r == BatchFailed <==> sound && !NamesForeign(s, e) && !committed)
            && (r == NoneFound <==> sound && !NamesForeign(s, e) && committed && !NamesOwn(s, e))
            && (r.Deleted? <==> sound && !NamesForeign(s, e) && committed && NamesOwn(s, e))
  {
    ListsMeans(e.tags);
    ForeignMeans(s, e);
    if !Dangling(e.tags) { OwnMeans(s, e); }
  }

  /** A deletion is answered with success unless a reference is dangling or somebody else's, or a batch failed. */
  lemma DeletionSucceeds(w: Relay, e: Event, batches: nat, r: Outcome)
    requires e.kind == 5
    ensures Succeeds(w, e, batches, r)
            <==> !Lists(e.tags)
                 || (!Dangling(e.tags) && !NamesForeign(w.db, e) && |Deletable(w.db, e)| <= batches * 25)
  {
    DeletionAnswered(w.db, e, |Deletable(w.db, e)| <= batches * 25);
    ListsMeans(e.tags);
  }

  /** The places of the `e` tags that name the author's own stored events. */
  function OwnTags(s: Tables, e: Event): set<int> {
    set t | 0 <= t < |e.tags| && |e.tags[t]| >= 2 && e.tags[t][0] == "e"
            && e.tags[t][1] in s.events && s.events[e.tags[t][1]].pubkey == e.pubkey != ""
  }

  /** The number a deletion reports counts tags, so an event named twice counts twice. */
  lemma DeletionCounts(s: Tables, e: Event, committed: bool)
    requires DeletionResult(s, e, committed).Deleted?
    ensures DeletionResult(s, e, committed).count == |OwnTags(s, e)|
  {
    OwnedCount(s, e);
  }

  lemma {:induction false} OwnedCount(s: Tables, e: Event)
    ensures |Owned(s, e.pubkey, Referenced(e.tags))| == |OwnTags(s, e)|
    decreases |e.tags|
  {
    if e.tags != [] {
      var n := |e.tags| - 1;
      var front := e.(tags := e.tags[..n]);
      OwnedCount(s, front);
      OwnTagsStep(s, e, front);
      LastTag(s, e, front);
    } else {
      assert OwnTags(s, e) == {};
    }
  }

  lemma LastTag(s: Tables, e: Event, front: Event)
    requires e.tags != [] && front == e.(tags := e.tags[..|e.tags| - 1])
    ensures |Owned(s, e.pubkey, Referenced(e.tags))|
            == |Owned(s, e.pubkey, Referenced(front.tags))| + if |e.tags| - 1 in OwnTags(s, e) then 1 else 0
  {
    var n := |e.tags| - 1;
    if Named(e.tags, n, "e") {
      assert Referenced(e.tags) == Referenced(front.tags) + [Second(e.tags[n])];
      OwnedSnoc(s, e.pubkey, Referenced(front.tags), Second(e.tags[n]));
    } else {
      assert Referenced(e.tags) == Referenced(front.tags);
    }
  }

  lemma OwnTagsStep(s: Tables, e: Event, front: Event)
    requires e.tags != [] && front == e.(tags := e.tags[..|e.tags| - 1])
    ensures |OwnTags(s, e)|
            == |OwnTags(s, front)| + if |e.tags| - 1 in OwnTags(s, e) then 1 else 0
  {
    var n := |e.tags| - 1;
    assert forall t | 0 <= t < n :: front.tags[t] == e.tags[t];
    assert OwnTags(s, e) == if n in OwnTags(s, e) then OwnTags(s, front) + {n} else OwnTags(s, front);
  }

  lemma OwnedSnoc(s: Tables, pubkey: string, refs: seq<Bound>, b: Bound)
    ensures |Owned(s, pubkey, refs + [b])|
            == |Owned(s, pubkey, refs)| + if b.Text? && b.text in s.events && s.events[b.text].pubkey == pubkey != "" then 1 else 0
  {
    assert (refs + [b])[..|refs|] == refs;
  }

  // ---------------------------------------------------------------- which events a save replaces

  /** The first `d` tag has this value, or none and there is no value. */
  predicate FirstDIs(tags: seq<seq<string>>, d: string) {
    || (d == "" && forall i: nat | i < |tags| :: !Named(tags, i, "d"))
    || exists i: nat | i < |tags| ::
         Named(tags, i, "d") && (forall j: nat | j < i :: !Named(tags, j, "d")) && d == if |tags[i]| >= 2 then tags[i][1] else ""
  }

  lemma {:induction false} FirstDMeans(tags: seq<seq<string>>)
    ensures FirstDIs(tags, FirstD(tags))
  {
    if tags != [] {
      var rest := tags[1..];
      if Named(tags, 0, "d") {
        assert forall j: nat | j < 0 :: !Named(tags, j, "d");
      } else {
        FirstDMeans(rest);
        assert forall j: nat | j < |rest| :: Named(rest, j, "d") <==> Named(tags, j + 1, "d");
        if forall i: nat | i < |rest| :: !Named(rest, i, "d") {
          forall i: nat | i < |tags| ensures !Named(tags, i, "d") { if i > 0 { assert !Named(rest, i - 1, "d"); } }
        } else {
          var i: nat :| i < |rest| && Named(rest, i, "d") && (forall j: nat | j < i :: !Named(rest, j, "d"))
                        && FirstD(rest) == if |rest[i]| >= 2 then rest[i][1] else "";
          assert Named(tags, i + 1, "d") && tags[i + 1] == rest[i];
          forall j: nat | j < i + 1 ensures !Named(tags, j, "d") { if j > 0 { assert !Named(rest, j - 1, "d"); } }
        }
      }
    }
  }

  /** The kinds that replace: profiles and contacts, 10000 to 19999, and with a `d` tag 30000 to 39999. */
  ghost predicate Replaces(x: Event, e: Event) {
    && x.kind == e.kind && x.pubkey == e.pubkey
    && (e.kind == 0 || e.kind == 3 || 10000 <= e.kind <= 19999
        || (30000 <= e.kind <= 39999 && exists d :: FirstDIs(e.tags, d) && Column(x.tags, "d") == Text(d)))
  }

  lemma OneFirst(tags: seq<seq<string>>, i: nat, k: nat)
    requires Named(tags, i, "d") && forall j: nat | j < i :: !Named(tags, j, "d")
    requires Named(tags, k, "d") && forall j: nat | j < k :: !Named(tags, j, "d")
    ensures i == k
  {
  }

  lemma FirstDUnique(tags: seq<seq<string>>, c: string, d: string)
    requires FirstDIs(tags, c) && FirstDIs(tags, d)
    ensures c == d
  {
    if i: nat :| i < |tags| && Named(tags, i, "d") && (forall j: nat | j < i :: !Named(tags, j, "d"))
                 && c == if |tags[i]| >= 2 then tags[i][1] else "" {
      if k: nat :| k < |tags| && Named(tags, k, "d") && (forall j: nat | j < k :: !Named(tags, j, "d"))
                   && d == if |tags[k]| >= 2 then tags[k][1] else "" {
        OneFirst(tags, i, k);
      }
    }
  }

  lemma RivalsReplace(x: Event, e: Event)
    ensures RivalOf(x, e) <==> Replaces(x, e)
  {
    FirstDMeans(e.tags);
    if d :| FirstDIs(e.tags, d) && Column(x.tags, "d") == Text(d) { FirstDUnique(e.tags, d, FirstD(e.tags)); }
  }

  /** What one of the two did to the events: the new one is there, one older event it replaces is gone, the rest stays. */
  ghost predicate Took(s: Tables, e: Event, inserted: bool, s': Tables) {
    exists picked | picked in s.events :: Replaces(s.events[picked], e) && s.events[picked].createdAt < e.createdAt
      && s'.events == if inserted then (s.events - {picked})[e.id := e] else s.events - {picked}
  }

  ghost predicate HasRival(s: Tables, e: Event) {
    exists x | x in s.events :: Replaces(s.events[x], e)
  }

  lemma RivalsAre(s: Tables, e: Event)
    ensures forall x :: x in Rivals(s, e) <==> x in s.events && Replaces(s.events[x], e)
    ensures Rivals(s, e) != {} <==> HasRival(s, e)
  {
    forall x | x in s.events { RivalsReplace(s.events[x], e); }
    if x :| x in s.events && Replaces(s.events[x], e) { assert x in Rivals(s, e); }
  }

  /** A known event is a duplicate; a new one that replaces nothing is stored if its columns can be bound. */
  lemma SaveOfAnyKind(s: Tables, e: Event, hit: bool, s': Tables, r: Outcome)
    requires Indexed(s) && SaveStep(s, e, hit, s', r)
    ensures hit || e.id in s.events ==> r == Duplicate && s' == s
    ensures !hit && e.id !in s.events && !HasRival(s, e) ==>
              if Bindable(e) then r == Saved && s'.events == s.events[e.id := e] else r == Failed && s' == s
  {
    RivalsAre(s, e);
    if !hit && e.id !in s.events && Rivals(s, e) == {} && Bindable(e) { InsertFields(s, e); }
  }

  /** A new event with rivals takes the place of an older one, or is a duplicate of one that is at least as new. */
  lemma SaveOverRival(s: Tables, e: Event, s': Tables, r: Outcome)
    requires Indexed(s) && SaveStep(s, e, false, s', r) && e.id !in s.events && HasRival(s, e)
    ensures r == Duplicate ==> s' == s && exists x | x in s.events :: Replaces(s.events[x], e) && s.events[x].createdAt >= e.createdAt
    ensures r == Saved ==> Bindable(e) && Took(s, e, true, s')
    ensures r == Failed ==> !Bindable(e) && Took(s, e, false, s')
  {
    RivalsAre(s, e);
    var picked :| picked in Rivals(s, e) && ReplaceStep(s, e, picked, s', r);
    if s.events[picked].createdAt < e.createdAt {
      EraseSteps(s, picked);
      if Bindable(e) { InsertFields(Erase(s, picked), e); }
    }
  }

  /** Ephemeral events and deletions that name nothing pass through; what is saved is remembered by its identifier. */
  lemma SubmitDoes(w: Relay, e: Event, edgeHit: bool, batches: nat, w': Relay, r: Outcome)
    requires SubmitStep(w, e, edgeHit, batches, w', r)
    ensures 20000 <= e.kind <= 29999 ==> w' == w && r == Saved
    ensures e.kind == 5 && (forall t | 0 <= t < |e.tags| :: e.tags[t] == [] || e.tags[t][0] != "e") ==> w' == w && r == Saved
    ensures e.kind != 5 && !(20000 <= e.kind <= 29999) ==>
              && w'.eventCache == (if r == Saved then w.eventCache + {e.id} else w.eventCache)
              && SaveStep(w.db, e, edgeHit && e.id in w.eventCache, w'.db, r)
  {
    ReferencesMean(e.tags);
  }

  lemma NoRivals(s: Tables, e: Event)
    requires e.kind == 5
    ensures !HasRival(s, e)
  {
  }

  /** A deletion whose batches all commit removes what its tags name, and is then saved like any other event. */
  lemma DeletionDoes(w: Relay, e: Event, edgeHit: bool, batches: nat, w': Relay, r: Outcome, id: string)
    requires Indexed(w.db) && SubmitStep(w, e, edgeHit, batches, w', r) && e.kind == 5 && id != e.id
    requires |Deletable(w.db, e)| <= batches * 25
    ensures id in w'.db.events <==> id in w.db.events && !Takes(w.db, e, id)
  {
    ReferencesMean(e.tags);
    if Referenced(e.tags) != [] {
      var t := AfterBatches(w.db, Deletable(w.db, e), batches);
      DeletionObeysItsTags(w.db, e, batches, id);
      BatchPrefixIndexed(w.db, Deletable(w.db, e), batches);
      NoRivals(t, e);
      SaveOfAnyKind(t, e, edgeHit && e.id in w.eventCache, w'.db, r);
    }
  }
}
