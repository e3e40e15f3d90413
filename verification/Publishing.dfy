/** The event store and the mesh together: what is stored is published once, and broadcast once by every node. */
module Publishing {
  import opened EventStore
  import opened Nostr
  import opened Schema
  import EventRuns
  import Mesh

  /** The i-th operation submits the event and is answered with success. */
  ghost predicate AcceptedAt(ops: seq<EventRuns.Operation>, states: seq<Relay>, i: nat, id: string)
    requires |states| == |ops| + 1
  {
    i < |ops| && EventRuns.AnsweredYes(states[i], ops[i], states[i + 1]) && ops[i].event.id == id
  }

  /** Every publication of the event follows a different accepted submission of it, in order; others may come from anywhere. */
  ghost predicate Follows(
      ps: seq<Mesh.Publication>, at: seq<nat>, ops: seq<EventRuns.Operation>, states: seq<Relay>, id: string)
    requires |states| == |ops| + 1
  {
    && |at| == |ps|
    && (forall j, k | 0 <= j < k < |at| && ps[j].id == id && ps[k].id == id :: at[j] < at[k])
    && forall k | 0 <= k < |at| && ps[k].id == id :: AcceptedAt(ops, states, at[k], id)
  }

  /** All submissions under the identifier are of a kind that is stored. */
  ghost predicate OnlyStorable(ops: seq<EventRuns.Operation>, id: string) {
    forall i | 0 <= i < |ops| && ops[i].Submit? && ops[i].event.id == id :: EventRuns.Storable(ops[i].event.kind)
  }

  /** Once stored, the event is neither replaced, deleted nor pruned. */
  ghost predicate NeverRemoved(states: seq<Relay>, id: string) {
    forall i, j | 0 <= i < j < |states| && id in states[i].db.events :: id in states[j].db.events
  }

  lemma {:induction false} PublicationExists(ps: seq<Mesh.Publication>, id: string) returns (k: nat)
    requires Mesh.Publications(ps, id) >= 1
    ensures k < |ps| && ps[k].id == id
  {
    if ps[|ps| - 1].id == id {
      k := |ps| - 1;
    } else {
      k := PublicationExists(ps[..|ps| - 1], id);
    }
  }

  lemma {:induction false} TwoPublications(ps: seq<Mesh.Publication>, id: string) returns (j: nat, k: nat)
    requires Mesh.Publications(ps, id) >= 2
    ensures j < k < |ps| && ps[j].id == id && ps[k].id == id
  {
    if ps[|ps| - 1].id == id {
      k := |ps| - 1;
      j := PublicationExists(ps[..k], id);
    } else {
      j, k := TwoPublications(ps[..|ps| - 1], id);
    }
  }

  lemma NoSecondAcceptance(ops: seq<EventRuns.Operation>, states: seq<Relay>, i: nat, j: nat, id: string)
    requires EventRuns.Run(ops, states) && i < j && OnlyStorable(ops, id) && NeverRemoved(states, id)
    ensures !(AcceptedAt(ops, states, i, id) && AcceptedAt(ops, states, j, id))
  {
    if AcceptedAt(ops, states, i, id) && AcceptedAt(ops, states, j, id) {
      EventRuns.AcceptedIsStored(ops, states, i);
      EventRuns.AcceptedIsStored(ops, states, j);
    }
  }

  /** While it stays stored, an event of a storable kind is published at most once. */
  lemma PublishedOnceWhileStored(
      ps: seq<Mesh.Publication>, at: seq<nat>, ops: seq<EventRuns.Operation>, states: seq<Relay>, id: string)
    requires EventRuns.Run(ops, states) && Follows(ps, at, ops, states, id) && OnlyStorable(ops, id) && NeverRemoved(states, id)
    ensures Mesh.Publications(ps, id) <= 1
  {
    if Mesh.Publications(ps, id) >= 2 {
      var j, k := TwoPublications(ps, id);
      NoSecondAcceptance(ops, states, at[j], at[k], id);
    }
  }

  /** A stored event is broadcast by each node at most once, plus once for every time the node lost its memory. */
  lemma StoredEventBroadcastOnce(
      meshOps: seq<Mesh.Operation>, meshStates: seq<Mesh.State>, k: nat, n: string,
      at: seq<nat>, ops: seq<EventRuns.Operation>, states: seq<Relay>, id: string)
    requires Mesh.Run(meshOps, meshStates) && k < |meshStates| && n in Mesh.NODES
    requires EventRuns.Run(ops, states) && Follows(meshStates[k].published, at, ops, states, id)
    requires OnlyStorable(ops, id) && NeverRemoved(states, id)
    ensures Mesh.Count(meshStates[k].log, (n, id)) <= Mesh.Count(meshStates[k].clears, n) + 1
  {
    PublishedOnceWhileStored(meshStates[k].published, at, ops, states, id);
    Mesh.BroadcastAtMostOnce(meshOps, meshStates, k, n, id);
  }

  /** An ephemeral event submitted twice is accepted twice, published twice, and broadcast twice by one node. */
  lemma EphemeralBroadcastTwice(w: Relay, e: Event, n: string)
    returns (ops: seq<Mesh.Operation>, states: seq<Mesh.State>)
    requires Ephemeral(e.kind) && n in Mesh.NODES
    ensures SubmitStep(w, e, false, 0, w, Saved) && Succeeds(w, e, 0, Saved)
    ensures Mesh.Run(ops, states) && |ops| == 2 && states[2].clears == [] && Mesh.Count(states[2].log, (n, e.id)) == 2
  {
    EphemeralAlwaysAccepted(w, e, false, 0);
    ops, states := Mesh.RepublishedIsRebroadcast(n, e.id);
  }

  /** So is a deletion: submitted again, it succeeds again, and is published and broadcast again. */
  lemma DeletionBroadcastTwice(w: Relay, e: Event, batches: nat, w': Relay, r: Outcome, more: nat, n: string)
    returns (ops: seq<Mesh.Operation>, states: seq<Mesh.State>)
    requires Indexed(w.db) && e.kind == 5 && n in Mesh.NODES
    requires SubmitStep(w, e, false, batches, w', r) && Succeeds(w, e, batches, r)
    requires |Deletable(w'.db, e)| <= more * 25
    ensures forall w'', r' | SubmitStep(w', e, false, more, w'', r') :: Succeeds(w', e, more, r')
    ensures Mesh.Run(ops, states) && |ops| == 2 && states[2].clears == [] && Mesh.Count(states[2].log, (n, e.id)) == 2
  {
    forall r' ensures Succeeds(w', e, more, r') { DeletionAcceptedAgain(w, e, false, batches, w', r, more, r'); }
    ops, states := Mesh.RepublishedIsRebroadcast(n, e.id);
  }
}
