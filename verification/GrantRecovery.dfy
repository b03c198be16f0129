/** The reconciliation loop a starting process runs over the audit log it just listed
    (src/domain/permissions/action-lifecycle-factory.ts). The read of each store and each append may fail;
    a failure is swallowed and the intent stays provisional. */
module GrantRecovery {
  import opened Optional
  import opened GrantProtocol

  /** A `policy-grant-intent` event as listed: the optional fields may be missing. */
  datatype IntentEvent = IntentEvent(
    action: ActionId, workspace: Option<WorkspaceId>, mutationId: Option<MutationId>, beforeVersion: Option<nat>)

  /** What the environment answers while one intent is handled. */
  datatype Reply = Reply(snapshot: Option<Snapshot>, appended: bool)

  /** The committed record an intent deserves, given the snapshot read for it. */
  function Verdict(e: IntentEvent, snapshot: Option<Snapshot>): Option<Grant> {
    if e.workspace.None? || e.mutationId.None? || e.mutationId.value == "" || snapshot.None? then None
    else
      var snap, m := snapshot.value, e.mutationId.value;
      var before := if e.beforeVersion.Some? then e.beforeVersion.value else -1;
      if snap.version <= before then None
      else
        var entry := EntryOf(snap.history, m);
        var recorded := if e.beforeVersion.Some? then e.beforeVersion.value else 0;
        if entry.Some? then Some(Grant(e.workspace.value, recorded, m, entry.value.version))
        else if snap.latest == Some(m) then Some(Grant(e.workspace.value, recorded, m, snap.version))
        else None
  }

  class AuditLog {
    var granted: map<ActionId, Grant>

    /** An append under the key `<actionId>:policy-granted`. */
    method AppendGranted(a: ActionId, g: Grant, succeeds: bool)
      modifies this
      ensures granted == if succeeds then Append(old(granted), a, g) else old(granted)
    {
      if succeeds && a !in granted {
        granted := granted[a := g];
      }
    }

    method Reconcile(events: seq<IntentEvent>, replies: seq<Reply>)
      requires |replies| == |events|
      modifies this
      ensures granted == Reconciled(old(granted), events, replies)
    {
      var committedByAction := granted.Keys;
      var i := 0;
      while i < |events|
        invariant 0 <= i <= |events|
        invariant granted == Reconciled(old(granted), events[..i], replies[..i])
      {
        assert events[..i + 1][..i] == events[..i] && replies[..i + 1][..i] == replies[..i];
        ReconciledGrows(old(granted), events[..i], replies[..i]);
        if events[i].action !in committedByAction {
          var verdict := Verdict(events[i], replies[i].snapshot);
          if verdict.Some? {
            AppendGranted(events[i].action, verdict.value, replies[i].appended);
          }
        }
        i := i + 1;
      }
      assert events[..i] == events && replies[..i] == replies;
    }
  }

  /** The log after the listed intents were handled in order. */
  function Reconciled(granted: map<ActionId, Grant>, events: seq<IntentEvent>, replies: seq<Reply>): map<ActionId, Grant>
    requires |replies| == |events|
  {
    if events == [] then granted
    else
      var n := |events| - 1;
      var before := Reconciled(granted, events[..n], replies[..n]);
      var verdict := Verdict(events[n], replies[n].snapshot);
      if verdict.Some? && replies[n].appended then Append(before, events[n].action, verdict.value) else before
  }

  lemma {:induction false} ReconciledGrows(granted: map<ActionId, Grant>, events: seq<IntentEvent>, replies: seq<Reply>)
    requires |replies| == |events|
    ensures forall a :: a in granted ==>
              a in Reconciled(granted, events, replies) && Reconciled(granted, events, replies)[a] == granted[a]
  {
    if events != [] {
      ReconciledGrows(granted, events[..|events| - 1], replies[..|events| - 1]);
    }
  }

  /** Intent `i` is for `a`, and is proven and appended. */
  predicate Commits(events: seq<IntentEvent>, replies: seq<Reply>, a: ActionId, i: nat)
    requires |replies| == |events|
  {
    i < |events| && events[i].action == a && Verdict(events[i], replies[i].snapshot).Some? && replies[i].appended
  }

  /** Exactly the committed and the proven: the loop adds a record for an action just when one of its
      intents is proven (and appended), and the record is the first such verdict. */
  lemma {:induction false} ReconciledExactly(granted: map<ActionId, Grant>, events: seq<IntentEvent>, replies: seq<Reply>, a: ActionId)
    requires |replies| == |events|
    ensures a in Reconciled(granted, events, replies) <==> a in granted || exists i: nat :: Commits(events, replies, a, i)
    ensures a in Reconciled(granted, events, replies) && a !in granted ==>
              exists i: nat ::
                && Commits(events, replies, a, i)
                && (forall j: nat :: j < i ==> !Commits(events, replies, a, j))
                && Reconciled(granted, events, replies)[a] == Verdict(events[i], replies[i].snapshot).value
  {
    if events != [] {
      var n := |events| - 1;
      var events', replies' := events[..n], replies[..n];
      ReconciledExactly(granted, events', replies', a);
      assert forall i: nat :: i < n ==> Commits(events, replies, a, i) == Commits(events', replies', a, i);
      if Commits(events, replies, a, n) && a !in Reconciled(granted, events', replies') && a !in granted {
        assert forall j: nat :: j < n ==> !Commits(events', replies', a, j);
        assert Reconciled(granted, events, replies)[a] == Verdict(events[n], replies[n].snapshot).value;
      }
    }
  }

  /** A second pass over the listing, whatever it reads and whichever appends fail this time, changes nothing
      if and only if every intent it proves and appends is for an action that already has its record. */
  lemma ReconciledAgainExactly(granted: map<ActionId, Grant>, events: seq<IntentEvent>, second: seq<Reply>)
    requires |second| == |events|
    ensures Reconciled(granted, events, second) == granted
       <==> forall i: nat :: i < |events| && Commits(events, second, events[i].action, i) ==> events[i].action in granted
  {
    var again := Reconciled(granted, events, second);
    ReconciledGrows(granted, events, second);
    forall a ensures a in again <==> a in granted || exists i: nat :: Commits(events, second, a, i) {
      ReconciledExactly(granted, events, second, a);
    }
    if again != granted {
      assert exists a :: a in again && a !in granted;
    }
  }

  /** So after a pass that lost no append, a second one against the same stores changes nothing, whichever of
      its own appends fail. */
  lemma ReconciledOnce(granted: map<ActionId, Grant>, events: seq<IntentEvent>, first: seq<Reply>, second: seq<Reply>)
    requires |first| == |events| && |second| == |events|
    requires forall i :: 0 <= i < |events| ==> second[i].snapshot == first[i].snapshot
    requires forall i :: 0 <= i < |events| && Verdict(events[i], first[i].snapshot).Some? ==> first[i].appended
    ensures Reconciled(Reconciled(granted, events, first), events, second) == Reconciled(granted, events, first)
  {
    var once := Reconciled(granted, events, first);
    forall i: nat | i < |events| && Commits(events, second, events[i].action, i) ensures events[i].action in once {
      assert Commits(events, first, events[i].action, i);
      ReconciledExactly(granted, events, first, events[i].action);
    }
    ReconciledAgainExactly(once, events, second);
  }

  /** For an intent whose fields are all there, the verdict is the one the protocol's recovery step uses. */
  lemma VerdictIsProof(i: Intent, a: ActionId, snap: Snapshot)
    requires i.mutationId != ""
    ensures Verdict(IntentEvent(a, Some(i.workspace), Some(i.mutationId), Some(i.beforeVersion)), Some(snap))
         == match ProvenVersion(snap, i)
            case None => None
            case Some(v) => Some(Grant(i.workspace, i.beforeVersion, i.mutationId, v))
  {
  }
}
