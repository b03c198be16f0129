/** The write-ahead protocol for persistent grants, as a state machine.

    A run that was approved for a project or global lifetime records `approved`, puts a grant INTENT in
    the durable outbox, installs the merged capabilities by compare-and-set (one retry after a conflict),
    and records `policy-granted`. Any step can be the last one before a crash; administrators write the
    store, the outbox is flushed and startup recovery runs at any point between any two steps.

    The audit store is reached only through appends that are idempotent by `<actionId>:<state>`, so each
    of the two record kinds used here is a map from action id to its one record. */
module GrantProtocol {
  import opened Optional
  import opened PolicyMerge

  type ActionId(==, !new) = string
  type WorkspaceId(==, !new) = string
  type MutationId(==, !new) = string

  datatype Entry = Entry(mutationId: MutationId, version: nat)

  /** One workspace of the protected policy store. `history` is append-only and store-owned. */
  datatype Snapshot = Snapshot(version: nat, capabilities: seq<Capability>, latest: Option<MutationId>, history: seq<Entry>)

  const EMPTY: Snapshot := Snapshot(0, [], None, [])

  datatype Intent = Intent(workspace: WorkspaceId, beforeVersion: nat, mutationId: MutationId)
  datatype Grant = Grant(workspace: WorkspaceId, beforeVersion: nat, mutationId: MutationId, afterVersion: nat)

  datatype Phase =
    | Asked                                                            // first read done, nothing recorded
    | Recorded                                                         // `approved` is in the audit
    | Ready(attempt: nat)                                              // the intent is durable
    | Holding(attempt: nat, version: nat, capabilities: seq<Capability>)  // raw snapshot read
    | Installed(afterVersion: nat)
    | Done
    | Refused
    | Crashed

  datatype Run = Run(
    workspace: WorkspaceId, target: string, multi: bool, project: bool,
    baseline: seq<Capability>, missing: seq<Capability>,
    beforeVersion: nat, mutationId: Option<MutationId>, phase: Phase)

  /** A startup reconciliation under way: the listed unresolved intents not yet looked at, the stores when the
      listing was made, and whether the intent of every installed mutation was listed and no step has failed
      since. */
  datatype Recovery = Recovery(todo: set<ActionId>, seen: map<WorkspaceId, Snapshot>, complete: bool)

  datatype State = State(
    stores: map<WorkspaceId, Snapshot>,
    outbox: map<ActionId, Intent>,
    intents: map<ActionId, Intent>,   // audit records `policy-grant-intent`
    granted: map<ActionId, Grant>,    // audit records `policy-granted`
    runs: map<ActionId, Run>,
    owner: map<MutationId, ActionId>, // which action drew each mutation id
    recoveries: map<nat, Recovery>)

  function Read(stores: map<WorkspaceId, Snapshot>, ws: WorkspaceId): Snapshot {
    if ws in stores then stores[ws] else EMPTY
  }

  /** `audit.append` with an idempotency key: a second record for the key changes nothing. */
  function Append<T>(records: map<ActionId, T>, a: ActionId, record: T): (r: map<ActionId, T>)
    ensures a in r && forall b :: b in records ==> b in r && r[b] == records[b]
    ensures forall b :: b in r ==> b in records || b == a
  {
    if a in records then records else records[a := record]
  }

  /** What compareAndSet does when the expected version is the current one: it installs and returns, it
      installs but the reply is lost, its lock is held by someone else (a conflict), or it fails before
      installing. */
  datatype CasReply = Returned | ReplyLost | Busy | Failed

  datatype Step =
    | Start(action: ActionId, workspace: WorkspaceId, target: string, multi: bool, project: bool,
            baseline: seq<Capability>, requested: seq<Capability>)
    | RecordApproved(action: ActionId, appended: bool)
    | EnqueueIntent(action: ActionId, mutationId: MutationId, durable: bool, returned: bool)
    | ReadRaw(action: ActionId)
    | CompareAndSet(action: ActionId, reply: CasReply)
    | RecordGranted(action: ActionId, appended: bool)
    | Crash(action: ActionId)
    | AdminWrite(workspace: WorkspaceId, capabilities: seq<Capability>)
    | FlushAppend(action: ActionId)
    | FlushForget(action: ActionId)
    | ListIntents(recovery: nat)
    | ReconcileOne(recovery: nat, action: ActionId, readOk: bool, appended: bool)

  // ---- Guards and effects

  function IntentOf(r: Run): Intent
    requires r.mutationId.Some?
  {
    Intent(r.workspace, r.beforeVersion, r.mutationId.value)
  }

  function Candidates(r: Run): seq<Capability> {
    StampAll((if r.project then r.baseline else []) + r.missing, r.target)
  }

  /** The requested capabilities the approver's stored ones do not cover. */
  function Missing(covers: Covers, stored: seq<Capability>, target: string, requested: seq<Capability>): (missing: seq<Capability>)
    ensures forall c :: c in requested && c !in missing ==>
              exists d :: d in stored && (Owned(d, target) || (!Stamped(d) && target == "")) && covers(d, c)
    ensures forall c :: c in missing ==> c in requested
  {
    var targetCaps := Filter(stored, c => Owned(c, target) || (!Stamped(c) && target == ""));
    Filter(requested, c => !SetCovers(covers, targetCaps, c))
  }

  predicate Enabled(s: State, step: Step) {
    match step
    case Start(a, _, _, _, _, _, _) => a !in s.runs
    case RecordApproved(a, _) => a in s.runs && s.runs[a].phase.Asked?
    case EnqueueIntent(a, m, durable, returned) =>
      a in s.runs && s.runs[a].phase.Recorded? && m !in s.owner && (returned ==> durable)
    case ReadRaw(a) => a in s.runs && s.runs[a].phase.Ready?
    case CompareAndSet(a, _) => a in s.runs && s.runs[a].phase.Holding?
    case RecordGranted(a, _) => a in s.runs && s.runs[a].phase.Installed?
    case Crash(a) => a in s.runs
    case AdminWrite(_, _) => true
    case FlushAppend(a) => a in s.outbox
    case FlushForget(a) => a in s.outbox && a in s.intents
    case ListIntents(r) => r !in s.recoveries
    case ReconcileOne(r, a, _, _) => r in s.recoveries && a in s.recoveries[r].todo && a in s.intents
  }

  /** No run but `a`'s is different. */
  predicate OnlyRun(s: State, t: State, a: ActionId) {
    forall b :: b in s.runs && b != a ==> b in t.runs && t.runs[b] == s.runs[b]
  }

  function SetPhase(s: State, a: ActionId, p: Phase): (t: State)
    requires a in s.runs
    ensures OnlyRun(s, t, a)
  {
    s.(runs := s.runs[a := s.runs[a].(phase := p)])
  }

  /** The store after run `r` installs its merge over the snapshot it holds. */
  function Install(covers: Covers, r: Run, current: Snapshot): Snapshot
    requires r.phase.Holding? && r.mutationId.Some?
  {
    Snapshot(current.version + 1,
             Merged(covers, r.phase.capabilities, r.target, r.multi, Candidates(r)),
             r.mutationId,
             current.history + [Entry(r.mutationId.value, current.version + 1)])
  }

  /** A conflict is retried once; every other failure is final. */
  function AfterCas(covers: Covers, s: State, a: ActionId, reply: CasReply): (t: State)
    requires a in s.runs && s.runs[a].phase.Holding?
    ensures OnlyRun(s, t, a)
  {
    var r := s.runs[a];
    if reply.Failed? || r.mutationId.None? then SetPhase(s, a, Refused)
    else if reply.Busy? || Read(s.stores, r.workspace).version != r.phase.version then
      SetPhase(s, a, if r.phase.attempt == 0 then Ready(1) else Refused)
    else AfterInstall(covers, s, a, reply)
  }

  function AfterInstall(covers: Covers, s: State, a: ActionId, reply: CasReply): (t: State)
    requires a in s.runs && s.runs[a].phase.Holding? && s.runs[a].mutationId.Some?
    ensures OnlyRun(s, t, a)
  {
    var r := s.runs[a];
    var next := Install(covers, r, Read(s.stores, r.workspace));
    SetPhase(s, a, if reply.Returned? then Installed(next.version) else Refused).(stores := s.stores[r.workspace := next])
  }

  function EntryOf(history: seq<Entry>, m: MutationId): (e: Option<Entry>)
    ensures e.Some? ==> e.value in history && e.value.mutationId == m
    ensures e.None? ==> forall x :: x in history ==> x.mutationId != m
  {
    if history == [] then None
    else if history[0].mutationId == m then Some(history[0])
    else EntryOf(history[1..], m)
  }

  /** The reconciler's verdict on one intent: the version to record, if the mutation provably ran. */
  function ProvenVersion(snap: Snapshot, intent: Intent): Option<nat> {
    if snap.version <= intent.beforeVersion then None
    else
      var entry := EntryOf(snap.history, intent.mutationId);
      if entry.Some? then Some(entry.value.version)
      else if snap.latest == Some(intent.mutationId) then Some(snap.version)
      else None
  }

  function AfterReconcile(s: State, k: nat, a: ActionId, readOk: bool, appended: bool): State
    requires k in s.recoveries && a in s.intents
  {
    var rec := s.recoveries[k];
    var intent := s.intents[a];
    var proven := ProvenVersion(Read(s.stores, intent.workspace), intent);
    var failed := !readOk || (proven.Some? && !appended);
    var s' := s.(recoveries := s.recoveries[k := Recovery(rec.todo - {a}, rec.seen, rec.complete && !failed)]);
    if readOk && proven.Some? && appended then
      s'.(granted := Append(s.granted, a, Grant(intent.workspace, intent.beforeVersion, intent.mutationId, proven.value)))
    else s'
  }

  function AfterStart(s: State, a: ActionId, r: Run): (t: State)
    ensures OnlyRun(s, t, a)
  {
    s.(runs := s.runs[a := r])
  }

  function AfterEnqueue(s: State, a: ActionId, m: MutationId, durable: bool, returned: bool): (t: State)
    requires a in s.runs
    ensures OnlyRun(s, t, a)
  {
    var r := s.runs[a].(mutationId := Some(m), phase := if returned then Ready(0) else Refused);
    s.(runs := s.runs[a := r],
       owner := s.owner[m := a],
       outbox := if durable then s.outbox[a := IntentOf(r)] else s.outbox)
  }

  /** The committed record is best-effort: a failed append is swallowed. */
  function AfterGranted(s: State, a: ActionId, appended: bool): (t: State)
    requires a in s.runs && s.runs[a].phase.Installed?
    ensures OnlyRun(s, t, a)
  {
    var r := s.runs[a];
    var s' := SetPhase(s, a, Done);
    if appended && r.mutationId.Some? then
      s'.(granted := Append(s.granted, a, Grant(r.workspace, r.beforeVersion, r.mutationId.value, r.phase.afterVersion)))
    else s'
  }

  /** Administrators clear the latest marker; the history is the store's own and stays. */
  function AfterAdmin(s: State, ws: WorkspaceId, capabilities: seq<Capability>): State {
    var snap := Read(s.stores, ws);
    s.(stores := s.stores[ws := Snapshot(snap.version + 1, capabilities, None, snap.history)])
  }

  function AfterListing(s: State, k: nat): State {
    s.(recoveries := s.recoveries[k := Recovery(s.intents.Keys - s.granted.Keys, s.stores, AllListed(s))])
  }

  /** The audit holds the intent of every mutation in the stores. */
  predicate AllListed(s: State) {
    forall ws, i :: ws in s.stores && 0 <= i < |s.stores[ws].history| ==> Listed(s, s.stores[ws].history[i])
  }

  predicate Listed(s: State, e: Entry) {
    e.mutationId in s.owner && s.owner[e.mutationId] in s.intents
  }

  function Next(covers: Covers, s: State, step: Step): State
    requires Enabled(s, step)
  {
    match step
    case Start(a, ws, target, multi, project, baseline, requested) =>
      var snap := Read(s.stores, ws);
      AfterStart(s, a, Run(ws, target, multi, project, baseline,
                           Missing(covers, snap.capabilities, target, requested), snap.version, None, Asked))
    case RecordApproved(a, appended) =>
      SetPhase(s, a, if !appended then Refused else if s.runs[a].missing == [] then Done else Recorded)
    case EnqueueIntent(a, m, durable, returned) => AfterEnqueue(s, a, m, durable, returned)
    case ReadRaw(a) =>
      var snap := Read(s.stores, s.runs[a].workspace);
      SetPhase(s, a, Holding(s.runs[a].phase.attempt, snap.version, snap.capabilities))
    case CompareAndSet(a, reply) => AfterCas(covers, s, a, reply)
    case RecordGranted(a, appended) => AfterGranted(s, a, appended)
    case Crash(a) => SetPhase(s, a, Crashed)
    case AdminWrite(ws, capabilities) => AfterAdmin(s, ws, capabilities)
    case FlushAppend(a) => s.(intents := Append(s.intents, a, s.outbox[a]))
    case FlushForget(a) => s.(outbox := s.outbox - {a})
    case ListIntents(k) => AfterListing(s, k)
    case ReconcileOne(k, a, readOk, appended) => AfterReconcile(s, k, a, readOk, appended)
  }

  const INITIAL: State := State(map[], map[], map[], map[], map[], map[], map[])

  // ---- The invariant

  predicate Durable(s: State, a: ActionId, i: Intent) {
    (a in s.outbox && s.outbox[a] == i) || (a in s.intents && s.intents[a] == i)
  }

  predicate RanIn(snap: Snapshot, m: MutationId) {
    exists i :: 0 <= i < |snap.history| && snap.history[i].mutationId == m
  }

  /** Before its compare-and-set succeeds. */
  predicate Pending(p: Phase) {
    p.Asked? || p.Recorded? || p.Ready? || p.Holding?
  }

  predicate RunOk(s: State, a: ActionId)
    requires a in s.runs
  {
    var r := s.runs[a];
    var snap := Read(s.stores, r.workspace);
    && r.beforeVersion <= snap.version
    && (r.phase.Asked? || r.phase.Recorded? <==> Pending(r.phase) && r.mutationId.None?)
    && (r.mutationId.Some? ==> r.mutationId.value in s.owner && s.owner[r.mutationId.value] == a)
    && (r.phase.Ready? || r.phase.Holding? || r.phase.Installed? ==> r.mutationId.Some? && Durable(s, a, IntentOf(r)))
    && (r.phase.Ready? || r.phase.Holding? ==> !RanIn(snap, r.mutationId.value))
    && (r.phase.Holding? ==> r.phase.version <= snap.version)
    && (r.phase.Holding? && r.phase.version == snap.version ==> r.phase.capabilities == snap.capabilities)
    && (r.phase.Installed? ==> Entry(r.mutationId.value, r.phase.afterVersion) in snap.history)
  }

  ghost predicate RunsOk(s: State) {
    forall a :: a in s.runs ==> RunOk(s, a)
  }

  /** A record about an action carries that action's own workspace, version and mutation id. */
  predicate Matches(s: State, a: ActionId, i: Intent) {
    a in s.runs && s.runs[a].mutationId.Some? && i == IntentOf(s.runs[a])
  }

  ghost predicate IntentsOk(s: State) {
    && (forall a :: a in s.outbox ==> Matches(s, a, s.outbox[a]))
    && (forall a :: a in s.intents ==> Matches(s, a, s.intents[a]))
  }

  /** Every installed mutation was drawn by one action, whose intent is durable. */
  predicate EntryOk(s: State, ws: WorkspaceId, e: Entry) {
    && e.mutationId in s.owner
    && var a := s.owner[e.mutationId];
    && a in s.runs && s.runs[a].mutationId == Some(e.mutationId) && s.runs[a].workspace == ws
    && !Pending(s.runs[a].phase)
    && s.runs[a].beforeVersion < e.version <= Read(s.stores, ws).version
    && Durable(s, a, IntentOf(s.runs[a]))
  }

  predicate DistinctIds(history: seq<Entry>) {
    forall i, j :: 0 <= i < j < |history| ==> history[i].mutationId != history[j].mutationId
  }

  ghost predicate StoresOk(s: State) {
    forall ws :: ws in s.stores ==>
      && DistinctIds(s.stores[ws].history)
      && (forall i :: 0 <= i < |s.stores[ws].history| ==> EntryOk(s, ws, s.stores[ws].history[i]))
      && (s.stores[ws].latest.Some? ==> RanIn(s.stores[ws], s.stores[ws].latest.value))
  }

  predicate GrantOk(s: State, a: ActionId, g: Grant) {
    && Matches(s, a, Intent(g.workspace, g.beforeVersion, g.mutationId))
    && Entry(g.mutationId, g.afterVersion) in Read(s.stores, g.workspace).history
  }

  ghost predicate GrantsOk(s: State) {
    forall a :: a in s.granted ==> GrantOk(s, a, s.granted[a])
  }

  /** `b` is `a` later: nothing was removed from the history. */
  predicate Extends(a: Snapshot, b: Snapshot) {
    a.version <= b.version && a.history <= b.history
  }

  /** What a recovery has yet to do, or has done, for every mutation it could have seen. */
  ghost predicate RecoveryOk(s: State, rec: Recovery) {
    && rec.todo <= s.intents.Keys
    && (forall ws :: ws in rec.seen ==> Extends(rec.seen[ws], Read(s.stores, ws)))
    && (rec.complete ==> forall ws, i :: ws in rec.seen && 0 <= i < |rec.seen[ws].history| ==>
          Resolved(s, rec, rec.seen[ws].history[i]))
  }

  predicate Resolved(s: State, rec: Recovery, e: Entry) {
    e.mutationId in s.owner && (s.owner[e.mutationId] in s.granted || s.owner[e.mutationId] in rec.todo)
  }

  ghost predicate RecoveriesOk(s: State) {
    forall k :: k in s.recoveries ==> RecoveryOk(s, s.recoveries[k])
  }

  ghost predicate Inv(s: State) {
    RunsOk(s) && IntentsOk(s) && StoresOk(s) && GrantsOk(s) && RecoveriesOk(s)
  }

  // ---- Every step keeps it

  /** The parts of the state a step may only extend. */
  ghost predicate Grows(s: State, t: State) {
    StoresGrow(s.stores, t.stores) && RecordsGrow(s, t)
  }

  ghost predicate StoresGrow(from: map<WorkspaceId, Snapshot>, to: map<WorkspaceId, Snapshot>) {
    forall ws :: Extends(Read(from, ws), Read(to, ws))
  }

  ghost predicate RecordsGrow(s: State, t: State) {
    && (forall a, i :: Durable(s, a, i) ==> Durable(t, a, i))
    && (forall a :: a in s.intents ==> a in t.intents && t.intents[a] == s.intents[a])
    && (forall a :: a in s.granted ==> a in t.granted && t.granted[a] == s.granted[a])
    && (forall m :: m in s.owner ==> m in t.owner && t.owner[m] == s.owner[m])
    && (forall a :: a in s.runs ==> a in t.runs && SameGrant(s.runs[a], t.runs[a]))
  }

  /** A run's intent never changes once drawn, and a run never becomes pending again. */
  predicate SameGrant(r: Run, r': Run) {
    && r'.workspace == r.workspace && r'.beforeVersion == r.beforeVersion
    && r'.target == r.target && r'.multi == r.multi
    && (r.mutationId.Some? ==> r'.mutationId == r.mutationId)
    && (!Pending(r.phase) ==> !Pending(r'.phase))
  }

  lemma OneStoreGrows(stores: map<WorkspaceId, Snapshot>, ws: WorkspaceId, next: Snapshot)
    requires Extends(Read(stores, ws), next)
    ensures StoresGrow(stores, stores[ws := next])
  {
  }

  lemma GrowsOn(s: State, t: State, u: State)
    requires Grows(s, t) && Grows(t, u)
    ensures Grows(s, u)
  {
    forall ws ensures Extends(Read(s.stores, ws), Read(u.stores, ws)) {
      ExtendsTransitive(Read(s.stores, ws), Read(t.stores, ws), Read(u.stores, ws));
    }
  }

  lemma IntentsKept(s: State, t: State)
    requires Grows(s, t) && IntentsOk(s)
    requires forall a :: a in t.outbox && !(a in s.outbox && t.outbox[a] == s.outbox[a]) ==> Matches(t, a, t.outbox[a])
    requires forall a :: a in t.intents && !(a in s.intents) ==> Matches(t, a, t.intents[a])
    ensures IntentsOk(t)
  {
  }

  lemma EntryKept(s: State, t: State, ws: WorkspaceId, e: Entry)
    requires Grows(s, t) && EntryOk(s, ws, e)
    ensures EntryOk(t, ws, e)
  {
  }

  lemma StoresKept(s: State, t: State)
    requires Grows(s, t) && StoresOk(s) && t.stores == s.stores
    ensures StoresOk(t)
  {
    forall ws, i | ws in t.stores && 0 <= i < |t.stores[ws].history| ensures EntryOk(t, ws, t.stores[ws].history[i]) {
      EntryKept(s, t, ws, t.stores[ws].history[i]);
    }
  }

  lemma GrantsKept(s: State, t: State)
    requires Grows(s, t) && GrantsOk(s)
    requires forall a :: a in t.granted && a !in s.granted ==> GrantOk(t, a, t.granted[a])
    ensures GrantsOk(t)
  {
    forall a | a in t.granted ensures GrantOk(t, a, t.granted[a]) {
      if a in s.granted {
        var g := t.granted[a];
        HistoryKept(Read(s.stores, g.workspace), Read(t.stores, g.workspace), Entry(g.mutationId, g.afterVersion));
      }
    }
  }

  lemma HistoryKept(a: Snapshot, b: Snapshot, e: Entry)
    requires Extends(a, b) && e in a.history
    ensures e in b.history
  {
    var i :| 0 <= i < |a.history| && a.history[i] == e;
    assert b.history[i] == e;
  }

  lemma RecoveryKept(s: State, t: State, rec: Recovery)
    requires Grows(s, t) && RecoveryOk(s, rec)
    ensures RecoveryOk(t, rec)
  {
    forall ws | ws in rec.seen ensures Extends(rec.seen[ws], Read(t.stores, ws)) {
      ExtendsTransitive(rec.seen[ws], Read(s.stores, ws), Read(t.stores, ws));
    }
    if rec.complete {
      forall ws, i | ws in rec.seen && 0 <= i < |rec.seen[ws].history| ensures Resolved(t, rec, rec.seen[ws].history[i]) {
        assert Resolved(s, rec, rec.seen[ws].history[i]);
      }
    }
  }

  lemma ExtendsTransitive(a: Snapshot, b: Snapshot, c: Snapshot)
    requires Extends(a, b) && Extends(b, c)
    ensures Extends(a, c)
  {
  }

  lemma RecoveriesKept(s: State, t: State)
    requires Grows(s, t) && RecoveriesOk(s) && t.recoveries == s.recoveries
    ensures RecoveriesOk(t)
  {
    forall k | k in t.recoveries ensures RecoveryOk(t, t.recoveries[k]) {
      RecoveryKept(s, t, t.recoveries[k]);
    }
  }

  /** A run that a step does not touch stays in order. */
  lemma RunKept(s: State, t: State, a: ActionId)
    requires Grows(s, t) && a in s.runs && RunOk(s, a) && t.runs[a] == s.runs[a]
    requires t.stores == s.stores
    ensures RunOk(t, a)
  {
  }

  lemma RunsKept(s: State, t: State, a: ActionId)
    requires Grows(s, t) && RunsOk(s) && t.stores == s.stores
    requires t.runs.Keys == s.runs.Keys + {a} && RunOk(t, a)
    requires forall b :: b in s.runs && b != a ==> t.runs[b] == s.runs[b]
    ensures RunsOk(t)
  {
    forall b | b in t.runs ensures RunOk(t, b) {
      if b != a {
        RunKept(s, t, b);
      }
    }
  }

  /** A step that only moves one run along, or starts one. */
  lemma RunStepKeeps(s: State, t: State, a: ActionId)
    requires Inv(s) && Grows(s, t)
    requires t == s.(runs := t.runs)
    requires t.runs.Keys == s.runs.Keys + {a} && RunOk(t, a)
    requires forall b :: b in s.runs && b != a ==> t.runs[b] == s.runs[b]
    ensures Inv(t)
  {
    RunsKept(s, t, a);
    IntentsKept(s, t);
    StoresKept(s, t);
    GrantsKept(s, t);
    RecoveriesKept(s, t);
  }

  lemma StartKeeps(s: State, a: ActionId, r: Run)
    requires Inv(s) && a !in s.runs
    requires r.phase.Asked? && r.mutationId.None? && r.beforeVersion == Read(s.stores, r.workspace).version
    ensures Inv(AfterStart(s, a, r)) && Grows(s, AfterStart(s, a, r))
  {
    StartGrows(s, a, r);
    StartedOk(s, a, r);
    RunStepKeeps(s, AfterStart(s, a, r), a);
  }

  lemma StartGrows(s: State, a: ActionId, r: Run)
    requires a !in s.runs
    ensures Grows(s, AfterStart(s, a, r))
  {
  }

  lemma StartedOk(s: State, a: ActionId, r: Run)
    requires Inv(s) && a !in s.runs
    requires r.phase.Asked? && r.mutationId.None? && r.beforeVersion == Read(s.stores, r.workspace).version
    ensures RunOk(AfterStart(s, a, r), a)
  {
  }

  /** Phases a run may move to from one where `RunOk` holds. */
  predicate Follows(s: State, r: Run, p: Phase) {
    || p.Refused? || p.Done? || p.Crashed?
    || (r.phase.Asked? && p.Recorded?)
    || (r.phase.Ready? && p.Holding? && p.version == Read(s.stores, r.workspace).version
        && p.capabilities == Read(s.stores, r.workspace).capabilities)
    || (r.phase.Holding? && p.Ready?)
  }

  lemma OneRunGrows(s: State, t: State, a: ActionId, r: Run)
    requires t == s.(runs := s.runs[a := r], stores := t.stores)
    requires a in s.runs ==> SameGrant(s.runs[a], r)
    ensures RecordsGrow(s, t)
  {
  }

  lemma PhaseGrows(s: State, a: ActionId, p: Phase)
    requires a in s.runs && Follows(s, s.runs[a], p)
    ensures Grows(s, SetPhase(s, a, p))
  {
    OneRunGrows(s, SetPhase(s, a, p), a, s.runs[a].(phase := p));
  }

  lemma PhaseRunOk(s: State, a: ActionId, p: Phase)
    requires a in s.runs && RunOk(s, a) && Follows(s, s.runs[a], p)
    ensures RunOk(SetPhase(s, a, p), a)
  {
  }

  lemma PhaseKeeps(s: State, a: ActionId, p: Phase)
    requires Inv(s) && a in s.runs && Follows(s, s.runs[a], p)
    ensures Inv(SetPhase(s, a, p)) && Grows(s, SetPhase(s, a, p))
  {
    PhaseGrows(s, a, p);
    PhaseRunOk(s, a, p);
    RunStepKeeps(s, SetPhase(s, a, p), a);
  }

  // ---- Enqueue

  lemma EnqueueGrows(s: State, a: ActionId, m: MutationId, durable: bool, returned: bool)
    requires Inv(s) && a in s.runs && s.runs[a].phase.Recorded? && m !in s.owner && (returned ==> durable)
    ensures Grows(s, AfterEnqueue(s, a, m, durable, returned))
  {
    var t := AfterEnqueue(s, a, m, durable, returned);
    assert RunOk(s, a);
    assert a !in s.outbox by { assert a in s.outbox ==> Matches(s, a, s.outbox[a]); }
    MorePending(s, t);
  }

  lemma MorePending(s: State, t: State)
    requires t.stores == s.stores && t.intents == s.intents && t.granted == s.granted
    requires forall a :: a in s.outbox ==> a in t.outbox && t.outbox[a] == s.outbox[a]
    requires forall m :: m in s.owner ==> m in t.owner && t.owner[m] == s.owner[m]
    requires forall a :: a in s.runs ==> a in t.runs && SameGrant(s.runs[a], t.runs[a])
    ensures Grows(s, t)
  {
  }

  lemma EnqueueKeeps(s: State, a: ActionId, m: MutationId, durable: bool, returned: bool)
    requires Inv(s) && a in s.runs && s.runs[a].phase.Recorded? && m !in s.owner && (returned ==> durable)
    ensures Inv(AfterEnqueue(s, a, m, durable, returned)) && Grows(s, AfterEnqueue(s, a, m, durable, returned))
  {
    var t := AfterEnqueue(s, a, m, durable, returned);
    EnqueueGrows(s, a, m, durable, returned);
    assert RunOk(s, a);
    NewIdHasNotRun(s, s.runs[a].workspace, m);
    RunsKept(s, t, a);
    IntentsKept(s, t);
    StoresKept(s, t);
    GrantsKept(s, t);
    RecoveriesKept(s, t);
  }

  /** A mutation id nobody drew is in no history. */
  lemma NewIdHasNotRun(s: State, ws: WorkspaceId, m: MutationId)
    requires StoresOk(s) && m !in s.owner
    ensures !RanIn(Read(s.stores, ws), m)
  {
    forall i | ws in s.stores && 0 <= i < |s.stores[ws].history| ensures s.stores[ws].history[i].mutationId != m {
      assert EntryOk(s, ws, s.stores[ws].history[i]);
    }
  }

  // ---- Steps that leave the runs and the stores alone

  lemma SideStepKeeps(s: State, t: State)
    requires Inv(s) && Grows(s, t) && t.stores == s.stores && t.runs == s.runs
    requires IntentsOk(t) && GrantsOk(t) && RecoveriesOk(t)
    ensures Inv(t)
  {
    forall a | a in t.runs ensures RunOk(t, a) {
      RunKept(s, t, a);
    }
    StoresKept(s, t);
  }

  lemma FlushAppendKeeps(s: State, a: ActionId)
    requires Inv(s) && a in s.outbox
    ensures var t := s.(intents := Append(s.intents, a, s.outbox[a])); Inv(t) && Grows(s, t)
  {
    var t := s.(intents := Append(s.intents, a, s.outbox[a]));
    assert Matches(s, a, s.outbox[a]);
    assert Grows(s, t);
    IntentsKept(s, t);
    GrantsKept(s, t);
    RecoveriesKept(s, t);
    SideStepKeeps(s, t);
  }

  lemma FlushForgetKeeps(s: State, a: ActionId)
    requires Inv(s) && a in s.outbox && a in s.intents
    ensures var t := s.(outbox := s.outbox - {a}); Inv(t) && Grows(s, t)
  {
    var t := s.(outbox := s.outbox - {a});
    assert Matches(s, a, s.outbox[a]) && Matches(s, a, s.intents[a]);
    assert Grows(s, t);
    IntentsKept(s, t);
    GrantsKept(s, t);
    RecoveriesKept(s, t);
    SideStepKeeps(s, t);
  }

  lemma GrantedKeeps(s: State, a: ActionId, appended: bool)
    requires Inv(s) && a in s.runs && s.runs[a].phase.Installed?
    ensures Inv(AfterGranted(s, a, appended)) && Grows(s, AfterGranted(s, a, appended))
  {
    var mid, t := SetPhase(s, a, Done), AfterGranted(s, a, appended);
    PhaseKeeps(s, a, Done);
    assert t == mid.(granted := t.granted);
    MoreGranted(mid, t);
    GrowsOn(s, mid, t);
    assert RunOk(s, a);
    IntentsKept(mid, t);
    GrantsKept(mid, t);
    RecoveriesKept(mid, t);
    SideStepKeeps(mid, t);
  }

  /** That is so when the outbox holds nothing unflushed; intents of runs that installed nothing do not matter. */
  lemma FlushedListsAll(s: State)
    requires Inv(s) && forall a :: a in s.outbox && a !in s.intents ==> a in s.runs && Pending(s.runs[a].phase)
    ensures AllListed(s)
  {
    forall ws, i | ws in s.stores && 0 <= i < |s.stores[ws].history| ensures Listed(s, s.stores[ws].history[i]) {
      assert EntryOk(s, ws, s.stores[ws].history[i]);
    }
  }

  /** A recovery that starts with the intents of all installed mutations has each of them granted or on its list. */
  lemma ListingOk(s: State, k: nat)
    requires Inv(s) && k !in s.recoveries
    ensures RecoveryOk(AfterListing(s, k), AfterListing(s, k).recoveries[k])
  {
    var t := AfterListing(s, k);
    var rec := t.recoveries[k];
    if rec.complete {
      forall ws, i | ws in rec.seen && 0 <= i < |rec.seen[ws].history| ensures Resolved(t, rec, rec.seen[ws].history[i]) {
        assert Listed(s, s.stores[ws].history[i]);
      }
    }
  }

  lemma ListingKeeps(s: State, k: nat)
    requires Inv(s) && k !in s.recoveries
    ensures Inv(AfterListing(s, k)) && Grows(s, AfterListing(s, k))
  {
    var t := AfterListing(s, k);
    assert Grows(s, t);
    IntentsKept(s, t);
    GrantsKept(s, t);
    ListingOk(s, k);
    OtherRecoveriesKept(s, t, k);
    SideStepKeeps(s, t);
  }

  lemma OtherRecoveriesKept(s: State, t: State, k: nat)
    requires Grows(s, t) && RecoveriesOk(s)
    requires k in t.recoveries && t.recoveries == s.recoveries[k := t.recoveries[k]]
    requires RecoveryOk(t, t.recoveries[k])
    ensures RecoveriesOk(t)
  {
    forall j | j in t.recoveries ensures RecoveryOk(t, t.recoveries[j]) {
      if j != k {
        RecoveryKept(s, t, s.recoveries[j]);
      }
    }
  }

  // ---- Reconciliation

  lemma EntryOfFinds(history: seq<Entry>, i: nat)
    requires DistinctIds(history) && i < |history|
    ensures EntryOf(history, history[i].mutationId) == Some(history[i])
  {
    var found := EntryOf(history, history[i].mutationId);
    assert history[i] in history;
  }

  /** The reconciler's verdict is exact: a version is proven just when the mutation is in the history, and it
      is the mutation's own version. */
  lemma VerdictExact(s: State, a: ActionId)
    requires RunsOk(s) && IntentsOk(s) && StoresOk(s) && a in s.intents
    ensures var i := s.intents[a];
            var snap := Read(s.stores, i.workspace);
            && (ProvenVersion(snap, i).Some? <==> RanIn(snap, i.mutationId))
            && (ProvenVersion(snap, i).Some? ==> Entry(i.mutationId, ProvenVersion(snap, i).value) in snap.history)
  {
    var i := s.intents[a];
    var snap := Read(s.stores, i.workspace);
    assert Matches(s, a, i) && RunOk(s, a);
    if RanIn(snap, i.mutationId) {
      var k :| 0 <= k < |snap.history| && snap.history[k].mutationId == i.mutationId;
      assert EntryOk(s, i.workspace, snap.history[k]);
      EntryOfFinds(snap.history, k);
    } else {
      assert forall x :: x in snap.history ==> x.mutationId != i.mutationId;
    }
  }

  lemma ReconcileGrows(s: State, k: nat, a: ActionId, readOk: bool, appended: bool)
    requires k in s.recoveries && a in s.intents
    ensures Grows(s, AfterReconcile(s, k, a, readOk, appended))
  {
    var t := AfterReconcile(s, k, a, readOk, appended);
    assert t == s.(recoveries := t.recoveries, granted := t.granted);
    MoreGranted(s, t);
  }

  lemma MoreGranted(s: State, t: State)
    requires t == s.(recoveries := t.recoveries, granted := t.granted)
    requires forall a :: a in s.granted ==> a in t.granted && t.granted[a] == s.granted[a]
    ensures Grows(s, t)
  {
  }

  lemma ReconcileGrants(s: State, k: nat, a: ActionId, readOk: bool, appended: bool)
    requires Inv(s) && k in s.recoveries && a in s.intents
    ensures GrantsOk(AfterReconcile(s, k, a, readOk, appended))
  {
    var t := AfterReconcile(s, k, a, readOk, appended);
    ReconcileGrows(s, k, a, readOk, appended);
    VerdictExact(s, a);
    assert Matches(s, a, s.intents[a]);
    GrantsKept(s, t);
  }

  lemma ReconcileKeeps(s: State, k: nat, a: ActionId, readOk: bool, appended: bool)
    requires Inv(s) && k in s.recoveries && a in s.recoveries[k].todo && a in s.intents
    ensures Inv(AfterReconcile(s, k, a, readOk, appended)) && Grows(s, AfterReconcile(s, k, a, readOk, appended))
  {
    var t := AfterReconcile(s, k, a, readOk, appended);
    ReconcileGrows(s, k, a, readOk, appended);
    IntentsKept(s, t);
    ReconcileGrants(s, k, a, readOk, appended);
    ReconcileResolves(s, k, a, readOk, appended);
    OtherRecoveriesKept(s, t, k);
    SideStepKeeps(s, t);
  }

  lemma ReconcileResolves(s: State, k: nat, a: ActionId, readOk: bool, appended: bool)
    requires Inv(s) && k in s.recoveries && a in s.recoveries[k].todo && a in s.intents
    ensures var t := AfterReconcile(s, k, a, readOk, appended); RecoveryOk(t, t.recoveries[k])
  {
    var t := AfterReconcile(s, k, a, readOk, appended);
    var rec, rec' := s.recoveries[k], t.recoveries[k];
    ReconcileGrows(s, k, a, readOk, appended);
    RecoveryKept(s, t, rec);
    if rec'.complete {
      forall ws, i | ws in rec'.seen && 0 <= i < |rec'.seen[ws].history|
        ensures Resolved(t, rec', rec'.seen[ws].history[i])
      {
        EntryResolved(s, k, a, readOk, appended, ws, i);
      }
    }
  }

  /** One entry of the listing: its action was resolved already, or is the one at hand and now granted. */
  lemma EntryResolved(s: State, k: nat, a: ActionId, readOk: bool, appended: bool, ws: WorkspaceId, i: nat)
    requires Inv(s) && k in s.recoveries && a in s.recoveries[k].todo && a in s.intents
    requires ws in s.recoveries[k].seen && i < |s.recoveries[k].seen[ws].history|
    requires var t := AfterReconcile(s, k, a, readOk, appended); t.recoveries[k].complete && RecoveryOk(t, s.recoveries[k])
    ensures var t := AfterReconcile(s, k, a, readOk, appended);
            Resolved(t, t.recoveries[k], s.recoveries[k].seen[ws].history[i])
  {
    var t, rec := AfterReconcile(s, k, a, readOk, appended), s.recoveries[k];
    assert Resolved(t, rec, rec.seen[ws].history[i]);
    if t.owner[rec.seen[ws].history[i].mutationId] == a {
      SeenEntryProven(s, rec, ws, i, a);
      HandledIsGranted(s, k, a, readOk, appended);
    }
  }

  /** An intent that is proven and handled without a failure has its record. */
  lemma HandledIsGranted(s: State, k: nat, a: ActionId, readOk: bool, appended: bool)
    requires k in s.recoveries && a in s.intents
    requires ProvenVersion(Read(s.stores, s.intents[a].workspace), s.intents[a]).Some?
    requires AfterReconcile(s, k, a, readOk, appended).recoveries[k].complete
    ensures a in AfterReconcile(s, k, a, readOk, appended).granted
  {
  }

  /** A mutation a recovery saw in a history is proven when its intent is looked at, however much later. */
  lemma SeenEntryProven(s: State, rec: Recovery, ws: WorkspaceId, i: nat, a: ActionId)
    requires Inv(s) && RecoveryOk(s, rec) && a in s.intents
    requires ws in rec.seen && i < |rec.seen[ws].history|
    requires rec.seen[ws].history[i].mutationId in s.owner && s.owner[rec.seen[ws].history[i].mutationId] == a
    ensures ProvenVersion(Read(s.stores, s.intents[a].workspace), s.intents[a]).Some?
  {
    var e := rec.seen[ws].history[i];
    assert Extends(rec.seen[ws], Read(s.stores, ws));
    assert Read(s.stores, ws).history[i] == e;
    assert EntryOk(s, ws, s.stores[ws].history[i]);
    assert Matches(s, a, s.intents[a]);
    VerdictExact(s, a);
  }

  // ---- Steps that write a store

  /** `t` has a new version of workspace `ws`, whose history is longer only by ids that run `a` did not draw. */
  predicate Written(s: State, t: State, ws: WorkspaceId, a: ActionId)
    requires a in s.runs
  {
    && ws in t.stores && t.stores == s.stores[ws := t.stores[ws]]
    && t.stores[ws].version > Read(s.stores, ws).version
    && (forall i :: |Read(s.stores, ws).history| <= i < |t.stores[ws].history| ==>
          s.runs[a].mutationId != Some(t.stores[ws].history[i].mutationId))
  }

  lemma StillNotRun(before: Snapshot, after: Snapshot, m: MutationId)
    requires before.history <= after.history && !RanIn(before, m)
    requires forall i :: |before.history| <= i < |after.history| ==> after.history[i].mutationId != m
    ensures !RanIn(after, m)
  {
    forall i | 0 <= i < |after.history| ensures after.history[i].mutationId != m {
      if i < |before.history| {
        assert after.history[i] == before.history[i];
      }
    }
  }

  /** A run other than the writer: its snapshot, if any, is now stale. */
  lemma RunKeptOverWrite(s: State, t: State, a: ActionId, ws: WorkspaceId)
    requires Grows(s, t) && a in s.runs && RunOk(s, a) && t.runs[a] == s.runs[a]
    requires Written(s, t, ws, a)
    ensures RunOk(t, a)
  {
    var r := s.runs[a];
    if r.workspace == ws {
      assert Extends(Read(s.stores, ws), Read(t.stores, ws));
      if r.phase.Ready? || r.phase.Holding? {
        StillNotRun(Read(s.stores, ws), t.stores[ws], r.mutationId.value);
      }
      if r.phase.Installed? {
        HistoryKept(Read(s.stores, ws), t.stores[ws], Entry(r.mutationId.value, r.phase.afterVersion));
      }
    }
  }

  lemma AdminGrows(s: State, ws: WorkspaceId, capabilities: seq<Capability>)
    ensures Grows(s, AfterAdmin(s, ws, capabilities))
  {
    OneStoreGrows(s.stores, ws, AfterAdmin(s, ws, capabilities).stores[ws]);
  }

  lemma AdminKeeps(s: State, ws: WorkspaceId, capabilities: seq<Capability>)
    requires Inv(s)
    ensures Inv(AfterAdmin(s, ws, capabilities)) && Grows(s, AfterAdmin(s, ws, capabilities))
  {
    var t := AfterAdmin(s, ws, capabilities);
    AdminGrows(s, ws, capabilities);
    forall a | a in t.runs ensures RunOk(t, a) {
      assert Written(s, t, ws, a);
      RunKeptOverWrite(s, t, a, ws);
    }
    IntentsKept(s, t);
    forall w, i | w in t.stores && 0 <= i < |t.stores[w].history| ensures EntryOk(t, w, t.stores[w].history[i]) {
      EntryKept(s, t, w, Read(s.stores, w).history[i]);
    }
    GrantsKept(s, t);
    RecoveriesKept(s, t);
  }

  lemma CasKeeps(covers: Covers, s: State, a: ActionId, reply: CasReply)
    requires Inv(s) && a in s.runs && s.runs[a].phase.Holding?
    ensures Inv(AfterCas(covers, s, a, reply)) && Grows(s, AfterCas(covers, s, a, reply))
  {
    var r := s.runs[a];
    assert RunOk(s, a);
    if reply.Failed? {
      PhaseKeeps(s, a, Refused);
    } else if reply.Busy? || Read(s.stores, r.workspace).version != r.phase.version {
      PhaseKeeps(s, a, if r.phase.attempt == 0 then Ready(1) else Refused);
    } else {
      InstallKeeps(covers, s, a, reply);
    }
  }

  predicate MayInstall(s: State, a: ActionId, reply: CasReply) {
    && a in s.runs && s.runs[a].phase.Holding? && s.runs[a].mutationId.Some? && (reply.Returned? || reply.ReplyLost?)
    && Read(s.stores, s.runs[a].workspace).version == s.runs[a].phase.version
  }

  lemma InstallGrows(covers: Covers, s: State, a: ActionId, reply: CasReply)
    requires Inv(s) && MayInstall(s, a, reply)
    ensures Grows(s, AfterInstall(covers, s, a, reply))
  {
    var r := s.runs[a];
    var t := AfterInstall(covers, s, a, reply);
    var snap := Read(s.stores, r.workspace);
    assert snap.history <= snap.history + [Entry(r.mutationId.value, snap.version + 1)];
    OneStoreGrows(s.stores, r.workspace, Install(covers, r, snap));
    OneRunGrows(s, t, a, t.runs[a]);
  }

  lemma InstalledRunOk(covers: Covers, s: State, a: ActionId, reply: CasReply)
    requires Inv(s) && MayInstall(s, a, reply)
    ensures RunOk(AfterInstall(covers, s, a, reply), a)
  {
    var r := s.runs[a];
    var snap := Read(s.stores, r.workspace);
    assert RunOk(s, a);
    assert Install(covers, r, snap).history[|snap.history|] == Entry(r.mutationId.value, snap.version + 1);
  }

  lemma InstallWrites(covers: Covers, s: State, a: ActionId, reply: CasReply, b: ActionId)
    requires Inv(s) && MayInstall(s, a, reply) && b in s.runs && b != a
    ensures Written(s, AfterInstall(covers, s, a, reply), s.runs[a].workspace, b)
  {
    assert RunOk(s, a) && RunOk(s, b);
  }

  lemma InstalledRunsOk(covers: Covers, s: State, a: ActionId, reply: CasReply)
    requires Inv(s) && MayInstall(s, a, reply)
    ensures RunsOk(AfterInstall(covers, s, a, reply))
  {
    var t := AfterInstall(covers, s, a, reply);
    var ws := s.runs[a].workspace;
    InstallGrows(covers, s, a, reply);
    InstalledRunOk(covers, s, a, reply);
    forall b | b in t.runs && b != a ensures RunOk(t, b) {
      InstallWrites(covers, s, a, reply, b);
      RunKeptOverWrite(s, t, b, ws);
    }
  }

  lemma InstalledEntryOk(covers: Covers, s: State, a: ActionId, reply: CasReply)
    requires Inv(s) && MayInstall(s, a, reply)
    ensures var t := AfterInstall(covers, s, a, reply);
            EntryOk(t, s.runs[a].workspace, Entry(s.runs[a].mutationId.value, Read(s.stores, s.runs[a].workspace).version + 1))
  {
    InstallGrows(covers, s, a, reply);
    assert RunOk(s, a);
  }

  lemma InstalledEntriesOk(covers: Covers, s: State, a: ActionId, reply: CasReply, w: WorkspaceId, i: nat)
    requires Inv(s) && MayInstall(s, a, reply)
    requires w in AfterInstall(covers, s, a, reply).stores && i < |AfterInstall(covers, s, a, reply).stores[w].history|
    ensures EntryOk(AfterInstall(covers, s, a, reply), w, AfterInstall(covers, s, a, reply).stores[w].history[i])
  {
    var t := AfterInstall(covers, s, a, reply);
    if w == s.runs[a].workspace && i == |Read(s.stores, w).history| {
      InstalledEntryOk(covers, s, a, reply);
    } else {
      InstallGrows(covers, s, a, reply);
      assert t.stores[w].history[i] == Read(s.stores, w).history[i];
      EntryKept(s, t, w, Read(s.stores, w).history[i]);
    }
  }

  lemma InstalledStoresOk(covers: Covers, s: State, a: ActionId, reply: CasReply)
    requires Inv(s) && MayInstall(s, a, reply)
    ensures StoresOk(AfterInstall(covers, s, a, reply))
  {
    var t := AfterInstall(covers, s, a, reply);
    forall w, i | w in t.stores && 0 <= i < |t.stores[w].history| ensures EntryOk(t, w, t.stores[w].history[i]) {
      InstalledEntriesOk(covers, s, a, reply, w, i);
    }
    InstalledDistinct(covers, s, a, reply);
  }

  lemma InstalledDistinct(covers: Covers, s: State, a: ActionId, reply: CasReply)
    requires Inv(s) && MayInstall(s, a, reply)
    ensures var snap := Read(AfterInstall(covers, s, a, reply).stores, s.runs[a].workspace);
            DistinctIds(snap.history) && (snap.latest.Some? ==> RanIn(snap, snap.latest.value))
  {
    var snap := Read(s.stores, s.runs[a].workspace);
    assert RunOk(s, a);
    DistinctOn(snap, Entry(s.runs[a].mutationId.value, snap.version + 1));
  }

  lemma DistinctOn(snap: Snapshot, e: Entry)
    requires DistinctIds(snap.history) && !RanIn(snap, e.mutationId)
    ensures DistinctIds(snap.history + [e])
    ensures RanIn(Snapshot(e.version, [], None, snap.history + [e]), e.mutationId)
  {
    var all := snap.history + [e];
    assert all[|snap.history|] == e;
  }

  lemma InstallKeeps(covers: Covers, s: State, a: ActionId, reply: CasReply)
    requires Inv(s) && MayInstall(s, a, reply)
    ensures Inv(AfterInstall(covers, s, a, reply)) && Grows(s, AfterInstall(covers, s, a, reply))
  {
    var t := AfterInstall(covers, s, a, reply);
    InstallGrows(covers, s, a, reply);
    InstalledRunsOk(covers, s, a, reply);
    IntentsKept(s, t);
    InstalledStoresOk(covers, s, a, reply);
    GrantsKept(s, t);
    RecoveriesKept(s, t);
  }

  predicate OfRun(step: Step) {
    step.Start? || step.RecordApproved? || step.EnqueueIntent? || step.ReadRaw? || step.CompareAndSet?
    || step.RecordGranted? || step.Crash?
  }

  /** Steps that only set the run's phase. */
  lemma PhaseStepsKeep(covers: Covers, s: State, step: Step, t: State)
    requires Inv(s) && Enabled(s, step) && (step.RecordApproved? || step.ReadRaw? || step.Crash?)
    requires t == Next(covers, s, step)
    ensures Inv(t) && Grows(s, t)
  {
    var a := step.action;
    assert t == SetPhase(s, a, t.runs[a].phase);
    assert Follows(s, s.runs[a], t.runs[a].phase);
    PhaseKeeps(s, a, t.runs[a].phase);
  }

  lemma RunStepsKeep(covers: Covers, s: State, step: Step, t: State)
    requires Inv(s) && Enabled(s, step) && OfRun(step) && t == Next(covers, s, step)
    ensures Inv(t) && Grows(s, t)
  {
    if step.RecordApproved? || step.ReadRaw? || step.Crash? {
      PhaseStepsKeep(covers, s, step, t);
    } else {
      match step
      case Start(a, _, _, _, _, _, _) => StartKeeps(s, a, t.runs[a]);
      case EnqueueIntent(a, m, durable, returned) => EnqueueKeeps(s, a, m, durable, returned);
      case CompareAndSet(a, reply) => CasKeeps(covers, s, a, reply);
      case RecordGranted(a, appended) => GrantedKeeps(s, a, appended);
    }
  }

  lemma OtherStepsKeep(covers: Covers, s: State, step: Step, t: State)
    requires Inv(s) && Enabled(s, step) && !OfRun(step) && t == Next(covers, s, step)
    ensures Inv(t) && Grows(s, t)
  {
    match step
    case AdminWrite(ws, capabilities) => AdminKeeps(s, ws, capabilities);
    case FlushAppend(a) => FlushAppendKeeps(s, a);
    case FlushForget(a) => FlushForgetKeeps(s, a);
    case ListIntents(k) => ListingKeeps(s, k);
    case ReconcileOne(k, a, readOk, appended) => ReconcileKeeps(s, k, a, readOk, appended);
  }

  /** The main invariant: every step of every run, crash, administrator, flush and recovery keeps it. */
  lemma StepKeeps(covers: Covers, s: State, step: Step, t: State)
    requires Inv(s) && Enabled(s, step) && t == Next(covers, s, step)
    ensures Inv(t) && Grows(s, t)
  {
    if OfRun(step) {
      RunStepsKeep(covers, s, step, t);
    } else {
      OtherStepsKeep(covers, s, step, t);
    }
  }
}
