/** What holds of whole runs of the persistent-grant protocol: any number of actions, processes,
    administrators, flushes, crashes and recoveries, interleaved in any way. */
module GrantRuns {
  import opened Optional
  import opened PolicyMerge
  import opened GrantProtocol

  ghost predicate Trace(covers: Covers, states: seq<State>, steps: seq<Step>) {
    && |states| == |steps| + 1 && states[0] == INITIAL
    && forall i :: 0 <= i < |steps| ==> Moves(covers, states, steps, i)
  }

  ghost predicate Moves(covers: Covers, states: seq<State>, steps: seq<Step>, i: nat)
    requires |states| == |steps| + 1 && i < |steps|
  {
    Enabled(states[i], steps[i]) && states[i + 1] == Next(covers, states[i], steps[i])
  }

  lemma {:induction false} TraceInv(covers: Covers, states: seq<State>, steps: seq<Step>, i: nat)
    requires Trace(covers, states, steps) && i < |states|
    ensures Inv(states[i])
  {
    if i > 0 {
      TraceInv(covers, states, steps, i - 1);
      assert Moves(covers, states, steps, i - 1);
      StepKeeps(covers, states[i - 1], steps[i - 1], states[i]);
    }
  }

  lemma MoveGrows(covers: Covers, states: seq<State>, steps: seq<Step>, i: nat)
    requires Trace(covers, states, steps) && i < |steps|
    ensures Grows(states[i], states[i + 1])
  {
    TraceInv(covers, states, steps, i);
    assert Moves(covers, states, steps, i);
    StepKeeps(covers, states[i], steps[i], states[i + 1]);
  }

  /** Nothing durable is ever lost: histories, intents and committed records only grow. */
  lemma {:induction false} TraceGrows(covers: Covers, states: seq<State>, steps: seq<Step>, i: nat, j: nat)
    requires Trace(covers, states, steps) && i <= j < |states|
    ensures Grows(states[i], states[j])
  {
    if i < j {
      TraceGrows(covers, states, steps, i, j - 1);
      MoveGrows(covers, states, steps, j - 1);
      GrowsOn(states[i], states[j - 1], states[j]);
    }
  }

  // ---- Write-ahead: the intent is durable before the mutation

  /** Only an administrator and a successful compare-and-set write a store. */
  lemma StepWrites(covers: Covers, s: State, step: Step)
    requires Enabled(s, step)
    ensures || Next(covers, s, step).stores == s.stores
            || step.AdminWrite?
            || (step.CompareAndSet? && MayInstall(s, step.action, step.reply)
                && Next(covers, s, step) == AfterInstall(covers, s, step.action, step.reply))
  {
    if !OfRun(step) {
      assert step.AdminWrite? || Next(covers, s, step).stores == s.stores;
    } else if step.CompareAndSet? {
      CasWrites(covers, s, step.action, step.reply);
    }
  }

  lemma CasWrites(covers: Covers, s: State, a: ActionId, reply: CasReply)
    requires a in s.runs && s.runs[a].phase.Holding?
    ensures AfterCas(covers, s, a, reply).stores == s.stores
         || (MayInstall(s, a, reply) && AfterCas(covers, s, a, reply) == AfterInstall(covers, s, a, reply))
  {
    if MayInstall(s, a, reply) {
      CasLands(covers, s, a, reply);
    } else {
      CasMisses(covers, s, a, reply);
    }
  }

  lemma CasLands(covers: Covers, s: State, a: ActionId, reply: CasReply)
    requires MayInstall(s, a, reply)
    ensures AfterCas(covers, s, a, reply) == AfterInstall(covers, s, a, reply)
  {
  }

  lemma CasMisses(covers: Covers, s: State, a: ActionId, reply: CasReply)
    requires a in s.runs && s.runs[a].phase.Holding? && !MayInstall(s, a, reply)
    ensures AfterCas(covers, s, a, reply).stores == s.stores
  {
    var t, p := AfterCas(covers, s, a, reply), AfterCas(covers, s, a, reply).runs[a].phase;
    assert t == SetPhase(s, a, p);
  }

  lemma NewEntryIsInstalled(covers: Covers, states: seq<State>, steps: seq<Step>, i: nat, ws: WorkspaceId, e: Entry)
    requires Trace(covers, states, steps) && i < |steps|
    requires e in Read(states[i + 1].stores, ws).history && e !in Read(states[i].stores, ws).history
    ensures exists a ::
              && a in states[i].runs && states[i].runs[a].workspace == ws
              && states[i].runs[a].phase.Holding? && states[i].runs[a].mutationId == Some(e.mutationId)
              && e.version == Read(states[i].stores, ws).version + 1
  {
    var s, step, t := states[i], steps[i], states[i + 1];
    assert Moves(covers, states, steps, i);
    StepWrites(covers, s, step);
    if step.CompareAndSet? && MayInstall(s, step.action, step.reply) {
      assert s.runs[step.action].workspace == ws || Read(t.stores, ws) == Read(s.stores, ws);
    }
  }

  /** Each mutation in a store's history was preceded by a moment at which its intent was already durable
      and the mutation was not yet installed. */
  lemma {:induction false} IntentBeforeInstall(covers: Covers, states: seq<State>, steps: seq<Step>, j: nat,
                                               ws: WorkspaceId, e: Entry)
    requires Trace(covers, states, steps) && j < |states| && e in Read(states[j].stores, ws).history
    ensures exists i: nat, a: ActionId, before: nat ::
              i < j && before < e.version
              && Durable(states[i], a, Intent(ws, before, e.mutationId)) && !RanIn(Read(states[i].stores, ws), e.mutationId)
  {
    var i := j - 1;
    if e in Read(states[i].stores, ws).history {
      IntentBeforeInstall(covers, states, steps, i, ws, e);
    } else {
      TraceInv(covers, states, steps, i);
      NewEntryIsInstalled(covers, states, steps, i, ws, e);
      var a :| && a in states[i].runs && states[i].runs[a].workspace == ws
               && states[i].runs[a].phase.Holding? && states[i].runs[a].mutationId == Some(e.mutationId);
      HolderIsDurable(states[i], a);
    }
  }

  lemma HolderIsDurable(s: State, a: ActionId)
    requires Inv(s) && a in s.runs && s.runs[a].phase.Holding?
    ensures s.runs[a].mutationId.Some? && Durable(s, a, IntentOf(s.runs[a]))
    ensures !RanIn(Read(s.stores, s.runs[a].workspace), s.runs[a].mutationId.value)
    ensures s.runs[a].beforeVersion <= Read(s.stores, s.runs[a].workspace).version
    ensures s.runs[a].phase.version == Read(s.stores, s.runs[a].workspace).version ==>
              s.runs[a].phase.capabilities == Read(s.stores, s.runs[a].workspace).capabilities
  {
    assert RunOk(s, a);
  }

  // ---- Recovery is exact

  /** Action `a`'s mutation is in the histories, with the given version. */
  predicate RanAt(s: State, stores: map<WorkspaceId, Snapshot>, a: ActionId, version: nat) {
    && a in s.runs && s.runs[a].mutationId.Some?
    && Entry(s.runs[a].mutationId.value, version) in Read(stores, s.runs[a].workspace).history
  }

  /** A committed record is never wrong, whichever path wrote it: live append or recovery. */
  lemma GrantedOnlyIfRan(covers: Covers, states: seq<State>, steps: seq<Step>, j: nat, a: ActionId)
    requires Trace(covers, states, steps) && j < |states| && a in states[j].granted
    ensures var g := states[j].granted[a];
            && RanAt(states[j], states[j].stores, a, g.afterVersion)
            && g == Grant(states[j].runs[a].workspace, states[j].runs[a].beforeVersion,
                          states[j].runs[a].mutationId.value, g.afterVersion)
            && g.beforeVersion < g.afterVersion
  {
    var s := states[j];
    TraceInv(covers, states, steps, j);
    var g := s.granted[a];
    assert GrantOk(s, a, g);
    var i :| 0 <= i < |Read(s.stores, g.workspace).history|
             && Read(s.stores, g.workspace).history[i] == Entry(g.mutationId, g.afterVersion);
    assert EntryOk(s, g.workspace, s.stores[g.workspace].history[i]);
  }

  predicate Finished(rec: Recovery) {
    rec.complete && rec.todo == {}
  }

  /** After a recovery that listed every durable intent and finished without a failure, every mutation the
      stores held at the listing has its committed record, with that mutation's own version. */
  lemma RecoveryComplete(covers: Covers, states: seq<State>, steps: seq<Step>, j: nat, k: nat, a: ActionId, version: nat)
    requires Trace(covers, states, steps) && j < |states|
    requires k in states[j].recoveries && Finished(states[j].recoveries[k])
    requires RanAt(states[j], states[j].recoveries[k].seen, a, version)
    ensures a in states[j].granted && states[j].granted[a].afterVersion == version
  {
    var s := states[j];
    TraceInv(covers, states, steps, j);
    SeenIsGranted(s, s.recoveries[k], a, version);
  }

  lemma SeenIsGranted(s: State, rec: Recovery, a: ActionId, version: nat)
    requires Inv(s) && RecoveryOk(s, rec) && Finished(rec) && RanAt(s, rec.seen, a, version)
    ensures a in s.granted && s.granted[a].afterVersion == version
  {
    var ws, m := s.runs[a].workspace, s.runs[a].mutationId.value;
    var i :| 0 <= i < |Read(rec.seen, ws).history| && Read(rec.seen, ws).history[i] == Entry(m, version);
    assert Resolved(s, rec, rec.seen[ws].history[i]);
    assert Extends(rec.seen[ws], Read(s.stores, ws));
    assert Read(s.stores, ws).history[i] == Entry(m, version);
    assert EntryOk(s, ws, s.stores[ws].history[i]);
    assert GrantOk(s, a, s.granted[a]);
    OneVersion(s.stores[ws].history, i, s.granted[a].afterVersion);
  }

  lemma OneVersion(history: seq<Entry>, i: nat, version: nat)
    requires DistinctIds(history) && i < |history| && Entry(history[i].mutationId, version) in history
    ensures version == history[i].version
  {
    var j :| 0 <= j < |history| && history[j] == Entry(history[i].mutationId, version);
  }

  /** No mutation was installed since: administrators may have written. */
  ghost predicate SameHistories(from: map<WorkspaceId, Snapshot>, to: map<WorkspaceId, Snapshot>) {
    forall ws :: ws in from || ws in to ==> Read(from, ws).history == Read(to, ws).history
  }

  /** The exactness of recovery, whatever administrators wrote before, during and after it: when no further
      mutation was installed since the listing, an action has a committed record exactly when its mutation is
      in the store history, and the record has the history's version. */
  lemma RecoveryExact(covers: Covers, states: seq<State>, steps: seq<Step>, j: nat, k: nat)
    requires Trace(covers, states, steps) && j < |states|
    requires k in states[j].recoveries && Finished(states[j].recoveries[k])
    requires SameHistories(states[j].recoveries[k].seen, states[j].stores)
    ensures forall a, version ::
              (a in states[j].granted && states[j].granted[a].afterVersion == version)
                <==> RanAt(states[j], states[j].stores, a, version)
    ensures Settled(states[j])
  {
    var s := states[j];
    forall a, version | RanAt(s, s.stores, a, version)
      ensures a in s.granted && s.granted[a].afterVersion == version
    {
      var ws := s.runs[a].workspace;
      assert ws in s.stores;
      assert RanAt(s, s.recoveries[k].seen, a, version);
      RecoveryComplete(covers, states, steps, j, k, a, version);
    }
    forall a | a in s.granted
      ensures RanAt(s, s.stores, a, s.granted[a].afterVersion)
    {
      GrantedOnlyIfRan(covers, states, steps, j, a);
    }
  }

  // ---- A second recovery changes nothing

  /** Every mutation in the stores has its committed record. */
  ghost predicate Settled(s: State) {
    forall a, version :: RanAt(s, s.stores, a, version) ==> a in s.granted
  }

  /** What startup recovery does (reload and flush, list, reconcile), and what administrators do beside it. */
  predicate OfRecovery(step: Step) {
    step.FlushAppend? || step.FlushForget? || step.ListIntents? || step.ReconcileOne? || step.AdminWrite?
  }

  lemma SettledReconcile(s: State, k: nat, a: ActionId, readOk: bool, appended: bool)
    requires Inv(s) && Settled(s) && k in s.recoveries && a in s.intents
    ensures AfterReconcile(s, k, a, readOk, appended).granted == s.granted
  {
    var i := s.intents[a];
    VerdictExact(s, a);
    assert Matches(s, a, i);
    var proven := ProvenVersion(Read(s.stores, i.workspace), i);
    assert proven.Some? ==> RanAt(s, s.stores, a, proven.value);
  }

  lemma SettledStep(covers: Covers, s: State, step: Step)
    requires Inv(s) && Settled(s) && Enabled(s, step) && OfRecovery(step)
    ensures var t := Next(covers, s, step); t.granted == s.granted && t.runs == s.runs && SameHistories(s.stores, t.stores)
  {
    OthersRunNothing(covers, s, step);
    if step.AdminWrite? {
      AdminKeepsHistories(s, step.workspace, step.capabilities);
    } else if step.ReconcileOne? {
      SettledReconcile(s, step.recovery, step.action, step.readOk, step.appended);
    }
  }

  lemma AdminKeepsHistories(s: State, ws: WorkspaceId, capabilities: seq<Capability>)
    ensures SameHistories(s.stores, AfterAdmin(s, ws, capabilities).stores)
  {
  }

  lemma SettledOn(s: State, t: State)
    requires Settled(s) && t.granted == s.granted && t.runs == s.runs && SameHistories(s.stores, t.stores)
    ensures Settled(t)
  {
    forall a, version | RanAt(t, t.stores, a, version) ensures a in t.granted {
      assert t.runs[a].workspace in t.stores;
      assert RanAt(s, s.stores, a, version);
    }
  }

  /** Any further recovery steps and administrative writes, in any order and with any failures, leave the
      committed records and the mutation histories as they are. */
  lemma {:induction false} SecondRecoveryChangesNothing(covers: Covers, states: seq<State>, steps: seq<Step>, i: nat, j: nat)
    requires Trace(covers, states, steps) && i <= j < |states| && Settled(states[i])
    requires forall n :: i <= n < j ==> OfRecovery(steps[n])
    ensures states[j].granted == states[i].granted && states[j].runs == states[i].runs && Settled(states[j])
    ensures SameHistories(states[i].stores, states[j].stores)
  {
    if i < j {
      SecondRecoveryChangesNothing(covers, states, steps, i, j - 1);
      TraceInv(covers, states, steps, j - 1);
      assert Moves(covers, states, steps, j - 1);
      SettledStep(covers, states[j - 1], steps[j - 1]);
      SettledOn(states[j - 1], states[j]);
      SameHistoriesOn(states[i].stores, states[j - 1].stores, states[j].stores);
    }
  }

  lemma SameHistoriesOn(x: map<WorkspaceId, Snapshot>, y: map<WorkspaceId, Snapshot>, z: map<WorkspaceId, Snapshot>)
    requires SameHistories(x, y) && SameHistories(y, z)
    ensures SameHistories(x, z)
  {
    forall ws | ws in x || ws in z ensures Read(x, ws).history == Read(z, ws).history {
      assert Read(x, ws).history == Read(y, ws).history || (ws !in x && ws !in y);
      assert Read(y, ws).history == Read(z, ws).history || (ws !in y && ws !in z);
    }
  }

  /** ... and without an administrator, the stores as a whole. */
  lemma {:induction false} RecoveryWritesNoStore(covers: Covers, states: seq<State>, steps: seq<Step>, i: nat, j: nat)
    requires Trace(covers, states, steps) && i <= j < |states|
    requires forall n :: i <= n < j ==> OfRecovery(steps[n]) && !steps[n].AdminWrite?
    ensures states[j].stores == states[i].stores
  {
    if i < j {
      RecoveryWritesNoStore(covers, states, steps, i, j - 1);
      assert Moves(covers, states, steps, j - 1);
      StepWrites(covers, states[j - 1], steps[j - 1]);
    }
  }

  // ---- A denied run whose grant is installed

  /** The step is run `a`'s compare-and-set, at a version that still matches, whose reply is lost. */
  predicate LosesReply(s: State, step: Step, a: ActionId) {
    step.CompareAndSet? && step.action == a && step.reply.ReplyLost? && MayInstall(s, a, step.reply)
  }

  /** The step is run `a`'s compare-and-set at a version that still matches, whether or not its reply arrives. */
  predicate Lands(s: State, step: Step, a: ActionId) {
    step.CompareAndSet? && step.action == a && MayInstall(s, a, step.reply)
  }

  predicate Settling(p: Phase) {
    p.Installed? || p.Done? || p.Crashed?
  }

  /** A run whose installation returned, or that ended otherwise, is never refused afterwards. */
  lemma {:induction false} NotRefusedAfter(covers: Covers, states: seq<State>, steps: seq<Step>, i: nat, j: nat, a: ActionId)
    requires Trace(covers, states, steps) && i <= j < |states|
    requires a in states[i].runs && Settling(states[i].runs[a].phase)
    ensures a in states[j].runs && Settling(states[j].runs[a].phase)
  {
    if i < j {
      NotRefusedAfter(covers, states, steps, i, j - 1, a);
      assert Moves(covers, states, steps, j - 1);
      SettlingStays(covers, states[j - 1], steps[j - 1], a);
    }
  }

  lemma SettlingStays(covers: Covers, s: State, step: Step, a: ActionId)
    requires Enabled(s, step) && a in s.runs && Settling(s.runs[a].phase)
    ensures a in Next(covers, s, step).runs && Settling(Next(covers, s, step).runs[a].phase)
  {
    if !OfRun(step) {
      OthersRunNothing(covers, s, step);
    } else if step.action != a {
      OnlyItsRun(covers, s, step);
    } else {
      assert step.RecordGranted? || step.Crash?;
    }
  }

  lemma OthersRunNothing(covers: Covers, s: State, step: Step)
    requires Enabled(s, step) && !OfRun(step)
    ensures Next(covers, s, step).runs == s.runs
  {
  }

  lemma OnlyItsRun(covers: Covers, s: State, step: Step)
    requires Enabled(s, step) && OfRun(step)
    ensures OnlyRun(s, Next(covers, s, step), step.action)
  {
  }

  /** Which step put an entry into a history. */
  lemma {:induction false} InstalledAt(covers: Covers, states: seq<State>, steps: seq<Step>, j: nat, ws: WorkspaceId, e: Entry)
    returns (i: nat)
    requires Trace(covers, states, steps) && j < |states| && e in Read(states[j].stores, ws).history
    ensures i < j && steps[i].CompareAndSet? && MayInstall(states[i], steps[i].action, steps[i].reply)
    ensures states[i].runs[steps[i].action].mutationId == Some(e.mutationId)
    ensures states[i + 1] == AfterInstall(covers, states[i], steps[i].action, steps[i].reply)
  {
    i := j - 1;
    if e in Read(states[i].stores, ws).history {
      i := InstalledAt(covers, states, steps, i, ws, e);
    } else {
      assert Moves(covers, states, steps, i);
      StepWrites(covers, states[i], steps[i]);
      NewEntryIsOwn(covers, states[i], steps[i], states[i + 1], ws, e);
    }
  }

  lemma NewEntryIsOwn(covers: Covers, s: State, step: Step, t: State, ws: WorkspaceId, e: Entry)
    requires t.stores == s.stores || (step.AdminWrite? && t == AfterAdmin(s, step.workspace, step.capabilities))
          || (step.CompareAndSet? && MayInstall(s, step.action, step.reply) && t == AfterInstall(covers, s, step.action, step.reply))
    requires e in Read(t.stores, ws).history && e !in Read(s.stores, ws).history
    ensures step.CompareAndSet? && MayInstall(s, step.action, step.reply)
    ensures s.runs[step.action].mutationId == Some(e.mutationId) && t == AfterInstall(covers, s, step.action, step.reply)
  {
  }

  /** When an action that drew a mutation, however it ends, has it in its workspace's history. */
  lemma InstalledExactly(covers: Covers, states: seq<State>, steps: seq<Step>, j: nat, a: ActionId)
    requires Trace(covers, states, steps) && j < |states|
    requires a in states[j].runs && states[j].runs[a].mutationId.Some?
    ensures RanIn(Read(states[j].stores, states[j].runs[a].workspace), states[j].runs[a].mutationId.value)
       <==> exists i: nat :: i < j && Lands(states[i], steps[i], a)
  {
    var ws, m := states[j].runs[a].workspace, states[j].runs[a].mutationId.value;
    if RanIn(Read(states[j].stores, ws), m) {
      var k :| 0 <= k < |Read(states[j].stores, ws).history| && Read(states[j].stores, ws).history[k].mutationId == m;
      var i := InstalledAt(covers, states, steps, j, ws, Read(states[j].stores, ws).history[k]);
      OneOwner(covers, states, steps, i, j, steps[i].action, a);
      assert Lands(states[i], steps[i], a);
    }
    forall i: nat | i < j && Lands(states[i], steps[i], a) ensures RanIn(Read(states[j].stores, ws), m) {
      LandedIsInstalled(covers, states, steps, i, j, a);
    }
  }

  /** When an action that the persistent approval itself refused has its grant installed, exactly: an earlier
      step was its own compare-and-set, at a version that still matched, whose reply was lost. The code has no
      revert; `InstallGrants` says what authority is then left behind, and `RecoveryComplete` that a recovery
      records it. */
  lemma DeniedButInstalledExactly(covers: Covers, states: seq<State>, steps: seq<Step>, j: nat, a: ActionId)
    requires Trace(covers, states, steps) && j < |states|
    requires a in states[j].runs && states[j].runs[a].phase.Refused? && states[j].runs[a].mutationId.Some?
    ensures RanIn(Read(states[j].stores, states[j].runs[a].workspace), states[j].runs[a].mutationId.value)
       <==> exists i: nat :: i < j && LosesReply(states[i], steps[i], a)
  {
    InstalledExactly(covers, states, steps, j, a);
    forall i: nat | i < j && Lands(states[i], steps[i], a) ensures LosesReply(states[i], steps[i], a) {
      if steps[i].reply.Returned? {
        ReturnedSettles(covers, states, steps, i, a);
        NotRefusedAfter(covers, states, steps, i + 1, j, a);
      }
    }
    forall i: nat | i < j && LosesReply(states[i], steps[i], a) ensures Lands(states[i], steps[i], a) {
    }
  }

  lemma ReturnedSettles(covers: Covers, states: seq<State>, steps: seq<Step>, i: nat, a: ActionId)
    requires Trace(covers, states, steps) && i + 1 < |states|
    requires Lands(states[i], steps[i], a) && steps[i].reply.Returned?
    ensures a in states[i + 1].runs && Settling(states[i + 1].runs[a].phase)
  {
    assert Moves(covers, states, steps, i);
    CasInstalls(covers, states[i], steps[i]);
  }

  /** Two actions never have one mutation id. */
  lemma OneOwner(covers: Covers, states: seq<State>, steps: seq<Step>, i: nat, j: nat, x: ActionId, y: ActionId)
    requires Trace(covers, states, steps) && i <= j < |states| && x in states[i].runs && y in states[j].runs
    requires states[i].runs[x].mutationId.Some? && states[i].runs[x].mutationId == states[j].runs[y].mutationId
    ensures x == y
  {
    TraceInv(covers, states, steps, i);
    TraceInv(covers, states, steps, j);
    TraceGrows(covers, states, steps, i, j);
    assert RunOk(states[i], x) && RunOk(states[j], y);
  }

  lemma CasInstalls(covers: Covers, s: State, step: Step)
    requires Enabled(s, step) && step.CompareAndSet? && MayInstall(s, step.action, step.reply)
    ensures Next(covers, s, step) == AfterInstall(covers, s, step.action, step.reply)
  {
  }

  lemma LandedIsInstalled(covers: Covers, states: seq<State>, steps: seq<Step>, i: nat, j: nat, a: ActionId)
    requires Trace(covers, states, steps) && i < j < |states| && Lands(states[i], steps[i], a)
    requires a in states[j].runs && states[j].runs[a].mutationId.Some?
    ensures RanIn(Read(states[j].stores, states[j].runs[a].workspace), states[j].runs[a].mutationId.value)
  {
    var r := states[i].runs[a];
    HolderKeepsGrant(covers, states, steps, i, j, a);
    LandsInHistory(covers, states, steps, i, a);
    TraceGrows(covers, states, steps, i + 1, j);
    var mid, after := Read(states[i + 1].stores, r.workspace), Read(states[j].stores, r.workspace);
    assert Extends(mid, after);
    StillRan(mid, after, r.mutationId.value);
  }

  lemma StillRan(mid: Snapshot, after: Snapshot, m: MutationId)
    requires Extends(mid, after) && RanIn(mid, m)
    ensures RanIn(after, m)
  {
    var k :| 0 <= k < |mid.history| && mid.history[k].mutationId == m;
    assert after.history[k] == mid.history[k];
  }

  lemma HolderKeepsGrant(covers: Covers, states: seq<State>, steps: seq<Step>, i: nat, j: nat, a: ActionId)
    requires Trace(covers, states, steps) && i <= j < |states| && a in states[i].runs && states[i].runs[a].mutationId.Some?
    ensures a in states[j].runs && SameGrant(states[i].runs[a], states[j].runs[a])
  {
    TraceGrows(covers, states, steps, i, j);
  }

  lemma LandsInHistory(covers: Covers, states: seq<State>, steps: seq<Step>, i: nat, a: ActionId)
    requires Trace(covers, states, steps) && i + 1 < |states| && Lands(states[i], steps[i], a)
    ensures var r := states[i].runs[a]; RanIn(Read(states[i + 1].stores, r.workspace), r.mutationId.value)
  {
    var r := states[i].runs[a];
    assert Moves(covers, states, steps, i);
    CasInstalls(covers, states[i], steps[i]);
    var before, mid := Read(states[i].stores, r.workspace), Read(states[i + 1].stores, r.workspace);
    assert mid.history[|before.history|].mutationId == r.mutationId.value;
  }

  /** Such a run exists: one requested capability, an empty workspace, and a lost reply. */
  lemma DeniedButInstalled(covers: Covers, a: ActionId, ws: WorkspaceId, target: string, m: MutationId, c: Capability)
    returns (states: seq<State>, steps: seq<Step>)
    ensures Trace(covers, states, steps) && |states| == 6
    ensures a in states[5].runs && states[5].runs[a].phase.Refused? && states[5].runs[a].mutationId == Some(m)
    ensures states[5].runs[a].workspace == ws && RanIn(Read(states[5].stores, ws), m)
    ensures Stamp(c, target) in Read(states[5].stores, ws).capabilities || SetCovers(covers, Read(states[5].stores, ws).capabilities, Stamp(c, target))
  {
    states, steps := HoldingRun(covers, a, ws, target, m, c);
    var s4 := states[4];
    var last := CompareAndSet(a, ReplyLost);
    var s5 := Next(covers, s4, last);
    OneMoreMove(covers, states, steps, last);
    states, steps := states + [s5], steps + [last];
    assert Moves(covers, states, steps, 4);
    assert Lands(states[4], steps[4], a);
    LandsInHistory(covers, states, steps, 4, a);
    InstallGrants(covers, states, steps, 4, c);
  }

  lemma OneMoreMove(covers: Covers, states: seq<State>, steps: seq<Step>, step: Step)
    requires Trace(covers, states, steps) && Enabled(states[|states| - 1], step)
    ensures Trace(covers, states + [Next(covers, states[|states| - 1], step)], steps + [step])
  {
    var states', steps' := states + [Next(covers, states[|states| - 1], step)], steps + [step];
    forall n | 0 <= n < |steps'| ensures Moves(covers, states', steps', n) {
      if n < |steps| {
        assert Moves(covers, states, steps, n);
      }
    }
  }

  /** A run of one requested capability, up to its compare-and-set. */
  lemma HoldingRun(covers: Covers, a: ActionId, ws: WorkspaceId, target: string, m: MutationId, c: Capability)
    returns (states: seq<State>, steps: seq<Step>)
    ensures Trace(covers, states, steps) && |states| == 5 && a in states[4].runs
    ensures MayInstall(states[4], a, ReplyLost) && Enabled(states[4], CompareAndSet(a, ReplyLost))
    ensures var r := states[4].runs[a];
            r.workspace == ws && r.target == target && !r.multi && r.mutationId == Some(m) && c in r.missing
  {
    steps := [Start(a, ws, target, false, false, [], [c]), RecordApproved(a, true), EnqueueIntent(a, m, true, true), ReadRaw(a)];
    var s1 := Next(covers, INITIAL, steps[0]);
    assert c in s1.runs[a].missing;
    var s2 := Next(covers, s1, steps[1]);
    var s3 := Next(covers, s2, steps[2]);
    states := [INITIAL, s1, s2, s3, Next(covers, s3, steps[3])];
    assert Moves(covers, states, steps, 0) && Moves(covers, states, steps, 1);
    assert Moves(covers, states, steps, 2) && Moves(covers, states, steps, 3);
  }

  // ---- Every installed policy is a merge of exactly the version it replaces

  /** The step left the workspace as it was, or installed a merge over what was current just then. */
  ghost predicate Merges(covers: Covers, s: State, t: State, ws: WorkspaceId) {
    || Read(t.stores, ws) == Read(s.stores, ws)
    || (exists a ::
          && a in s.runs && s.runs[a].workspace == ws
          && Read(t.stores, ws).version == Read(s.stores, ws).version + 1
          && Read(t.stores, ws).capabilities
               == Merged(covers, Read(s.stores, ws).capabilities, s.runs[a].target, s.runs[a].multi, Candidates(s.runs[a])))
  }

  lemma StepMerges(covers: Covers, states: seq<State>, steps: seq<Step>, i: nat, ws: WorkspaceId)
    requires Trace(covers, states, steps) && i < |steps| && !steps[i].AdminWrite?
    ensures Merges(covers, states[i], states[i + 1], ws)
  {
    TraceInv(covers, states, steps, i);
    assert Moves(covers, states, steps, i);
    StepWrites(covers, states[i], steps[i]);
    if states[i + 1].stores != states[i].stores {
      InstallMerges(covers, states[i], steps[i].action, steps[i].reply, ws);
    }
  }

  lemma InstallMerges(covers: Covers, s: State, a: ActionId, reply: CasReply, ws: WorkspaceId)
    requires Inv(s) && MayInstall(s, a, reply)
    ensures Merges(covers, s, AfterInstall(covers, s, a, reply), ws)
  {
    HolderIsDurable(s, a);
  }

  lemma CandidatesAreStamped(covers: Covers, own: seq<Capability>, r: Run, c: Capability)
    requires c.principalId.None?
    ensures Count(Added(covers, own, Candidates(r)), c) == 0
  {
    var added := Added(covers, own, Candidates(r));
    assert c !in Candidates(r);
    assert c !in added;
  }

  /** What one merge may do to the number of copies of a capability. */
  lemma MergeMoves(covers: Covers, raw: seq<Capability>, r: Run, c: Capability)
    ensures var next := Merged(covers, raw, r.target, r.multi, Candidates(r));
            && (!Dropped(c, r.multi) ==> Count(next, c) >= Count(raw, c))
            && (c.principalId.None? ==> Count(next, c) == if Dropped(c, r.multi) then 0 else Count(raw, c))
  {
    MergeCount(covers, raw, r.target, r.multi, Candidates(r), c);
    if c.principalId.None? {
      CandidatesAreStamped(covers, Filter(raw, x => Owned(x, r.target)), r, c);
      assert AddedTo(covers, raw, r.target, Candidates(r)) == Added(covers, Filter(raw, x => Owned(x, r.target)), Candidates(r));
    }
  }

  predicate NoAdmin(steps: seq<Step>, i: nat, j: nat)
    requires i <= j <= |steps|
  {
    forall n :: i <= n < j ==> !steps[n].AdminWrite?
  }

  /** A run on this workspace that would drop `c`. */
  predicate Dropper(s: State, ws: WorkspaceId, c: Capability) {
    exists a :: a in s.runs && s.runs[a].workspace == ws && Dropped(c, s.runs[a].multi)
  }

  /** Over any interleaving of approvals by any principals, between administrative writes: a stamped
      capability (another principal's or the approver's own) never loses a copy; an unstamped one keeps
      its exact number of copies; only unstamped universal roots go, and only once a multi-tenant run
      is there to drop them. */
  lemma {:induction false} ApprovalsConserve(covers: Covers, states: seq<State>, steps: seq<Step>, i: nat, j: nat,
                                             ws: WorkspaceId, c: Capability)
    requires Trace(covers, states, steps) && i <= j < |states| && NoAdmin(steps, i, j)
    requires !Dropper(states[j], ws, c)
    ensures Count(Read(states[j].stores, ws).capabilities, c) >= Count(Read(states[i].stores, ws).capabilities, c)
    ensures c.principalId.None? ==>
              Count(Read(states[j].stores, ws).capabilities, c) == Count(Read(states[i].stores, ws).capabilities, c)
  {
    if i < j {
      var s, t := states[j - 1], states[j];
      TraceGrows(covers, states, steps, j - 1, j);
      NoDropperBefore(s, t, ws, c);
      ApprovalsConserve(covers, states, steps, i, j - 1, ws, c);
      StepMerges(covers, states, steps, j - 1, ws);
      if Read(t.stores, ws) != Read(s.stores, ws) {
        var a :| && a in s.runs && s.runs[a].workspace == ws
                 && Read(t.stores, ws).version == Read(s.stores, ws).version + 1
                 && Read(t.stores, ws).capabilities
                      == Merged(covers, Read(s.stores, ws).capabilities, s.runs[a].target, s.runs[a].multi, Candidates(s.runs[a]));
        assert !Dropped(c, s.runs[a].multi);
        MergeMoves(covers, Read(s.stores, ws).capabilities, s.runs[a], c);
      }
    }
  }

  lemma NoDropperBefore(s: State, t: State, ws: WorkspaceId, c: Capability)
    requires Grows(s, t) && !Dropper(t, ws, c)
    ensures !Dropper(s, ws, c)
  {
    forall a | a in s.runs && s.runs[a].workspace == ws ensures !Dropped(c, s.runs[a].multi) {
      assert SameGrant(s.runs[a], t.runs[a]);
    }
  }

  /** What an installed approval leaves in the workspace: every capability it was missing, and for a project
      lifetime every baseline one, stands in the new policy under its stamp, or is covered by it. */
  lemma InstallGrants(covers: Covers, states: seq<State>, steps: seq<Step>, i: nat, c: Capability)
    requires Trace(covers, states, steps) && i < |steps|
    requires steps[i].CompareAndSet? && MayInstall(states[i], steps[i].action, steps[i].reply)
    requires var r := states[i].runs[steps[i].action]; c in r.missing || (r.project && c in r.baseline)
    ensures var r := states[i].runs[steps[i].action];
            var next := Read(states[i + 1].stores, r.workspace).capabilities;
            Stamp(c, r.target) in next || SetCovers(covers, next, Stamp(c, r.target))
  {
    var s, a := states[i], steps[i].action;
    var r := s.runs[a];
    TraceInv(covers, states, steps, i);
    assert Moves(covers, states, steps, i);
    HolderIsDurable(s, a);
    var wanted := (if r.project then r.baseline else []) + r.missing;
    assert c in wanted by {
      assert c in (if r.project then r.baseline else []) || c in r.missing;
    }
    var k :| 0 <= k < |wanted| && wanted[k] == c;
    assert Candidates(r)[k] == Stamp(c, r.target);
    MergedCovers(covers, Read(s.stores, r.workspace).capabilities, r.target, r.multi, Candidates(r), k);
    CasInstalls(covers, s, steps[i]);
  }
}
