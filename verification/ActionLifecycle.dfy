/** One action through its lifecycle (src/domain/permissions/action-lifecycle.ts, `run`): record, evaluate, at
    most one broker round and one re-evaluation, single-use consumption, durable dispatch, execution, terminal
    record. The policy, the broker, the ledger's lock, the audit store's answers, the boundary's result and the
    persistent-grant protocol's outcome are arbitrary; other lifecycles step before every awaited call. */
module ActionLifecycle {
  import opened Optional
  import opened PolicyMerge
  import opened ActionWorld

  datatype Action = Action(
    id: ActionId, digest: Option<string>, principal: Option<PrincipalId>, runId: string, sessionId: Option<string>)

  datatype Reason =
    | CapabilityRevoked | CapabilityExpired | ApprovalUnavailable | ApprovalExpired | InvalidResponse
    | UserDenied | AuditUnavailable | ByPolicy(name: string)

  datatype ApprovalOption = ApprovalOption(id: string, capabilities: seq<Capability>, supported: set<LifetimeKind>)
  datatype Choice = Choice(optionId: string, kind: LifetimeKind)
  datatype Request = Request(
    id: string, expiresAt: nat, options: seq<ApprovalOption>, offered: set<LifetimeKind>, choices: seq<Choice>,
    workspaceId: Option<string>)

  /** What the broker sent back; nothing in it is trusted. `kind` is None for anything but a known lifetime. */
  datatype Answer = Answer(
    approved: bool, digest: Option<string>, requestId: Option<string>, optionId: Option<string>,
    kind: Option<LifetimeKind>, reason: Reason)
  datatype BrokerReply = Unavailable | Malformed | Answered(answer: Answer)

  datatype Decision = Allow(envelope: Envelope) | Deny(reason: Reason) | NeedsApproval(request: Request)

  /** How the persistent-grant protocol ends for this run; a failing install may have landed all the same. */
  datatype Persistence = ReadFails | AlreadyGranted | IntentLost | InstallFails(landed: bool) | Installed

  datatype Environment = Environment(
    refuses: Stage -> bool,                                      // the audit append of this stage throws
    policy: (seq<Capability>, seq<Capability>) -> Decision,      // of the principal's and the active capabilities
    broker: BrokerReply, approvalTime: nat, persistence: Persistence,
    ledgerThrows: bool, claimLands: bool, lockLost: bool, dispatchTime: nat,
    succeeds: bool, cancelled: bool, enqueueThrows: bool)

  /** The option and lifetime an approval selected. */
  datatype Selection = Selection(option: ApprovalOption, kind: LifetimeKind)

  datatype Outcome = Refused(reason: Reason) | Ran(stage: Stage, envelope: Envelope)
  datatype RunResult = Threw | Returned(outcome: Outcome)

  /** What the shared ledger answered this run: to the first check, to that of the approved session, to the
      claim, and to that of the envelope's run or session. */
  datatype Seen = Seen(revoked: bool, sessionRevoked: bool, won: bool, barred: bool)

  /** How a run goes: it throws, it refuses with a record that is required or not, or it dispatches. */
  datatype Fate = Throwing | Denying(required: bool) | Dispatching(envelope: Envelope)

  datatype Verdict = Stopped(result: RunResult) | Decided(selection: Selection, decision: Decision)

  // ---- The audit trail of one action

  /** Trails of a run that is still deciding. */
  predicate Deciding(trail: seq<Stage>) {
    || trail == [Prepared]
    || trail == [Prepared, AwaitingApproval]
    || trail == [Prepared, AwaitingApproval, Approved]
    || trail == [Prepared, AwaitingApproval, Approved, PolicyGranted]
  }

  function GrantedStage(env: Environment): seq<Stage> {
    if env.persistence.Installed? && !env.refuses(PolicyGranted) then [PolicyGranted] else []
  }

  /** The trail once a persistent grant was tried. */
  function PersistTrail(env: Environment): seq<Stage> {
    if env.persistence.ReadFails? || env.refuses(Approved) then [Prepared, AwaitingApproval]
    else [Prepared, AwaitingApproval, Approved] + GrantedStage(env)
  }

  /** The action's part of the world once a persistent grant was tried. */
  function Tried(v: View, env: Environment): View {
    v.(trail := PersistTrail(env), installed := v.installed || (!env.refuses(Approved) && Landed(env.persistence)))
  }

  predicate Idle(v: View) {
    v.pending == [] && v.executed == []
  }

  /** The deciding trail, closed by one more stage. */
  predicate Closed(trail: seq<Stage>, last: Stage) {
    |trail| > 0 && Deciding(trail[..|trail| - 1]) && trail[|trail| - 1] == last
  }

  predicate Terminal(stage: Stage) {
    stage.Succeeded? || stage.Failed? || stage.Cancelled?
  }

  lemma DecidingCloses(trail: seq<Stage>, last: Stage)
    requires Deciding(trail) && (last.Denied? || last.Dispatched?)
    ensures last !in trail && Closed(trail + [last], last)
  {
    assert (trail + [last])[..|trail + [last]| - 1] == trail;
  }

  lemma NoTerminalYet(trail: seq<Stage>, stage: Stage)
    requires Closed(trail, Dispatched) && Terminal(stage)
    ensures stage !in trail
  {
    assert trail == trail[..|trail| - 1] + [Dispatched];
  }

  /** How a run that never reached the boundary may leave its action. */
  predicate Halts(v: View, r: RunResult, refuses: Stage -> bool) {
    && Idle(v)
    && match r
       case Threw => v.trail == [] || Deciding(v.trail)
       case Returned(Refused(_)) => Closed(v.trail, Denied) || (Deciding(v.trail) && refuses(Denied))
       case Returned(Ran(_, _)) => false
  }

  /** How a run that reached the boundary, once, may leave its action: with a terminal stage in the audit
      or in the outbox, or by throwing between the two. */
  predicate Finishes(v: View, r: RunResult, refuses: Stage -> bool) {
    && |v.executed| == 1
    && match r
       case Threw => v.pending == [] && Closed(v.trail, Dispatched)
       case Returned(Refused(_)) => false
       case Returned(Ran(stage, envelope)) =>
         && Terminal(stage) && v.executed[0].envelope == envelope
         && ((v.pending == [] && |v.trail| > 0 && v.trail[|v.trail| - 1] == stage && Closed(v.trail[..|v.trail| - 1], Dispatched))
             || (v.pending == [stage] && Closed(v.trail, Dispatched) && refuses(stage)))
  }

  predicate Ends(v: View, r: RunResult, refuses: Stage -> bool) {
    Halts(v, r, refuses) || Finishes(v, r, refuses)
  }

  // ---- What an approval must satisfy, and what it may change

  predicate Offered(request: Request, s: Selection) {
    && s.option in request.options
    && s.kind in s.option.supported && s.kind in request.offered
    && (request.choices == [] || Choice(s.option.id, s.kind) in request.choices)
  }

  /** The answer approves this very action and request, in time, with an offered option and lifetime. */
  predicate Authorises(reply: BrokerReply, action: Action, request: Request, s: Selection, now: nat, multi: bool) {
    && reply.Answered? && reply.answer.approved
    && reply.answer.digest == action.digest && reply.answer.requestId == Some(request.id)
    && now <= request.expiresAt
    && reply.answer.optionId == Some(s.option.id) && reply.answer.kind == Some(s.kind)
    && Offered(request, s)
    && !(multi && s.kind.ForEverything?)
  }

  function FirstOption(options: seq<ApprovalOption>, id: Option<string>): (o: Option<ApprovalOption>)
    ensures o.Some? ==> o.value in options && Some(o.value.id) == id
  {
    if options == [] then None
    else if Some(options[0].id) == id then Some(options[0])
    else FirstOption(options[1..], id)
  }

  /** The option and lifetime an answer names. */
  function Picked(request: Request, reply: BrokerReply): Option<Selection> {
    if !reply.Answered? || reply.answer.kind.None? then None
    else
      var option := FirstOption(request.options, reply.answer.optionId);
      if option.None? then None else Some(Selection(option.value, reply.answer.kind.value))
  }

  /** The approval that is accepted, if any. */
  function Chosen(reply: BrokerReply, action: Action, request: Request, now: nat, multi: bool): Option<Selection> {
    var s := Picked(request, reply);
    if s.Some? && Authorises(reply, action, request, s.value, now, multi) then s else None
  }

  /** The one rejected answer whose record is best-effort: a global lifetime among many tenants. */
  predicate ForbiddenGlobal(reply: BrokerReply, action: Action, request: Request, now: nat, multi: bool) {
    && multi && reply.Answered? && reply.answer.approved
    && reply.answer.digest == action.digest && reply.answer.requestId == Some(request.id) && now <= request.expiresAt
    && reply.answer.kind == Some(ForEverything) && Picked(request, reply).Some?
  }

  predicate Landed(p: Persistence) {
    p.Installed? || (p.InstallFails? && p.landed)
  }

  predicate Expired(e: Envelope, now: nat) {
    e.expiresAt.Some? && e.expiresAt.value <= now
  }

  /** The principal's capabilities with the approved ones they do not cover already. */
  function Widened(covers: Covers, principal: seq<Capability>, approved: seq<Capability>): seq<Capability> {
    if approved == [] then principal
    else
      var before := Widened(covers, principal, approved[..|approved| - 1]);
      var c := approved[|approved| - 1];
      if SetCovers(covers, before, c) then before else before + [c]
  }

  /** Widening keeps what the principal had and leaves no approved capability uncovered. */
  lemma {:induction false} WidenedCovers(covers: Covers, principal: seq<Capability>, approved: seq<Capability>, k: nat)
    requires k < |approved|
    ensures principal <= Widened(covers, principal, approved)
    ensures approved[k] in Widened(covers, principal, approved) || SetCovers(covers, Widened(covers, principal, approved), approved[k])
  {
    var n := |approved| - 1;
    var front := approved[..n];
    var before, all := Widened(covers, principal, front), Widened(covers, principal, approved);
    if k < n {
      WidenedCovers(covers, principal, front, k);
      if SetCovers(covers, before, approved[k]) {
        var i :| 0 <= i < |before| && covers(before[i], approved[k]);
        assert all[i] == before[i];
      }
    } else if n > 0 {
      WidenedCovers(covers, principal, front, 0);
    }
  }

  /** The envelope of an approved action: the option's capabilities exactly, and the required ones beside them. */
  function Narrowed(covers: Covers, e: Envelope, s: Selection, sessionId: string): Envelope {
    e.(capabilities := s.option.capabilities + Filter(e.capabilities, c => !SetCovers(covers, s.option.capabilities, c)),
       kind := s.kind,
       sessionId := if s.kind.ForSession? then sessionId else e.sessionId)
  }

  /** Narrowing leaves no required capability uncovered and adds none but the approved ones. */
  lemma NarrowedIsExact(covers: Covers, e: Envelope, s: Selection, sessionId: string, c: Capability)
    ensures c in e.capabilities ==>
              c in Narrowed(covers, e, s, sessionId).capabilities || SetCovers(covers, s.option.capabilities, c)
    ensures c in Narrowed(covers, e, s, sessionId).capabilities ==> c in s.option.capabilities || c in e.capabilities
    ensures s.option.capabilities <= Narrowed(covers, e, s, sessionId).capabilities
    ensures c in e.capabilities && SetCovers(covers, s.option.capabilities, c) && c !in s.option.capabilities ==>
              c !in Narrowed(covers, e, s, sessionId).capabilities
  {
  }

  /** The decision that is acted on, given the approval (if any) that was accepted. */
  function Final(covers: Covers, policy: (seq<Capability>, seq<Capability>) -> Decision, principal: seq<Capability>,
                 active: seq<Capability>, selection: Option<Selection>, sessionId: string): Decision
  {
    if selection.None? then policy(principal, active)
    else
      var s := selection.value;
      var again := policy(Widened(covers, principal, s.option.capabilities), active + s.option.capabilities);
      if again.Allow? then Allow(Narrowed(covers, again.envelope, s, sessionId)) else again
  }

  class Lifecycle {
    const world: World
    const covers: Covers
    const multi: bool
    const hasLedger: bool
    const hasOutbox: bool
    const hasStore: bool
    const sessionId: Option<string>
    const workspaceId: Option<string>
    const defaultPrincipal: PrincipalId
    var active: seq<Capability>
    var principal: seq<Capability>

    constructor (world: World, covers: Covers, multi: bool, hasLedger: bool, hasOutbox: bool, hasStore: bool,
                 sessionId: Option<string>, workspaceId: Option<string>, defaultPrincipal: PrincipalId,
                 active: seq<Capability>, principal: seq<Capability>)
      ensures this.world == world && this.covers == covers && this.multi == multi
      ensures this.hasLedger == hasLedger && this.hasOutbox == hasOutbox && this.hasStore == hasStore
      ensures this.sessionId == sessionId && this.workspaceId == workspaceId && this.defaultPrincipal == defaultPrincipal
      ensures this.active == active && this.principal == principal
    {
      this.world, this.covers, this.multi := world, covers, multi;
      this.hasLedger, this.hasOutbox, this.hasStore := hasLedger, hasOutbox, hasStore;
      this.sessionId, this.workspaceId, this.defaultPrincipal := sessionId, workspaceId, defaultPrincipal;
      this.active, this.principal := active, principal;
    }

    function Scope(action: Action): PrincipalId {
      if action.principal.Some? then action.principal.value else defaultPrincipal
    }

    function BoundSession(action: Action): string {
      if action.sessionId.Some? then action.sessionId.value
      else if sessionId.Some? then sessionId.value else ""
    }

    function TargetWorkspace(request: Request, kind: LifetimeKind): string {
      if !kind.ForProject? then "__global__"
      else if request.workspaceId.Some? then request.workspaceId.value
      else if workspaceId.Some? then workspaceId.value else ""
    }

    /** The envelope's run or session is among the revoked. */
    predicate Barred(action: Action, e: Envelope, runs: set<(PrincipalId, string)>, sessions: set<(PrincipalId, string)>) {
      || (e.kind.ForRun? && (Scope(action), e.runId) in runs)
      || (e.kind.ForSession? && (Scope(action), if action.sessionId.Some? then action.sessionId.value else e.sessionId) in sessions)
    }

    ghost predicate Revoked(action: Action) reads world {
      || (action.runId != "" && (Scope(action), action.runId) in world.revokedRuns)
      || (BoundSession(action) != "" && (Scope(action), BoundSession(action)) in world.revokedSessions)
    }

    // ---- How a run goes, given what the ledger answers

    /** A persistent grant can be attempted at all. */
    predicate CanPersist(request: Request, kind: LifetimeKind) {
      hasStore && TargetWorkspace(request, kind) != "" && hasOutbox
    }

    predicate Durable(request: Request, kind: LifetimeKind, env: Environment) {
      && CanPersist(request, kind) && !env.refuses(Approved)
      && (env.persistence.AlreadyGranted? || env.persistence.Installed?)
    }

    /** The selected lifetime holds: a session is bound and not revoked, a persistent grant durable. */
    predicate Holds(action: Action, request: Request, kind: LifetimeKind, env: Environment, sessionRevoked: bool) {
      match kind
      case ForAction => true
      case ForRun => true
      case ForSession => BoundSession(action) != "" && !(hasLedger && sessionRevoked)
      case ForProject => Durable(request, kind, env)
      case ForEverything => Durable(request, kind, env)
    }

    function GateFate(e: Envelope, env: Environment, won: bool, barred: bool): Fate {
      if !hasLedger || e.kind.ForProject? || e.kind.ForEverything? then Dispatching(e)
      else if e.kind.ForAction? then
        if e.digest.None? then Denying(true)
        else if env.ledgerThrows then Throwing
        else if won then Dispatching(e) else Denying(true)
      else if barred || Expired(e, env.dispatchTime) then Denying(true)
      else Dispatching(e)
    }

    function ActFate(decision: Decision, env: Environment, won: bool, barred: bool): Fate {
      if decision.Allow? then GateFate(decision.envelope, env, won, barred) else Denying(true)
    }

    function ApprovalFate(action: Action, request: Request, env: Environment): Fate {
      var s := Chosen(env.broker, action, request, env.approvalTime, multi);
      if env.refuses(AwaitingApproval) then Throwing
      else if s.None? then Denying(!ForbiddenGlobal(env.broker, action, request, env.approvalTime, multi))
      else
        var persistent := s.value.kind.ForProject? || s.value.kind.ForEverything?;
        Denying(!(persistent && CanPersist(request, s.value.kind)))
    }

    /** The approval goes through. */
    predicate Approves(action: Action, request: Request, env: Environment, sessionRevoked: bool) {
      var s := Chosen(env.broker, action, request, env.approvalTime, multi);
      !env.refuses(AwaitingApproval) && s.Some? && Holds(action, request, s.value.kind, env, sessionRevoked)
    }

    /** From the policy's first decision on. */
    function DecidedFate(action: Action, principal: seq<Capability>, active: seq<Capability>, env: Environment, seen: Seen): Fate {
      var first := env.policy(principal, active);
      if !first.NeedsApproval? then ActFate(first, env, seen.won, seen.barred)
      else if !Approves(action, first.request, env, seen.sessionRevoked) then ApprovalFate(action, first.request, env)
      else
        var s := Chosen(env.broker, action, first.request, env.approvalTime, multi);
        ActFate(Final(covers, env.policy, principal, active, s, BoundSession(action)), env, seen.won, seen.barred)
    }

    function FateOf(action: Action, principal: seq<Capability>, active: seq<Capability>, env: Environment, seen: Seen): Fate {
      if env.refuses(Prepared) then Throwing
      else if hasLedger && seen.revoked then Denying(true)
      else DecidedFate(action, principal, active, env, seen)
    }

    /** The result and the calls of the boundary are those of the fate. */
    predicate Fated(fate: Fate, r: RunResult, executed: seq<Execution>, env: Environment) {
      && (r.Threw? <==> Throws(fate, env))
      && (executed != [] <==> fate.Dispatching? && !env.refuses(Dispatched))
      && (r.Returned? && r.outcome.Ran? ==> fate == Dispatching(r.outcome.envelope))
    }

    /** This approval of a persistent lifetime gets as far as the store, and its write lands. */
    predicate Writes(action: Action, request: Request, env: Environment) {
      var s := Chosen(env.broker, action, request, env.approvalTime, multi);
      && !env.refuses(AwaitingApproval) && !env.refuses(Approved)
      && s.Some? && (s.value.kind.ForProject? || s.value.kind.ForEverything?) && CanPersist(request, s.value.kind)
      && Landed(env.persistence)
    }

    /** A run installs a persistent grant. */
    predicate InstallsGrant(action: Action, principal: seq<Capability>, active: seq<Capability>, env: Environment, seen: Seen) {
      var first := env.policy(principal, active);
      && !env.refuses(Prepared) && !(hasLedger && seen.revoked)
      && first.NeedsApproval? && Writes(action, first.request, env)
    }

    /** A grant stays behind a run that executes nothing: its write landed and lost its reply, or it was
        installed and the run was stopped after it. */
    predicate LeavesGrant(action: Action, principal: seq<Capability>, active: seq<Capability>, env: Environment, seen: Seen) {
      && InstallsGrant(action, principal, active, env, seen)
      && (env.persistence.InstallFails?
          || !FateOf(action, principal, active, env, seen).Dispatching? || env.refuses(Dispatched))
    }

    /** When a run of this fate throws. */
    predicate Throws(fate: Fate, env: Environment) {
      match fate
      case Throwing => true
      case Denying(required) => required && env.refuses(Denied)
      case Dispatching(_) => !env.refuses(Dispatched) && TerminalLost(env)
    }

    /** Whatever failed on the way, nothing is dispatched without what the ledger, the approval and the store owe it. */
    lemma FailsClosed(action: Action, principal: seq<Capability>, active: seq<Capability>, env: Environment, seen: Seen)
      ensures var first, fate := env.policy(principal, active), FateOf(action, principal, active, env, seen);
              fate.Dispatching? ==>
                var e := fate.envelope;
                && !env.refuses(Prepared) && !first.Deny?
                && (hasLedger ==> !seen.revoked)
                && (hasLedger && e.kind.ForAction? ==> e.digest.Some? && seen.won && !env.ledgerThrows)
                && (hasLedger && (e.kind.ForRun? || e.kind.ForSession?) ==> !seen.barred && !Expired(e, env.dispatchTime))
                && (first.NeedsApproval? ==>
                      var s := Chosen(env.broker, action, first.request, env.approvalTime, multi);
                      && s.Some? && e.kind == s.value.kind && !env.refuses(AwaitingApproval)
                      && (e.kind.ForSession? ==> BoundSession(action) != "" && (hasLedger ==> !seen.sessionRevoked))
                      && (e.kind.ForProject? || e.kind.ForEverything? ==>
                            && hasStore && hasOutbox && !env.refuses(Approved)
                            && (env.persistence.AlreadyGranted? || env.persistence.Installed?)))
    {
    }

    /** A write that landed and lost its reply is never executed on: the approval has failed. */
    lemma LostWriteExecutesNothing(action: Action, principal: seq<Capability>, active: seq<Capability>, env: Environment, seen: Seen)
      ensures InstallsGrant(action, principal, active, env, seen) && env.persistence.InstallFails? ==>
                FateOf(action, principal, active, env, seen) == Denying(false)
    {
    }

    /** A re-evaluation that denies comes after the install, which stays: such a run is refused with its grant in
        the store. */
    lemma DeniedAfterInstall(action: Action, principal: seq<Capability>, active: seq<Capability>, env: Environment, seen: Seen)
      requires InstallsGrant(action, principal, active, env, seen) && env.persistence.Installed?
      requires var s := Chosen(env.broker, action, env.policy(principal, active).request, env.approvalTime, multi);
               Final(covers, env.policy, principal, active, s, BoundSession(action)).Deny?
      ensures FateOf(action, principal, active, env, seen) == Denying(true) && LeavesGrant(action, principal, active, env, seen)
    {
    }

    /** A denial whose record is required: when the append throws, so does the run. */
    method Refuse(a: ActionId, reason: Reason, env: Environment) returns (r: RunResult)
      requires world.Valid() && Deciding(world.Of(a).trail) && Idle(world.Of(a))
      modifies world
      ensures world.Valid() && Halts(world.Of(a), r, env.refuses)
      ensures world.Of(a).installed == old(world.Of(a).installed)
      ensures world.Kept(old(world.revokedRuns), old(world.revokedSessions), old(world.consumed))
      ensures r == if env.refuses(Denied) then Threw else Returned(Refused(reason))
    {
      DecidingCloses(world.Of(a).trail, Denied);
      world.Append(a, Denied, env.refuses(Denied));
      r := if env.refuses(Denied) then Threw else Returned(Refused(reason));
    }

    /** A denial whose record is best-effort. */
    method RefuseQuietly(a: ActionId, reason: Reason, env: Environment) returns (r: RunResult)
      requires world.Valid() && Deciding(world.Of(a).trail) && Idle(world.Of(a))
      modifies world
      ensures world.Valid() && Halts(world.Of(a), r, env.refuses)
      ensures world.Of(a).installed == old(world.Of(a).installed)
      ensures world.Kept(old(world.revokedRuns), old(world.revokedSessions), old(world.consumed))
      ensures r == Returned(Refused(reason))
    {
      DecidingCloses(world.Of(a).trail, Denied);
      world.Append(a, Denied, env.refuses(Denied));
      r := Returned(Refused(reason));
    }

    /** The write-ahead order around a persistent grant, as far as this action's trail sees it. */
    method Persist(action: Action, request: Request, kind: LifetimeKind, env: Environment) returns (r: Option<RunResult>)
      requires world.Valid() && world.Of(action.id).trail == [Prepared, AwaitingApproval] && Idle(world.Of(action.id))
      modifies world
      ensures world.Valid()
      ensures r.None? <==> Durable(request, kind, env)
      ensures world.Of(action.id).installed <==>
                old(world.Of(action.id).installed)
                || (CanPersist(request, kind) && !env.refuses(Approved) && Landed(env.persistence))
      ensures r.Some? ==> Halts(world.Of(action.id), r.value, env.refuses)
                          && (r.value.Threw? <==> !CanPersist(request, kind) && env.refuses(Denied))
      ensures r.None? ==> Deciding(world.Of(action.id).trail) && Idle(world.Of(action.id))
      ensures r.None? ==> AwaitingApproval in world.Of(action.id).trail && Approved in world.Of(action.id).trail
      ensures world.Kept(old(world.revokedRuns), old(world.revokedSessions), old(world.consumed))
    {
      var a, stopped := action.id, Threw;
      if !hasStore || TargetWorkspace(request, kind) == "" || !hasOutbox {
        stopped := Refuse(a, InvalidResponse, env);
        return Some(stopped);
      }
      r := Install(a, env);
    }

    /** The read, the approval's record, the intent and the compare-and-set; any failure is one denial. */
    method Install(a: ActionId, env: Environment) returns (r: Option<RunResult>)
      requires world.Valid() && world.Of(a).trail == [Prepared, AwaitingApproval] && Idle(world.Of(a))
      modifies world
      ensures world.Valid()
      ensures r.None? <==> !env.refuses(Approved) && (env.persistence.AlreadyGranted? || env.persistence.Installed?)
      ensures world.Of(a).installed <==> old(world.Of(a).installed) || (!env.refuses(Approved) && Landed(env.persistence))
      ensures r.Some? ==> Halts(world.Of(a), r.value, env.refuses) && r.value.Returned?
      ensures r.None? ==> Deciding(world.Of(a).trail) && Idle(world.Of(a))
      ensures r.None? ==> AwaitingApproval in world.Of(a).trail && Approved in world.Of(a).trail
      ensures world.Kept(old(world.revokedRuns), old(world.revokedSessions), old(world.consumed))
    {
      var durable := WriteGrant(a, env);
      assert Deciding(PersistTrail(env));
      if durable {
        return None;
      }
      var stopped := RefuseQuietly(a, ApprovalUnavailable, env);
      r := Some(stopped);
    }

    method WriteGrant(a: ActionId, env: Environment) returns (durable: bool)
      requires world.Valid() && world.Of(a).trail == [Prepared, AwaitingApproval]
      modifies world
      ensures world.Valid()
      ensures world.Of(a) == Tried(old(world.Of(a)), env)
      ensures durable <==> !env.refuses(Approved) && (env.persistence.AlreadyGranted? || env.persistence.Installed?)
      ensures world.Kept(old(world.revokedRuns), old(world.revokedSessions), old(world.consumed))
    {
      ghost var was := world.Of(a);
      if env.persistence.ReadFails? {
        assert was == Tried(was, env);
        return false;
      }
      world.Append(a, Approved, env.refuses(Approved));
      if env.refuses(Approved) {
        assert was == Tried(was, env);
        return false;
      }
      assert world.Of(a) == was.(trail := [Prepared, AwaitingApproval, Approved]);
      durable := CompareAndSet(a, env);
    }

    /** The intent, the compare-and-set if there is anything to write, and the committed record; a lost intent
        writes nothing. */
    method CompareAndSet(a: ActionId, env: Environment) returns (durable: bool)
      requires world.Valid() && world.Of(a).trail == [Prepared, AwaitingApproval, Approved]
      modifies world
      ensures world.Valid()
      ensures world.Of(a) == old(world.Of(a)).(
                trail := [Prepared, AwaitingApproval, Approved] + GrantedStage(env),
                installed := old(world.Of(a).installed) || Landed(env.persistence))
      ensures durable <==> env.persistence.AlreadyGranted? || env.persistence.Installed?
      ensures world.Kept(old(world.revokedRuns), old(world.revokedSessions), old(world.consumed))
    {
      if Landed(env.persistence) {
        world.Install(a);
      }
      if env.persistence.Installed? {
        world.Append(a, PolicyGranted, env.refuses(PolicyGranted));
      }
      return env.persistence.AlreadyGranted? || env.persistence.Installed?;
    }

    /** Checks the broker's answer against the original request. */
    method Select(action: Action, request: Request, env: Environment) returns (s: Option<Selection>, r: RunResult)
      requires world.Valid() && world.Of(action.id).trail == [Prepared, AwaitingApproval] && Idle(world.Of(action.id))
      modifies world
      ensures world.Valid()
      ensures s == Chosen(env.broker, action, request, env.approvalTime, multi)
      ensures world.Of(action.id).installed == old(world.Of(action.id).installed)
      ensures s.None? ==> Halts(world.Of(action.id), r, env.refuses)
      ensures s.None? ==> (r.Threw? <==> env.refuses(Denied)
                                         && !ForbiddenGlobal(env.broker, action, request, env.approvalTime, multi))
      ensures world.Kept(old(world.revokedRuns), old(world.revokedSessions), old(world.consumed))
      ensures s.Some? ==> Authorises(env.broker, action, request, s.value, env.approvalTime, multi)
                          && world.Of(action.id) == old(world.Of(action.id))
    {
      var a := action.id;
      s := None;
      world.Others(a); // while the broker is asked
      if env.broker.Unavailable? {
        r := Refuse(a, ApprovalUnavailable, env);
        return;
      }
      if env.broker.Malformed? {
        r := Refuse(a, InvalidResponse, env);
        return;
      }
      var answer := env.broker.answer;
      if answer.approved && !(answer.digest == action.digest && answer.requestId == Some(request.id)) {
        r := Refuse(a, InvalidResponse, env);
        return;
      }
      if !answer.approved {
        r := Refuse(a, answer.reason, env);
        return;
      }
      if request.expiresAt < env.approvalTime {
        r := Refuse(a, ApprovalExpired, env);
        return;
      }
      var option := FirstOption(request.options, answer.optionId);
      if option.None? {
        r := Refuse(a, InvalidResponse, env);
        return;
      }
      if multi && answer.kind == Some(ForEverything) {
        r := RefuseQuietly(a, InvalidResponse, env);
        return;
      }
      if answer.kind.None? || answer.kind.value !in option.value.supported || answer.kind.value !in request.offered {
        r := Refuse(a, InvalidResponse, env);
        return;
      }
      if |request.choices| > 0 && Choice(option.value.id, answer.kind.value) !in request.choices {
        r := Refuse(a, InvalidResponse, env);
        return;
      }
      return Some(Selection(option.value, answer.kind.value)), Threw;
    }

    /** Resolves the selected lifetime; a session must be bound and not revoked, a persistent grant durable. */
    method Resolve(action: Action, request: Request, kind: LifetimeKind, env: Environment)
      returns (r: Option<RunResult>, ghost revoked: bool)
      requires world.Valid() && world.Of(action.id).trail == [Prepared, AwaitingApproval] && Idle(world.Of(action.id))
      modifies world
      ensures world.Valid() && revoked == ((Scope(action), BoundSession(action)) in old(world.revokedSessions))
      ensures r.None? <==> Holds(action, request, kind, env, revoked)
      ensures world.Of(action.id).installed <==>
                old(world.Of(action.id).installed)
                || ((kind.ForProject? || kind.ForEverything?) && CanPersist(request, kind)
                    && !env.refuses(Approved) && Landed(env.persistence))
      ensures r.Some? ==> Halts(world.Of(action.id), r.value, env.refuses)
      ensures r.Some? ==> (r.value.Threw? <==> env.refuses(Denied)
                                               && !((kind.ForProject? || kind.ForEverything?) && CanPersist(request, kind)))
      ensures world.Kept(old(world.revokedRuns), old(world.revokedSessions), old(world.consumed))
      ensures r.None? ==> Deciding(world.Of(action.id).trail) && Idle(world.Of(action.id))
      ensures r.None? ==> AwaitingApproval in world.Of(action.id).trail
      ensures r.None? ==> (Approved in world.Of(action.id).trail <==> kind.ForProject? || kind.ForEverything?)
    {
      var stopped := Threw;
      r, revoked := None, (Scope(action), BoundSession(action)) in world.revokedSessions;
      match kind
      case ForAction => return;
      case ForRun => return;
      case ForSession =>
        if BoundSession(action) == "" {
          stopped := Refuse(action.id, InvalidResponse, env);
          r := Some(stopped);
          return;
        }
        if hasLedger && (Scope(action), BoundSession(action)) in world.revokedSessions {
          stopped := Refuse(action.id, CapabilityRevoked, env);
          r := Some(stopped);
          return;
        }
        return;
      case ForProject => r := Persist(action, request, kind, env);
      case ForEverything => r := Persist(action, request, kind, env);
    }

    /** The one broker round and the one re-evaluation. */
    method Approve(action: Action, request: Request, env: Environment) returns (v: Verdict, ghost revoked: bool)
      requires world.Valid() && world.Of(action.id).trail == [Prepared] && Idle(world.Of(action.id))
      modifies world, this
      ensures world.Valid()
      ensures v.Stopped? ==> Halts(world.Of(action.id), v.result, env.refuses)
                             && active == old(active) && principal == old(principal)
      ensures v.Decided? <==> Approves(action, request, env, revoked)
      ensures world.Of(action.id).installed <==> old(world.Of(action.id).installed) || Writes(action, request, env)
      ensures v.Stopped? ==> (v.result.Threw? <==> Throws(ApprovalFate(action, request, env), env))
      ensures (Scope(action), BoundSession(action)) in old(world.revokedSessions) ==> revoked
      ensures world.Kept(old(world.revokedRuns), old(world.revokedSessions), old(world.consumed))
      ensures v.Decided? ==>
                && Deciding(world.Of(action.id).trail) && Idle(world.Of(action.id))
                && AwaitingApproval in world.Of(action.id).trail
                && Some(v.selection) == Chosen(env.broker, action, request, env.approvalTime, multi)
                && v.decision == Final(covers, env.policy, old(principal), old(active), Some(v.selection), BoundSession(action))
                && active == old(active) + (if v.selection.kind.ForAction? then [] else v.selection.option.capabilities)
                && principal == (if v.selection.kind.ForAction? then old(principal)
                                 else Widened(covers, old(principal), v.selection.option.capabilities))
    {
      world.Append(action.id, AwaitingApproval, env.refuses(AwaitingApproval));
      revoked := true;
      if env.refuses(AwaitingApproval) {
        v := Stopped(Threw);
        return;
      }
      var s, stopped := Select(action, request, env);
      if s.None? {
        v := Stopped(stopped);
        return;
      }
      var r: Option<RunResult>;
      r, revoked := Resolve(action, request, s.value.kind, env);
      if r.Some? {
        v := Stopped(r.value);
        return;
      }
      var decision := Reevaluate(s.value, BoundSession(action), env);
      v := Decided(s.value, decision);
    }

    method Reevaluate(s: Selection, session: string, env: Environment) returns (decision: Decision)
      modifies this
      ensures decision == Final(covers, env.policy, old(principal), old(active), Some(s), session)
      ensures active == old(active) + (if s.kind.ForAction? then [] else s.option.capabilities)
      ensures principal == if s.kind.ForAction? then old(principal) else Widened(covers, old(principal), s.option.capabilities)
    {
      var approved := s.option.capabilities;
      var wider := Widen(approved);
      decision := env.policy(wider, active + approved);
      if decision.Allow? {
        decision := Allow(Narrowed(covers, decision.envelope, s, session));
      }
      if !s.kind.ForAction? {
        active := active + approved;
        principal := wider;
      }
    }

    method Widen(approved: seq<Capability>) returns (wider: seq<Capability>)
      ensures wider == Widened(covers, principal, approved)
    {
      wider := principal;
      for i := 0 to |approved|
        invariant wider == Widened(covers, principal, approved[..i])
      {
        assert approved[..i + 1][..i] == approved[..i];
        if !SetCovers(covers, wider, approved[i]) {
          wider := wider + [approved[i]];
        }
      }
      assert approved[..|approved|] == approved;
    }

    /** The ledger's gate. `None` lets the run go on; a single-use envelope is then claimed by this action. */
    method Gate(action: Action, e: Envelope, env: Environment) returns (r: Option<RunResult>, ghost won: bool, ghost barred: bool)
      requires world.Valid() && Deciding(world.Of(action.id).trail) && Idle(world.Of(action.id))
      modifies world
      ensures world.Valid()
      ensures r.None? <==> GateFate(e, env, won, barred).Dispatching?
      ensures world.Of(action.id).installed == old(world.Of(action.id).installed)
      ensures r.Some? ==> Halts(world.Of(action.id), r.value, env.refuses)
                          && (r.value.Threw? <==> Throws(GateFate(e, env, won, barred), env))
      ensures r.None? ==> world.Of(action.id).trail == old(world.Of(action.id).trail) && Idle(world.Of(action.id))
      ensures hasLedger && e.kind.ForAction? && e.digest.Some? && !env.ledgerThrows
              && Claim(Scope(action), e.digest.value) in old(world.consumed) ==>
                r == Some(if env.refuses(Denied) then Threw else Returned(Refused(CapabilityExpired)))
      ensures r.None? && hasLedger && e.kind.ForAction? ==>
                e.digest.Some? && Claim(Scope(action), e.digest.value) in world.Of(action.id).claims
                && Claim(Scope(action), e.digest.value) !in old(world.consumed)
      ensures r.None? && hasLedger && (e.kind.ForRun? || e.kind.ForSession?) ==> !barred && !Expired(e, env.dispatchTime)
      ensures barred == Barred(action, e, old(world.revokedRuns), old(world.revokedSessions))
      ensures world.Kept(old(world.revokedRuns), old(world.revokedSessions), old(world.consumed))
    {
      var a, stopped := action.id, Threw;
      r, won, barred := None, false, Barred(action, e, world.revokedRuns, world.revokedSessions);
      if !hasLedger {
        return;
      }
      match e.kind
      case ForAction =>
        if e.digest.None? {
          stopped := Refuse(a, InvalidResponse, env);
          r := Some(stopped);
          return;
        }
        var claimed := false;
        if env.ledgerThrows {
          if env.claimLands {
            claimed := world.Consume(a, Claim(Scope(action), e.digest.value), env.lockLost);
          }
          r := Some(Threw);
          return;
        }
        claimed := world.Consume(a, Claim(Scope(action), e.digest.value), env.lockLost);
        won := claimed;
        if !claimed {
          stopped := Refuse(a, CapabilityExpired, env);
          r := Some(stopped);
        }
      case ForRun =>
        if (Scope(action), e.runId) in world.revokedRuns {
          stopped := Refuse(a, CapabilityRevoked, env);
          r := Some(stopped);
        } else if Expired(e, env.dispatchTime) {
          stopped := Refuse(a, CapabilityExpired, env);
          r := Some(stopped);
        }
      case ForSession =>
        var id := if action.sessionId.Some? then action.sessionId.value else e.sessionId;
        if (Scope(action), id) in world.revokedSessions {
          stopped := Refuse(a, CapabilityRevoked, env);
          r := Some(stopped);
        } else if Expired(e, env.dispatchTime) {
          stopped := Refuse(a, CapabilityExpired, env);
          r := Some(stopped);
        }
      case ForProject =>
      case ForEverything =>
    }

    /** Dispatch record, boundary, terminal record with the outbox behind it. */
    method Dispatch(action: Action, e: Envelope, env: Environment) returns (r: RunResult)
      requires world.Valid() && Deciding(world.Of(action.id).trail) && Idle(world.Of(action.id))
      requires hasLedger && e.kind.ForAction? ==>
                 e.digest.Some? && Claim(Scope(action), e.digest.value) in world.Of(action.id).claims
      modifies world
      ensures world.Valid() && Ends(world.Of(action.id), r, env.refuses) && Called(action, world.Of(action.id).executed)
      ensures r == if env.refuses(Dispatched) then Returned(Refused(AuditUnavailable))
                   else if TerminalLost(env) then Threw
                   else Returned(Ran(Ending(env), e))
      ensures world.Of(action.id).executed != [] <==> !env.refuses(Dispatched)
      ensures world.Of(action.id).installed == old(world.Of(action.id).installed)
    {
      var a := action.id;
      DecidingCloses(world.Of(a).trail, Dispatched);
      world.Append(a, Dispatched, env.refuses(Dispatched));
      if env.refuses(Dispatched) {
        r := RefuseQuietly(a, AuditUnavailable, env);
        return;
      }
      var x := Execution(a, Scope(action), e, hasLedger && e.kind.ForAction?);
      world.Execute(x);
      r := RecordTerminal(a, x, env);
    }

    method RecordTerminal(a: ActionId, x: Execution, env: Environment) returns (r: RunResult)
      requires world.Valid() && Closed(world.Of(a).trail, Dispatched)
      requires world.Of(a).pending == [] && world.Of(a).executed == [x]
      modifies world
      ensures world.Valid() && Finishes(world.Of(a), r, env.refuses) && world.Of(a).executed == [x]
      ensures world.Of(a).installed == old(world.Of(a).installed)
      ensures r == if TerminalLost(env) then Threw
                   else Returned(Ran(Ending(env), x.envelope))
    {
      var stage := Ending(env);
      NoTerminalYet(world.Of(a).trail, stage);
      world.Append(a, stage, env.refuses(stage));
      if env.refuses(stage) {
        if !hasOutbox || env.enqueueThrows {
          return Threw;
        }
        world.Enqueue(a, stage);
      } else {
        assert world.Of(a).trail[..|world.Of(a).trail| - 1] == old(world.Of(a)).trail;
      }
      return Returned(Ran(stage, x.envelope));
    }

    /** The whole lifecycle of one action. */
    method Run(action: Action, env: Environment) returns (r: RunResult, selection: Option<Selection>, ghost seen: Seen)
      requires world.Valid() && world.Of(action.id) == UNSEEN
      modifies world, this
      // the boundary runs at most once, behind an accepted `dispatched`, and the trail is a path
      ensures world.Valid() && Ends(world.Of(action.id), r, env.refuses) && Called(action, world.Of(action.id).executed)
      // it throws, refuses or runs exactly as its fate says, whichever way the policy decides
      ensures Fated(FateOf(action, old(principal), old(active), env, seen), r, world.Of(action.id).executed, env)
      // a persistent grant is installed, and one is left behind a run that executes nothing, exactly then
      ensures world.Of(action.id).installed <==> InstallsGrant(action, old(principal), old(active), env, seen)
      ensures world.Of(action.id).installed && world.Of(action.id).executed == [] <==>
                LeavesGrant(action, old(principal), old(active), env, seen)
      // a revocation the ledger already had is seen, and nothing that it bars is executed
      ensures old(Revoked(action)) ==> seen.revoked && (hasLedger ==> world.Of(action.id).executed == [])
      ensures (Scope(action), BoundSession(action)) in old(world.revokedSessions) ==> seen.sessionRevoked
      ensures hasLedger && r.Returned? && r.outcome.Ran? ==>
                Unspent(action, r.outcome.envelope, old(world.revokedRuns), old(world.revokedSessions), old(world.consumed))
      // authority grows only by what one valid approval selected, and not at all for an action lifetime
      ensures Granted(action, env, selection, old(principal), old(active), principal, active)
      // what ran is what the policy allowed, the second time if it asked for approval the first
      ensures r.Returned? && r.outcome.Ran? ==>
                Final(covers, env.policy, old(principal), old(active), selection, BoundSession(action)) == Allow(r.outcome.envelope)
    {
      selection, seen := None, Seen(true, true, false, false);
      world.Append(action.id, Prepared, env.refuses(Prepared));
      if env.refuses(Prepared) {
        r := Threw;
        return;
      }
      seen := seen.(revoked := Revoked(action));
      if hasLedger && action.runId != "" && (Scope(action), action.runId) in world.revokedRuns {
        r := Refuse(action.id, CapabilityRevoked, env);
        return;
      }
      if hasLedger && BoundSession(action) != "" && (Scope(action), BoundSession(action)) in world.revokedSessions {
        r := Refuse(action.id, CapabilityRevoked, env);
        return;
      }
      ghost var later: Seen;
      r, selection, later := Decide(action, env);
      seen := later.(revoked := seen.revoked);
      LostWriteExecutesNothing(action, old(principal), old(active), env, seen);
    }

    /** From the policy's first decision on. */
    method Decide(action: Action, env: Environment) returns (r: RunResult, selection: Option<Selection>, ghost seen: Seen)
      requires world.Valid() && world.Of(action.id).trail == [Prepared] && Idle(world.Of(action.id))
      modifies world, this
      ensures world.Valid() && Ends(world.Of(action.id), r, env.refuses) && Called(action, world.Of(action.id).executed)
      ensures Fated(DecidedFate(action, old(principal), old(active), env, seen), r, world.Of(action.id).executed, env)
      ensures world.Of(action.id).installed <==>
                old(world.Of(action.id).installed)
                || (var first := env.policy(old(principal), old(active)); first.NeedsApproval? && Writes(action, first.request, env))
      ensures (Scope(action), BoundSession(action)) in old(world.revokedSessions) ==> seen.sessionRevoked
      ensures hasLedger && r.Returned? && r.outcome.Ran? ==>
                Unspent(action, r.outcome.envelope, old(world.revokedRuns), old(world.revokedSessions), old(world.consumed))
      ensures Granted(action, env, selection, old(principal), old(active), principal, active)
      ensures r.Returned? && r.outcome.Ran? ==>
                Final(covers, env.policy, old(principal), old(active), selection, BoundSession(action)) == Allow(r.outcome.envelope)
    {
      var decision := env.policy(principal, active);
      if decision.NeedsApproval? {
        r, selection, seen := DecideByApproval(action, decision.request, env);
      } else {
        ghost var won, barred;
        r, won, barred := Act(action, decision, env);
        selection, seen := None, Seen(true, true, won, barred);
      }
    }

    /** The policy asked for approval. */
    method DecideByApproval(action: Action, request: Request, env: Environment)
      returns (r: RunResult, selection: Option<Selection>, ghost seen: Seen)
      requires world.Valid() && world.Of(action.id).trail == [Prepared] && Idle(world.Of(action.id))
      requires env.policy(principal, active) == NeedsApproval(request)
      modifies world, this
      ensures world.Valid() && Ends(world.Of(action.id), r, env.refuses) && Called(action, world.Of(action.id).executed)
      ensures Fated(DecidedFate(action, old(principal), old(active), env, seen), r, world.Of(action.id).executed, env)
      ensures world.Of(action.id).installed <==> old(world.Of(action.id).installed) || Writes(action, request, env)
      ensures (Scope(action), BoundSession(action)) in old(world.revokedSessions) ==> seen.sessionRevoked
      ensures hasLedger && r.Returned? && r.outcome.Ran? ==>
                Unspent(action, r.outcome.envelope, old(world.revokedRuns), old(world.revokedSessions), old(world.consumed))
      ensures Granted(action, env, selection, old(principal), old(active), principal, active)
      ensures r.Returned? && r.outcome.Ran? ==>
                Final(covers, env.policy, old(principal), old(active), selection, BoundSession(action)) == Allow(r.outcome.envelope)
    {
      selection, seen := None, Seen(true, true, false, false);
      var v: Verdict;
      ghost var won, barred, revoked;
      v, revoked := Approve(action, request, env);
      seen := seen.(sessionRevoked := revoked);
      if v.Stopped? {
        r := v.result;
        assert DecidedFate(action, old(principal), old(active), env, seen) == ApprovalFate(action, request, env);
        return;
      }
      selection := Some(v.selection);
      r, won, barred := Act(action, v.decision, env);
      seen := seen.(won := won, barred := barred);
      assert DecidedFate(action, old(principal), old(active), env, seen) == ActFate(v.decision, env, won, barred);
    }

    /** Authority is as it was, or grown by the one selection that was accepted. */
    predicate Granted(action: Action, env: Environment, selection: Option<Selection>, principal: seq<Capability>,
                      active: seq<Capability>, principal': seq<Capability>, active': seq<Capability>)
    {
      if selection.None? then active' == active && principal' == principal
      else
        var first, s := env.policy(principal, active), selection.value;
        && first.NeedsApproval? && Authorises(env.broker, action, first.request, s, env.approvalTime, multi)
        && active' == active + (if s.kind.ForAction? then [] else s.option.capabilities)
        && principal' == if s.kind.ForAction? then principal else Widened(covers, principal, s.option.capabilities)
    }

    /** The envelope's run or session is not among the revoked, nor a single-use digest among the claimed. */
    ghost predicate Unspent(action: Action, e: Envelope, runs: set<(PrincipalId, string)>, sessions: set<(PrincipalId, string)>,
                            consumed: map<Claim, ActionId>)
    {
      && !Barred(action, e, runs, sessions)
      && (e.kind.ForAction? ==> e.digest.Some? && Claim(Scope(action), e.digest.value) !in consumed)
    }

    /** What the boundary was called with, if it was called: a single-use envelope was always claimed first. */
    predicate Called(action: Action, executed: seq<Execution>) {
      forall i :: 0 <= i < |executed| ==>
        executed[i] == Execution(action.id, Scope(action), executed[i].envelope,
                                 hasLedger && executed[i].envelope.kind.ForAction?)
    }

    predicate TerminalLost(env: Environment) {
      env.refuses(Ending(env)) && (!hasOutbox || env.enqueueThrows)
    }

    /** Acts on the final decision: one terminal denial, or the gate and the dispatch. */
    method Act(action: Action, decision: Decision, env: Environment) returns (r: RunResult, ghost won: bool, ghost barred: bool)
      requires world.Valid() && Deciding(world.Of(action.id).trail) && Idle(world.Of(action.id))
      modifies world
      ensures world.Valid() && Ends(world.Of(action.id), r, env.refuses) && Called(action, world.Of(action.id).executed)
      ensures Fated(ActFate(decision, env, won, barred), r, world.Of(action.id).executed, env)
      ensures world.Of(action.id).installed == old(world.Of(action.id).installed)
      ensures decision.Allow? && hasLedger && ActFate(decision, env, won, barred).Dispatching? ==>
                Unspent(action, decision.envelope, old(world.revokedRuns), old(world.revokedSessions), old(world.consumed))
    {
      won, barred := false, false;
      match decision
      case Deny(reason) => r := Refuse(action.id, reason, env);
      case NeedsApproval(_) => r := Refuse(action.id, ApprovalUnavailable, env);
      case Allow(envelope) =>
        var stopped: Option<RunResult>;
        stopped, won, barred := Gate(action, envelope, env);
        if stopped.Some? {
          r := stopped.value;
          return;
        }
        r := Dispatch(action, envelope, env);
    }

    /** Revokes active authority for the rest of the session. */
    method RevokeActive(revoked: seq<Capability>)
      modifies this`active
      ensures active == Filter(old(active), c => !SetCovers(covers, revoked, c))
      ensures forall c :: c in active ==> forall i :: 0 <= i < |revoked| ==> !covers(revoked[i], c)
    {
      active := Filter(active, c => !SetCovers(covers, revoked, c));
    }
  }

  function Ending(env: Environment): (stage: Stage)
    ensures Terminal(stage)
  {
    if env.succeeds then Succeeded else if env.cancelled then Cancelled else Failed
  }
}
