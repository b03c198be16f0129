/** What the action lifecycles of many processes share: the audit store, the terminal outbox, the capability
    ledger and the execution boundary. Other lifecycles step before every call this model makes, so a
    lifecycle may rely only on what concerns its own action. */
module ActionWorld {
  import opened Optional
  import opened PolicyMerge

  type ActionId(==, !new) = string
  type PrincipalId(==, !new) = string

  datatype Stage =
    Prepared | AwaitingApproval | Approved | PolicyGranted | Denied | Dispatched | Succeeded | Failed | Cancelled

  datatype Event = Event(action: ActionId, stage: Stage)

  datatype LifetimeKind = ForAction | ForRun | ForSession | ForProject | ForEverything

  datatype Envelope = Envelope(
    digest: Option<string>, runId: string, expiresAt: Option<nat>, capabilities: seq<Capability>,
    kind: LifetimeKind, sessionId: string)

  /** A call of the boundary. `single` says that the envelope was consumed from the ledger first. */
  datatype Execution = Execution(action: ActionId, principal: PrincipalId, envelope: Envelope, single: bool)

  /** The ledger's key for a consumed digest. */
  datatype Claim = Claim(principal: PrincipalId, digest: string)

  /** The part of the world that belongs to one action. */
  datatype View = View(
    trail: seq<Stage>, pending: seq<Stage>, executed: seq<Execution>, claims: set<Claim>, installed: bool)

  const UNSEEN: View := View([], [], [], {}, false)

  function Stages(events: seq<Event>, a: ActionId): seq<Stage> {
    if events == [] then []
    else
      var last := events[|events| - 1];
      Stages(events[..|events| - 1], a) + if last.action == a then [last.stage] else []
  }

  function ExecutionsOf(executions: seq<Execution>, a: ActionId): seq<Execution> {
    if executions == [] then []
    else
      var last := executions[|executions| - 1];
      ExecutionsOf(executions[..|executions| - 1], a) + if last.action == a then [last] else []
  }

  function ClaimsOf(consumed: map<Claim, ActionId>, a: ActionId): set<Claim> {
    set c | c in consumed && consumed[c] == a
  }

  lemma {:induction false} StagesHave(events: seq<Event>, a: ActionId, stage: Stage)
    ensures Event(a, stage) in events <==> stage in Stages(events, a)
  {
    if events != [] {
      StagesHave(events[..|events| - 1], a, stage);
    }
  }

  lemma StagesAppend(events: seq<Event>, e: Event, a: ActionId)
    ensures Stages(events + [e], a) == Stages(events, a) + if e.action == a then [e.stage] else []
  {
    assert (events + [e])[..|events|] == events;
  }

  lemma ExecutionsAppend(executions: seq<Execution>, x: Execution, a: ActionId)
    ensures ExecutionsOf(executions + [x], a) == ExecutionsOf(executions, a) + if x.action == a then [x] else []
  {
    assert (executions + [x])[..|executions|] == executions;
  }

  lemma {:induction false} NotExecuted(executions: seq<Execution>, a: ActionId, i: nat)
    requires ExecutionsOf(executions, a) == [] && i < |executions|
    ensures executions[i].action != a
  {
    if i < |executions| - 1 {
      NotExecuted(executions[..|executions| - 1], a, i);
    }
  }

  /** Executions so far: at most one per action, each after a durable `dispatched`, and each single-use one
      backed by a claim that its own action won. */
  ghost predicate Ordered(events: seq<Event>, executions: seq<Execution>, consumed: map<Claim, ActionId>) {
    && (forall i :: 0 <= i < |executions| ==> Backed(events, consumed, executions[i]))
    && (forall i, j :: 0 <= i < j < |executions| ==> executions[i].action != executions[j].action)
  }

  predicate Backed(events: seq<Event>, consumed: map<Claim, ActionId>, x: Execution) {
    && Event(x.action, Dispatched) in events
    && (x.single ==>
          && x.envelope.digest.Some?
          && Claim(x.principal, x.envelope.digest.value) in consumed
          && consumed[Claim(x.principal, x.envelope.digest.value)] == x.action)
  }

  lemma StillOrdered(events: seq<Event>, executions: seq<Execution>, consumed: map<Claim, ActionId>, x: Execution)
    requires Ordered(events, executions, consumed)
    requires ExecutionsOf(executions, x.action) == [] && Dispatched in Stages(events, x.action)
    requires x.single ==> x.envelope.digest.Some? && Claim(x.principal, x.envelope.digest.value) in ClaimsOf(consumed, x.action)
    ensures Ordered(events, executions + [x], consumed)
  {
    forall i: nat | i < |executions| ensures executions[i].action != x.action {
      NotExecuted(executions, x.action, i);
    }
    StagesHave(events, x.action, Dispatched);
  }

  /** Over all runs that share a ledger: a digest executes at most once per principal under single-use envelopes. */
  lemma DigestExecutesOnce(events: seq<Event>, executions: seq<Execution>, consumed: map<Claim, ActionId>, i: nat, j: nat)
    requires Ordered(events, executions, consumed) && i < j < |executions|
    requires executions[i].single && executions[j].single
    ensures executions[i].principal != executions[j].principal || executions[i].envelope.digest != executions[j].envelope.digest
  {
    assert Backed(events, consumed, executions[i]) && Backed(events, consumed, executions[j]);
  }

  class World {
    var events: seq<Event>
    var outbox: seq<Event>
    var consumed: map<Claim, ActionId>
    var executions: seq<Execution>
    var revokedRuns: set<(PrincipalId, string)>
    var revokedSessions: set<(PrincipalId, string)>
    var installed: set<ActionId>          // whose persistent grant a policy store has in its history

    ghost predicate Valid() reads this {
      Ordered(events, executions, consumed)
    }

    function Of(a: ActionId): View reads this {
      View(Stages(events, a), Stages(outbox, a), ExecutionsOf(executions, a), ClaimsOf(consumed, a), a in installed)
    }

    /** Revocations and claims are never taken back. */
    ghost predicate Kept(runs: set<(PrincipalId, string)>, sessions: set<(PrincipalId, string)>, claims: map<Claim, ActionId>)
      reads this
    {
      revokedRuns >= runs && revokedSessions >= sessions && consumed.Keys >= claims.Keys
    }

    constructor ()
      ensures Valid() && forall a :: Of(a) == UNSEEN
    {
      events, outbox, consumed, executions := [], [], map[], [];
      revokedRuns, revokedSessions, installed := {}, {}, {};
    }

    // ---- The steps of one action

    method RawAppend(a: ActionId, stage: Stage)
      requires Valid()
      modifies this`events
      ensures Valid()
      ensures Of(a) == old(Of(a)).(trail := if stage in old(Of(a)).trail then old(Of(a)).trail else old(Of(a)).trail + [stage])
      ensures forall b :: b != a ==> Of(b) == old(Of(b))
    {
      var e := Event(a, stage);
      StagesHave(events, a, stage);
      forall b { StagesAppend(events, e, b); }
      if e !in events {
        events := events + [e];
      }
    }

    method RawEnqueue(a: ActionId, stage: Stage)
      requires Valid()
      modifies this`outbox
      ensures Valid()
      ensures Of(a) == old(Of(a)).(pending := old(Of(a)).pending + [stage])
      ensures forall b :: b != a ==> Of(b) == old(Of(b))
    {
      forall b { StagesAppend(outbox, Event(a, stage), b); }
      outbox := outbox + [Event(a, stage)];
    }

    /** The ledger's `consume`: true for the first caller only. */
    method RawConsume(a: ActionId, c: Claim) returns (won: bool)
      requires Valid()
      modifies this`consumed
      ensures Valid()
      ensures won <==> c !in old(consumed)
      ensures consumed.Keys == old(consumed.Keys) + {c}
      ensures Of(a) == old(Of(a)).(claims := old(Of(a)).claims + if won then {c} else {})
      ensures forall b :: b != a ==> Of(b) == old(Of(b))
    {
      won := c !in consumed;
      if won {
        consumed := consumed[c := a];
      }
    }

    method RawInstall(a: ActionId)
      requires Valid()
      modifies this`installed
      ensures Valid()
      ensures Of(a) == old(Of(a)).(installed := true)
      ensures forall b :: b != a ==> Of(b) == old(Of(b))
    {
      installed := installed + {a};
    }

    method RawExecute(x: Execution)
      requires Valid() && Of(x.action).executed == [] && Dispatched in Of(x.action).trail
      requires x.single ==> x.envelope.digest.Some? && Claim(x.principal, x.envelope.digest.value) in Of(x.action).claims
      modifies this`executions
      ensures Valid()
      ensures Of(x.action) == old(Of(x.action)).(executed := [x])
      ensures forall b :: b != x.action ==> Of(b) == old(Of(b))
    {
      forall b { ExecutionsAppend(executions, x, b); }
      StillOrdered(events, executions, consumed, x);
      executions := executions + [x];
    }

    /** Any number of steps of other actions, flushes of their outbox events, and revocations. */
    method Others(me: ActionId)
      requires Valid()
      modifies this
      ensures Valid() && Of(me) == old(Of(me))
      ensures Kept(old(revokedRuns), old(revokedSessions), old(consumed))
    {
      var steps: nat := *;
      while steps > 0
        invariant Valid() && Of(me) == old(Of(me))
        invariant Kept(old(revokedRuns), old(revokedSessions), old(consumed))
      {
        steps := steps - 1;
        var a: ActionId, stage: Stage, c: Claim, x: Execution, principal: PrincipalId, id: string := *, *, *, *, *, *;
        if
        case a != me => RawAppend(a, stage);
        case a != me => RawEnqueue(a, stage);
        case a != me => var won := RawConsume(a, c);
        case x.action != me && Of(x.action).executed == [] && Dispatched in Of(x.action).trail
             && (x.single ==> x.envelope.digest.Some? && Claim(x.principal, x.envelope.digest.value) in Of(x.action).claims) =>
          RawExecute(x);
        case a != me => RawInstall(a);
        case true => revokedRuns := revokedRuns + {(principal, id)};
        case true => revokedSessions := revokedSessions + {(principal, id)};
      }
    }

    // ---- The awaited calls of one run: others step, then the call takes effect

    method Append(a: ActionId, stage: Stage, refused: bool)
      requires Valid()
      modifies this
      ensures Valid()
      ensures Of(a) == if refused || stage in old(Of(a)).trail then old(Of(a))
                       else old(Of(a)).(trail := old(Of(a)).trail + [stage])
      ensures Kept(old(revokedRuns), old(revokedSessions), old(consumed))
    {
      Others(a);
      if !refused {
        RawAppend(a, stage);
      }
    }

    method Enqueue(a: ActionId, stage: Stage)
      requires Valid()
      modifies this
      ensures Valid()
      ensures Of(a) == old(Of(a)).(pending := old(Of(a)).pending + [stage])
      ensures Kept(old(revokedRuns), old(revokedSessions), old(consumed))
    {
      Others(a);
      RawEnqueue(a, stage);
    }

    /** The policy store's compare-and-set, whether or not its reply arrives. */
    method Install(a: ActionId)
      requires Valid()
      modifies this
      ensures Valid()
      ensures Of(a) == old(Of(a)).(installed := true)
      ensures Kept(old(revokedRuns), old(revokedSessions), old(consumed))
    {
      Others(a);
      RawInstall(a);
    }

    /** `lockLost` is the ledger giving up on its lock file: it then answers false and consumes nothing. */
    method Consume(a: ActionId, c: Claim, lockLost: bool) returns (won: bool)
      requires Valid()
      modifies this
      ensures Valid()
      ensures Of(a) == old(Of(a)).(claims := old(Of(a)).claims + if won then {c} else {})
      ensures lockLost || c in old(consumed) ==> !won
      ensures Kept(old(revokedRuns), old(revokedSessions), old(consumed))
    {
      Others(a);
      if lockLost {
        won := false;
      } else {
        won := RawConsume(a, c);
      }
    }

    method Execute(x: Execution)
      requires Valid() && Of(x.action).executed == [] && Dispatched in Of(x.action).trail
      requires x.single ==> x.envelope.digest.Some? && Claim(x.principal, x.envelope.digest.value) in Of(x.action).claims
      modifies this
      ensures Valid()
      ensures Of(x.action) == old(Of(x.action)).(executed := [x])
      ensures Kept(old(revokedRuns), old(revokedSessions), old(consumed))
    {
      Others(x.action);
      RawExecute(x);
    }
  }
}
