/** The durable replay ledger (src/capabilities/execution/persisted-replay-ledger.ts) as a protocol of any
    number of processes over one lock file and one append-only file. A process may die at any step, in the
    middle of an append too. `partial` appends that fail without killing the process are part of the model, so
    that it can be said what they break. */
module ReplayLedger {
  type Pid(==, !new) = nat
  type RequestId(==, !new) = string

  /** What an append put at the end of the file: the whole line with its newline, or the start of it. */
  datatype Piece = Whole(id: RequestId) | Part(id: RequestId)

  /** How much of a line landed. */
  datatype Landing = Nothing | Start | Everything

  datatype Phase =
    | Idle
    | Trying(id: RequestId)
    | Locked(id: RequestId)
    | Loaded(id: RequestId, consumed: set<RequestId>)
    | Writing(id: RequestId)
    | Leaving(id: RequestId, won: bool, throws: bool)  // in `finally`
    | Dead

  datatype Result = Result(pid: Pid, id: RequestId, won: bool)

  datatype State = State(lock: bool, file: seq<Piece>, phases: map<Pid, Phase>, results: seq<Result>)

  datatype Step =
    | Begin(pid: Pid, id: RequestId)
    | TakeLock(pid: Pid)
    | GiveUp(pid: Pid)
    | Load(pid: Pid, ok: bool)
    | Check(pid: Pid)
    | Append(pid: Pid, landing: Landing, ok: bool)
    | Leave(pid: Pid, unlinked: bool)
    | Die(pid: Pid, landing: Landing)

  function PhaseOf(s: State, p: Pid): Phase {
    if p in s.phases then s.phases[p] else Idle
  }

  /** The ids a load finds: a line counts when it is whole and starts at a line start. */
  function Ids(file: seq<Piece>): set<RequestId> {
    set i | 0 <= i < |file| && file[i].Whole? && (i == 0 || file[i - 1].Whole?) :: file[i].id
  }

  function Landed(file: seq<Piece>, id: RequestId, landing: Landing): seq<Piece> {
    match landing
    case Nothing => file
    case Start => file + [Part(id)]
    case Everything => file + [Whole(id)]
  }

  predicate Enabled(s: State, step: Step) {
    var phase := PhaseOf(s, step.pid);
    match step
    case Begin(_, _) => phase.Idle?
    case TakeLock(_) => phase.Trying? && !s.lock
    case GiveUp(_) => phase.Trying?
    case Load(_, _) => phase.Locked?
    case Check(_) => phase.Loaded?
    case Append(_, landing, ok) => phase.Writing? && (ok ==> landing.Everything?)
    case Leave(_, _) => phase.Leaving?
    case Die(_, landing) => !phase.Dead? && (phase.Writing? || landing.Nothing?)
  }

  function At(s: State, p: Pid, phase: Phase): State {
    s.(phases := s.phases[p := phase])
  }

  function Next(s: State, step: Step): State
    requires Enabled(s, step)
  {
    var p := step.pid;
    var phase := PhaseOf(s, p);
    match step
    case Begin(_, id) => At(s, p, Trying(id))
    case TakeLock(_) => At(s.(lock := true), p, Locked(phase.id))
    case GiveUp(_) => At(s.(results := s.results + [Result(p, phase.id, false)]), p, Idle)
    case Load(_, ok) => At(s, p, if ok then Loaded(phase.id, Ids(s.file)) else Leaving(phase.id, false, true))
    case Check(_) => At(s, p, if phase.id in phase.consumed then Leaving(phase.id, false, false) else Writing(phase.id))
    case Append(_, landing, ok) => At(s.(file := Landed(s.file, phase.id, landing)), p, Leaving(phase.id, ok, !ok))
    case Leave(_, unlinked) =>
      At(s.(lock := s.lock && !unlinked,
            results := if phase.throws then s.results else s.results + [Result(p, phase.id, phase.won)]), p, Idle)
    case Die(_, landing) =>
      At(if phase.Writing? then s.(file := Landed(s.file, phase.id, landing)) else s, p, Dead)
  }

  // ---- The invariant

  predicate Critical(phase: Phase) {
    phase.Locked? || phase.Loaded? || phase.Writing? || phase.Leaving?
  }

  /** A process is between taking the lock and unlinking it. */
  ghost predicate Held(s: State) {
    exists p :: Critical(PhaseOf(s, p))
  }

  /** An append failed half-way and its process lives on. */
  predicate Partial(step: Step) {
    step.Append? && step.landing.Start?
  }

  /** The next line will start at a line start: there is no torn line at the end. */
  predicate Intact(file: seq<Piece>) {
    file == [] || file[|file| - 1].Whole?
  }

  /** Once the lock file exists with nobody in the critical section, it stays. */
  ghost predicate Stuck(s: State) {
    s.lock && !Held(s)
  }

  predicate Won(s: State, id: RequestId) {
    exists i :: 0 <= i < |s.results| && s.results[i].id == id && s.results[i].won
  }

  predicate PhaseOk(s: State, p: Pid) {
    var phase := PhaseOf(s, p);
    && (Critical(phase) ==> s.lock && Intact(s.file))
    && (phase.Loaded? ==> phase.consumed == Ids(s.file))
    && (phase.Writing? ==> phase.id !in Ids(s.file))
    && (phase.Leaving? && phase.won ==> phase.id in Ids(s.file) && !phase.throws && !Won(s, phase.id))
  }

  ghost predicate Inv(s: State) {
    && (forall p, q :: Critical(PhaseOf(s, p)) && Critical(PhaseOf(s, q)) ==> p == q)
    && (forall p :: PhaseOk(s, p))
    && (!s.lock ==> Intact(s.file))
    && (forall i :: 0 <= i < |s.results| && s.results[i].won ==> s.results[i].id in Ids(s.file))
    && OnceEach(s.results)
  }

  /** No id was ever won twice. */
  predicate OnceEach(results: seq<Result>) {
    forall i, j :: 0 <= i < j < |results| && results[i].won && results[j].won ==> results[i].id != results[j].id
  }

  lemma IdsGrow(file: seq<Piece>, id: RequestId, landing: Landing)
    ensures Ids(file) <= Ids(Landed(file, id, landing))
    ensures Intact(file) && landing.Everything? ==> Ids(Landed(file, id, landing)) == Ids(file) + {id}
  {
    var longer := Landed(file, id, landing);
    forall x | x in Ids(file) ensures x in Ids(longer) {
      var i :| 0 <= i < |file| && file[i].Whole? && (i == 0 || file[i - 1].Whole?) && file[i].id == x;
      assert longer[i] == file[i] && (i > 0 ==> longer[i - 1] == file[i - 1]);
    }
    if Intact(file) && landing.Everything? {
      assert longer[|file|] == Whole(id);
      assert |file| > 0 ==> longer[|file| - 1].Whole?;
      forall x | x in Ids(longer) ensures x in Ids(file) + {id} {
        var i :| 0 <= i < |longer| && longer[i].Whole? && (i == 0 || longer[i - 1].Whole?) && longer[i].id == x;
        if i < |file| {
          assert file[i] == longer[i];
        }
      }
    }
  }

  lemma StepKeeps(s: State, step: Step)
    requires Inv(s) && Enabled(s, step) && !Partial(step)
    ensures Inv(Next(s, step))
  {
    var t := Next(s, step);
    var p := step.pid;
    assert PhaseOk(s, p);
    if step.Append? || (step.Die? && PhaseOf(s, p).Writing?) {
      IdsGrow(s.file, PhaseOf(s, p).id, step.landing);
    }
    forall q ensures PhaseOk(t, q) {
      assert PhaseOk(s, q);
    }
    forall q, r | Critical(PhaseOf(t, q)) && Critical(PhaseOf(t, r)) ensures q == r {
      assert PhaseOk(s, q) && PhaseOk(s, r);
    }
    if |t.results| > |s.results| && t.results[|s.results|].won {
      assert !Won(s, t.results[|s.results|].id);
    }
    assert OnceEach(t.results);
  }

  // ---- Whole runs

  /** Nobody is at work, and nothing has been answered yet; the file holds whatever earlier times left. */
  predicate Starting(s: State) {
    !s.lock && s.phases == map[] && s.results == []
  }

  ghost predicate Run(states: seq<State>, steps: seq<Step>) {
    && |states| == |steps| + 1 && Starting(states[0])
    && forall i :: 0 <= i < |steps| ==> Enabled(states[i], steps[i]) && states[i + 1] == Next(states[i], steps[i])
  }

  lemma {:induction false} RunKeeps(states: seq<State>, steps: seq<Step>, n: nat)
    requires Run(states, steps) && n < |states| && Intact(states[0].file)
    requires forall i :: 0 <= i < n ==> !Partial(steps[i])
    ensures Inv(states[n])
  {
    if n > 0 {
      RunKeeps(states, steps, n - 1);
      StepKeeps(states[n - 1], steps[n - 1]);
    }
  }

  /** In every run from a file without a torn last line, with deaths anywhere, `consume` returns true at most
      once per request id. */
  lemma ConsumedAtMostOnce(states: seq<State>, steps: seq<Step>, n: nat)
    requires Run(states, steps) && n < |states| && Intact(states[0].file)
    requires forall i :: 0 <= i < n ==> !Partial(steps[i])
    ensures OnceEach(states[n].results)
  {
    RunKeeps(states, steps, n);
  }

  lemma StuckStays(s: State, step: Step)
    requires Stuck(s) && Enabled(s, step)
    ensures Stuck(Next(s, step))
    ensures s.results <= Next(s, step).results
    ensures forall i :: |s.results| <= i < |Next(s, step).results| ==> !Next(s, step).results[i].won
  {
    assert !Critical(PhaseOf(s, step.pid));
    var t := Next(s, step);
    forall p ensures !Critical(PhaseOf(t, p)) {
      assert !Critical(PhaseOf(s, p));
    }
  }

  /** When a process dies holding the lock, no later `consume` returns true, in any continuation. */
  lemma {:induction false} NothingAfterDeath(states: seq<State>, steps: seq<Step>, k: nat, n: nat)
    requires Run(states, steps) && k < n < |states| && Intact(states[0].file)
    requires forall i :: 0 <= i <= k ==> !Partial(steps[i])
    requires steps[k].Die? && Critical(PhaseOf(states[k], steps[k].pid))
    ensures Stuck(states[n]) && states[k + 1].results <= states[n].results
    ensures forall i :: |states[k + 1].results| <= i < |states[n].results| ==> !states[n].results[i].won
  {
    if n == k + 1 {
      RunKeeps(states, steps, k);
      var s, t, p := states[k], states[n], steps[k].pid;
      assert PhaseOk(s, p);
      forall q ensures !Critical(PhaseOf(t, q)) {
        assert q != p ==> PhaseOf(t, q) == PhaseOf(s, q);
      }
    } else {
      NothingAfterDeath(states, steps, k, n - 1);
      StuckStays(states[n - 1], steps[n - 1]);
    }
  }

  // ---- The exact condition

  /** One `consume` of `id` by process 0, with nobody else about. */
  function Attempt(id: RequestId): seq<Step> {
    [Begin(0, id), TakeLock(0), Load(0, true), Check(0), Append(0, Everything, true), Leave(0, true)]
  }

  /** `steps` lead from the first of `states` to the last, and no append among them is half-way. */
  ghost predicate Leads(states: seq<State>, steps: seq<Step>) {
    && |states| == |steps| + 1
    && forall i :: 0 <= i < |steps| ==>
         Enabled(states[i], steps[i]) && states[i + 1] == Next(states[i], steps[i]) && !Partial(steps[i])
  }

  lemma LeadsOn(x: seq<State>, a: seq<Step>, y: seq<State>, b: seq<Step>)
    requires Leads(x, a) && Leads(y, b) && x[|x| - 1] == y[0]
    ensures Leads(x + y[1..], a + b)
  {
    var states, steps := x + y[1..], a + b;
    forall i | 0 <= i < |steps|
      ensures Enabled(states[i], steps[i]) && states[i + 1] == Next(states[i], steps[i]) && !Partial(steps[i])
    {
      if i >= |a| {
        assert steps[i] == b[i - |a|] && states[i] == y[i - |a|] && states[i + 1] == y[i - |a| + 1];
      }
    }
  }

  /** An undisturbed attempt for an id that the file does not show is won and appended. */
  lemma AttemptWins(s: State, id: RequestId) returns (states: seq<State>)
    requires PhaseOf(s, 0).Idle? && !s.lock && id !in Ids(s.file)
    ensures Leads(states, Attempt(id)) && states[0] == s
    ensures var t := states[|states| - 1];
            && PhaseOf(t, 0).Idle? && !t.lock && t.file == s.file + [Whole(id)]
            && t.results == s.results + [Result(0, id, true)]
  {
    var s1 := Next(s, Begin(0, id));
    var s2 := Next(s1, TakeLock(0));
    var s3 := Next(s2, Load(0, true));
    var s4 := Next(s3, Check(0));
    assert s4.file == s.file && s4.results == s.results && s4.lock;
    var s5 := Next(s4, Append(0, Everything, true));
    assert s5.file == s.file + [Whole(id)];
    states := [s, s1, s2, s3, s4, s5, Next(s5, Leave(0, true))];
  }

  /** Behind a torn line the next line is lost. */
  lemma LostBehindTorn(file: seq<Piece>, id: RequestId)
    requires !Intact(file)
    ensures Ids(file + [Whole(id)]) == Ids(file)
  {
    var longer := file + [Whole(id)];
    forall x | x in Ids(longer) ensures x in Ids(file) {
      var i :| 0 <= i < |longer| && longer[i].Whole? && (i == 0 || longer[i - 1].Whole?) && longer[i].id == x;
      assert longer[|file|] == Whole(id) && longer[|file| - 1] == file[|file| - 1];
      assert i < |file| && file[i] == longer[i] && (i > 0 ==> file[i - 1] == longer[i - 1]);
    }
    IdsGrow(file, id, Everything);
  }

  /** From a file that ends in a torn line, two attempts for any id it does not show are both won. */
  lemma TornTailReplays(s: State, id: RequestId) returns (states: seq<State>, steps: seq<Step>)
    requires Starting(s) && !Intact(s.file) && id !in Ids(s.file)
    ensures Leads(states, steps) && states[0] == s
    ensures states[|states| - 1].results == [Result(0, id, true), Result(0, id, true)]
  {
    var first := AttemptWins(s, id);
    var t := first[|first| - 1];
    LostBehindTorn(s.file, id);
    var second := AttemptWins(t, id);
    LeadsOn(first, Attempt(id), second, Attempt(id));
    states, steps := first + second[1..], Attempt(id) + Attempt(id);
  }

  /** Some id is not among finitely many. */
  lemma SomeIdIsNew(ids: set<RequestId>) returns (id: RequestId)
    ensures id !in ids
  {
    var n := Longest(ids);
    id := seq(n + 1, i => 'x');
  }

  lemma {:induction false} Longest(ids: set<RequestId>) returns (n: nat)
    ensures forall id :: id in ids ==> |id| <= n
  {
    if ids == {} {
      n := 0;
    } else {
      var id :| id in ids;
      var m := Longest(ids - {id});
      n := if m < |id| then |id| else m;
    }
  }

  /** No run from here, with deaths anywhere and every append that its process survives landing whole or not at
      all, wins an id twice. */
  ghost predicate OnceFrom(s: State) {
    forall states: seq<State>, steps: seq<Step> :: Leads(states, steps) && states[0] == s ==> OnceEach(states[|states| - 1].results)
  }

  /** The exact condition, which a caller can read off the file: its last line is not torn. So a half-way append
      that its process survives, whose lock is then removed, is just what makes a later id win twice. */
  lemma OnceFromExactly(s: State)
    requires Starting(s)
    ensures OnceFrom(s) <==> Intact(s.file)
  {
    if Intact(s.file) {
      forall states: seq<State>, steps: seq<Step> | Leads(states, steps) && states[0] == s ensures OnceEach(states[|states| - 1].results) {
        assert Run(states, steps);
        ConsumedAtMostOnce(states, steps, |steps|);
      }
    } else {
      var id := SomeIdIsNew(Ids(s.file));
      var states, steps := TornTailReplays(s, id);
      var results := states[|states| - 1].results;
      assert results[0].won && results[1].won && results[0].id == results[1].id;
      assert !OnceEach(results);
    }
  }

  /** How a torn last line comes about while its process lives. */
  lemma PartialAppendTears(s: State, step: Step)
    requires Inv(s) && Enabled(s, step) && Partial(step)
    ensures !Intact(Next(s, step).file)
  {
  }
}
