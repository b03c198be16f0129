/** The Docker worker scheduler (src/capabilities/execution/docker-worker-scheduler.ts): dispatch records that
    survive restarts. Dispatches and cancels come one at a time and saves succeed, but the process may die at
    every await; it then starts again from the file. */
module WorkerScheduler {
  import opened Optional

  type Id(==, !new) = string
  type Nonce(==, !new) = string

  datatype Progress = Launching | Running | Completed | Failed

  datatype Record = Record(id: Id, nonce: Nonce, lease: string, result: Option<string>, progress: Progress)

  datatype Request = Request(id: Id, nonce: Nonce, lease: string, authentic: bool, valid: bool)

  /** What the engine and the worker do, and the await at which the process dies, if it does. */
  datatype Engine = Engine(mountOk: bool, creates: bool, answer: Option<string>, diesAt: nat)

  datatype Outcome = Rejected | Replay | Pending | LaunchFailed | Result(result: string) | Died

  /** The nonce of a dispatch id: the boundary uses the action's digest, so an id has one. */
  type Nonces = Id -> Nonce

  predicate Filed(records: map<Id, Record>, nonceOf: Nonces) {
    forall id :: id in records ==> records[id].id == id && records[id].nonce == nonceOf(id) && records[id].nonce != ""
  }

  predicate Distinct(ids: seq<Id>) {
    forall i, j :: 0 <= i < j < |ids| ==> ids[i] != ids[j]
  }

  /** The sets in memory agree with the file on everything that decides a replay. */
  predicate Loaded(records: map<Id, Record>, nonces: set<Nonce>, file: map<Id, Record>) {
    && records.Keys == file.Keys
    && forall id :: id in records ==> records[id].nonce in nonces && records[id].result == file[id].result
  }

  predicate HandedOut(completed: map<Id, string>, file: map<Id, Record>) {
    forall id :: id in completed ==> id in file && file[id].result == Some(completed[id])
  }

  predicate Launched(created: seq<Id>, file: map<Id, Record>) {
    Distinct(created) && forall i :: 0 <= i < |created| ==> created[i] in file
  }

  predicate Going(rec: Record) {
    rec.progress.Running? || rec.progress.Launching?
  }

  function Failing(rec: Record, lease: string): Record {
    if rec.lease == lease && Going(rec) then rec.(progress := Failed) else rec
  }

  // ---- What became of an id, told from the saves, cancels and reloads so far

  datatype Note = Saved(rec: Record) | Cancelled(lease: string) | Reloaded

  function Lookup(records: map<Id, Record>, id: Id): Option<Record> {
    if id in records then Some(records[id]) else None
  }

  /** The record of an id in memory: a save of its own sets it, a cancel of its lease ends it, and a reload
      puts back what is on disk. */
  function InMemory(log: seq<Note>, id: Id): Option<Record>
    decreases |log|, 1
  {
    if log == [] then None
    else
      var before, last := log[..|log| - 1], log[|log| - 1];
      match last
      case Saved(rec) => if rec.id == id then Some(rec) else InMemory(before, id)
      case Cancelled(lease) =>
        var was := InMemory(before, id);
        if was.Some? then Some(Failing(was.value, lease)) else None
      case Reloaded => OnDisk(before, id)
  }

  /** On disk: any save writes all that is in memory. */
  function OnDisk(log: seq<Note>, id: Id): Option<Record>
    decreases |log|, if log != [] && log[|log| - 1].Saved? then 2 else 0
  {
    if log == [] then None
    else if log[|log| - 1].Saved? then InMemory(log, id)
    else OnDisk(log[..|log| - 1], id)
  }

  ghost predicate MemoryTold(log: seq<Note>, records: map<Id, Record>) {
    forall id :: Lookup(records, id) == InMemory(log, id)
  }

  ghost predicate DiskTold(log: seq<Note>, file: map<Id, Record>) {
    forall id :: Lookup(file, id) == OnDisk(log, id)
  }

  lemma {:induction false} SaveTold(log: seq<Note>, records: map<Id, Record>, rec: Record)
    requires MemoryTold(log, records)
    ensures MemoryTold(log + [Saved(rec)], records[rec.id := rec]) && DiskTold(log + [Saved(rec)], records[rec.id := rec])
  {
    var all := log + [Saved(rec)];
    assert all[..|log|] == log;
    forall id ensures Lookup(records[rec.id := rec], id) == InMemory(all, id) {
      assert Lookup(records, id) == InMemory(log, id);
    }
  }

  lemma {:induction false} CancelTold(log: seq<Note>, was: map<Id, Record>, now: map<Id, Record>, file: map<Id, Record>,
                                      lease: string)
    requires MemoryTold(log, was) && DiskTold(log, file)
    requires now.Keys == was.Keys && forall id :: id in was ==> now[id] == Failing(was[id], lease)
    ensures MemoryTold(log + [Cancelled(lease)], now) && DiskTold(log + [Cancelled(lease)], file)
  {
    var all := log + [Cancelled(lease)];
    assert all[..|log|] == log;
    forall id ensures Lookup(now, id) == InMemory(all, id) && Lookup(file, id) == OnDisk(all, id) {
      assert Lookup(was, id) == InMemory(log, id) && Lookup(file, id) == OnDisk(log, id);
    }
  }

  lemma {:induction false} ReloadTold(log: seq<Note>, file: map<Id, Record>)
    requires DiskTold(log, file)
    ensures MemoryTold(log + [Reloaded], file) && DiskTold(log + [Reloaded], file)
  {
    var all := log + [Reloaded];
    assert all[..|log|] == log;
    forall id ensures Lookup(file, id) == InMemory(all, id) == OnDisk(all, id) {
      assert Lookup(file, id) == OnDisk(log, id);
    }
  }

  // ---- Exactly when a repeated id is refused

  predicate LastSave(log: seq<Note>, id: Id, s: int) {
    && 0 <= s < |log| && log[s].Saved? && log[s].rec.id == id
    && forall k :: s < k < |log| && log[k].Saved? ==> log[k].rec.id != id
  }

  /** Every reload since came after a save, so it read the change of entry j back. */
  ghost predicate Sticks(log: seq<Note>, j: int) {
    forall r :: 0 <= j < r < |log| && log[r].Reloaded? ==> exists k :: j < k < r && log[k].Saved?
  }

  ghost predicate CancelledSince(log: seq<Note>, s: int)
    requires 0 <= s < |log| && log[s].Saved?
  {
    exists j :: s < j < |log| && log[j] == Cancelled(log[s].rec.lease) && Sticks(log, j)
  }

  lemma {:induction false} SticksBefore(log: seq<Note>, j: int)
    requires log != [] && 0 <= j < |log| - 1
    ensures !log[|log| - 1].Reloaded? ==> (Sticks(log, j) <==> Sticks(log[..|log| - 1], j))
    ensures Sticks(log, j) ==> Sticks(log[..|log| - 1], j)
  {
    var before := log[..|log| - 1];
    if Sticks(log, j) {
      forall r | j < r < |before| && before[r].Reloaded? ensures exists k :: j < k < r && before[k].Saved? {
        assert log[r].Reloaded?;
        var k :| j < k < r && log[k].Saved?;
        assert before[k].Saved?;
      }
    }
    if Sticks(before, j) && !log[|log| - 1].Reloaded? {
      forall r | j < r < |log| && log[r].Reloaded? ensures exists k :: j < k < r && log[k].Saved? {
        assert before[r].Reloaded?;
        var k :| j < k < r && before[k].Saved?;
        assert log[k].Saved?;
      }
    }
  }

  /** What memory says of an id follows from its last save and the cancels since that were not forgotten. */
  lemma {:induction false} StandsExactly(log: seq<Note>, id: Id, s: int)
    requires LastSave(log, id, s)
    ensures InMemory(log, id) ==
              Some(if Going(log[s].rec) && CancelledSince(log, s) then log[s].rec.(progress := Failed) else log[s].rec)
    decreases |log|
  {
    var before, last := log[..|log| - 1], log[|log| - 1];
    if s < |log| - 1 {
      if last.Reloaded? {
        StandsAfterReload(log, id, s);
      } else {
        StandsExactly(before, id, s);
        SinceBefore(log, s);
      }
    }
  }

  lemma {:induction false} SinceBefore(log: seq<Note>, s: int)
    requires 0 <= s < |log| - 1 && log[s].Saved? && !log[|log| - 1].Reloaded?
    ensures CancelledSince(log, s) <==>
              CancelledSince(log[..|log| - 1], s) || log[|log| - 1] == Cancelled(log[s].rec.lease)
  {
    var before := log[..|log| - 1];
    if CancelledSince(log, s) {
      var j :| s < j < |log| && log[j] == Cancelled(log[s].rec.lease) && Sticks(log, j);
      if j < |log| - 1 {
        SticksBefore(log, j);
        assert before[j] == log[j];
      }
    }
    if CancelledSince(before, s) {
      var j :| s < j < |before| && before[j] == Cancelled(log[s].rec.lease) && Sticks(before, j);
      SticksBefore(log, j);
      assert log[j] == before[j];
    }
    if log[|log| - 1] == Cancelled(log[s].rec.lease) {
      assert Sticks(log, |log| - 1);
    }
  }

  function LastSaved(log: seq<Note>): (k: int)
    ensures -1 <= k < |log| && (k >= 0 ==> log[k].Saved?)
    ensures forall i :: k < i < |log| ==> !log[i].Saved?
  {
    if log == [] then -1 else if log[|log| - 1].Saved? then |log| - 1 else LastSaved(log[..|log| - 1])
  }

  lemma {:induction false} OnDiskAtLastSave(log: seq<Note>, id: Id)
    ensures OnDisk(log, id) == if LastSaved(log) < 0 then None else InMemory(log[..LastSaved(log) + 1], id)
    decreases |log|
  {
    if log != [] {
      if log[|log| - 1].Saved? {
        assert log[..|log|] == log;
      } else {
        var before := log[..|log| - 1];
        OnDiskAtLastSave(before, id);
        assert before[..LastSaved(before) + 1] == log[..LastSaved(log) + 1];
      }
    }
  }

  lemma {:induction false} StandsAfterReload(log: seq<Note>, id: Id, s: int)
    requires LastSave(log, id, s) && log[|log| - 1].Reloaded?
    ensures InMemory(log, id) ==
              Some(if Going(log[s].rec) && CancelledSince(log, s) then log[s].rec.(progress := Failed) else log[s].rec)
    decreases |log|, 0
  {
    var before := log[..|log| - 1];
    var k := LastSaved(before);
    assert before[s].Saved?;
    OnDiskAtLastSave(before, id);
    var kept := before[..k + 1];
    StandsExactly(kept, id, s);
    SinceReload(log, kept, s);
  }

  /** Only a cancel that some save followed outlives the reload. */
  lemma {:induction false} SinceReload(log: seq<Note>, kept: seq<Note>, s: int)
    requires 0 <= s < |kept| < |log| && kept == log[..|kept|] && kept[s].Saved?
    requires kept[|kept| - 1].Saved? && log[|log| - 1].Reloaded?
    requires forall k :: |kept| <= k < |log| ==> !log[k].Saved?
    ensures CancelledSince(log, s) <==> CancelledSince(kept, s)
  {
    var last := |kept| - 1;
    if CancelledSince(log, s) {
      var j :| s < j < |log| && log[j] == Cancelled(log[s].rec.lease) && Sticks(log, j);
      assert log[|log| - 1].Reloaded?;
      var k :| j < k < |log| - 1 && log[k].Saved?;
      assert j < |kept| && kept[j] == log[j];
      forall r | j < r < |kept| && kept[r].Reloaded? ensures exists i :: j < i < r && kept[i].Saved? {
        assert log[r].Reloaded?;
        var i :| j < i < r && log[i].Saved?;
        assert kept[i].Saved?;
      }
      assert Sticks(kept, j);
    }
    if CancelledSince(kept, s) {
      var j :| s < j < |kept| && kept[j] == Cancelled(kept[s].rec.lease) && Sticks(kept, j);
      assert kept[j] == log[j] && j < last;
      forall r | j < r < |log| && log[r].Reloaded? ensures exists i :: j < i < r && log[i].Saved? {
        if r < |kept| {
          assert kept[r].Reloaded?;
          var i :| j < i < r && kept[i].Saved?;
          assert log[i].Saved?;
        } else {
          assert log[last].Saved?;
        }
      }
      assert Sticks(log, j);
    }
  }

  // ---- What a first launch files

  /** The record of a worker that answered, or of one that failed. */
  function Finished(rec: Record, answer: Option<string>): Record {
    if answer.Some? then rec.(progress := Completed, result := answer) else rec.(progress := Failed)
  }

  function AnswerOf(engine: Engine): Option<string> {
    if engine.creates then engine.answer else None
  }

  /** The records saved from the call of createContainer on, in order. */
  function FiledWaiting(rec: Record, engine: Engine): seq<Note> {
    if engine.diesAt == 2 then []
    else if engine.creates && 3 <= engine.diesAt <= 9 then [Saved(rec.(progress := Running))]
    else
      (if engine.creates then [Saved(rec.(progress := Running))] else []) + [Saved(Finished(rec, AnswerOf(engine)))]
  }

  function FiledBy(r: Request, engine: Engine): seq<Note> {
    var rec := Record(r.id, r.nonce, r.lease, None, Launching);
    if engine.diesAt == 0 then [] else [Saved(rec)] + FiledMounting(rec, engine)
  }

  /** The records saved once the first one is on disk. */
  function FiledMounting(rec: Record, engine: Engine): seq<Note> {
    if engine.diesAt == 1 then []
    else if !engine.mountOk then [Saved(rec.(progress := Failed))]
    else FiledWaiting(rec, engine)
  }

  function WaitedFor(engine: Engine): Outcome {
    if engine.diesAt == 2 || (engine.creates && 3 <= engine.diesAt <= 9) then Died else Reported(AnswerOf(engine))
  }

  function Reported(answer: Option<string>): Outcome {
    if answer.Some? then Result(answer.value) else LaunchFailed
  }

  function LaunchedWith(r: Request, engine: Engine): Outcome {
    if engine.diesAt == 0 then Died else MountedWith(engine)
  }

  function MountedWith(engine: Engine): Outcome {
    if engine.diesAt == 1 then Died else if !engine.mountOk then Rejected else WaitedFor(engine)
  }

  predicate Launches(r: Request, records: map<Id, Record>, nonces: set<Nonce>) {
    r.authentic && r.valid && r.id !in records && r.nonce !in nonces
  }

  /** Every save of a launch is of the same id and writes all of memory. */
  predicate Files(file: map<Id, Record>, was: map<Id, Record>, records: map<Id, Record>, id: Id, filed: seq<Note>) {
    if filed == [] then file == was
    else filed[|filed| - 1].Saved? && file == records[id := filed[|filed| - 1].rec]
  }

  lemma {:induction false} FilesMore(file: map<Id, Record>, mid: map<Id, Record>, was: map<Id, Record>,
                                     records: map<Id, Record>, rec: Record, more: seq<Note>)
    requires mid == records[rec.id := rec] && Files(file, mid, mid, rec.id, more)
    ensures Files(file, was, records, rec.id, [Saved(rec)] + more)
  {
    if more != [] {
      assert ([Saved(rec)] + more)[|more|] == more[|more| - 1];
    }
  }

  lemma {:induction false} FiledAreOwn(r: Request, engine: Engine)
    ensures forall k :: 0 <= k < |FiledBy(r, engine)| ==> FiledBy(r, engine)[k].Saved? && FiledBy(r, engine)[k].rec.id == r.id
  {
  }

  class Scheduler {
    ghost const nonceOf: Nonces
    var alive: bool
    var records: map<Id, Record>
    var nonces: set<Nonce>
    var file: map<Id, Record>
    ghost var created: seq<Id>            // calls of createContainer
    ghost var completed: map<Id, string>  // results that were handed out
    ghost var log: seq<Note>              // saves, cancels and reloads

    ghost predicate Valid() reads this {
      && Filed(file, nonceOf) && Launched(created, file) && HandedOut(completed, file)
      && (alive ==> Filed(records, nonceOf) && Loaded(records, nonces, file))
      && DiskTold(log, file) && (alive ==> MemoryTold(log, records))
    }

    constructor (ghost nonceOf: Nonces)
      ensures Valid() && alive && created == [] && completed == map[] && file == map[] && log == []
      ensures this.nonceOf == nonceOf
    {
      this.nonceOf := nonceOf;
      alive, records, nonces, file := true, map[], {}, map[];
      created, completed, log := [], map[], [];
    }

    /** A new process loads the file: the sets in memory are rebuilt from it. */
    method Restart()
      requires Valid()
      modifies this`alive, this`records, this`nonces, this`log
      ensures Valid() && alive && records == file && log == old(log) + [Reloaded]
    {
      var rs, ns := ReadFile(file, nonceOf);
      ReloadTold(log, file);
      log := log + [Reloaded];
      alive, records, nonces := true, rs, ns;
    }

    /** Every line is one record; its nonce is used up. */
    static method ReadFile(lines: map<Id, Record>, ghost nonceOf: Nonces) returns (rs: map<Id, Record>, ns: set<Nonce>)
      requires Filed(lines, nonceOf)
      ensures rs == lines && Loaded(rs, ns, lines)
    {
      rs, ns := map[], {};
      var left := lines.Keys;
      while left != {}
        invariant left <= lines.Keys && rs.Keys == lines.Keys - left
        invariant forall id :: id in rs ==> rs[id] == lines[id] && rs[id].nonce in ns
        decreases |left|
      {
        var id :| id in left;
        rs := rs[id := lines[id]];
        if lines[id].nonce != "" {
          ns := ns + {lines[id].nonce};
        }
        left := left - {id};
      }
      assert rs == lines;
    }

    /** Writes all records to a fresh file and renames it over the old one. */
    method Save(rec: Record)
      requires Valid() && alive && rec.nonce == nonceOf(rec.id) && rec.nonce != ""
      requires rec.id in file && file[rec.id].result.Some? ==> rec.result == file[rec.id].result
      modifies this`records, this`nonces, this`file, this`log
      ensures Valid() && records == old(records)[rec.id := rec] && file == records && log == old(log) + [Saved(rec)]
    {
      SaveTold(log, records, rec);
      log := log + [Saved(rec)];
      records := records[rec.id := rec];
      nonces := nonces + {rec.nonce};
      file := records;
    }

    method Die() returns (outcome: Outcome)
      requires Valid()
      modifies this`alive, this`records, this`nonces
      ensures Valid() && !alive && outcome == Died
    {
      alive, records, nonces, outcome := false, map[], {}, Died;
    }

    /** One dispatch. The engine is asked for a container only for an id it was never asked for before. */
    method Dispatch(r: Request, engine: Engine) returns (outcome: Outcome)
      requires Valid() && alive && r.nonce == nonceOf(r.id) && r.nonce != ""
      modifies this
      ensures Valid()
      ensures created == old(created) || (created == old(created) + [r.id] && r.id !in old(file) && r.authentic && r.valid)
      ensures forall id :: id in old(completed) ==> id in completed && completed[id] == old(completed)[id]
      ensures outcome.Result? ==> r.id in completed && completed[r.id] == outcome.result
      // an id that has a record is never launched again, whatever became of it
      ensures r.id in old(records) ==>
                && created == old(created) && file == old(file) && records == old(records) && log == old(log) && alive
                && outcome == if !r.authentic then Rejected
                              else if old(records)[r.id].result.Some? then Result(old(records)[r.id].result.value)
                              else if old(records)[r.id].progress.Running? || old(records)[r.id].progress.Launching? then Pending
                              else Replay
      // a first launch files exactly these records of its own id and leaves every other as it is
      ensures Launches(r, old(records), old(nonces)) ==>
                && log == old(log) + FiledBy(r, engine) && Files(file, old(file), old(records), r.id, FiledBy(r, engine))
                && (alive ==> records == file) && outcome == LaunchedWith(r, engine)
      ensures r.id !in old(records) && !Launches(r, old(records), old(nonces)) ==>
                && file == old(file) && records == old(records) && log == old(log) && alive
                && outcome == if r.authentic && r.nonce in old(nonces) then Replay else Rejected
      ensures outcome.LaunchFailed? ==>
                && r.id !in old(records) && alive && records == file && r.id in records && records[r.id].progress.Failed?
                && records[r.id].result.None? && LastSave(log, r.id, |log| - 1) && log[|log| - 1] == Saved(records[r.id])
      ensures outcome.Died? <==> !alive
    {
      if !r.authentic {
        return Rejected;
      }
      if r.id in records {
        var rec := records[r.id];
        if rec.result.Some? {
          completed := completed[r.id := rec.result.value];
          return Result(rec.result.value);
        }
        if rec.progress.Running? || rec.progress.Launching? {
          return Pending;
        }
      }
      if r.nonce in nonces {
        return Replay;
      }
      if !r.valid {
        return Rejected;
      }
      outcome := Launch(r, engine);
    }

    method Launch(r: Request, engine: Engine) returns (outcome: Outcome)
      requires Valid() && alive && r.nonce == nonceOf(r.id) && r.nonce != "" && r.nonce !in nonces && r.id !in records
      modifies this
      ensures Valid()
      ensures created == old(created) + if engine.diesAt >= 2 && engine.mountOk then [r.id] else []
      ensures completed == if outcome.Result? then old(completed)[r.id := outcome.result] else old(completed)
      ensures log == old(log) + FiledBy(r, engine) && Files(file, old(file), old(records), r.id, FiledBy(r, engine))
      ensures (alive ==> records == file) && outcome == LaunchedWith(r, engine)
      ensures outcome.Died? <==> !alive
    {
      nonces := nonces + {r.nonce};
      var rec := Record(r.id, r.nonce, r.lease, None, Launching);
      if engine.diesAt == 0 {
        outcome := Die();
        return;
      }
      Save(rec);
      ghost var mid := file;
      outcome := Mount(rec, engine);
      FilesMore(file, mid, old(file), old(records), rec, FiledMounting(rec, engine));
    }

    /** Resolves the mount of the launching record. */
    method Mount(rec: Record, engine: Engine) returns (outcome: Outcome)
      requires Valid() && alive && rec.id in file && file[rec.id].result.None? && records == file
      requires rec.nonce == nonceOf(rec.id) && rec.nonce != "" && rec.result.None? && rec.id !in completed && rec.id !in created
      requires engine.diesAt > 0
      modifies this
      ensures Valid()
      ensures created == old(created) + if engine.diesAt >= 2 && engine.mountOk then [rec.id] else []
      ensures completed == if outcome.Result? then old(completed)[rec.id := outcome.result] else old(completed)
      ensures log == old(log) + FiledMounting(rec, engine) && Files(file, old(file), old(records), rec.id, FiledMounting(rec, engine))
      ensures (alive ==> records == file) && outcome == MountedWith(engine)
      ensures outcome.Died? <==> !alive
    {
      if engine.diesAt == 1 {
        outcome := Die();
        return;
      }
      if !engine.mountOk {
        Save(rec.(progress := Failed));
        return Rejected;
      }
      outcome := Attend(rec, engine);
    }

    /** From the call of createContainer on. */
    method Attend(rec: Record, engine: Engine) returns (outcome: Outcome)
      requires Valid() && alive && rec.id in file && file[rec.id].result.None? && records == file
      requires rec.nonce == nonceOf(rec.id) && rec.nonce != "" && rec.result.None? && rec.id !in completed && rec.id !in created
      modifies this
      ensures Valid() && created == old(created) + [rec.id]
      ensures completed == if outcome.Result? then old(completed)[rec.id := outcome.result] else old(completed)
      ensures log == old(log) + FiledWaiting(rec, engine) && Files(file, old(file), old(records), rec.id, FiledWaiting(rec, engine))
      ensures (alive ==> records == file) && outcome == WaitedFor(engine)
      ensures outcome.Died? <==> !alive
    {
      Create(rec.id);
      if engine.diesAt == 2 {
        outcome := Die();
        return;
      }
      outcome := Work(rec, engine);
    }

    /** The container is there or is not; a failure on the way is caught. */
    method Work(rec: Record, engine: Engine) returns (outcome: Outcome)
      requires Valid() && alive && rec.id in file && file[rec.id].result.None? && records == file && engine.diesAt != 2
      requires rec.nonce == nonceOf(rec.id) && rec.nonce != "" && rec.result.None? && rec.id !in completed
      modifies this`alive, this`records, this`nonces, this`file, this`completed, this`log
      ensures Valid()
      ensures completed == if outcome.Result? then old(completed)[rec.id := outcome.result] else old(completed)
      ensures log == old(log) + FiledWaiting(rec, engine) && Files(file, old(file), old(records), rec.id, FiledWaiting(rec, engine))
      ensures (alive ==> records == file) && outcome == WaitedFor(engine)
      ensures outcome.Died? <==> !alive
    {
      if engine.creates {
        Save(rec.(progress := Running));
        if 3 <= engine.diesAt <= 9 { // attach, start, write, read, wait, remove, save
          outcome := Die();
          return;
        }
      }
      outcome := Finish(rec, AnswerOf(engine));
    }

    method Create(id: Id)
      requires Valid() && id in file && id !in created
      modifies this`created
      ensures Valid() && created == old(created) + [id]
    {
      created := created + [id];
    }

    /** The last save: of the worker's result, or of the failure caught on the way. */
    method Finish(rec: Record, answer: Option<string>) returns (outcome: Outcome)
      requires Valid() && alive && rec.id in file && file[rec.id].result.None?
      requires rec.nonce == nonceOf(rec.id) && rec.nonce != "" && rec.result.None? && rec.id !in completed
      modifies this`records, this`nonces, this`file, this`completed, this`log
      ensures Valid() && outcome == Reported(answer)
      ensures completed == if answer.Some? then old(completed)[rec.id := answer.value] else old(completed)
      ensures records == file == old(records)[rec.id := Finished(rec, answer)]
      ensures log == old(log) + [Saved(Finished(rec, answer))]
    {
      Save(Finished(rec, answer));
      if answer.Some? {
        completed := completed[rec.id := answer.value];
        return Result(answer.value);
      }
      return LaunchFailed;
    }

    /** Marks a lease's live records as failed, in memory only. */
    method Cancel(lease: string)
      requires Valid() && alive
      modifies this`records, this`log
      ensures Valid() && records == (map id | id in old(records) :: Failing(old(records)[id], lease))
      ensures log == old(log) + [Cancelled(lease)]
    {
      var was := records;
      MarkFailed(lease);
      FailingKeeps(was, nonces, file, records, lease, nonceOf);
      CancelTold(log, was, records, file, lease);
      log := log + [Cancelled(lease)];
    }

    method MarkFailed(lease: string)
      modifies this`records
      ensures records == map id | id in old(records) :: Failing(old(records)[id], lease)
    {
      var was, left := records, records.Keys;
      while left != {}
        invariant left <= was.Keys && records.Keys == was.Keys
        invariant forall id :: id in was ==> records[id] == if id in left then was[id] else Failing(was[id], lease)
        decreases |left|
      {
        var id :| id in left;
        var rec := records[id];
        if rec.lease == lease && (rec.progress.Running? || rec.progress.Launching?) {
          records := records[id := rec.(progress := Failed)];
        }
        left := left - {id};
      }
    }
  }

  lemma FailingKeeps(was: map<Id, Record>, nonces: set<Nonce>, file: map<Id, Record>, now: map<Id, Record>, lease: string,
                     nonceOf: Nonces)
    requires now.Keys == was.Keys && forall id :: id in was ==> now[id] == Failing(was[id], lease)
    requires Filed(was, nonceOf) && Loaded(was, nonces, file)
    ensures Filed(now, nonceOf) && Loaded(now, nonces, file)
  {
  }

  /** One thing that happens to the scheduler. */
  datatype Event = Dispatches(r: Request, engine: Engine) | Cancels(lease: string) | Restarts

  predicate OneNonceEach(history: seq<Event>, nonceOf: Nonces) {
    forall i :: 0 <= i < |history| && history[i].Dispatches? ==>
      history[i].r.nonce == nonceOf(history[i].r.id) && history[i].r.nonce != ""
  }

  ghost predicate Later(was: seq<Note>, now: seq<Note>, known: set<Id>) {
    && |was| <= |now| && now[..|was|] == was
    && forall k :: |was| <= k < |now| && now[k].Saved? ==> now[k].rec.id !in known
  }

  /** Any history of dispatches, cancels and restarts: results stay, and an id once on disk is never saved again. */
  method Play(s: Scheduler, history: seq<Event>)
    requires s.Valid() && OneNonceEach(history, s.nonceOf)
    modifies s
    ensures s.Valid() && s.alive && s.file.Keys >= old(s.file.Keys)
    ensures Later(old(s.log), s.log, old(s.file.Keys))
    ensures forall id :: id in old(s.completed) ==> id in s.completed && s.completed[id] == old(s.completed)[id]
  {
    if !s.alive {
      s.Restart();
    }
    for i := 0 to |history|
      invariant s.Valid() && s.alive && s.file.Keys >= old(s.file.Keys)
      invariant Later(old(s.log), s.log, old(s.file.Keys))
      invariant forall id :: id in old(s.completed) ==> id in s.completed && s.completed[id] == old(s.completed)[id]
    {
      ghost var log, known := s.log, s.file.Keys;
      Step(s, history[i]);
      if !s.alive {
        s.Restart();
      }
      LaterStill(old(s.log), log, s.log, old(s.file.Keys), known);
    }
  }

  method Step(s: Scheduler, event: Event)
    requires s.Valid() && s.alive && OneNonceEach([event], s.nonceOf)
    modifies s
    ensures s.Valid() && s.file.Keys >= old(s.file.Keys)
    ensures Later(old(s.log), s.log, old(s.file.Keys))
    ensures forall id :: id in old(s.completed) ==> id in s.completed && s.completed[id] == old(s.completed)[id]
  {
    match event
    case Dispatches(r, engine) =>
      assert [event][0] == event;
      FiledAreOwn(r, engine);
      var outcome := s.Dispatch(r, engine);
    case Cancels(lease) => s.Cancel(lease);
    case Restarts => s.Restart();
  }

  lemma LaterStill(was: seq<Note>, log: seq<Note>, now: seq<Note>, known: set<Id>, more: set<Id>)
    requires Later(was, log, known) && Later(log, now, more) && known <= more
    ensures Later(was, now, known)
  {
    assert now[..|was|] == log[..|was|];
    forall k | |was| <= k < |now| && now[k].Saved? ensures now[k].rec.id !in known {
      if k < |log| {
        assert now[k] == log[k];
      }
    }
  }

  /** After any history no dispatch id ever got a second container, and what was handed out as its result is
      what every later dispatch of it gets. */
  method Live(nonceOf: Nonces, history: seq<Event>) returns (s: Scheduler, ghost created: seq<Id>, ghost completed: map<Id, string>)
    requires OneNonceEach(history, nonceOf)
    ensures fresh(s) && s.Valid() && s.alive && s.nonceOf == nonceOf && created == s.created && completed == s.completed
    ensures Distinct(created)
    ensures forall id :: id in completed ==> id in s.file && s.file[id].result == Some(completed[id])
  {
    s := new Scheduler(nonceOf);
    Play(s, history);
    created, completed := s.created, s.completed;
  }

  /** In any state a history leads to, an id that was ever saved is refused as a replay exactly when its last
      save was of a failure, or was of a live dispatch whose lease was cancelled since, with a save between
      that cancel and the next reload. */
  method RepeatedExactly(s: Scheduler, r: Request, engine: Engine) returns (outcome: Outcome)
    requires s.Valid() && s.alive && r.nonce == s.nonceOf(r.id) && r.nonce != "" && r.authentic
    modifies s
    ensures s.Valid() && (LastOf(old(s.log), r.id) >= 0 <==> r.id in old(s.records))
    ensures var last := LastOf(old(s.log), r.id);
            last >= 0 ==>
              var rec := old(s.log)[last].rec;
              && (outcome == Replay <==> rec.result.None? && (Going(rec) ==> CancelledSince(old(s.log), last)))
              && (outcome == Pending <==> rec.result.None? && Going(rec) && !CancelledSince(old(s.log), last))
              && (rec.result.Some? ==> outcome == Result(rec.result.value))
  {
    ghost var last := LastOf(s.log, r.id);
    if last >= 0 {
      StandsExactly(s.log, r.id, last);
    } else {
      NeverSaved(s.log, r.id);
    }
    assert Lookup(s.records, r.id) == InMemory(s.log, r.id);
    outcome := s.Dispatch(r, engine);
  }

  lemma {:induction false} NeverSaved(log: seq<Note>, id: Id)
    requires LastOf(log, id) < 0
    ensures InMemory(log, id).None? && OnDisk(log, id).None?
    decreases |log|
  {
    if log != [] {
      var before := log[..|log| - 1];
      forall i | 0 <= i < |before| && before[i].Saved? ensures before[i].rec.id != id {
        assert log[i] == before[i];
      }
      NeverSaved(before, id);
    }
  }

  function LastOf(log: seq<Note>, id: Id): (k: int)
    ensures k >= 0 ==> LastSave(log, id, k)
    ensures k < 0 ==> forall i :: 0 <= i < |log| && log[i].Saved? ==> log[i].rec.id != id
  {
    if log == [] then -1
    else if log[|log| - 1].Saved? && log[|log| - 1].rec.id == id then |log| - 1
    else LastOf(log[..|log| - 1], id)
  }

  /** A dispatch reported as failed and retryable is refused as a replay ever after, whatever happens between. */
  method NeverRetried(s: Scheduler, r: Request, engine: Engine, between: seq<Event>, again: Request, other: Engine)
    returns (first: Outcome, second: Outcome)
    requires s.Valid() && s.alive && OneNonceEach(between, s.nonceOf)
    requires r.nonce == again.nonce == s.nonceOf(r.id) && r.nonce != "" && again.id == r.id && again.authentic
    modifies s
    ensures first == LaunchFailed ==> second == Replay
  {
    first := s.Dispatch(r, engine);
    ghost var log := s.log;
    Play(s, between);
    if first == LaunchFailed {
      StandsExactly(s.log, r.id, |log| - 1);
      assert Lookup(s.records, r.id) == InMemory(s.log, r.id);
    }
    second := s.Dispatch(again, other);
  }
}
