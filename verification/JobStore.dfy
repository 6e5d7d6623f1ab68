/** Recoverable jobs (backend/services/background_job.py), their only-one-at-a-time client
    (backend/services/account_status_jobs.py) and the crash steps of the atomic file write
    (backend/utils/atomic_io.py).

    Store operations are synchronous: they change memory and then write one job file in
    steps.  A crash may fall between any two steps.  Creation times are distinct and grow. */
module JobStore {
  import opened Options

  type Id = nat

  datatype Status = Running | Canceling | Canceled | Completed | Failed {
    predicate Active() { Running? || Canceling? }
  }

  datatype Job = Job(created: int, status: Status, error: string, logs: seq<string>)

  datatype Config = Config(maxHistory: nat, maxLogs: nat, restartError: string) {
    predicate Valid() { maxHistory >= 1 && maxLogs >= 1 }
  }

  const GUARD_LIMIT: nat := 10

  // ---------- The operations on one job ----------

  /** `append_log`: a ring that keeps the newest maxLogs lines. */
  function AppendLog(cfg: Config, job: Job, line: string): Job {
    var logs := job.logs + [line];
    job.(logs := if |logs| > cfg.maxLogs then logs[|logs| - cfg.maxLogs..] else logs)
  }

  /** `request_cancel`: the job afterwards and whether the request was accepted. */
  function AfterCancel(cfg: Config, job: Job): (Job, bool) {
    if !job.status.Active() then (job, false)
    else if job.status.Canceling? then (job, true)
    else (AppendLog(cfg, job.(status := Canceling), "cancel requested"), true)
  }

  /** `mark_completed`: it does not look whether the job is still active. */
  function AfterComplete(cfg: Config, job: Job): Job {
    var final := if job.status.Canceling? then Canceled else Completed;
    AppendLog(cfg, job.(status := final), if final.Canceled? then "canceled" else "completed")
  }

  function AfterFail(cfg: Config, job: Job, error: string): Job {
    var text := if error == "" then "unknown error" else error;
    AppendLog(cfg, job.(status := Failed, error := text), text)
  }

  // ---------- When an accepted cancel can still end completed ----------

  datatype Op = Cancel | Complete | Fail(error: string) | Note(line: string)

  function Operate(cfg: Config, job: Job, op: Op): Job {
    match op
    case Cancel => AfterCancel(cfg, job).0
    case Complete => AfterComplete(cfg, job)
    case Fail(error) => AfterFail(cfg, job, error)
    case Note(line) => AppendLog(cfg, job, line)
  }

  function OperateAll(cfg: Config, job: Job, ops: seq<Op>): Job {
    if ops == [] then job else Operate(cfg, OperateAll(cfg, job, ops[..|ops| - 1]), ops[|ops| - 1])
  }

  /** Some cancel among the calls was accepted. */
  predicate CancelAccepted(cfg: Config, job: Job, ops: seq<Op>) {
    ops != [] &&
    var before := ops[..|ops| - 1];
    CancelAccepted(cfg, job, before)
    || (ops[|ops| - 1].Cancel? && OperateAll(cfg, job, before).status.Active())
  }

  /** No call of mark_completed finds a finished job whose cancel was accepted. */
  predicate NoLateComplete(cfg: Config, job: Job, ops: seq<Op>) {
    ops == [] ||
    var before := ops[..|ops| - 1];
    NoLateComplete(cfg, job, before)
    && (ops[|ops| - 1].Complete? && CancelAccepted(cfg, job, before) ==> OperateAll(cfg, job, before).status.Active())
  }

  /** At no point is a job with an accepted cancel completed. */
  predicate NeverCompletes(cfg: Config, job: Job, ops: seq<Op>) {
    && (CancelAccepted(cfg, job, ops) ==> !OperateAll(cfg, job, ops).status.Completed?)
    && (ops == [] || NeverCompletes(cfg, job, ops[..|ops| - 1]))
  }

  lemma {:induction false} CancelStopsRunning(cfg: Config, job: Job, ops: seq<Op>)
    requires CancelAccepted(cfg, job, ops)
    ensures !OperateAll(cfg, job, ops).status.Running?
  {
    var before := ops[..|ops| - 1];
    if CancelAccepted(cfg, job, before) { CancelStopsRunning(cfg, job, before); }
  }

  /** For the store's calls in any number and order: a job with an accepted cancel is at no
      point completed if and only if no mark_completed finds it already finished. */
  lemma {:induction false} CancelHoldsExact(cfg: Config, job: Job, ops: seq<Op>)
    ensures NeverCompletes(cfg, job, ops) <==> NoLateComplete(cfg, job, ops)
  {
    if ops != [] {
      var before := ops[..|ops| - 1];
      CancelHoldsExact(cfg, job, before);
      if CancelAccepted(cfg, job, before) { CancelStopsRunning(cfg, job, before); }
    }
  }

  /** Completing twice turns an accepted cancel into a completed job. */
  lemma CompletingTwiceLosesCancel(cfg: Config, job: Job)
    requires job.status.Running?
    ensures CancelAccepted(cfg, job, [Cancel, Complete, Complete])
    ensures OperateAll(cfg, job, [Cancel, Complete, Complete]).status == Completed
  {
    var ops := [Cancel, Complete, Complete];
    assert ops[..2] == [Cancel, Complete] && ops[..2][..1] == [Cancel] && [Cancel][..0] == [];
  }

  // ---------- The status, read from the calls ----------

  predicate Ends(op: Op) { op.Complete? || op.Fail? }
  predicate NoEnd(ops: seq<Op>) { forall i :: 0 <= i < |ops| ==> !Ends(ops[i]) }

  lemma NoEndSnoc(ops: seq<Op>)
    requires ops != []
    ensures NoEnd(ops) <==> NoEnd(ops[..|ops| - 1]) && !Ends(ops[|ops| - 1])
    ensures Cancel in ops <==> Cancel in ops[..|ops| - 1] || ops[|ops| - 1] == Cancel
  {
    assert ops == ops[..|ops| - 1] + [ops[|ops| - 1]];
  }

  /** Until a call ends it, a job keeps its status, but for a running one that is asked to
      cancel. */
  lemma {:induction false} OpenStatus(cfg: Config, job: Job, ops: seq<Op>)
    requires NoEnd(ops)
    ensures var now := OperateAll(cfg, job, ops);
      && now.status == (if job.status.Running? && Cancel in ops then Canceling else job.status)
      && now.created == job.created && now.error == job.error
  {
    if ops != [] {
      NoEndSnoc(ops);
      OpenStatus(cfg, job, ops[..|ops| - 1]);
    }
  }

  /** A job waits for its cancellation exactly when it was asked to and nothing has ended it. */
  lemma {:induction false} CancelingExact(cfg: Config, job: Job, ops: seq<Op>)
    ensures OperateAll(cfg, job, ops).status.Canceling? <==>
      NoEnd(ops) && (job.status.Canceling? || (job.status.Running? && Cancel in ops))
  {
    if NoEnd(ops) {
      OpenStatus(cfg, job, ops);
    } else {
      NoEndSnoc(ops);
      EndedStaysEnded(cfg, job, ops);
    }
  }

  lemma {:induction false} EndedStaysEnded(cfg: Config, job: Job, ops: seq<Op>)
    requires !NoEnd(ops)
    ensures !OperateAll(cfg, job, ops).status.Active()
  {
    NoEndSnoc(ops);
    if !NoEnd(ops[..|ops| - 1]) { EndedStaysEnded(cfg, job, ops[..|ops| - 1]); }
  }

  /** The last ending call decides: a failure makes the job failed; completing makes it
      canceled if it was asked to cancel while nothing had ended it, and completed otherwise.
      Whatever comes later changes nothing. */
  lemma {:induction false} EndedStatus(cfg: Config, job: Job, before: seq<Op>, end: Op, after: seq<Op>)
    requires Ends(end) && NoEnd(after)
    ensures OperateAll(cfg, job, before + [end] + after).status ==
      if end.Fail? then Failed
      else if NoEnd(before) && (job.status.Canceling? || (job.status.Running? && Cancel in before)) then Canceled
      else Completed
  {
    if after == [] {
      assert before + [end] + after == before + [end] && (before + [end])[..|before|] == before;
      CancelingExact(cfg, job, before);
    } else {
      var shorter := after[..|after| - 1];
      NoEndSnoc(after);
      EndedStatus(cfg, job, before, end, shorter);
      assert (before + [end] + after)[..|before| + 1 + |shorter|] == before + [end] + shorter;
    }
  }

  /** The text of the last failure, if there was one. */
  function ErrorOf(ops: seq<Op>, first: string): string {
    if ops == [] then first
    else
      var op := ops[|ops| - 1];
      if !op.Fail? then ErrorOf(ops[..|ops| - 1], first)
      else if op.error != "" then op.error
      else "unknown error"
  }

  lemma {:induction false} ErrorExact(cfg: Config, job: Job, ops: seq<Op>)
    ensures OperateAll(cfg, job, ops).error == ErrorOf(ops, job.error)
  {
    if ops != [] { ErrorExact(cfg, job, ops[..|ops| - 1]); }
  }

  // ---------- The log ring ----------

  function Last(lines: seq<string>, n: nat): seq<string> {
    if |lines| > n then lines[|lines| - n..] else lines
  }

  /** The line a call writes, if any. */
  function LineOf(job: Job, op: Op): seq<string> {
    match op
    case Cancel => if job.status.Running? then ["cancel requested"] else []
    case Complete => [if job.status.Canceling? then "canceled" else "completed"]
    case Fail(error) => [if error == "" then "unknown error" else error]
    case Note(line) => [line]
  }

  /** All lines written, in order. */
  function Lines(cfg: Config, job: Job, ops: seq<Op>): seq<string> {
    if ops == [] then []
    else
      var before := ops[..|ops| - 1];
      Lines(cfg, job, before) + LineOf(OperateAll(cfg, job, before), ops[|ops| - 1])
  }

  lemma AppendIsLast(cfg: Config, job: Job, line: string)
    ensures AppendLog(cfg, job, line).logs == Last(job.logs + [line], cfg.maxLogs)
  {
  }

  lemma OperateAddsLine(cfg: Config, job: Job, op: Op)
    requires |job.logs| <= cfg.maxLogs
    ensures Operate(cfg, job, op).logs == Last(job.logs + LineOf(job, op), cfg.maxLogs)
  {
    match op
    case Cancel =>
      if job.status.Running? {
        AppendIsLast(cfg, job.(status := Canceling), "cancel requested");
      } else {
        assert job.logs + [] == job.logs;
      }
    case Complete =>
      var final := if job.status.Canceling? then Canceled else Completed;
      AppendIsLast(cfg, job.(status := final), if final.Canceled? then "canceled" else "completed");
    case Fail(error) =>
      var text := if error == "" then "unknown error" else error;
      AppendIsLast(cfg, job.(status := Failed, error := text), text);
    case Note(line) => AppendIsLast(cfg, job, line);
  }

  lemma TailGrows(cfg: Config, lines: seq<string>, written: seq<string>, now: Job, op: Op)
    requires cfg.Valid() && now.logs == Last(lines + written, cfg.maxLogs)
    ensures Operate(cfg, now, op).logs == Last(lines + (written + LineOf(now, op)), cfg.maxLogs)
  {
    OperateAddsLine(cfg, now, op);
    LastOfLast(lines + written, LineOf(now, op), cfg.maxLogs);
    assert lines + (written + LineOf(now, op)) == lines + written + LineOf(now, op);
  }

  /** Whatever is called in whatever order, the log holds exactly the newest lines. */
  lemma {:induction false} LogIsTail(cfg: Config, job: Job, ops: seq<Op>)
    requires cfg.Valid() && |job.logs| <= cfg.maxLogs
    ensures OperateAll(cfg, job, ops).logs == Last(job.logs + Lines(cfg, job, ops), cfg.maxLogs)
  {
    if ops == [] {
      assert job.logs + [] == job.logs;
    } else {
      var before := ops[..|ops| - 1];
      LogIsTail(cfg, job, before);
      TailGrows(cfg, job.logs, Lines(cfg, job, before), OperateAll(cfg, job, before), ops[|ops| - 1]);
    }
  }

  lemma LastOfLast(lines: seq<string>, more: seq<string>, n: nat)
    ensures Last(Last(lines, n) + more, n) == Last(lines + more, n)
  {
  }

  // ---------- Files and their writing ----------

  datatype File = Partial | Whole(job: Job)
  datatype Name = JobFile(id: Id) | Temp(n: nat)

  /** How far the write of one job file has come; Trimming is the part of create_job after
      its write, up to the start of the task. */
  datatype Stage = Dirty | TempOpen | TempSynced | Trimming
  datatype Write = Write(id: Id, job: Job, stage: Stage, creating: bool)

  /** `born`, `accepted` and `durable` are history: the creation time of every job there ever
      was, the jobs with an accepted cancel request, and the last version of each job whose
      write was completed. */
  datatype State = State(
    up: bool,
    jobs: map<Id, Job>,
    tasks: set<Id>,
    write: Option<Write>,
    files: map<Name, File>,
    temps: nat,
    clock: int,
    born: map<Id, int>,
    accepted: set<Id>,
    durable: map<Id, Job>)
  {
    predicate ActiveJob(id: Id) { id in jobs && jobs[id].status.Active() }
    predicate Resting() { up && write.None? }
    predicate Writing(stage: Stage) { write.Some? && write.value.stage == stage }
  }

  const INIT := State(true, map[], {}, None, map[], 0, 0, map[], {}, map[])

  datatype Event =
    | Start(id: Id, created: int)
    | CancelRequest(id: Id)
    | Finish(id: Id)                    // the runner reaches mark_completed
    | Raise(id: Id, error: string)      // the runner raises, or its task is cancelled
    | Progress(id: Id, line: string)    // a persisted change that keeps the status
    | Remark(id: Id, line: string)      // append_log without persisting
    | OpenTemp
    | SyncTemp
    | Replace
    | Unlink(id: Id)
    | Launch
    | Crash
    | Recover(id: Id)
    | Load

  /** The jobs created after the given one. */
  function Newer(jobs: map<Id, Job>, id: Id): set<Id>
    requires id in jobs
  {
    set other | other in jobs && jobs[other].created > jobs[id].created
  }

  predicate AmongNewest(jobs: map<Id, Job>, id: Id, limit: nat) {
    id in jobs && |Newer(jobs, id)| < limit
  }

  function Newest(jobs: map<Id, Job>, limit: nat): map<Id, Job> {
    map id | id in jobs && AmongNewest(jobs, id, limit) :: jobs[id]
  }

  /** The start guard: no active job among the newest ten. */
  predicate MayStart(cfg: Config, jobs: map<Id, Job>) {
    var listed := Newest(jobs, if GUARD_LIMIT < cfg.maxHistory then GUARD_LIMIT else cfg.maxHistory);
    forall id :: id in listed ==> !listed[id].status.Active()
  }

  /** `_load_jobs`: an unfinished job is failed. */
  function Recovered(cfg: Config, job: Job): Job {
    if job.status.Active() then AppendLog(cfg, job.(status := Failed, error := cfg.restartError), cfg.restartError)
    else job
  }

  /** The jobs whose files can be read back. */
  function Stored(files: map<Name, File>): map<Id, Job> {
    map n | n in files && n.JobFile? && files[n].Whole? :: n.id := files[n].job
  }

  predicate Enabled(cfg: Config, s: State, e: Event) {
    match e
    case Start(id, created) => s.Resting() && id !in s.born && created > s.clock
    case CancelRequest(id) => s.Resting()
    case Finish(id) => s.Resting() && id in s.tasks
    case Raise(id, _) => s.Resting() && id in s.tasks
    case Progress(id, _) => s.Resting() && id in s.tasks
    case Remark(id, _) => s.Resting() && id in s.tasks
    case OpenTemp => s.Writing(Dirty)
    case SyncTemp => s.Writing(TempOpen)
    case Replace => s.Writing(TempSynced)
    case Unlink(id) => s.Writing(Trimming) && id in s.jobs && !AmongNewest(s.jobs, id, cfg.maxHistory)
    case Launch => s.Writing(Trimming) && |s.jobs| <= cfg.maxHistory
    case Crash => true
    case Recover(id) => !s.up && s.write.None? && id in Stored(s.files) && Stored(s.files)[id].status.Active()
    case Load => !s.up && s.write.None? && forall id :: id in Stored(s.files) ==> !Stored(s.files)[id].status.Active()
  }

  function Update(s: State, id: Id, job: Job): State {
    s.(jobs := s.jobs[id := job], write := Some(Write(id, job, Dirty, false)))
  }

  function Apply(cfg: Config, s: State, e: Event): State
    requires Enabled(cfg, s, e)
  {
    match e
    case Start(id, created) =>
      if !MayStart(cfg, s.jobs) then s
      else
        var job := Job(created, Running, "", []);
        s.(jobs := s.jobs[id := job], born := s.born[id := created], clock := created,
           write := Some(Write(id, job, Dirty, true)))
    case CancelRequest(id) =>
      if !s.ActiveJob(id) then s
      else
        var t := s.(accepted := s.accepted + {id});
        if s.jobs[id].status.Canceling? then t else Update(t, id, AfterCancel(cfg, s.jobs[id]).0)
    case Finish(id) =>
      var t := s.(tasks := s.tasks - {id});
      if id in s.jobs then Update(t, id, AfterComplete(cfg, s.jobs[id])) else t
    case Raise(id, error) =>
      var t := s.(tasks := s.tasks - {id});
      if id in s.jobs then Update(t, id, AfterFail(cfg, s.jobs[id], error)) else t
    case Progress(id, line) =>
      if id in s.jobs then Update(s, id, AppendLog(cfg, s.jobs[id], line)) else s
    case Remark(id, line) =>
      if id in s.jobs then s.(jobs := s.jobs[id := AppendLog(cfg, s.jobs[id], line)]) else s
    case OpenTemp =>
      s.(files := s.files[Temp(s.temps) := Partial], write := Some(s.write.value.(stage := TempOpen)))
    case SyncTemp =>
      s.(files := s.files[Temp(s.temps) := Whole(s.write.value.job)], write := Some(s.write.value.(stage := TempSynced)))
    case Replace =>
      var w := s.write.value;
      s.(files := (s.files - {Temp(s.temps)})[JobFile(w.id) := Whole(w.job)],
         durable := s.durable[w.id := w.job], temps := s.temps + 1,
         write := if w.creating then Some(w.(stage := Trimming)) else None)
    case Unlink(id) =>
      s.(jobs := s.jobs - {id}, files := s.files - {JobFile(id)}, durable := s.durable - {id})
    case Launch =>
      s.(tasks := s.tasks + {s.write.value.id}, write := None)
    case Crash =>
      s.(up := false, jobs := map[], tasks := {}, write := None, temps := s.temps + 1)
    case Recover(id) =>
      s.(write := Some(Write(id, Recovered(cfg, Stored(s.files)[id]), Dirty, false)))
    case Load =>
      s.(up := true, jobs := Newest(Stored(s.files), cfg.maxHistory))
  }

  function Next(cfg: Config, before: Option<State>, e: Event): Option<State> {
    if before.Some? && Enabled(cfg, before.value, e) then Some(Apply(cfg, before.value, e)) else None
  }

  function Steps(cfg: Config, s: State, es: seq<Event>): Option<State> {
    if es == [] then Some(s) else Next(cfg, Steps(cfg, s, es[..|es| - 1]), es[|es| - 1])
  }

  function Run(cfg: Config, es: seq<Event>): Option<State> { Steps(cfg, INIT, es) }

  // ---------- Invariant: what is in memory ----------

  /** Everything known about one job agrees with when it was created. */
  predicate Dated(s: State, id: Id) {
    && (id in s.jobs ==> id in s.born && s.jobs[id].created == s.born[id])
    && (id in s.durable ==> id in s.born && s.durable[id].created == s.born[id])
    && (id in s.born ==> s.born[id] <= s.clock)
    && (id in s.accepted ==> id in s.born)
  }

  ghost predicate DistinctBirths(born: map<Id, int>) {
    forall i, j :: i in born && j in born && born[i] == born[j] ==> i == j
  }

  /** The write in progress, seen from memory. */
  predicate WriteAgrees(s: State) {
    s.write.Some? ==>
      var w := s.write.value;
      && w.id in s.born && w.job.created == s.born[w.id]
      && (w.stage.Trimming? ==> w.creating)
      && (w.creating ==> s.up)
      && (s.up ==> w.id in s.jobs && w.job == s.jobs[w.id])
      && (!s.up ==> w.job.status.Failed?)
  }

  /** A job is active exactly while its task lives or its creation is being written. */
  predicate ActiveIsServed(s: State, id: Id) {
    s.ActiveJob(id) <==> id in s.tasks || (s.write.Some? && s.write.value.creating && s.write.value.id == id)
  }

  /** No job is newer than an active one. */
  ghost predicate ActiveIsNewest(s: State, id: Id) {
    s.ActiveJob(id) ==> forall other :: other in s.jobs ==> s.jobs[other].created <= s.jobs[id].created
  }

  ghost predicate MemoryInv(s: State) {
    && (forall id :: Dated(s, id))
    && DistinctBirths(s.born)
    && WriteAgrees(s)
    && (forall id :: ActiveIsServed(s, id))
    && (forall id :: ActiveIsNewest(s, id))
    && (!s.up ==> s.jobs == map[] && s.tasks == {})
  }

  // ---------- Invariant: what is on disk ----------

  /** Every job file is whole and holds the last version written. */
  predicate DiskMirrors(files: map<Name, File>, durable: map<Id, Job>) {
    Stored(files) == durable && forall n :: n in files && n.JobFile? ==> files[n].Whole?
  }

  predicate DiskInv(s: State) { DiskMirrors(s.files, s.durable) }

  /** Between operations a job in memory and its file differ at most in log lines. */
  predicate Mirrored(s: State, id: Id) {
    s.up && id in s.jobs && (s.write.Some? ==> s.write.value.id != id || s.write.value.stage.Trimming?) ==>
      id in s.durable && s.durable[id].(logs := s.jobs[id].logs) == s.jobs[id]
  }

  /** An accepted cancel is never forgotten. */
  predicate CancelKept(s: State, id: Id) {
    id in s.accepted ==>
      && (id in s.jobs ==> !s.jobs[id].status.Running? && !s.jobs[id].status.Completed?)
      && (id in s.durable ==> !s.durable[id].status.Completed?)
  }

  /** Outside of create_job the history is within its bound. */
  predicate Bounded(cfg: Config, s: State) {
    s.up && !(s.write.Some? && s.write.value.creating) ==> |s.jobs| <= cfg.maxHistory
  }

  ghost predicate JobInv(s: State, id: Id) { Mirrored(s, id) && CancelKept(s, id) }

  ghost predicate Inv(cfg: Config, s: State) {
    && MemoryInv(s) && DiskInv(s) && Bounded(cfg, s)
    && (forall id :: JobInv(s, id))
  }

  // ---------- Every step keeps it ----------

  lemma ReplaceKeepsDisk(files: map<Name, File>, durable: map<Id, Job>, n: nat, id: Id, job: Job)
    requires DiskMirrors(files, durable)
    ensures DiskMirrors((files - {Temp(n)})[JobFile(id) := Whole(job)], durable[id := job])
  {
    var after := (files - {Temp(n)})[JobFile(id) := Whole(job)];
    forall x | x in durable[id := job] ensures x in Stored(after) && Stored(after)[x] == durable[id := job][x] {
      assert x == id || x in Stored(files);
      assert JobFile(x) in after;
    }
    forall x | x in Stored(after) ensures x in durable[id := job] {
      assert x == id || x in Stored(files);
    }
    assert Stored(after) == durable[id := job];
  }

  lemma TempKeepsDisk(files: map<Name, File>, durable: map<Id, Job>, n: nat, f: File)
    requires DiskMirrors(files, durable)
    ensures DiskMirrors(files[Temp(n) := f], durable)
  {
    assert Stored(files[Temp(n) := f]) == Stored(files);
  }

  lemma UnlinkKeepsDisk(files: map<Name, File>, durable: map<Id, Job>, id: Id)
    requires DiskMirrors(files, durable)
    ensures DiskMirrors(files - {JobFile(id)}, durable - {id})
  {
    assert Stored(files - {JobFile(id)}) == Stored(files) - {id};
  }

  predicate TouchesDisk(e: Event) { e.OpenTemp? || e.SyncTemp? || e.Replace? || e.Unlink? }

  lemma DiskUntouched(cfg: Config, s: State, e: Event)
    requires Enabled(cfg, s, e) && !TouchesDisk(e)
    ensures Apply(cfg, s, e).files == s.files && Apply(cfg, s, e).durable == s.durable
  {
  }

  lemma StepKeepsDisk(cfg: Config, s: State, e: Event)
    requires DiskInv(s) && Enabled(cfg, s, e)
    ensures DiskInv(Apply(cfg, s, e))
  {
    if !TouchesDisk(e) {
      DiskUntouched(cfg, s, e);
    } else {
      match e
      case Replace => ReplaceKeepsDisk(s.files, s.durable, s.temps, s.write.value.id, s.write.value.job);
      case Unlink(id) => UnlinkKeepsDisk(s.files, s.durable, id);
      case OpenTemp => TempKeepsDisk(s.files, s.durable, s.temps, Partial);
      case SyncTemp => TempKeepsDisk(s.files, s.durable, s.temps, Whole(s.write.value.job));
    }
  }

  /** A start is refused as long as any job is active, though it looks at ten jobs only. */
  lemma GuardSeesActive(cfg: Config, s: State, id: Id)
    requires cfg.Valid() && MemoryInv(s) && s.ActiveJob(id)
    ensures AmongNewest(s.jobs, id, 1) && !MayStart(cfg, s.jobs)
  {
    assert ActiveIsNewest(s, id);
    assert Newer(s.jobs, id) == {};
    var limit := if GUARD_LIMIT < cfg.maxHistory then GUARD_LIMIT else cfg.maxHistory;
    assert id in Newest(s.jobs, limit);
  }

  lemma StartKeepsJob(s: State, t: State, id: Id, job: Job, other: Id)
    requires MemoryInv(s) && s.Resting() && id !in s.born && job.created > s.clock && job.status.Active()
    requires forall x :: !s.ActiveJob(x)
    requires t == s.(jobs := s.jobs[id := job], born := s.born[id := job.created], clock := job.created,
                     write := Some(Write(id, job, Dirty, true)))
    ensures Dated(t, other) && ActiveIsServed(t, other) && ActiveIsNewest(t, other)
  {
    assert Dated(s, other) && Dated(s, id) && ActiveIsServed(s, other) && !s.ActiveJob(other);
    forall x | x in t.jobs ensures t.jobs[x].created <= job.created { assert Dated(s, x); }
  }

  lemma StartKeepsMemory(cfg: Config, s: State, id: Id, created: int)
    requires cfg.Valid() && MemoryInv(s) && Enabled(cfg, s, Start(id, created))
    ensures MemoryInv(Apply(cfg, s, Start(id, created)))
  {
    var t := Apply(cfg, s, Start(id, created));
    if MayStart(cfg, s.jobs) {
      forall x ensures !s.ActiveJob(x) {
        if s.ActiveJob(x) { GuardSeesActive(cfg, s, x); }
      }
      forall other ensures Dated(t, other) && ActiveIsServed(t, other) && ActiveIsNewest(t, other) {
        StartKeepsJob(s, t, id, t.jobs[id], other);
      }
      forall i, j | i in t.born && j in t.born && t.born[i] == t.born[j] ensures i == j {
        assert Dated(s, i) && Dated(s, j);
      }
    }
  }

  /** A change of one job that keeps its creation time, and may end it together with its task. */
  lemma UpdateKeepsMemory(s: State, t: State, id: Id, job: Job)
    requires MemoryInv(s) && s.Resting() && id in s.jobs && job.created == s.jobs[id].created
    requires t == Update(s.(tasks := t.tasks, accepted := t.accepted), id, job)
          || t == s.(tasks := t.tasks, accepted := t.accepted, jobs := s.jobs[id := job])
    requires t.tasks == (if job.status.Active() then s.tasks else s.tasks - {id})
    requires s.ActiveJob(id) || !job.status.Active()
    requires t.accepted <= s.accepted + {id}
    ensures MemoryInv(t)
  {
    assert Dated(s, id);
    forall other ensures Dated(t, other) && ActiveIsServed(t, other) && ActiveIsNewest(t, other) {
      assert Dated(s, other) && ActiveIsServed(s, other) && ActiveIsNewest(s, other);
    }
  }

  /** Steps of the file write change nothing in memory but the write itself. */
  lemma WritingKeepsMemory(s: State, t: State)
    requires MemoryInv(s) && s.write.Some?
    requires t.jobs == s.jobs && t.tasks == s.tasks && t.up == s.up
          && t.clock == s.clock && t.born == s.born && t.accepted == s.accepted
    requires t.durable == s.durable || t.durable == s.durable[s.write.value.id := s.write.value.job]
    requires if t.write.Some? then t.write.value.(stage := Dirty) == s.write.value.(stage := Dirty)
                                   && (t.write.value.stage.Trimming? ==> s.write.value.creating)
             else !s.write.value.creating
    ensures MemoryInv(t)
  {
    forall other ensures Dated(t, other) && ActiveIsServed(t, other) && ActiveIsNewest(t, other) {
      assert Dated(s, other) && ActiveIsServed(s, other) && ActiveIsNewest(s, other);
    }
  }

  /** Trimming never discards the active job. */
  lemma TrimSparesActive(cfg: Config, s: State, id: Id)
    requires cfg.Valid() && MemoryInv(s) && Enabled(cfg, s, Unlink(id))
    ensures !s.ActiveJob(id) && id != s.write.value.id
  {
    if s.ActiveJob(id) { GuardSeesActive(cfg, s, id); }
    assert ActiveIsServed(s, s.write.value.id);
  }

  lemma UnlinkKeepsMemory(cfg: Config, s: State, id: Id)
    requires cfg.Valid() && MemoryInv(s) && Enabled(cfg, s, Unlink(id))
    ensures MemoryInv(Apply(cfg, s, Unlink(id)))
  {
    var t := Apply(cfg, s, Unlink(id));
    TrimSparesActive(cfg, s, id);
    forall other ensures Dated(t, other) && ActiveIsServed(t, other) && ActiveIsNewest(t, other) {
      assert Dated(s, other) && ActiveIsServed(s, other) && ActiveIsNewest(s, other);
    }
  }

  lemma LaunchKeepsMemory(cfg: Config, s: State)
    requires MemoryInv(s) && Enabled(cfg, s, Launch)
    ensures MemoryInv(Apply(cfg, s, Launch))
  {
    var t := Apply(cfg, s, Launch);
    forall other ensures Dated(t, other) && ActiveIsServed(t, other) && ActiveIsNewest(t, other) {
      assert Dated(s, other) && ActiveIsServed(s, other) && ActiveIsNewest(s, other);
    }
  }

  lemma CrashKeepsMemory(cfg: Config, s: State)
    requires MemoryInv(s)
    ensures MemoryInv(Apply(cfg, s, Crash))
  {
    var t := Apply(cfg, s, Crash);
    forall other ensures Dated(t, other) && ActiveIsServed(t, other) && ActiveIsNewest(t, other) {
      assert Dated(s, other);
    }
  }

  lemma RecoverKeepsMemory(cfg: Config, s: State, id: Id)
    requires MemoryInv(s) && DiskInv(s) && Enabled(cfg, s, Recover(id))
    ensures MemoryInv(Apply(cfg, s, Recover(id)))
  {
    var t := Apply(cfg, s, Recover(id));
    assert Dated(s, id);
    forall other ensures Dated(t, other) && ActiveIsServed(t, other) && ActiveIsNewest(t, other) {
      assert Dated(s, other) && ActiveIsServed(s, other);
    }
  }

  lemma LoadKeepsMemory(cfg: Config, s: State)
    requires MemoryInv(s) && DiskInv(s) && Enabled(cfg, s, Load)
    ensures MemoryInv(Apply(cfg, s, Load))
  {
    var t := Apply(cfg, s, Load);
    assert forall id :: id in t.jobs ==> id in s.durable && t.jobs[id] == s.durable[id] && !t.ActiveJob(id);
    forall other ensures Dated(t, other) && ActiveIsServed(t, other) && ActiveIsNewest(t, other) {
      assert Dated(s, other);
    }
  }

  predicate ChangesJob(e: Event) { e.CancelRequest? || e.Finish? || e.Raise? || e.Progress? || e.Remark? }

  lemma ChangeKeepsMemory(cfg: Config, s: State, e: Event)
    requires MemoryInv(s) && Enabled(cfg, s, e) && ChangesJob(e)
    ensures MemoryInv(Apply(cfg, s, e))
  {
    var t := Apply(cfg, s, e);
    assert ActiveIsServed(s, e.id);
    match e
    case CancelRequest(id) =>
      if s.ActiveJob(id) { UpdateKeepsMemory(s, t, id, AfterCancel(cfg, s.jobs[id]).0); }
    case Finish(id) => UpdateKeepsMemory(s, t, id, AfterComplete(cfg, s.jobs[id]));
    case Raise(id, error) => UpdateKeepsMemory(s, t, id, AfterFail(cfg, s.jobs[id], error));
    case Progress(id, line) => UpdateKeepsMemory(s, t, id, AppendLog(cfg, s.jobs[id], line));
    case Remark(id, line) => UpdateKeepsMemory(s, t, id, AppendLog(cfg, s.jobs[id], line));
  }

  predicate WritesFile(e: Event) { e.OpenTemp? || e.SyncTemp? || e.Replace? }

  lemma FileStepKeepsMemory(cfg: Config, s: State, e: Event)
    requires MemoryInv(s) && Enabled(cfg, s, e) && WritesFile(e)
    ensures MemoryInv(Apply(cfg, s, e))
  {
    WritingKeepsMemory(s, Apply(cfg, s, e));
  }

  lemma StepKeepsMemory(cfg: Config, s: State, e: Event)
    requires cfg.Valid() && MemoryInv(s) && DiskInv(s) && Enabled(cfg, s, e)
    ensures MemoryInv(Apply(cfg, s, e))
  {
    if ChangesJob(e) {
      ChangeKeepsMemory(cfg, s, e);
    } else if WritesFile(e) {
      FileStepKeepsMemory(cfg, s, e);
    } else {
      match e
      case Start(id, created) => StartKeepsMemory(cfg, s, id, created);
      case Unlink(id) => UnlinkKeepsMemory(cfg, s, id);
      case Launch => LaunchKeepsMemory(cfg, s);
      case Crash => CrashKeepsMemory(cfg, s);
      case Recover(id) => RecoverKeepsMemory(cfg, s, id);
      case Load => LoadKeepsMemory(cfg, s);
    }
  }

  // ---------- Memory and disk; cancels ----------

  lemma ChangeKeepsJob(cfg: Config, s: State, e: Event, id: Id)
    requires MemoryInv(s) && Enabled(cfg, s, e) && ChangesJob(e) && JobInv(s, id)
    ensures JobInv(Apply(cfg, s, e), id)
  {
    assert ActiveIsServed(s, id);
  }

  lemma StepKeepsJob(cfg: Config, s: State, e: Event, id: Id)
    requires cfg.Valid() && MemoryInv(s) && DiskInv(s) && Enabled(cfg, s, e) && JobInv(s, id)
    ensures JobInv(Apply(cfg, s, e), id)
  {
    if ChangesJob(e) {
      ChangeKeepsJob(cfg, s, e, id);
    } else if WritesFile(e) {
      FileStepKeepsJob(cfg, s, e, id);
    } else if e.Crash? {
      CrashKeepsJob(cfg, s, id);
    } else if e.Recover? {
      RecoverKeepsJob(cfg, s, e.id, id);
    } else if e.Load? {
      LoadKeepsJob(cfg, s, id);
    } else {
      TrimOrStartKeepsJob(cfg, s, e, id);
    }
  }

  lemma FileStepKeepsJob(cfg: Config, s: State, e: Event, id: Id)
    requires MemoryInv(s) && Enabled(cfg, s, e) && WritesFile(e) && JobInv(s, id)
    ensures JobInv(Apply(cfg, s, e), id)
  {
  }

  lemma CrashKeepsJob(cfg: Config, s: State, id: Id)
    requires JobInv(s, id)
    ensures JobInv(Apply(cfg, s, Crash), id)
  {
  }

  lemma RecoverKeepsJob(cfg: Config, s: State, recovered: Id, id: Id)
    requires Enabled(cfg, s, Recover(recovered)) && JobInv(s, id)
    ensures JobInv(Apply(cfg, s, Recover(recovered)), id)
  {
    var t := Apply(cfg, s, Recover(recovered));
    assert !t.up && t.jobs == s.jobs && t.durable == s.durable && t.accepted == s.accepted;
  }

  lemma LoadKeepsJob(cfg: Config, s: State, id: Id)
    requires DiskInv(s) && Enabled(cfg, s, Load) && JobInv(s, id)
    ensures JobInv(Apply(cfg, s, Load), id)
  {
    var t := Apply(cfg, s, Load);
    assert id in t.jobs ==> id in s.durable && t.jobs[id] == s.durable[id] && !s.durable[id].status.Active();
  }

  lemma TrimOrStartKeepsJob(cfg: Config, s: State, e: Event, id: Id)
    requires cfg.Valid() && MemoryInv(s) && Enabled(cfg, s, e) && JobInv(s, id) && (e.Start? || e.Unlink? || e.Launch?)
    ensures JobInv(Apply(cfg, s, e), id)
  {
    assert Dated(s, id);
    if e.Unlink? { TrimSparesActive(cfg, s, e.id); }
  }

  // ---------- The bounded history ----------

  lemma {:induction false} OldestOf(jobs: map<Id, Job>, ids: set<Id>) returns (oldest: Id)
    requires ids <= jobs.Keys && ids != {}
    ensures oldest in ids && forall id :: id in ids ==> jobs[oldest].created <= jobs[id].created
  {
    var some :| some in ids;
    if ids == {some} {
      oldest := some;
    } else {
      var rest := OldestOf(jobs, ids - {some});
      oldest := if jobs[rest].created <= jobs[some].created then rest else some;
      forall id | id in ids ensures jobs[oldest].created <= jobs[id].created {
        assert id == some || id in ids - {some};
      }
    }
  }

  lemma SubsetSize(a: set<Id>, b: set<Id>)
    requires a <= b
    ensures |a| <= |b|
  {
    assert b == a + (b - a);
  }

  lemma DifferenceSize(a: set<Id>, b: set<Id>)
    ensures |a| <= |b| + |a - b|
  {
    assert a == (a * b) + (a - b);
    SubsetSize(a * b, b);
  }

  ghost predicate DistinctTimes(jobs: map<Id, Job>) {
    forall i, j :: i in jobs && j in jobs && jobs[i].created == jobs[j].created ==> i == j
  }

  /** Cutting to the newest `limit` jobs leaves at most `limit`. */
  lemma NewestBounded(jobs: map<Id, Job>, limit: nat)
    requires DistinctTimes(jobs)
    ensures |Newest(jobs, limit)| <= limit
  {
    var kept := Newest(jobs, limit).Keys;
    if kept != {} {
      var oldest := OldestOf(jobs, kept);
      SubsetSize(kept - {oldest}, Newer(jobs, oldest));
    }
  }

  lemma AllNewest(jobs: map<Id, Job>, limit: nat)
    requires |jobs| <= limit
    ensures Newest(jobs, limit) == jobs
  {
    forall id | id in jobs ensures AmongNewest(jobs, id, limit) {
      SubsetSize(Newer(jobs, id), jobs.Keys - {id});
    }
  }

  lemma AllKept(jobs: map<Id, Job>, limit: nat)
    requires jobs.Keys <= Newest(jobs, limit).Keys
    ensures Newest(jobs, limit) == jobs
  {
  }

  /** Dropping a job that is not among the newest leaves the newest what they were. */
  lemma TrimKeepsNewest(jobs: map<Id, Job>, limit: nat, gone: Id)
    requires gone in jobs && !AmongNewest(jobs, gone, limit)
    ensures Newest(jobs - {gone}, limit) == Newest(jobs, limit)
  {
    var after := jobs - {gone};
    forall id | id in after ensures AmongNewest(after, id, limit) <==> AmongNewest(jobs, id, limit) {
      if gone in Newer(jobs, id) {
        SubsetSize(Newer(jobs, gone), Newer(after, id));
        SubsetSize(Newer(after, id), Newer(jobs, id));
      } else {
        assert Newer(after, id) == Newer(jobs, id);
      }
    }
  }

  /** The trim loop finds a job to drop as long as there are too many. */
  lemma TrimNeverStuck(jobs: map<Id, Job>, limit: nat)
    requires DistinctTimes(jobs) && |jobs| > limit
    ensures exists id :: id in jobs && !AmongNewest(jobs, id, limit)
  {
    NewestBounded(jobs, limit);
    var kept := Newest(jobs, limit).Keys;
    assert |kept| <= limit < |jobs.Keys|;
    DifferenceSize(jobs.Keys, kept);
    var id :| id in jobs.Keys - kept;
    assert !AmongNewest(jobs, id, limit);
  }

  lemma ChangeKeepsKeys(cfg: Config, s: State, e: Event)
    requires MemoryInv(s) && Enabled(cfg, s, e) && ChangesJob(e)
    ensures Apply(cfg, s, e).jobs.Keys == s.jobs.Keys && Apply(cfg, s, e).up == s.up
  {
    assert ActiveIsServed(s, e.id);
  }

  lemma LoadIsBounded(cfg: Config, s: State)
    requires MemoryInv(s) && DiskInv(s)
    ensures |Newest(Stored(s.files), cfg.maxHistory)| <= cfg.maxHistory
  {
    forall i, j | i in s.durable && j in s.durable && s.durable[i].created == s.durable[j].created ensures i == j {
      assert Dated(s, i) && Dated(s, j);
    }
    NewestBounded(s.durable, cfg.maxHistory);
  }

  lemma StepKeepsBound(cfg: Config, s: State, e: Event)
    requires MemoryInv(s) && DiskInv(s) && Bounded(cfg, s) && Enabled(cfg, s, e)
    ensures Bounded(cfg, Apply(cfg, s, e))
  {
    if ChangesJob(e) {
      ChangeKeepsKeys(cfg, s, e);
      assert |Apply(cfg, s, e).jobs| == |Apply(cfg, s, e).jobs.Keys| && |s.jobs| == |s.jobs.Keys|;
    } else if e.Load? {
      LoadIsBounded(cfg, s);
    }
  }

  // ---------- Every run ----------

  lemma {:induction false} StepKeepsInv(cfg: Config, s: State, e: Event)
    requires cfg.Valid() && Inv(cfg, s) && Enabled(cfg, s, e)
    ensures Inv(cfg, Apply(cfg, s, e))
  {
    StepKeepsDisk(cfg, s, e);
    StepKeepsMemory(cfg, s, e);
    StepKeepsBound(cfg, s, e);
    forall id ensures JobInv(Apply(cfg, s, e), id) { StepKeepsJob(cfg, s, e, id); }
  }

  lemma {:induction false} StepsKeepInv(cfg: Config, s: State, es: seq<Event>)
    requires cfg.Valid() && Inv(cfg, s) && Steps(cfg, s, es).Some?
    ensures Inv(cfg, Steps(cfg, s, es).value)
  {
    if es != [] {
      StepsKeepInv(cfg, s, es[..|es| - 1]);
      StepKeepsInv(cfg, Steps(cfg, s, es[..|es| - 1]).value, es[|es| - 1]);
    }
  }

  lemma RunsKeepInv(cfg: Config, es: seq<Event>)
    requires cfg.Valid() && Run(cfg, es).Some?
    ensures Inv(cfg, Run(cfg, es).value)
  {
    assert Stored(INIT.files) == INIT.durable;
    StepsKeepInv(cfg, INIT, es);
  }

  // ---------- Main results ----------

  /** On every run at most one job is active, it has the newest creation time, and a live
      task runs it or its creation is still being written. */
  lemma AtMostOneActive(cfg: Config, es: seq<Event>, i: Id, j: Id)
    requires cfg.Valid() && Run(cfg, es).Some?
    requires Run(cfg, es).value.ActiveJob(i)
    ensures var s := Run(cfg, es).value;
      && (s.ActiveJob(j) ==> i == j)
      && (j in s.jobs ==> s.jobs[j].created <= s.jobs[i].created)
      && (i in s.tasks || (s.write.Some? && s.write.value.creating && s.write.value.id == i))
  {
    RunsKeepInv(cfg, es);
    var s := Run(cfg, es).value;
    assert Dated(s, i) && Dated(s, j) && ActiveIsServed(s, i) && ActiveIsNewest(s, i) && ActiveIsNewest(s, j);
  }

  /** In a state with the invariant, looking at the ten newest jobs is as good as looking at all. */
  lemma GuardExact(cfg: Config, s: State)
    requires cfg.Valid() && MemoryInv(s)
    ensures MayStart(cfg, s.jobs) <==> forall id :: !s.ActiveJob(id)
  {
    forall id | s.ActiveJob(id) ensures !MayStart(cfg, s.jobs) { GuardSeesActive(cfg, s, id); }
    if forall id :: !s.ActiveJob(id) {
      var limit := if GUARD_LIMIT < cfg.maxHistory then GUARD_LIMIT else cfg.maxHistory;
      forall id | id in Newest(s.jobs, limit) ensures !s.jobs[id].status.Active() { assert !s.ActiveJob(id); }
    }
  }

  lemma GuardIsExact(cfg: Config, es: seq<Event>)
    requires cfg.Valid() && Run(cfg, es).Some?
    ensures MayStart(cfg, Run(cfg, es).value.jobs) <==> forall id :: !Run(cfg, es).value.ActiveJob(id)
  {
    RunsKeepInv(cfg, es);
    GuardExact(cfg, Run(cfg, es).value);
  }

  /** A job whose cancel request was accepted is completed neither in memory nor on disk. */
  lemma AcceptedCancelNeverCompletes(cfg: Config, es: seq<Event>, id: Id)
    requires cfg.Valid() && Run(cfg, es).Some?
    requires id in Run(cfg, es).value.accepted
    ensures var s := Run(cfg, es).value;
      && (id in s.jobs ==> s.jobs[id].status.Canceling? || s.jobs[id].status.Canceled? || s.jobs[id].status.Failed?)
      && (JobFile(id) in s.files ==> s.files[JobFile(id)].Whole? && !s.files[JobFile(id)].job.status.Completed?)
  {
    RunsKeepInv(cfg, es);
    var s := Run(cfg, es).value;
    assert JobInv(s, id);
    if JobFile(id) in s.files { assert id in Stored(s.files); }
  }

  // ---------- How a job ends ----------

  predicate AskedToCancel(job: Job) { job.status.Canceling? || job.status.Canceled? }

  /** Only a job whose cancel was accepted is canceling or canceled, wherever it is kept. */
  predicate CancelGrounded(s: State, id: Id) {
    && (id in s.jobs && AskedToCancel(s.jobs[id]) ==> id in s.accepted)
    && (id in s.durable && AskedToCancel(s.durable[id]) ==> id in s.accepted)
    && (s.write.Some? && s.write.value.id == id && AskedToCancel(s.write.value.job) ==> id in s.accepted)
  }

  lemma StepKeepsGrounds(cfg: Config, s: State, e: Event, id: Id)
    requires DiskInv(s) && Enabled(cfg, s, e) && CancelGrounded(s, id)
    ensures CancelGrounded(Apply(cfg, s, e), id)
  {
    if ChangesJob(e) {
      ChangeKeepsGrounds(cfg, s, e, id);
    } else if e.Load? || e.Recover? {
      RestartKeepsGrounds(cfg, s, e, id);
    }
  }

  lemma ChangeKeepsGrounds(cfg: Config, s: State, e: Event, id: Id)
    requires Enabled(cfg, s, e) && ChangesJob(e) && CancelGrounded(s, id)
    ensures CancelGrounded(Apply(cfg, s, e), id)
  {
  }

  lemma RestartKeepsGrounds(cfg: Config, s: State, e: Event, id: Id)
    requires DiskInv(s) && Enabled(cfg, s, e) && (e.Load? || e.Recover?) && CancelGrounded(s, id)
    ensures CancelGrounded(Apply(cfg, s, e), id)
  {
  }

  lemma {:induction false} RunsGroundCancels(cfg: Config, es: seq<Event>, id: Id)
    requires cfg.Valid() && Run(cfg, es).Some?
    ensures CancelGrounded(Run(cfg, es).value, id)
  {
    if es != [] {
      var before := es[..|es| - 1];
      RunsGroundCancels(cfg, before, id);
      RunsKeepInv(cfg, before);
      StepKeepsGrounds(cfg, Run(cfg, before).value, es[|es| - 1], id);
    }
  }

  /** The job file is what memory shows, and no write is left over. */
  predicate OnFile(s: State, id: Id) {
    s.Resting() && id in s.jobs && JobFile(id) in s.files && s.files[JobFile(id)] == Whole(s.jobs[id])
  }

  /** After the operation and its whole write: the job has ended so, on file as in memory, its
      task is gone, and every other job is as it was. */
  ghost predicate EndsAs(s: State, t: State, id: Id, status: Status, error: string)
    requires id in s.jobs
  {
    && OnFile(t, id) && t.jobs[id].status == status && t.jobs[id].error == error
    && t.jobs[id].created == s.jobs[id].created
    && t.tasks == s.tasks - {id} && t.jobs.Keys == s.jobs.Keys
    && (forall other :: other in s.jobs && other != id ==> t.jobs[other] == s.jobs[other])
  }

  lemma WriteIsOnFile(cfg: Config, t: State, id: Id)
    requires t.up && t.Writing(Dirty) && id in t.jobs && t.write.value == Write(id, t.jobs[id], Dirty, false)
    ensures var w := Next(cfg, Next(cfg, Next(cfg, Some(t), OpenTemp), SyncTemp), Replace);
      w.Some? && OnFile(w.value, id) && w.value.jobs == t.jobs && w.value.tasks == t.tasks
  {
    WrittenIsThreeSteps(cfg, t);
  }

  /** Every run: a job whose runner reaches its end is canceled if and only if a cancel was
      accepted, and completed otherwise, in memory at once and on file after the write. */
  lemma FinishExact(cfg: Config, es: seq<Event>, id: Id)
    requires cfg.Valid() && Run(cfg, es).Some? && Enabled(cfg, Run(cfg, es).value, Finish(id))
    requires id in Run(cfg, es).value.jobs
    ensures var s := Run(cfg, es).value;
      var w := Next(cfg, Next(cfg, Next(cfg, Next(cfg, Some(s), Finish(id)), OpenTemp), SyncTemp), Replace);
      w.Some? && EndsAs(s, w.value, id, if id in s.accepted then Canceled else Completed, s.jobs[id].error)
  {
    var s := Run(cfg, es).value;
    RunsKeepInv(cfg, es);
    RunsGroundCancels(cfg, es, id);
    assert ActiveIsServed(s, id) && JobInv(s, id);
    WriteIsOnFile(cfg, Apply(cfg, s, Finish(id)), id);
  }

  /** ... and one whose runner raises has failed with the error's text, cancel or not. */
  lemma RaiseExact(cfg: Config, es: seq<Event>, id: Id, error: string)
    requires cfg.Valid() && Run(cfg, es).Some? && Enabled(cfg, Run(cfg, es).value, Raise(id, error))
    requires id in Run(cfg, es).value.jobs
    ensures var s := Run(cfg, es).value;
      var w := Next(cfg, Next(cfg, Next(cfg, Next(cfg, Some(s), Raise(id, error)), OpenTemp), SyncTemp), Replace);
      w.Some? && EndsAs(s, w.value, id, Failed, if error == "" then "unknown error" else error)
  {
    WriteIsOnFile(cfg, Apply(cfg, Run(cfg, es).value, Raise(id, error)), id);
  }

  /** A cancel request on an unfinished job is accepted, shows at once and on file, and leaves
      the task to end the job; on any other it changes nothing. */
  lemma CancelExact(cfg: Config, es: seq<Event>, id: Id)
    requires cfg.Valid() && Run(cfg, es).Some? && Enabled(cfg, Run(cfg, es).value, CancelRequest(id))
    ensures var s := Run(cfg, es).value;
      var t := Apply(cfg, s, CancelRequest(id));
      if !s.ActiveJob(id) then t == s
      else
        && id in t.accepted && t.jobs[id].status == Canceling && t.tasks == s.tasks
        && (forall other :: other != id ==> (other in t.accepted) == (other in s.accepted))
        && (if s.jobs[id].status.Canceling? then t.jobs == s.jobs && t.write == None
            else
              var w := Next(cfg, Next(cfg, Next(cfg, Some(t), OpenTemp), SyncTemp), Replace);
              w.Some? && OnFile(w.value, id) && w.value.jobs == t.jobs)
  {
    var s := Run(cfg, es).value;
    var t := Apply(cfg, s, CancelRequest(id));
    if s.ActiveJob(id) && s.jobs[id].status.Running? { WriteIsOnFile(cfg, t, id); }
  }

  /** Wherever a version of the job is kept, it has this final status. */
  predicate HasStatus(s: State, id: Id, status: Status) {
    && id in s.born && !status.Active()
    && (id in s.jobs ==> s.jobs[id].status == status)
    && (id in s.durable ==> s.durable[id].status == status)
    && (s.write.Some? && s.write.value.id == id ==> s.write.value.job.status == status)
  }

  lemma ChangeKeepsStatus(cfg: Config, s: State, e: Event, id: Id, status: Status)
    requires MemoryInv(s) && Enabled(cfg, s, e) && ChangesJob(e) && HasStatus(s, id, status)
    ensures HasStatus(Apply(cfg, s, e), id, status)
  {
    assert ActiveIsServed(s, id);
  }

  lemma RestartKeepsStatus(cfg: Config, s: State, e: Event, id: Id, status: Status)
    requires DiskInv(s) && Enabled(cfg, s, e) && (e.Recover? || e.Load?) && HasStatus(s, id, status)
    ensures HasStatus(Apply(cfg, s, e), id, status)
  {
  }

  lemma StepKeepsStatus(cfg: Config, s: State, e: Event, id: Id, status: Status)
    requires MemoryInv(s) && DiskInv(s) && Enabled(cfg, s, e) && HasStatus(s, id, status)
    ensures HasStatus(Apply(cfg, s, e), id, status)
  {
    if ChangesJob(e) {
      ChangeKeepsStatus(cfg, s, e, id, status);
    } else if e.Recover? || e.Load? {
      RestartKeepsStatus(cfg, s, e, id, status);
    }
  }

  lemma {:induction false} StepsKeepStatus(cfg: Config, s: State, es: seq<Event>, id: Id, status: Status)
    requires cfg.Valid() && Inv(cfg, s) && Steps(cfg, s, es).Some? && HasStatus(s, id, status)
    ensures HasStatus(Steps(cfg, s, es).value, id, status)
  {
    if es != [] {
      var before := es[..|es| - 1];
      StepsKeepStatus(cfg, s, before, id, status);
      StepsKeepInv(cfg, s, before);
      StepKeepsStatus(cfg, Steps(cfg, s, before).value, es[|es| - 1], id, status);
    }
  }

  lemma StepsEnd(cfg: Config, s: State, es: seq<Event>, e: Event)
    ensures Steps(cfg, s, es + [e]) == Next(cfg, Steps(cfg, s, es), e)
  {
    assert (es + [e])[..|es|] == es;
  }

  lemma {:induction false} StepsAppend(cfg: Config, s: State, es: seq<Event>, more: seq<Event>)
    requires Steps(cfg, s, es).Some?
    ensures Steps(cfg, s, es + more) == Steps(cfg, Steps(cfg, s, es).value, more)
  {
    if more == [] {
      assert es + more == es;
    } else {
      var shorter, last := more[..|more| - 1], more[|more| - 1];
      StepsAppend(cfg, s, es, shorter);
      LastApart(es, more);
      StepsEnd(cfg, s, es + shorter, last);
    }
  }

  lemma LastApart(es: seq<Event>, more: seq<Event>)
    requires more != []
    ensures es + more == es + more[..|more| - 1] + [more[|more| - 1]]
  {
  }

  lemma FileIsDurable(s: State, id: Id)
    requires DiskInv(s) && JobFile(id) in s.files
    ensures id in s.durable && s.files[JobFile(id)] == Whole(s.durable[id])
  {
    assert id in Stored(s.files);
  }

  /** Memory and file of the job, where there is one, show this status. */
  predicate Shows(s: State, id: Id, status: Status) {
    && (id in s.jobs ==> s.jobs[id].status == status)
    && (JobFile(id) in s.files ==> s.files[JobFile(id)].Whole? && s.files[JobFile(id)].job.status == status)
  }

  lemma FinalStaysFrom(cfg: Config, s: State, more: seq<Event>, id: Id)
    requires cfg.Valid() && Inv(cfg, s) && s.Resting() && id in s.jobs && !s.ActiveJob(id)
    requires Steps(cfg, s, more).Some?
    ensures Shows(Steps(cfg, s, more).value, id, s.jobs[id].status)
  {
    var t := Steps(cfg, s, more).value;
    assert JobInv(s, id) && Dated(s, id);
    StepsKeepStatus(cfg, s, more, id, s.jobs[id].status);
    StepsKeepInv(cfg, s, more);
    if JobFile(id) in t.files { FileIsDurable(t, id); }
  }

  /** Once an operation has finished a job, its final status stays, in memory and on disk,
      through every further run, crashes and reloads included. */
  lemma FinalStays(cfg: Config, es: seq<Event>, more: seq<Event>, id: Id)
    requires cfg.Valid() && Run(cfg, es).Some? && Run(cfg, es + more).Some?
    requires Run(cfg, es).value.Resting()
    requires id in Run(cfg, es).value.jobs && !Run(cfg, es).value.ActiveJob(id)
    ensures Shows(Run(cfg, es + more).value, id, Run(cfg, es).value.jobs[id].status)
  {
    RunsKeepInv(cfg, es);
    StepsAppend(cfg, INIT, es, more);
    FinalStaysFrom(cfg, Run(cfg, es).value, more, id);
  }

  // ---------- Crash and reload ----------

  /** What a reload makes of the files: every unfinished job failed, the rest untouched. */
  function Settled(cfg: Config, durable: map<Id, Job>): map<Id, Job> {
    map id | id in durable :: Recovered(cfg, durable[id])
  }

  /** While the store is down, a write in progress settles a job. */
  predicate WriteSettles(cfg: Config, s: State) {
    s.write.Some? ==>
      s.write.value.id in s.durable && s.write.value.job == Recovered(cfg, s.durable[s.write.value.id])
  }

  lemma ReplaceSettles(cfg: Config, durable: map<Id, Job>, id: Id)
    requires id in durable
    ensures Settled(cfg, durable[id := Recovered(cfg, durable[id])]) == Settled(cfg, durable)
  {
  }

  lemma DownStep(cfg: Config, s: State, e: Event)
    requires MemoryInv(s) && DiskInv(s) && !s.up && WriteSettles(cfg, s) && Enabled(cfg, s, e)
    ensures Settled(cfg, Apply(cfg, s, e).durable) == Settled(cfg, s.durable)
    ensures WriteSettles(cfg, Apply(cfg, s, e))
  {
    if e.Replace? {
      ReplaceSettles(cfg, s.durable, s.write.value.id);
    } else if e.OpenTemp? || e.SyncTemp? {
      DownWrite(cfg, s, e);
    } else {
      DownElse(cfg, s, e);
    }
  }

  lemma DownWrite(cfg: Config, s: State, e: Event)
    requires WriteSettles(cfg, s) && Enabled(cfg, s, e) && (e.OpenTemp? || e.SyncTemp?)
    ensures Apply(cfg, s, e).durable == s.durable && WriteSettles(cfg, Apply(cfg, s, e))
  {
  }

  lemma DownElse(cfg: Config, s: State, e: Event)
    requires MemoryInv(s) && DiskInv(s) && !s.up && WriteSettles(cfg, s) && Enabled(cfg, s, e)
    requires !e.Replace? && !e.OpenTemp? && !e.SyncTemp?
    ensures Apply(cfg, s, e).durable == s.durable && WriteSettles(cfg, Apply(cfg, s, e))
  {
    assert e.Crash? || e.Recover? || e.Load?;
    DiskUntouched(cfg, s, e);
  }

  predicate Loads(es: seq<Event>) { exists i :: 0 <= i < |es| && es[i].Load? }

  lemma {:induction false} DownSteps(cfg: Config, s: State, es: seq<Event>)
    requires cfg.Valid() && Inv(cfg, s) && !s.up && WriteSettles(cfg, s) && Steps(cfg, s, es).Some? && !Loads(es)
    ensures var t := Steps(cfg, s, es).value;
      !t.up && WriteSettles(cfg, t) && Settled(cfg, t.durable) == Settled(cfg, s.durable)
  {
    if es != [] {
      var before := es[..|es| - 1];
      assert forall i :: 0 <= i < |before| ==> before[i] == es[i];
      DownSteps(cfg, s, before);
      StepsKeepInv(cfg, s, before);
      DownStep(cfg, Steps(cfg, s, before).value, es[|es| - 1]);
    }
  }

  lemma NothingToSettle(cfg: Config, durable: map<Id, Job>)
    requires forall id :: id in durable ==> !durable[id].status.Active()
    ensures Settled(cfg, durable) == durable
  {
  }

  /** What a reload shows for the files of `durable`. */
  ghost predicate ShowsReload(cfg: Config, t: State, durable: map<Id, Job>) {
    && t.Resting() && t.tasks == {}
    && t.jobs == Newest(Settled(cfg, durable), cfg.maxHistory)
    && Stored(t.files) == Settled(cfg, durable)
  }

  lemma LoadShows(cfg: Config, d: State, durable: map<Id, Job>)
    requires MemoryInv(d) && DiskInv(d) && Enabled(cfg, d, Load) && Settled(cfg, d.durable) == Settled(cfg, durable)
    ensures ShowsReload(cfg, Apply(cfg, d, Load), durable)
  {
    NothingToSettle(cfg, d.durable);
  }

  /** A crash at any step, followed by a recovery that may itself crash at any step: the
      reloaded store shows the newest jobs as their last durably written version, with the
      unfinished ones failed, and runs nothing. */
  lemma CrashThenReload(cfg: Config, es: seq<Event>, recovery: seq<Event>)
    requires cfg.Valid() && Run(cfg, es).Some? && !Loads(recovery)
    requires Steps(cfg, Apply(cfg, Run(cfg, es).value, Crash), recovery).Some?
    requires Enabled(cfg, Steps(cfg, Apply(cfg, Run(cfg, es).value, Crash), recovery).value, Load)
    ensures ShowsReload(cfg, Apply(cfg, Steps(cfg, Apply(cfg, Run(cfg, es).value, Crash), recovery).value, Load),
                        Run(cfg, es).value.durable)
  {
    RunsKeepInv(cfg, es);
    var s := Run(cfg, es).value;
    var c := Apply(cfg, s, Crash);
    StepKeepsInv(cfg, s, Crash);
    DownSteps(cfg, c, recovery);
    StepsKeepInv(cfg, c, recovery);
    LoadShows(cfg, Steps(cfg, c, recovery).value, s.durable);
  }

  /** In the reloaded store a job that was finished on disk is unchanged, one that was not
      has failed with the restart error, and a finished job in memory between operations was
      finished alike on disk. */
  lemma ReloadIsFaithful(cfg: Config, s: State, t: State, id: Id)
    requires Inv(cfg, s) && ShowsReload(cfg, t, s.durable)
    ensures id in t.jobs ==>
      && id in s.durable
      && (if s.durable[id].status.Active() then
            && t.jobs[id].status.Failed? && t.jobs[id].error == cfg.restartError
            && t.jobs[id].logs == Last(s.durable[id].logs + [cfg.restartError], cfg.maxLogs)
          else t.jobs[id] == s.durable[id])
    ensures s.Resting() && id in s.jobs && !s.ActiveJob(id) ==>
      JobFile(id) in t.files && t.files[JobFile(id)].Whole? && t.files[JobFile(id)].job.status == s.jobs[id].status
    ensures s.Resting() && s.ActiveJob(id) ==>
      JobFile(id) in t.files && t.files[JobFile(id)].Whole? && t.files[JobFile(id)].job.status.Failed?
  {
    assert JobInv(s, id);
    if s.Resting() && id in s.jobs { assert id in Settled(cfg, s.durable) && id in Stored(t.files); }
  }

  // ---------- The whole trim ----------

  predicate OnlyUnlinks(es: seq<Event>) { forall i :: 0 <= i < |es| ==> es[i].Unlink? }

  /** Whatever order the surplus jobs are dropped in, what stays is the newest ones. */
  lemma {:induction false} UnlinksKeepNewest(cfg: Config, s: State, es: seq<Event>)
    requires OnlyUnlinks(es) && Steps(cfg, s, es).Some?
    ensures Newest(Steps(cfg, s, es).value.jobs, cfg.maxHistory) == Newest(s.jobs, cfg.maxHistory)
    ensures Steps(cfg, s, es).value.write == s.write
  {
    if es != [] {
      var before := es[..|es| - 1];
      UnlinksKeepNewest(cfg, s, before);
      TrimKeepsNewest(Steps(cfg, s, before).value.jobs, cfg.maxHistory, es[|es| - 1].id);
    }
  }

  lemma TrimStep(cfg: Config, was: State, dropped: seq<Event>, s: State, id: Id)
    requires OnlyUnlinks(dropped) && Steps(cfg, was, dropped) == Some(s)
    requires s.Writing(Trimming) && id in s.jobs && id !in Newest(s.jobs, cfg.maxHistory)
    ensures Enabled(cfg, s, Unlink(id)) && OnlyUnlinks(dropped + [Unlink(id)])
    ensures Steps(cfg, was, dropped + [Unlink(id)]) == Some(Apply(cfg, s, Unlink(id)))
    ensures Newest(s.jobs - {id}, cfg.maxHistory) == Newest(s.jobs, cfg.maxHistory)
  {
    TrimKeepsNewest(s.jobs, cfg.maxHistory, id);
    StepsEnd(cfg, was, dropped, Unlink(id));
  }

  lemma TrimLeavesNewest(cfg: Config, s: State, es: seq<Event>)
    requires OnlyUnlinks(es) && Steps(cfg, s, es).Some? && Enabled(cfg, Steps(cfg, s, es).value, Launch)
    ensures Steps(cfg, s, es).value.jobs == Newest(s.jobs, cfg.maxHistory)
  {
    UnlinksKeepNewest(cfg, s, es);
    AllNewest(Steps(cfg, s, es).value.jobs, cfg.maxHistory);
  }

  /** Of the jobs a trim finds, exactly the dropped ones lose their file; no other file changes. */
  lemma {:induction false} TrimRemovesFiles(cfg: Config, s: State, es: seq<Event>, id: Id)
    requires OnlyUnlinks(es) && Steps(cfg, s, es).Some?
    ensures var t := Steps(cfg, s, es).value;
      && (JobFile(id) in t.files <==> JobFile(id) in s.files && (id in s.jobs ==> id in t.jobs))
      && (forall n :: n in t.files ==> n in s.files && t.files[n] == s.files[n])
      && (id in t.jobs ==> id in s.jobs && t.jobs[id] == s.jobs[id])
  {
    if es != [] { TrimRemovesFiles(cfg, s, es[..|es| - 1], id); }
  }

  // ---------- Equal creation times ----------

  /** In the source's listing: later creation first, and among equal times, which have the
      precision of a second, the order of insertion (the sort is stable). */
  predicate ListedBefore(jobs: seq<Job>, i: nat, j: nat)
    requires i < |jobs| && j < |jobs|
  {
    jobs[i].created > jobs[j].created || (jobs[i].created == jobs[j].created && i < j)
  }

  function Rank(jobs: seq<Job>, j: nat): nat
    requires j < |jobs|
  {
    |set i: nat | i < |jobs| && ListedBefore(jobs, i, j)|
  }

  /** No job is active among the first `limit` of the listing. */
  predicate ListingIsFree(jobs: seq<Job>, limit: nat) {
    forall j: nat :: j < |jobs| && Rank(jobs, j) < limit ==> !jobs[j].status.Active()
  }

  /** The jobs as they stand in the dictionary, only the last active, and none created after
      it; a reload puts the older ones there newest first. */
  predicate OnlyLastActive(jobs: seq<Job>) {
    && jobs != [] && jobs[|jobs| - 1].status.Active()
    && (forall i :: 0 <= i < |jobs| - 1 ==> !jobs[i].status.Active())
    && (forall i :: 0 <= i < |jobs| ==> jobs[i].created <= jobs[|jobs| - 1].created)
  }

  /** The earlier jobs of the same second as the last one. */
  function TiedWithLast(jobs: seq<Job>): set<nat>
    requires jobs != []
  {
    set i: nat | i < |jobs| - 1 && jobs[i].created == jobs[|jobs| - 1].created
  }

  lemma RankOfLast(jobs: seq<Job>)
    requires OnlyLastActive(jobs)
    ensures Rank(jobs, |jobs| - 1) == |TiedWithLast(jobs)|
  {
    var last: nat := |jobs| - 1;
    assert (set i: nat | i < |jobs| && ListedBefore(jobs, i, last)) == TiedWithLast(jobs);
  }

  /** The guard, and likewise the trim, which keeps the first maxHistory of the listing, sees
      the active job if and only if fewer jobs than it looks at were created before it in the
      same second. */
  lemma TiesExact(jobs: seq<Job>, limit: nat)
    requires OnlyLastActive(jobs)
    ensures !ListingIsFree(jobs, limit) <==> |TiedWithLast(jobs)| < limit
  {
    RankOfLast(jobs);
    var last: nat := |jobs| - 1;
    assert Rank(jobs, last) < limit ==> !ListingIsFree(jobs, limit);
  }

  lemma AllTied(jobs: seq<Job>, n: nat)
    requires |jobs| == n + 1 && forall i :: 0 <= i <= n ==> jobs[i].created == jobs[n].created
    ensures |TiedWithLast(jobs)| == n
  {
    RangeSize(TiedWithLast(jobs), n);
  }

  lemma {:induction false} RangeSize(s: set<nat>, n: nat)
    requires forall i: nat :: i in s <==> i < n
    ensures |s| == n
  {
    if n == 0 {
      assert s == {};
    } else {
      RangeSize(s - {n - 1}, n - 1);
    }
  }

  /** Ten jobs finished within one second hide an eleventh that is still running. */
  lemma TenTiesHideActive(now: int) returns (jobs: seq<Job>)
    ensures |jobs| == GUARD_LIMIT + 1 && OnlyLastActive(jobs) && ListingIsFree(jobs, GUARD_LIMIT)
  {
    jobs := seq(GUARD_LIMIT, i => Job(now, Completed, "", [])) + [Job(now, Running, "", [])];
    AllTied(jobs, GUARD_LIMIT);
    TiesExact(jobs, GUARD_LIMIT);
  }

  // ---------- The store ----------

  /** The state after the whole atomic write of one job file. */
  function Written(s: State): State {
    if s.write.None? then s
    else
      var w := s.write.value;
      s.(files := (s.files - {Temp(s.temps)})[JobFile(w.id) := Whole(w.job)], temps := s.temps + 1,
         durable := s.durable[w.id := w.job],
         write := if w.creating then Some(w.(stage := Trimming)) else None)
  }

  lemma TempVanishes(files: map<Name, File>, temp: Name, f: File, g: File)
    ensures files[temp := f][temp := g] - {temp} == files - {temp}
  {
  }

  lemma ReplaceStep(cfg: Config, s: State, synced: State)
    requires s.Writing(Dirty)
    requires synced == s.(files := s.files[Temp(s.temps) := Partial][Temp(s.temps) := Whole(s.write.value.job)],
                          write := Some(s.write.value.(stage := TempSynced)))
    ensures Enabled(cfg, synced, Replace) && Apply(cfg, synced, Replace) == Written(s)
  {
    TempVanishes(s.files, Temp(s.temps), Partial, Whole(s.write.value.job));
  }

  lemma SyncStep(cfg: Config, s: State, open: State)
    requires s.Writing(Dirty)
    requires open == s.(files := s.files[Temp(s.temps) := Partial], write := Some(s.write.value.(stage := TempOpen)))
    ensures Enabled(cfg, open, SyncTemp) && Next(cfg, Next(cfg, Some(open), SyncTemp), Replace) == Some(Written(s))
  {
    ReplaceStep(cfg, s, Apply(cfg, open, SyncTemp));
  }

  /** ... is what its three steps, uninterrupted, lead to. */
  lemma WrittenIsThreeSteps(cfg: Config, s: State)
    requires s.Writing(Dirty)
    ensures Next(cfg, Next(cfg, Next(cfg, Some(s), OpenTemp), SyncTemp), Replace) == Some(Written(s))
  {
    SyncStep(cfg, s, Apply(cfg, s, OpenTemp));
  }

  /** mark_completed and mark_failed, with the task that called them gone, are the last steps
      of a run's task. */
  lemma TaskEnds(cfg: Config, s: State, id: Id, error: string)
    requires Enabled(cfg, s, Finish(id)) && id in s.jobs
    ensures Written(Apply(cfg, s, Finish(id)))
         == Written(Update(s, id, AfterComplete(cfg, s.jobs[id]))).(tasks := s.tasks - {id})
    ensures Written(Apply(cfg, s, Raise(id, error)))
         == Written(Update(s, id, AfterFail(cfg, s.jobs[id], error))).(tasks := s.tasks - {id})
  {
  }

  /** The jobs still to do are as they were, the others settled. */
  ghost predicate HalfSettled(cfg: Config, was: map<Id, Job>, now: map<Id, Job>, todo: set<Id>)
    requires was.Keys == now.Keys
  {
    forall id :: id in was ==> now[id] == if id in todo then was[id] else Recovered(cfg, was[id])
  }

  lemma SettleOne(cfg: Config, was: map<Id, Job>, now: map<Id, Job>, todo: set<Id>, id: Id)
    requires was.Keys == now.Keys && HalfSettled(cfg, was, now, todo) && id in todo && id in was
    ensures HalfSettled(cfg, was, now[id := Recovered(cfg, now[id])], todo - {id})
    ensures now[id := Recovered(cfg, now[id])].Keys == was.Keys
  {
  }

  lemma AllSettled(cfg: Config, was: map<Id, Job>, now: map<Id, Job>)
    requires was.Keys == now.Keys && HalfSettled(cfg, was, now, {})
    ensures now == Settled(cfg, was)
  {
  }

  lemma TimesAreDistinct(s: State)
    requires MemoryInv(s)
    ensures DistinctTimes(s.jobs)
  {
    forall i, j | i in s.jobs && j in s.jobs && s.jobs[i].created == s.jobs[j].created ensures i == j {
      assert Dated(s, i) && Dated(s, j);
    }
  }

  lemma StartIsComplete(cfg: Config, s: State, id: Id, created: int, dropped: seq<Event>, trimmed: State)
    requires Enabled(cfg, s, Start(id, created)) && MayStart(cfg, s.jobs) && OnlyUnlinks(dropped)
    requires Steps(cfg, Written(Apply(cfg, s, Start(id, created))), dropped) == Some(trimmed)
    requires |trimmed.jobs| <= cfg.maxHistory
    ensures Enabled(cfg, trimmed, Launch) && Started(cfg, s, id, created, dropped, Apply(cfg, trimmed, Launch))
  {
    var written := Written(Apply(cfg, s, Start(id, created)));
    UnlinksKeepNewest(cfg, written, dropped);
    TrimLeavesNewest(cfg, written, dropped);
  }

  /** t follows from s by a whole start: creation, write, trim and launch. */
  ghost predicate Started(cfg: Config, s: State, id: Id, created: int, dropped: seq<Event>, t: State)
    requires Enabled(cfg, s, Start(id, created))
  {
    var trimmed := Steps(cfg, Written(Apply(cfg, s, Start(id, created))), dropped);
    && OnlyUnlinks(dropped) && trimmed.Some?
    && Enabled(cfg, trimmed.value, Launch) && t == Apply(cfg, trimmed.value, Launch)
    && t.jobs == Newest(s.jobs[id := Job(created, Running, "", [])], cfg.maxHistory)
  }

  /** `write`, `clock`, `born`, `accepted`, `durable` and `up` are history. */
  class BackgroundJobStore {
    const cfg: Config
    var jobs: map<Id, Job>
    var tasks: set<Id>
    var files: map<Name, File>
    var temps: nat
    ghost var up: bool
    ghost var write: Option<Write>
    ghost var clock: int
    ghost var born: map<Id, int>
    ghost var accepted: set<Id>
    ghost var durable: map<Id, Job>

    ghost function View(): State
      reads this
    {
      State(up, jobs, tasks, write, files, temps, clock, born, accepted, durable)
    }

    constructor (cfg: Config)
      ensures this.cfg == cfg && View() == INIT
    {
      this.cfg := cfg;
      jobs, tasks, files, temps := map[], {}, map[], 0;
      up, write, clock, born, accepted, durable := true, None, 0, map[], {}, map[];
    }

    /** `_dump_json_file`: temporary file, its synced contents, rename. */
    method WriteJob(id: Id, job: Job)
      requires write.Some? && write.value.id == id && write.value.job == job && write.value.stage.Dirty?
      modifies `files, `temps, `write, `durable
      ensures View() == Written(old(View()))
    {
      var temp := Temp(temps);
      files := files[temp := Partial];
      files := files[temp := Whole(job)];
      files := (files - {temp})[JobFile(id) := Whole(job)];
      temps := temps + 1;
      durable := durable[id := job];
      write := if write.value.creating then Some(write.value.(stage := Trimming)) else None;
    }

    /** `append_log` in memory. */
    method Append(id: Id, line: string)
      requires id in jobs
      modifies `jobs
      ensures jobs == old(jobs)[id := AppendLog(cfg, old(jobs[id]), line)]
    {
      var logs := jobs[id].logs + [line];
      if |logs| > cfg.maxLogs {
        logs := logs[|logs| - cfg.maxLogs..];
      }
      jobs := jobs[id := jobs[id].(logs := logs)];
    }

    method RequestCancel(id: Id) returns (ok: bool)
      requires View().Resting()
      modifies this
      ensures ok <==> old(View().ActiveJob(id))
      ensures View() == Written(Apply(cfg, old(View()), CancelRequest(id)))
    {
      if id !in jobs || !jobs[id].status.Active() {
        return false;
      }
      accepted := accepted + {id};
      if !jobs[id].status.Canceling? {
        jobs := jobs[id := jobs[id].(status := Canceling)];
        Append(id, "cancel requested");
        write := Some(Write(id, jobs[id], Dirty, false));
        WriteJob(id, jobs[id]);
      }
      return true;
    }

    method MarkCompleted(id: Id)
      requires View().Resting()
      modifies this
      ensures View() == if id !in old(jobs) then old(View())
                        else Written(Update(old(View()), id, AfterComplete(cfg, old(jobs[id]))))
    {
      if id !in jobs {
        return;
      }
      var final := if jobs[id].status.Canceling? then Canceled else Completed;
      jobs := jobs[id := jobs[id].(status := final)];
      Append(id, if final.Canceled? then "canceled" else "completed");
      write := Some(Write(id, jobs[id], Dirty, false));
      WriteJob(id, jobs[id]);
    }

    method MarkFailed(id: Id, error: string)
      requires View().Resting()
      modifies this
      ensures View() == if id !in old(jobs) then old(View())
                        else Written(Update(old(View()), id, AfterFail(cfg, old(jobs[id]), error)))
    {
      if id !in jobs {
        return;
      }
      jobs := jobs[id := jobs[id].(status := Failed, error := if error == "" then "unknown error" else error)];
      Append(id, jobs[id].error);
      write := Some(Write(id, jobs[id], Dirty, false));
      WriteJob(id, jobs[id]);
    }

    method Discard(id: Id)
      requires Enabled(cfg, View(), Unlink(id))
      modifies `jobs, `files, `durable
      ensures View() == Apply(cfg, old(View()), Unlink(id))
    {
      jobs := jobs - {id};
      files := files - {JobFile(id)};
      durable := durable - {id};
    }

    /** `_trim_history`. */
    method TrimHistory() returns (ghost dropped: seq<Event>)
      requires DistinctTimes(jobs) && View().Writing(Trimming)
      modifies `jobs, `files, `durable
      ensures OnlyUnlinks(dropped) && Steps(cfg, old(View()), dropped) == Some(View())
      ensures jobs == Newest(old(jobs), cfg.maxHistory) && |jobs| <= cfg.maxHistory
    {
      dropped := [];
      NewestBounded(jobs, cfg.maxHistory);
      if |jobs| <= cfg.maxHistory {
        AllNewest(jobs, cfg.maxHistory);
        return;
      }
      var keep, ids := Newest(jobs, cfg.maxHistory), jobs.Keys;
      ghost var was := View();
      while ids != {}
        invariant ids <= jobs.Keys && jobs.Keys <= keep.Keys + ids
        invariant Newest(jobs, cfg.maxHistory) == keep
        invariant OnlyUnlinks(dropped) && Steps(cfg, was, dropped) == Some(View())
        invariant View().Writing(Trimming)
        decreases ids
      {
        var id :| id in ids;
        ids := ids - {id};
        if id !in keep {
          TrimStep(cfg, was, dropped, View(), id);
          dropped := dropped + [Unlink(id)];
          Discard(id);
        }
      }
      AllKept(jobs, cfg.maxHistory);
    }

    /** `create_job` up to its trim. */
    method CreateJob(id: Id, created: int)
      requires cfg.Valid() && Enabled(cfg, View(), Start(id, created)) && MayStart(cfg, jobs)
      modifies this
      ensures View() == Written(Apply(cfg, old(View()), Start(id, created)))
      ensures View().Writing(Trimming) && jobs == Apply(cfg, old(View()), Start(id, created)).jobs
    {
      var job := Job(created, Running, "", []);
      jobs, born, clock := jobs[id := job], born[id := created], created;
      write := Some(Write(id, job, Dirty, true));
      WriteJob(id, job);
    }

    method LaunchTask(id: Id)
      requires Enabled(cfg, View(), Launch) && write.value.id == id
      modifies `tasks, `write
      ensures View() == Apply(cfg, old(View()), Launch)
    {
      tasks := tasks + {id};
      write := None;
    }

    /** `start_account_status_check_job`: the guard, `create_job` and the task's start. */
    method StartJob(id: Id, created: int) returns (ok: bool, ghost dropped: seq<Event>)
      requires cfg.Valid() && Inv(cfg, View()) && Enabled(cfg, View(), Start(id, created))
      modifies this
      ensures ok <==> forall other :: !old(View()).ActiveJob(other)
      ensures !ok ==> View() == old(View())
      ensures ok ==> Started(cfg, old(View()), id, created, dropped, View())
    {
      dropped := [];
      GuardExact(cfg, View());
      ok := Guard();
      if !ok {
        return;
      }
      ghost var was := View();
      StartKeepsMemory(cfg, was, id, created);
      TimesAreDistinct(Apply(cfg, was, Start(id, created)));
      CreateJob(id, created);
      dropped := TrimHistory();
      StartIsComplete(cfg, was, id, created, dropped, View());
      LaunchTask(id);
    }

    /** No active job among those listed. */
    method Guard() returns (ok: bool)
      requires cfg.Valid()
      ensures ok <==> MayStart(cfg, jobs)
    {
      var listed := Newest(jobs, if GUARD_LIMIT < cfg.maxHistory then GUARD_LIMIT else cfg.maxHistory);
      var ids := listed.Keys;
      while ids != {}
        invariant ids <= listed.Keys
        invariant forall id :: id in listed && id !in ids ==> !listed[id].status.Active()
      {
        var id :| id in ids;
        if listed[id].status.Active() {
          return false;
        }
        ids := ids - {id};
      }
      return true;
    }

    /** The body of the loop in `_load_jobs`: an unfinished job is failed and rewritten. */
    method Settle(id: Id, found: Job) returns (job: Job)
      requires !up && write.None? && DiskInv(View()) && id in durable && durable[id] == found
      modifies `files, `temps, `write, `durable
      ensures write.None? && DiskInv(View())
      ensures job == Recovered(cfg, found) && durable == old(durable)[id := job]
    {
      job := found;
      if job.status.Active() {
        job := AppendLog(cfg, job.(status := Failed, error := cfg.restartError), cfg.restartError);
        write := Some(Write(id, job, Dirty, false));
        ReplaceKeepsDisk(files, durable, temps, id, job);
        WriteJob(id, job);
      }
    }

    /** `_load_jobs` after a crash: fail and rewrite the unfinished jobs, keep the newest. */
    method LoadJobs()
      requires !up && write.None? && jobs == map[] && tasks == {} && DiskInv(View())
      modifies `jobs, `files, `temps, `up, `write, `durable
      ensures ShowsReload(cfg, View(), old(durable))
    {
      var loaded := Stored(files);
      var todo := loaded.Keys;
      ghost var was := durable;
      while todo != {}
        invariant todo <= loaded.Keys && loaded.Keys == was.Keys
        invariant !up && write.None? && jobs == map[] && DiskInv(View()) && durable == loaded
        invariant HalfSettled(cfg, was, loaded, todo)
      {
        var id :| id in todo;
        SettleOne(cfg, was, loaded, todo, id);
        todo := todo - {id};
        var job := Settle(id, loaded[id]);
        loaded := loaded[id := job];
      }
      AllSettled(cfg, was, loaded);
      jobs := Newest(loaded, cfg.maxHistory);
      up := true;
    }
  }
}
