/** Synchronising the scheduler's jobs with the sign tasks (backend/scheduler/__init__.py,
    `sync_jobs`).  There is no suspension inside, so one sync is one step. */
module SchedulerSync {
  import opened Options
  import opened Text

  type Trigger = string

  /** `create_cron_trigger`; None stands for its exception. */
  type Cron = string -> Option<Trigger>

  datatype Job = Job(trigger: Trigger, account: string, task: string)

  /** A row of the task list; a missing `sign_at` is None. */
  datatype Task = Task(
    account: string, name: string, enabled: bool, mode: string, signAt: Option<string>, rangeStart: string)

  type Jobs = map<string, Job>

  predicate HasPrefix(s: string, prefix: string) { prefix <= s }
  predicate Legacy(id: string) { HasPrefix(id, "db-") }
  predicate Sign(id: string) { HasPrefix(id, "sign-") }

  // ---------- One row ----------

  predicate Named(t: Task) { Strip(t.account) != "" && Strip(t.name) != "" }

  function JobId(t: Task): string { "sign-" + Strip(t.account) + "-" + Strip(t.name) }

  predicate Off(t: Task) { !t.enabled || t.mode == "listen" }

  function TriggerOf(cron: Cron, t: Task): Option<Trigger> {
    if t.signAt.None? || cron(t.signAt.value).None? then None
    else if t.mode == "range" && t.rangeStart != "" then cron(t.rangeStart)
    else cron(t.signAt.value)
  }

  function Get(jobs: Jobs, id: string): Option<Job> { if id in jobs then Some(jobs[id]) else None }

  /** What one row does to its job; `known` says whether the id was registered when the sync
      began.  Rescheduling a job that is gone raises, and the row is given up. */
  function RowEffect(cron: Cron, known: bool, job: Option<Job>, t: Task): Option<Job> {
    if Off(t) then (if known then None else job)
    else
      match TriggerOf(cron, t)
      case None => job
      case Some(trigger) =>
        if !known then Some(Job(trigger, Strip(t.account), Strip(t.name)))
        else if job.Some? then Some(job.value.(trigger := trigger))
        else None
  }

  function Put(jobs: Jobs, id: string, job: Option<Job>): Jobs {
    if job.Some? then jobs[id := job.value] else jobs - {id}
  }

  // ---------- The whole sync ----------

  function SyncRows(cron: Cron, known: set<string>, jobs: Jobs, tasks: seq<Task>): Jobs {
    if tasks == [] then jobs
    else
      var before, t := SyncRows(cron, known, jobs, tasks[..|tasks| - 1]), tasks[|tasks| - 1];
      if Named(t) then Put(before, JobId(t), RowEffect(cron, JobId(t) in known, Get(before, JobId(t)), t)) else before
  }

  function WithoutLegacy(jobs: Jobs): Jobs { map id | id in jobs && !Legacy(id) :: jobs[id] }

  function SignIds(jobs: Jobs): set<string> { set id | id in jobs && Sign(id) }

  function DesiredIds(tasks: seq<Task>): set<string> { set t | t in tasks && Named(t) :: JobId(t) }

  /** The jobs after a sync by the holder of the scheduler lock. */
  function Synced(cron: Cron, jobs: Jobs, tasks: seq<Task>): Jobs {
    var kept := WithoutLegacy(jobs);
    SyncRows(cron, SignIds(kept), kept, tasks) - (SignIds(kept) - DesiredIds(tasks))
  }

  // ---------- Row by row, independently ----------

  /** The rows of one job id, in order. */
  function RowsFor(tasks: seq<Task>, id: string): seq<Task> {
    if tasks == [] then []
    else
      var t := tasks[|tasks| - 1];
      RowsFor(tasks[..|tasks| - 1], id) + if Named(t) && JobId(t) == id then [t] else []
  }

  function RowsEffect(cron: Cron, known: bool, job: Option<Job>, rows: seq<Task>): Option<Job> {
    if rows == [] then job
    else RowEffect(cron, known, RowsEffect(cron, known, job, rows[..|rows| - 1]), rows[|rows| - 1])
  }

  lemma EffectSnoc(cron: Cron, known: bool, job: Option<Job>, rows: seq<Task>, t: Task)
    ensures RowsEffect(cron, known, job, rows + [t]) == RowEffect(cron, known, RowsEffect(cron, known, job, rows), t)
  {
    assert (rows + [t])[..|rows|] == rows;
  }

  lemma GetPut(jobs: Jobs, id: string, job: Option<Job>, other: string)
    ensures Get(Put(jobs, id, job), other) == if other == id then job else Get(jobs, other)
  {
  }

  lemma {:induction false} RowsAreLocal(cron: Cron, known: set<string>, jobs: Jobs, tasks: seq<Task>, id: string)
    ensures Get(SyncRows(cron, known, jobs, tasks), id) == RowsEffect(cron, id in known, Get(jobs, id), RowsFor(tasks, id))
  {
    if tasks != [] {
      var before, t := tasks[..|tasks| - 1], tasks[|tasks| - 1];
      var rows, sofar := RowsFor(before, id), SyncRows(cron, known, jobs, before);
      RowsAreLocal(cron, known, jobs, before, id);
      if Named(t) {
        GetPut(sofar, JobId(t), RowEffect(cron, JobId(t) in known, Get(sofar, JobId(t)), t), id);
      }
      if Named(t) && JobId(t) == id {
        EffectSnoc(cron, id in known, Get(jobs, id), rows, t);
      } else {
        assert rows + [] == rows;
      }
    }
  }

  lemma {:induction false} RowsForDesired(tasks: seq<Task>, id: string)
    ensures RowsFor(tasks, id) == [] <==> id !in DesiredIds(tasks)
    ensures forall t :: t in RowsFor(tasks, id) ==> t in tasks && Named(t) && JobId(t) == id
  {
    if tasks != [] {
      var before, t := tasks[..|tasks| - 1], tasks[|tasks| - 1];
      RowsForDesired(before, id);
      DesiredSnoc(before, t);
      assert tasks == before + [t];
      forall u | u in RowsFor(tasks, id) ensures u in tasks && Named(u) && JobId(u) == id {
        assert u in RowsFor(before, id) || u == t;
      }
    }
  }

  lemma DesiredSnoc(tasks: seq<Task>, t: Task)
    ensures DesiredIds(tasks + [t]) == DesiredIds(tasks) + if Named(t) then {JobId(t)} else {}
  {
  }

  lemma IdsAreSign(t: Task)
    ensures Sign(JobId(t)) && !Legacy(JobId(t))
  {
    assert JobId(t)[..5] == "sign-" && JobId(t)[0] == 's';
  }

  /** One sync, id by id: what is neither legacy nor a sign job stays, legacy jobs go, and a
      sign job becomes what the rows of its id make of it, or goes if there is none. */
  lemma SyncedExact(cron: Cron, jobs: Jobs, tasks: seq<Task>, id: string)
    ensures Get(Synced(cron, jobs, tasks), id) ==
      if Legacy(id) then None
      else if !Sign(id) then Get(jobs, id)
      else if RowsFor(tasks, id) == [] then None
      else RowsEffect(cron, id in jobs, Get(jobs, id), RowsFor(tasks, id))
  {
    var kept := WithoutLegacy(jobs);
    RowsAreLocal(cron, SignIds(kept), kept, tasks, id);
    RowsForDesired(tasks, id);
    if RowsFor(tasks, id) != [] {
      IdsAreSign(RowsFor(tasks, id)[0]);
    }
    PrefixesDiffer(id);
  }

  lemma PrefixesDiffer(id: string)
    ensures !(Legacy(id) && Sign(id))
  {
    if Legacy(id) { assert id[0] == 'd'; }
  }

  // ---------- Main results, for distinct job ids ----------

  predicate DistinctIds(tasks: seq<Task>) {
    forall i, j :: 0 <= i < j < |tasks| && Named(tasks[i]) && Named(tasks[j]) ==> JobId(tasks[i]) != JobId(tasks[j])
  }

  lemma {:induction false} OneRowEach(tasks: seq<Task>, t: Task)
    requires DistinctIds(tasks) && t in tasks && Named(t)
    ensures RowsFor(tasks, JobId(t)) == [t]
  {
    var before, last := tasks[..|tasks| - 1], tasks[|tasks| - 1];
    if last == t {
      RowsForDesired(before, JobId(t));
      forall other | other in before && Named(other) ensures JobId(other) != JobId(t) {
        var i :| 0 <= i < |before| && before[i] == other;
        assert JobId(tasks[i]) != JobId(tasks[|tasks| - 1]);
      }
    } else {
      OneRowEach(before, t);
      var i :| 0 <= i < |tasks| && tasks[i] == t;
      assert Named(last) ==> JobId(tasks[i]) != JobId(tasks[|tasks| - 1]);
    }
  }

  /** The row has a job after the sync: it is on, and its trigger is valid or it had a job. */
  predicate Runs(cron: Cron, jobs: Jobs, t: Task) {
    Named(t) && !Off(t) && (TriggerOf(cron, t).Some? || JobId(t) in jobs)
  }

  /** The job of such a row: the new trigger if it is valid, else the old one. */
  function JobOf(cron: Cron, jobs: Jobs, t: Task): Job
    requires Runs(cron, jobs, t)
  {
    var trigger := TriggerOf(cron, t);
    if JobId(t) !in jobs then Job(trigger.value, Strip(t.account), Strip(t.name))
    else if trigger.Some? then jobs[JobId(t)].(trigger := trigger.value)
    else jobs[JobId(t)]
  }

  /** With distinct ids a sync leaves exactly the wanted sign jobs, each with its row's
      trigger, no legacy job, and every other job as it was. */
  lemma SyncLeavesWanted(cron: Cron, jobs: Jobs, tasks: seq<Task>)
    requires DistinctIds(tasks)
    ensures forall id :: id in Synced(cron, jobs, tasks) && Sign(id) ==>
      exists t :: t in tasks && Runs(cron, jobs, t) && JobId(t) == id
    ensures forall t :: t in tasks && Runs(cron, jobs, t) ==>
      JobId(t) in Synced(cron, jobs, tasks) && Synced(cron, jobs, tasks)[JobId(t)] == JobOf(cron, jobs, t)
    ensures forall id :: id in Synced(cron, jobs, tasks) ==> !Legacy(id)
    ensures forall id :: !Legacy(id) && !Sign(id) ==> Get(Synced(cron, jobs, tasks), id) == Get(jobs, id)
  {
    forall id ensures
      && (id in Synced(cron, jobs, tasks) && Sign(id) ==> exists t :: t in tasks && Runs(cron, jobs, t) && JobId(t) == id)
      && (id in Synced(cron, jobs, tasks) ==> !Legacy(id))
      && (!Legacy(id) && !Sign(id) ==> Get(Synced(cron, jobs, tasks), id) == Get(jobs, id))
    {
      SyncedExact(cron, jobs, tasks, id);
      if id in Synced(cron, jobs, tasks) && Sign(id) { PresentIsWanted(cron, jobs, tasks, id); }
    }
    forall t | t in tasks && Runs(cron, jobs, t)
      ensures JobId(t) in Synced(cron, jobs, tasks) && Synced(cron, jobs, tasks)[JobId(t)] == JobOf(cron, jobs, t)
    {
      WantedIsPresent(cron, jobs, tasks, t);
    }
  }

  lemma OneRowEffect(cron: Cron, known: bool, job: Option<Job>, t: Task)
    ensures RowsEffect(cron, known, job, [t]) == RowEffect(cron, known, job, t)
  {
    assert [t][..0] == [];
  }

  lemma WantedIsPresent(cron: Cron, jobs: Jobs, tasks: seq<Task>, t: Task)
    requires DistinctIds(tasks) && t in tasks && Runs(cron, jobs, t)
    ensures Get(Synced(cron, jobs, tasks), JobId(t)) == Some(JobOf(cron, jobs, t))
  {
    SyncedExact(cron, jobs, tasks, JobId(t));
    OneRowEach(tasks, t);
    IdsAreSign(t);
    OneRowEffect(cron, JobId(t) in jobs, Get(jobs, JobId(t)), t);
  }

  lemma PresentIsWanted(cron: Cron, jobs: Jobs, tasks: seq<Task>, id: string)
    requires DistinctIds(tasks) && id in Synced(cron, jobs, tasks) && Sign(id)
    ensures exists t :: t in tasks && Runs(cron, jobs, t) && JobId(t) == id
  {
    SyncedExact(cron, jobs, tasks, id);
    PrefixesDiffer(id);
    RowsForDesired(tasks, id);
    var t := RowsFor(tasks, id)[0];
    assert t in RowsFor(tasks, id);
    OneRowEach(tasks, t);
    OneRowEffect(cron, id in jobs, Get(jobs, id), t);
    assert Runs(cron, jobs, t);
  }

  /** The text that a row wants its trigger made from, unless its own time is missing or
      unreadable: a task with a range starts at the beginning of the range. */
  function WantedTime(t: Task): string
    requires t.signAt.Some?
  {
    if t.mode == "range" && t.rangeStart != "" then t.rangeStart else t.signAt.value
  }

  /** With distinct ids, row by row: a disabled or listening task has no job afterwards.  Any
      other task whose own time and whose wanted time are readable has one, with the trigger of
      the wanted time; a new job runs that account and task, one that was there keeps what it
      ran.  If either time is unreadable, the job stays as it was, or there is none. */
  lemma RowExact(cron: Cron, jobs: Jobs, tasks: seq<Task>, t: Task)
    requires DistinctIds(tasks) && t in tasks && Strip(t.account) != "" && Strip(t.name) != ""
    ensures var id := "sign-" + Strip(t.account) + "-" + Strip(t.name);
      var after := Get(Synced(cron, jobs, tasks), id);
      if !t.enabled || t.mode == "listen" then after == None
      else if t.signAt.Some? && cron(t.signAt.value).Some? && cron(WantedTime(t)).Some? then
        after.Some? && after.value.trigger == cron(WantedTime(t)).value
        && (if id in jobs then after.value.account == jobs[id].account && after.value.task == jobs[id].task
            else after.value.account == Strip(t.account) && after.value.task == Strip(t.name))
      else after == Get(jobs, id)
  {
    SyncedExact(cron, jobs, tasks, JobId(t));
    OneRowEach(tasks, t);
    IdsAreSign(t);
    OneRowEffect(cron, JobId(t) in jobs, Get(jobs, JobId(t)), t);
  }

  /** One-shot jobs are never touched, whatever the rows. */
  lemma OneShotsStay(cron: Cron, jobs: Jobs, tasks: seq<Task>, rest: string)
    ensures Get(Synced(cron, jobs, tasks), "oneshot-sign-" + rest) == Get(jobs, "oneshot-sign-" + rest)
  {
    var id := "oneshot-sign-" + rest;
    assert id[0] == 'o';
    SyncedExact(cron, jobs, tasks, id);
  }

  /** With distinct ids a second sync changes nothing at all. */
  lemma SyncIsIdempotent(cron: Cron, jobs: Jobs, tasks: seq<Task>)
    requires DistinctIds(tasks)
    ensures Synced(cron, Synced(cron, jobs, tasks), tasks) == Synced(cron, jobs, tasks)
  {
    var once := Synced(cron, jobs, tasks);
    var twice := Synced(cron, once, tasks);
    forall id ensures Get(twice, id) == Get(once, id) { SyncTwice(cron, jobs, tasks, id); }
    assert forall id :: id in once <==> id in twice by {
      forall id ensures id in once <==> id in twice { assert Get(twice, id) == Get(once, id); }
    }
    assert forall id :: id in once ==> once[id] == twice[id] by {
      forall id | id in once ensures once[id] == twice[id] { assert Get(twice, id) == Get(once, id); }
    }
  }

  lemma SyncTwice(cron: Cron, jobs: Jobs, tasks: seq<Task>, id: string)
    requires DistinctIds(tasks)
    ensures Get(Synced(cron, Synced(cron, jobs, tasks), tasks), id) == Get(Synced(cron, jobs, tasks), id)
  {
    var once := Synced(cron, jobs, tasks);
    SyncedExact(cron, jobs, tasks, id);
    SyncedExact(cron, once, tasks, id);
    PrefixesDiffer(id);
    RowsForDesired(tasks, id);
    if Sign(id) && RowsFor(tasks, id) != [] {
      var t := RowsFor(tasks, id)[0];
      assert t in RowsFor(tasks, id);
      OneRowEach(tasks, t);
      OneRowEffect(cron, id in jobs, Get(jobs, id), t);
      OneRowEffect(cron, id in once, Get(once, id), t);
    }
  }

  // ---------- Rows that share a job id ----------

  /** Different accounts and tasks can share a job id. */
  lemma NamesCollide(t: Task, u: Task)
    requires t.account == "a-b" && t.name == "c" && u.account == "a" && u.name == "b-c"
    ensures JobId(t) == JobId(u)
  {
    assert Strip("a-b") == "a-b" && Strip("c") == "c" && Strip("a") == "a" && Strip("b-c") == "b-c";
    assert "sign-" + "a-b" + "-" + "c" == "sign-" + "a" + "-" + "b-c";
  }

  predicate AnyOff(rows: seq<Task>) { exists i :: 0 <= i < |rows| && Off(rows[i]) }

  predicate Starts(cron: Cron, t: Task) { !Off(t) && TriggerOf(cron, t).Some? }
  predicate AnyStarts(cron: Cron, rows: seq<Task>) { exists i :: 0 <= i < |rows| && Starts(cron, rows[i]) }

  function LastTrigger(cron: Cron, rows: seq<Task>, trigger: Trigger): Trigger {
    if rows == [] then trigger
    else
      var found := TriggerOf(cron, rows[|rows| - 1]);
      if found.Some? then found.value else LastTrigger(cron, rows[..|rows| - 1], trigger)
  }

  lemma {:induction false} RegisteredRows(cron: Cron, job: Job, rows: seq<Task>)
    ensures RowsEffect(cron, true, Some(job), rows) ==
      if AnyOff(rows) then None else Some(job.(trigger := LastTrigger(cron, rows, job.trigger)))
  {
    if rows != [] {
      var before := rows[..|rows| - 1];
      RegisteredRows(cron, job, before);
      assert AnyOff(rows) <==> AnyOff(before) || Off(rows[|rows| - 1]) by {
        if AnyOff(before) {
          var i :| 0 <= i < |before| && Off(before[i]);
          assert Off(rows[i]);
        }
      }
    }
  }

  lemma {:induction false} NewRows(cron: Cron, rows: seq<Task>)
    ensures RowsEffect(cron, false, None, rows).Some? <==> AnyStarts(cron, rows)
  {
    if rows != [] {
      var before := rows[..|rows| - 1];
      NewRows(cron, before);
      if AnyStarts(cron, before) {
        var i :| 0 <= i < |before| && Starts(cron, before[i]);
        assert Starts(cron, rows[i]);
      }
    }
  }

  /** With several rows for one id the last one decides, as it would alone, exactly when: for
      a registered job, it is off, or no row before it is off and none before it leaves
      another trigger that it does not replace; for a new job, it starts the job itself, or
      no row before it does. */
  lemma LastRowDecidesExact(cron: Cron, job: Option<Job>, before: seq<Task>, t: Task)
    ensures RowsEffect(cron, job.Some?, job, before + [t]) == RowEffect(cron, job.Some?, job, t) <==>
      if job.Some? then
        Off(t) || (!AnyOff(before) && (TriggerOf(cron, t).Some? || LastTrigger(cron, before, job.value.trigger) == job.value.trigger))
      else Starts(cron, t) || !AnyStarts(cron, before)
  {
    assert (before + [t])[..|before|] == before;
    if job.Some? { RegisteredRows(cron, job.value, before); } else { NewRows(cron, before); }
  }

  lemma TwoRows(a: Task, b: Task)
    requires Named(a) && Named(b) && JobId(a) == JobId(b)
    ensures RowsFor([a, b], JobId(a)) == [a, b]
  {
    assert [a, b][..1] == [a] && [a][..0] == [];
    assert RowsFor([a], JobId(a)) == [] + [a];
  }

  lemma TwoRowsEffect(cron: Cron, known: bool, job: Option<Job>, a: Task, b: Task)
    ensures RowsEffect(cron, known, job, [a, b]) == RowEffect(cron, known, RowEffect(cron, known, job, a), b)
  {
    OneRowEffect(cron, known, job, a);
    assert [a, b][..1] == [a];
  }

  /** A disabled row before an enabled one of the same id: the registered job is removed and
      its rescheduling fails, so the job is lost. */
  lemma DisabledThenEnabledLosesJob(cron: Cron, jobs: Jobs, a: Task, b: Task)
    requires Named(a) && Named(b) && JobId(a) == JobId(b) && Off(a) && Starts(cron, b) && JobId(a) in jobs
    ensures JobId(b) !in Synced(cron, jobs, [a, b])
  {
    SyncedExact(cron, jobs, [a, b], JobId(a));
    TwoRows(a, b);
    TwoRowsEffect(cron, true, Get(jobs, JobId(a)), a, b);
    IdsAreSign(a);
  }

  /** An enabled row before a disabled one: a new job stays through the first sync and is
      removed by the second, so a sync with shared ids need not be idempotent. */
  lemma SharedIdsNeedTwoSyncs(cron: Cron, jobs: Jobs, a: Task, b: Task)
    requires Named(a) && Named(b) && JobId(a) == JobId(b) && Starts(cron, a) && Off(b) && JobId(a) !in jobs
    ensures var once := Synced(cron, jobs, [a, b]);
      JobId(a) in once && JobId(a) !in Synced(cron, once, [a, b])
  {
    var once := Synced(cron, jobs, [a, b]);
    TwoRows(a, b);
    IdsAreSign(a);
    SyncedExact(cron, jobs, [a, b], JobId(a));
    TwoRowsEffect(cron, false, None, a, b);
    SyncedExact(cron, once, [a, b], JobId(a));
    TwoRowsEffect(cron, true, Get(once, JobId(a)), a, b);
  }

  // ---------- The scheduler ----------

  /** The jobs a replica without the lock keeps: it drops business jobs if it is running. */
  function Unlocked(jobs: Jobs, running: bool): Jobs {
    if running then map id | id in jobs && !Legacy(id) && !Sign(id) :: jobs[id] else jobs
  }

  /** A running replica without the lock keeps exactly the jobs that are neither legacy nor sign
      jobs, as they are; one that does not run keeps all. */
  lemma ReplicaKeeps(jobs: Jobs, id: string)
    ensures Get(Unlocked(jobs, false), id) == Get(jobs, id)
    ensures id in Unlocked(jobs, true) <==> id in jobs && !("db-" <= id) && !("sign-" <= id)
    ensures id in Unlocked(jobs, true) ==> Unlocked(jobs, true)[id] == jobs[id]
  {
  }

  /** When it gets the lock, its first sync leaves the same sign jobs, by id and trigger, as one
      of the former holder, for every task whose times are readable. */
  lemma LockRegained(cron: Cron, jobs: Jobs, tasks: seq<Task>, t: Task)
    requires DistinctIds(tasks) && t in tasks && Strip(t.account) != "" && Strip(t.name) != ""
    requires t.signAt.Some? && cron(t.signAt.value).Some? && cron(WantedTime(t)).Some?
    ensures var id := "sign-" + Strip(t.account) + "-" + Strip(t.name);
      var mine, theirs := Get(Synced(cron, Unlocked(jobs, true), tasks), id), Get(Synced(cron, jobs, tasks), id);
      mine.Some? == theirs.Some? && (mine.Some? ==> mine.value.trigger == theirs.value.trigger)
  {
    RowExact(cron, jobs, tasks, t);
    RowExact(cron, Unlocked(jobs, true), tasks, t);
  }

  lemma SyncRowsStep(cron: Cron, known: set<string>, jobs: Jobs, tasks: seq<Task>, n: nat)
    requires n < |tasks|
    ensures SyncRows(cron, known, jobs, tasks[..n + 1]) ==
      var before, t := SyncRows(cron, known, jobs, tasks[..n]), tasks[n];
      if Named(t) then Put(before, JobId(t), RowEffect(cron, JobId(t) in known, Get(before, JobId(t)), t)) else before
  {
    assert tasks[..n + 1][..n] == tasks[..n];
  }

  class Scheduler {
    var jobs: Jobs

    /** `remove_job` of each of the ids, those already gone ignored. */
    method RemoveAll(ids: set<string>)
      modifies this
      ensures jobs == old(jobs) - ids
    {
      var left := ids;
      while left != {}
        invariant left <= ids && jobs == old(jobs) - (ids - left)
      {
        var id :| id in left;
        left := left - {id};
        jobs := jobs - {id};
      }
    }

    /** The body of the loop over the rows. */
    method SyncRow(cron: Cron, known: set<string>, t: Task)
      requires Named(t)
      modifies this
      ensures jobs == Put(old(jobs), JobId(t), RowEffect(cron, JobId(t) in known, Get(old(jobs), JobId(t)), t))
    {
      var id := JobId(t);
      if !t.enabled || t.mode == "listen" {
        if id in known {
          jobs := jobs - {id};
        } else {
          PutBack(jobs, id);
        }
        return;
      }
      var trigger := TriggerOf(cron, t);
      if trigger.None? {
        PutBack(jobs, id);
      } else if id in known {
        if id in jobs {
          jobs := jobs[id := jobs[id].(trigger := trigger.value)];
        } else {
          PutBack(jobs, id);
        }
      } else {
        jobs := jobs[id := Job(trigger.value, Strip(t.account), Strip(t.name))];
      }
    }

    /** `sync_jobs`. */
    method SyncJobs(cron: Cron, tasks: seq<Task>, hasLock: bool, running: bool)
      modifies this
      ensures jobs == if hasLock then Synced(cron, old(jobs), tasks) else Unlocked(old(jobs), running)
    {
      var business := set id | id in jobs && (Legacy(id) || Sign(id));
      if !hasLock {
        if running {
          RemoveAll(business);
        }
        return;
      }
      RemoveAll(set id | id in business && Legacy(id));
      var known := set id | id in business && !Legacy(id);
      ghost var kept := jobs;
      LegacyGone(old(jobs));
      assert jobs == WithoutLegacy(old(jobs)) && known == SignIds(jobs);
      var desired: set<string> := {};
      var n := 0;
      while n < |tasks|
        invariant n <= |tasks|
        invariant jobs == SyncRows(cron, known, kept, tasks[..n])
        invariant desired == DesiredIds(tasks[..n])
      {
        SyncRowsStep(cron, known, kept, tasks, n);
        DesiredStep(tasks, n);
        if Named(tasks[n]) {
          desired := desired + {JobId(tasks[n])};
          SyncRow(cron, known, tasks[n]);
        }
        n := n + 1;
      }
      assert tasks[..n] == tasks;
      RemoveAll(known - desired);
    }
  }

  lemma PutBack(jobs: Jobs, id: string)
    ensures Put(jobs, id, Get(jobs, id)) == jobs
  {
  }

  lemma LegacyGone(jobs: Jobs)
    ensures forall id :: id in WithoutLegacy(jobs) && Sign(id) <==> id in jobs && Sign(id)
  {
    forall id ensures !(Legacy(id) && Sign(id)) { PrefixesDiffer(id); }
  }

  lemma DesiredStep(tasks: seq<Task>, n: nat)
    requires n < |tasks|
    ensures DesiredIds(tasks[..n + 1]) == DesiredIds(tasks[..n]) + if Named(tasks[n]) then {JobId(tasks[n])} else {}
  {
    DesiredSnoc(tasks[..n], tasks[n]);
    assert tasks[..n + 1] == tasks[..n] + [tasks[n]];
  }
}
