/** Concurrent runs of sign-in tasks over shared dictionaries
    (backend/services/sign_tasks.py and backend/services/sign_task_runner.py).

    A step is the code between two suspension points of one asyncio task: a run, a cleanup
    timer, or an outside call.  Time is in whole seconds. */
module TaskRun {
  import opened Options

  datatype Key = Key(account: string, task: string)
  type RunId = nat
  type TimerId = nat

  const LOG_RETENTION: nat := 60
  const LOG_LINES: nat := 1000

  /** Created: the asyncio task exists but has not run.  Executing: past the running check,
      suspended somewhere before finalisation.  Finalizing: suspended inside it. */
  datatype Phase = Created | Executing | Finalizing | Ended

  datatype Run = Run(key: Key, background: bool, phase: Phase, cancelRequested: bool) {
    predicate Live() { phase.Executing? || phase.Finalizing? }
  }

  datatype TimerPhase = Asleep | CancelRequested | Finished

  datatype Timer = Timer(key: Key, due: int, phase: TimerPhase)

  /** `active`, `logs`, `cleanup` and `background` are the service's dictionaries;
      `runs` and `timers` are the asyncio tasks; `endedAt` is history: when the last run of
      a key cleared its flag, as long as no newer run has begun. */
  datatype State = State(
    active: map<Key, bool>,
    logs: map<Key, seq<string>>,
    cleanup: map<Key, TimerId>,
    background: map<Key, RunId>,
    runs: map<RunId, Run>,
    timers: map<TimerId, Timer>,
    endedAt: map<Key, int>,
    now: int)
  {
    predicate Active(k: Key) { k in active && active[k] }
    predicate RunIn(r: RunId, p: Phase) { r in runs && runs[r].phase == p }
    predicate TimerIn(t: TimerId, p: TimerPhase) { t in timers && timers[t].phase == p }
    predicate Live(r: RunId) { r in runs && runs[r].Live() }
  }

  const INIT := State(map[], map[], map[], map[], map[], map[], map[], 0)

  datatype Event =
    | Start(key: Key, r: RunId)              // start_task_run
    | Call(key: Key, r: RunId)               // run_task_with_logs awaited directly
    | Begin(r: RunId)                        // execute_sign_task up to its first await
    | CancelledEarly(r: RunId)               // cancelled before its first step
    | Log(r: RunId, line: string, handled: bool)   // through the log handler, or directly
    | EnterFinalize(r: RunId)
    | Finish(r: RunId, cancelled: bool, t: TimerId)
    | FinishRaises(r: RunId)                 // finalisation raised before the flag was cleared
    | Cancel(key: Key)                       // cancel_task_run
    | Fire(t: TimerId)                       // the timer's sleep is over
    | FireCancelled(t: TimerId)              // the timer receives its cancellation
    | Tick(seconds: nat)

  predicate Enabled(s: State, e: Event) {
    match e
    case Start(_, r) => r !in s.runs
    case Call(_, r) => r !in s.runs
    case Begin(r) => s.RunIn(r, Created) && !s.runs[r].cancelRequested
    case CancelledEarly(r) => s.RunIn(r, Created) && s.runs[r].cancelRequested
    case Log(r, _, _) => s.RunIn(r, Executing)
    case EnterFinalize(r) => s.RunIn(r, Executing)
    case Finish(r, _, t) => s.Live(r) && t !in s.timers
    case FinishRaises(r) => s.Live(r)
    case Cancel(_) => true
    case Fire(t) => s.TimerIn(t, Asleep) && s.timers[t].due <= s.now
    case FireCancelled(t) => s.TimerIn(t, CancelRequested)
    case Tick(_) => true
  }

  /** `TaskLogHandler.emit`: the handler also cuts the buffer to its newest lines. */
  function Emitted(lines: seq<string>, line: string, handled: bool): seq<string> {
    var longer := lines + [line];
    if handled && |longer| > LOG_LINES then longer[|longer| - LOG_LINES..] else longer
  }

  function SetPhase(s: State, r: RunId, p: Phase): State
    requires r in s.runs
  {
    s.(runs := s.runs[r := s.runs[r].(phase := p)])
  }

  /** `_prune_stale_entries`, in its order. */
  function Prune(s: State): State {
    s.(active := map k | k in s.active && s.active[k] :: true,
       logs := map k | k in s.logs && (s.Active(k) || k in s.cleanup) :: s.logs[k],
       background := map k | k in s.background && !s.RunIn(s.background[k], Ended) :: s.background[k],
       cleanup := map k | k in s.cleanup && !s.TimerIn(s.cleanup[k], Finished) :: s.cleanup[k])
  }

  /** `_runner_schedule_cleanup`. */
  function ScheduleCleanup(s: State, k: Key, t: TimerId): State {
    var timers :=
      if k in s.cleanup && s.cleanup[k] in s.timers && !s.timers[s.cleanup[k]].phase.Finished?
      then s.timers[s.cleanup[k] := s.timers[s.cleanup[k]].(phase := CancelRequested)]
      else s.timers;
    s.(timers := timers[t := Timer(k, s.now + LOG_RETENTION, Asleep)], cleanup := s.cleanup[k := t])
  }

  /** The timer's `finally`: unregister only oneself. */
  function Unregister(s: State, t: TimerId): State
    requires t in s.timers
  {
    var k := s.timers[t].key;
    s.(cleanup := if k in s.cleanup && s.cleanup[k] == t then s.cleanup - {k} else s.cleanup,
       timers := s.timers[t := s.timers[t].(phase := Finished)])
  }

  function DropHandle(s: State, r: RunId): State
    requires r in s.runs
  {
    if s.runs[r].background then s.(background := s.background - {s.runs[r].key}) else s
  }

  function Apply(s: State, e: Event): State
    requires Enabled(s, e)
  {
    match e
    case Start(k, r) =>
      if s.Active(k) then s
      else s.(runs := s.runs[r := Run(k, true, Created, false)], background := s.background[k := r])
    case Call(k, r) => s.(runs := s.runs[r := Run(k, false, Created, false)])
    case Begin(r) =>
      var k := s.runs[r].key;
      if s.Active(k) then SetPhase(DropHandle(s, r), r, Ended)
      else
        SetPhase(s.(active := s.active[k := true], logs := s.logs[k := []], endedAt := s.endedAt - {k}), r, Executing)
    case CancelledEarly(r) => SetPhase(s, r, Ended)
    case Log(r, line, handled) =>
      var k := s.runs[r].key;
      if k in s.logs then s.(logs := s.logs[k := Emitted(s.logs[k], line, handled)]) else s
    case EnterFinalize(r) => SetPhase(s, r, Finalizing)
    case Finish(r, cancelled, t) =>
      var k := s.runs[r].key;
      var cleared := ScheduleCleanup(s.(active := s.active[k := false], endedAt := s.endedAt[k := s.now]), k, t);
      SetPhase(DropHandle(if cancelled then cleared else Prune(cleared), r), r, Ended)
    case FinishRaises(r) => SetPhase(DropHandle(s, r), r, Ended)
    case Cancel(k) =>
      if k in s.background && s.background[k] in s.runs && !s.RunIn(s.background[k], Ended) then
        var r := s.background[k];
        s.(runs := s.runs[r := s.runs[r].(cancelRequested := true)],
           logs := s.logs[k := (if k in s.logs then s.logs[k] else []) + ["cancel requested"]])
      else s
    case Fire(t) =>
      var k := s.timers[t].key;
      Unregister(if s.Active(k) then s else s.(logs := s.logs - {k}), t)
    case FireCancelled(t) => Unregister(s, t)
    case Tick(d) => s.(now := s.now + d)
  }

  function Next(before: Option<State>, e: Event): Option<State> {
    if before.Some? && Enabled(before.value, e) then Some(Apply(before.value, e)) else None
  }

  function RunAll(es: seq<Event>): Option<State> {
    if es == [] then Some(INIT) else Next(RunAll(es[..|es| - 1]), es[|es| - 1])
  }

  // ---------- Invariants ----------

  /** At most one live run per key; a live run's flag is set. */
  ghost predicate RunsInv(s: State) {
    && (forall r :: s.Live(r) ==> s.Active(s.runs[r].key))
    && (forall q, r :: s.Live(q) && s.Live(r) && s.runs[q].key == s.runs[r].key ==> q == r)
  }

  /** A set flag has a log buffer. */
  ghost predicate BufferInv(s: State) {
    forall k :: s.Active(k) ==> k in s.logs
  }

  /** The registered timers are exactly the sleeping ones. */
  ghost predicate TimersInv(s: State) {
    && (forall k :: k in s.cleanup ==> s.TimerIn(s.cleanup[k], Asleep) && s.timers[s.cleanup[k]].key == k)
    && (forall t :: s.TimerIn(t, Asleep) ==> s.timers[t].key in s.cleanup && s.cleanup[s.timers[t].key] == t)
  }

  /** A finished run's buffer and timer are there until the retention time is over. */
  ghost predicate RetentionInv(s: State) {
    forall k :: k in s.endedAt ==> Retained(s, k)
  }

  predicate Retained(s: State, k: Key)
    requires k in s.endedAt
  {
    && !s.Active(k)
    && (k !in s.cleanup ==> s.endedAt[k] + LOG_RETENTION <= s.now)
    && (k in s.cleanup && s.cleanup[k] in s.timers ==>
          s.timers[s.cleanup[k]].due == s.endedAt[k] + LOG_RETENTION && k in s.logs)
  }

  // ---------- Runs and flags ----------

  lemma RunsUntouched(s: State, t: State)
    requires RunsInv(s) && t.runs == s.runs && forall k :: s.Active(k) ==> t.Active(k)
    ensures RunsInv(t)
  {
  }

  /** One run changes: other live runs keep their flag and do not share its key. */
  lemma OneRunChanges(s: State, t: State, r: RunId, run: Run)
    requires RunsInv(s) && t.runs == s.runs[r := run]
    requires forall q :: q != r && s.Live(q) ==> t.Active(s.runs[q].key) && (run.Live() ==> s.runs[q].key != run.key)
    requires run.Live() ==> t.Active(run.key)
    ensures RunsInv(t)
  {
    assert forall q :: t.Live(q) && q != r ==> s.Live(q) && t.runs[q] == s.runs[q];
  }

  lemma PruneKeepsFlags(s: State)
    ensures Prune(s).runs == s.runs && forall k :: Prune(s).Active(k) == s.Active(k)
  {
  }

  lemma FinishKeepsRuns(s: State, r: RunId, cancelled: bool, t: TimerId)
    requires RunsInv(s) && Enabled(s, Finish(r, cancelled, t))
    ensures RunsInv(Apply(s, Finish(r, cancelled, t)))
  {
    var k := s.runs[r].key;
    var cleared := ScheduleCleanup(s.(active := s.active[k := false], endedAt := s.endedAt[k := s.now]), k, t);
    PruneKeepsFlags(cleared);
    OneRunChanges(s, Apply(s, Finish(r, cancelled, t)), r, s.runs[r].(phase := Ended));
  }

  lemma BeginKeepsRuns(s: State, r: RunId)
    requires RunsInv(s) && Enabled(s, Begin(r))
    ensures RunsInv(Apply(s, Begin(r)))
  {
    var t := Apply(s, Begin(r));
    OneRunChanges(s, t, r, t.runs[r]);
  }

  lemma StepKeepsRuns(s: State, e: Event)
    requires RunsInv(s) && Enabled(s, e)
    ensures RunsInv(Apply(s, e))
  {
    if e.Begin? {
      BeginKeepsRuns(s, e.r);
    } else if e.Finish? {
      FinishKeepsRuns(s, e.r, e.cancelled, e.t);
    } else if e.Start? || e.Call? || e.Cancel? {
      OutsideKeepsRuns(s, e);
    } else if e.CancelledEarly? || e.EnterFinalize? || e.FinishRaises? {
      OwnStepKeepsRuns(s, e);
    } else {
      OtherStepKeepsRuns(s, e);
    }
  }

  lemma OutsideKeepsRuns(s: State, e: Event)
    requires RunsInv(s) && Enabled(s, e) && (e.Start? || e.Call? || e.Cancel?)
    ensures RunsInv(Apply(s, e))
  {
    var t := Apply(s, e);
    match e
    case Start(k, r) => if !s.Active(k) { OneRunChanges(s, t, r, Run(k, true, Created, false)); }
    case Call(k, r) => OneRunChanges(s, t, r, Run(k, false, Created, false));
    case Cancel(k) =>
      if k in s.background && s.background[k] in s.runs && !s.RunIn(s.background[k], Ended) {
        OneRunChanges(s, t, s.background[k], s.runs[s.background[k]].(cancelRequested := true));
      }
  }

  lemma OwnStepKeepsRuns(s: State, e: Event)
    requires RunsInv(s) && Enabled(s, e) && (e.CancelledEarly? || e.EnterFinalize? || e.FinishRaises?)
    ensures RunsInv(Apply(s, e))
  {
    OneRunChanges(s, Apply(s, e), e.r, s.runs[e.r].(phase := if e.EnterFinalize? then Finalizing else Ended));
  }

  lemma OtherStepKeepsRuns(s: State, e: Event)
    requires RunsInv(s) && Enabled(s, e) && (e.Log? || e.Fire? || e.FireCancelled? || e.Tick?)
    ensures RunsInv(Apply(s, e))
  {
    RunsUntouched(s, Apply(s, e));
  }

  // ---------- Frames ----------

  predicate SameTimers(s: State, t: State) { t.timers == s.timers && t.cleanup == s.cleanup }

  predicate Ordinary(e: Event) { !e.Begin? && !e.Finish? && !e.Fire? && !e.FireCancelled? }

  /** `t` differs from `s` in no flag, timer or ending time and drops no buffer. */
  predicate Frame(s: State, t: State) {
    SameTimers(s, t) && t.active == s.active && t.endedAt == s.endedAt && s.logs.Keys <= t.logs.Keys && s.now <= t.now
  }

  lemma OrdinaryFrame(s: State, e: Event)
    requires Enabled(s, e) && Ordinary(e)
    ensures Frame(s, Apply(s, e))
  {
    if e.Log? {
      LogFrame(s, e.r, e.line, e.handled);
    } else if e.Cancel? {
      CancelFrame(s, e.key);
    }
  }

  lemma LogFrame(s: State, r: RunId, line: string, handled: bool)
    requires Enabled(s, Log(r, line, handled))
    ensures Frame(s, Apply(s, Log(r, line, handled)))
  {
  }

  lemma CancelFrame(s: State, k: Key)
    ensures Frame(s, Apply(s, Cancel(k)))
  {
  }

  /** An accepted begin sets the flag of its key and gives it an empty buffer. */
  lemma BeginFrame(s: State, r: RunId)
    requires Enabled(s, Begin(r))
    ensures var t, k := Apply(s, Begin(r)), s.runs[r].key;
      && SameTimers(s, t) && t.now == s.now
      && t.active == (if s.Active(k) then s.active else s.active[k := true])
      && t.logs == (if s.Active(k) then s.logs else s.logs[k := []])
      && t.endedAt == (if s.Active(k) then s.endedAt else s.endedAt - {k})
  {
  }

  // ---------- Log buffers ----------

  lemma FinishKeepsBuffers(s: State, r: RunId, cancelled: bool, t: TimerId)
    requires BufferInv(s) && Enabled(s, Finish(r, cancelled, t))
    ensures BufferInv(Apply(s, Finish(r, cancelled, t)))
  {
    var k := s.runs[r].key;
    var cleared := ScheduleCleanup(s.(active := s.active[k := false], endedAt := s.endedAt[k := s.now]), k, t);
    PruneKeepsFlags(cleared);
  }

  lemma StepKeepsBuffers(s: State, e: Event)
    requires BufferInv(s) && Enabled(s, e)
    ensures BufferInv(Apply(s, e))
  {
    match e
    case Finish(r, cancelled, t) => FinishKeepsBuffers(s, r, cancelled, t);
    case Begin(r) => BeginFrame(s, r);
    case Fire(t) =>
    case FireCancelled(t) =>
    case _ => OrdinaryFrame(s, e);
  }

  // ---------- Timers ----------

  lemma ScheduleKeepsTimers(s: State, k: Key, t: TimerId)
    requires TimersInv(s) && t !in s.timers
    ensures TimersInv(ScheduleCleanup(s, k, t))
  {
    var n := ScheduleCleanup(s, k, t);
    forall u | n.TimerIn(u, Asleep) ensures n.timers[u].key in n.cleanup && n.cleanup[n.timers[u].key] == u {
      if u != t { assert s.TimerIn(u, Asleep); }
    }
    forall j | j in n.cleanup ensures n.TimerIn(n.cleanup[j], Asleep) && n.timers[n.cleanup[j]].key == j {
      if j != k { assert s.TimerIn(s.cleanup[j], Asleep); }
    }
  }

  lemma PruneKeepsTimers(s: State)
    requires TimersInv(s)
    ensures Prune(s).timers == s.timers && Prune(s).cleanup == s.cleanup
  {
  }

  lemma UnregisterKeepsTimers(s: State, t: TimerId)
    requires TimersInv(s) && t in s.timers
    ensures TimersInv(Unregister(s, t))
    ensures forall k :: k in s.cleanup && s.cleanup[k] != t ==> k in Unregister(s, t).cleanup && Unregister(s, t).cleanup[k] == s.cleanup[k]
  {
    var n := Unregister(s, t);
    forall u | n.TimerIn(u, Asleep) ensures n.timers[u].key in n.cleanup && n.cleanup[n.timers[u].key] == u {
      assert s.TimerIn(u, Asleep);
    }
  }

  lemma StepKeepsTimers(s: State, e: Event)
    requires TimersInv(s) && Enabled(s, e)
    ensures TimersInv(Apply(s, e))
  {
    match e
    case Finish(r, cancelled, t) =>
      var k := s.runs[r].key;
      var ended := s.(active := s.active[k := false], endedAt := s.endedAt[k := s.now]);
      ScheduleKeepsTimers(ended, k, t);
      PruneKeepsTimers(ScheduleCleanup(ended, k, t));
      assert SameTimers(ScheduleCleanup(ended, k, t), Apply(s, e));
      TimersTransfer(ScheduleCleanup(ended, k, t), Apply(s, e));
    case Fire(t) =>
      var k := s.timers[t].key;
      UnregisterKeepsTimers(if s.Active(k) then s else s.(logs := s.logs - {k}), t);
    case FireCancelled(t) => UnregisterKeepsTimers(s, t);
    case Begin(r) => BeginFrame(s, r); TimersTransfer(s, Apply(s, e));
    case _ => OrdinaryFrame(s, e); TimersTransfer(s, Apply(s, e));
  }

  lemma TimersTransfer(s: State, t: State)
    requires TimersInv(s) && SameTimers(s, t)
    ensures TimersInv(t)
  {
  }

  // ---------- Retention ----------

  lemma ScheduleKeepsRetention(s: State, k: Key, t: TimerId)
    requires TimersInv(s) && t !in s.timers && k in s.logs && k in s.endedAt && s.endedAt[k] == s.now && !s.Active(k)
    requires forall j :: j in s.endedAt && j != k ==> Retained(s, j)
    ensures RetentionInv(ScheduleCleanup(s, k, t))
  {
    var n := ScheduleCleanup(s, k, t);
    forall j | j in n.endedAt ensures Retained(n, j) {
      if j != k && j in s.cleanup {
        assert s.TimerIn(s.cleanup[j], Asleep);
        assert n.timers[n.cleanup[j]] == s.timers[s.cleanup[j]];
      }
    }
  }

  /** A finished run of k before its cleanup timer is set. */
  function Cleared(s: State, k: Key): State {
    s.(active := s.active[k := false], endedAt := s.endedAt[k := s.now])
  }

  lemma ClearedKeepsRetention(s: State, k: Key, t: TimerId)
    requires TimersInv(s) && RetentionInv(s) && k in s.logs && t !in s.timers
    ensures var n := ScheduleCleanup(Cleared(s, k), k, t);
      TimersInv(n) && RetentionInv(n)
  {
    var ended := Cleared(s, k);
    forall j | j in ended.endedAt && j != k ensures Retained(ended, j) { assert Retained(s, j); }
    ScheduleKeepsRetention(ended, k, t);
    ScheduleKeepsTimers(ended, k, t);
  }

  /** Retention does not depend on the runs and their handles. */
  lemma RetentionTransfers(s: State, t: State)
    requires RetentionInv(s) && t == s.(runs := t.runs, background := t.background)
    ensures RetentionInv(t)
  {
    forall k | k in t.endedAt ensures Retained(t, k) { assert Retained(s, k); }
  }

  lemma FinishKeepsRetention(s: State, r: RunId, cancelled: bool, t: TimerId)
    requires RunsInv(s) && BufferInv(s) && TimersInv(s) && RetentionInv(s) && Enabled(s, Finish(r, cancelled, t))
    ensures RetentionInv(Apply(s, Finish(r, cancelled, t)))
  {
    var k := s.runs[r].key;
    assert s.Live(r) && k in s.logs;
    ClearedKeepsRetention(s, k, t);
    var cleared := ScheduleCleanup(Cleared(s, k), k, t);
    if !cancelled { PruneKeepsRetention(cleared); }
    RetentionTransfers(if cancelled then cleared else Prune(cleared), Apply(s, Finish(r, cancelled, t)));
  }

  lemma PruneKeepsRetention(s: State)
    requires TimersInv(s) && RetentionInv(s)
    ensures RetentionInv(Prune(s))
  {
    PruneKeepsTimers(s);
    PruneKeepsFlags(s);
    forall k | k in s.endedAt ensures Retained(Prune(s), k) { assert Retained(s, k); }
  }

  lemma FireKeepsRetention(s: State, t: TimerId)
    requires TimersInv(s) && RetentionInv(s) && Enabled(s, Fire(t))
    ensures RetentionInv(Apply(s, Fire(t)))
  {
    var n := Apply(s, Fire(t));
    forall j | j in n.endedAt ensures Retained(n, j) {
      FireKeepsRetained(s, t, j);
    }
  }

  lemma FireKeepsRetained(s: State, t: TimerId, j: Key)
    requires TimersInv(s) && Enabled(s, Fire(t)) && j in s.endedAt && Retained(s, j)
    ensures Retained(Apply(s, Fire(t)), j)
  {
    assert s.timers[t].key in s.cleanup && s.cleanup[s.timers[t].key] == t;
    if j in s.cleanup {
      assert s.TimerIn(s.cleanup[j], Asleep) && s.timers[s.cleanup[j]].key == j;
    }
  }

  lemma FireCancelledKeepsRetention(s: State, t: TimerId)
    requires TimersInv(s) && RetentionInv(s) && Enabled(s, FireCancelled(t))
    ensures RetentionInv(Apply(s, FireCancelled(t)))
  {
    var n := Apply(s, FireCancelled(t));
    forall j | j in n.endedAt ensures Retained(n, j) {
      assert Retained(s, j);
      if j in s.cleanup {
        assert s.TimerIn(s.cleanup[j], Asleep);
      }
    }
  }

  /** Frames that keep retention: buffers and ending times as they were, flags only of
      keys that have begun again. */
  lemma RetentionTransfer(s: State, t: State)
    requires RetentionInv(s) && SameTimers(s, t) && s.now <= t.now && s.logs.Keys <= t.logs.Keys
    requires forall k :: k in t.endedAt ==> k in s.endedAt && t.endedAt[k] == s.endedAt[k] && !t.Active(k)
    ensures RetentionInv(t)
  {
    forall k | k in t.endedAt ensures Retained(t, k) { assert Retained(s, k); }
  }

  lemma StepKeepsRetention(s: State, e: Event)
    requires RunsInv(s) && BufferInv(s) && TimersInv(s) && RetentionInv(s) && Enabled(s, e)
    ensures RetentionInv(Apply(s, e))
  {
    match e
    case Finish(r, cancelled, t) => FinishKeepsRetention(s, r, cancelled, t);
    case Fire(t) => FireKeepsRetention(s, t);
    case FireCancelled(t) => FireCancelledKeepsRetention(s, t);
    case Begin(r) => BeginFrame(s, r); RetentionTransfer(s, Apply(s, e));
    case _ => OrdinaryFrame(s, e); RetentionTransfer(s, Apply(s, e));
  }

  // ---------- All runs ----------

  ghost predicate Inv(s: State) { RunsInv(s) && BufferInv(s) && TimersInv(s) && RetentionInv(s) }

  lemma {:induction false} RunsKeepInv(es: seq<Event>)
    requires RunAll(es).Some?
    ensures Inv(RunAll(es).value)
  {
    if es != [] {
      RunsKeepInv(es[..|es| - 1]);
      var s, e := RunAll(es[..|es| - 1]).value, es[|es| - 1];
      StepKeepsRuns(s, e);
      StepKeepsBuffers(s, e);
      StepKeepsTimers(s, e);
      StepKeepsRetention(s, e);
    }
  }

  /** At most one execution per key is past the running check, its flag is set for as long
      as it lasts, and no log line is ever written to a missing buffer. */
  lemma OneExecutionPerKey(es: seq<Event>, q: RunId, r: RunId)
    requires RunAll(es).Some?
    ensures var s := RunAll(es).value;
      && (s.Live(q) && s.Live(r) && s.runs[q].key == s.runs[r].key ==> q == r)
      && (s.Live(r) ==> s.Active(s.runs[r].key) && s.runs[r].key in s.logs)
  {
    RunsKeepInv(es);
  }

  /** A rejected attempt takes nothing from the winner: flags, buffers and timers stay. */
  lemma RejectedChangesNothing(es: seq<Event>, r: RunId)
    requires RunAll(es).Some? && Enabled(RunAll(es).value, Begin(r))
    requires RunAll(es).value.Active(RunAll(es).value.runs[r].key)
    ensures var s, t := RunAll(es).value, Apply(RunAll(es).value, Begin(r));
      && t.active == s.active && t.logs == s.logs && SameTimers(s, t)
      && t.RunIn(r, Ended)
      && (forall q :: q != r ==> t.Live(q) == s.Live(q))
  {
    BeginFrame(RunAll(es).value, r);
  }

  /** The registered cleanup timers are exactly the sleeping ones, so a cancelled or
      superseded timer that wakes up never unregisters the newer one. */
  lemma SupersededTimerIsHarmless(es: seq<Event>, t: TimerId, k: Key)
    requires RunAll(es).Some?
    requires k in RunAll(es).value.cleanup && RunAll(es).value.cleanup[k] != t
    ensures var s := RunAll(es).value;
      && s.TimerIn(s.cleanup[k], Asleep)
      && (Enabled(s, FireCancelled(t)) ==>
            k in Apply(s, FireCancelled(t)).cleanup && Apply(s, FireCancelled(t)).cleanup[k] == s.cleanup[k])
      && (Enabled(s, Fire(t)) ==>
            s.timers[t].key != k
            && k in Apply(s, Fire(t)).cleanup && Apply(s, Fire(t)).cleanup[k] == s.cleanup[k]
            && (k in s.logs ==> k in Apply(s, Fire(t)).logs))
  {
    RunsKeepInv(es);
  }

  /** The log of a finished run stays readable for the whole retention time, unless a new
      run of the key begins. */
  lemma LogsAreRetained(es: seq<Event>, k: Key)
    requires RunAll(es).Some?
    requires var s := RunAll(es).value; k in s.endedAt && s.now < s.endedAt[k] + LOG_RETENTION
    ensures k in RunAll(es).value.logs
  {
    RunsKeepInv(es);
    var s := RunAll(es).value;
    assert s.TimerIn(s.cleanup[k], Asleep);
  }

  /** No buffer is left for good: after a normal finish every buffer belongs to a running
      task or has a sleeping timer that will remove it. */
  lemma NoOrphanBuffers(es: seq<Event>, r: RunId, t: TimerId, k: Key)
    requires RunAll(es).Some? && Enabled(RunAll(es).value, Finish(r, false, t))
    requires k in Apply(RunAll(es).value, Finish(r, false, t)).logs
    ensures var n := Apply(RunAll(es).value, Finish(r, false, t));
      n.Active(k) || (k in n.cleanup && n.TimerIn(n.cleanup[k], Asleep))
  {
    RunsKeepInv(es);
    var s := RunAll(es).value;
    StepKeepsTimers(s, Finish(r, false, t));
    var j := s.runs[r].key;
    var cleared := ScheduleCleanup(s.(active := s.active[j := false], endedAt := s.endedAt[j := s.now]), j, t);
    PruneKeepsFlags(cleared);
    ScheduleKeepsTimers(s.(active := s.active[j := false], endedAt := s.endedAt[j := s.now]), j, t);
    PruneKeepsTimers(cleared);
  }

  // ---------- The cancel handle ----------

  /** Every unfinished background run is the one `cancel_task_run` would find. */
  ghost predicate HandleInv(s: State) {
    forall r :: r in s.runs && s.runs[r].background && !s.runs[r].phase.Ended? ==>
      s.runs[r].key in s.background && s.background[s.runs[r].key] == r
  }

  /** A start that is accepted although an earlier background run has not finished: the
      flag is not set yet because that run has not begun. */
  predicate Overtakes(s: State, e: Event) {
    && e.Start? && !s.Active(e.key)
    && e.key in s.background && s.background[e.key] in s.runs
    && !s.runs[s.background[e.key]].phase.Ended? && s.runs[s.background[e.key]].background
    && s.runs[s.background[e.key]].key == e.key
  }

  lemma FinishKeepsHandles(s: State, r: RunId, cancelled: bool, t: TimerId)
    requires HandleInv(s) && Enabled(s, Finish(r, cancelled, t))
    ensures HandleInv(Apply(s, Finish(r, cancelled, t)))
  {
    var n := Apply(s, Finish(r, cancelled, t));
    forall q | q in n.runs && n.runs[q].background && !n.runs[q].phase.Ended?
      ensures n.runs[q].key in n.background && n.background[n.runs[q].key] == q
    {
      assert q != r && q in s.runs && n.runs[q] == s.runs[q];
      assert !s.RunIn(q, Ended);
    }
  }

  lemma StepKeepsHandles(s: State, e: Event)
    requires HandleInv(s) && Enabled(s, e)
    ensures HandleInv(Apply(s, e)) <==> !Overtakes(s, e)
  {
    if e.Finish? {
      FinishKeepsHandles(s, e.r, e.cancelled, e.t);
    } else if e.Start? {
      StartKeepsHandles(s, e.key, e.r);
    } else if e.Begin? {
      BeginKeepsHandles(s, e.r);
    } else if e.FinishRaises? {
      RaiseKeepsHandles(s, e.r);
    } else if e.CancelledEarly? || e.EnterFinalize? {
      PhaseKeepsHandles(s, e);
    } else {
      OtherStepKeepsHandles(s, e);
    }
  }

  lemma BeginKeepsHandles(s: State, r: RunId)
    requires HandleInv(s) && Enabled(s, Begin(r))
    ensures HandleInv(Apply(s, Begin(r)))
  {
    var n := Apply(s, Begin(r));
    forall q | q in n.runs && n.runs[q].background && !n.runs[q].phase.Ended?
      ensures n.runs[q].key in n.background && n.background[n.runs[q].key] == q
    {
      if q != r { assert n.runs[q] == s.runs[q]; }
      assert !s.RunIn(q, Ended);
    }
  }

  lemma RaiseKeepsHandles(s: State, r: RunId)
    requires HandleInv(s) && Enabled(s, FinishRaises(r))
    ensures HandleInv(Apply(s, FinishRaises(r)))
  {
    var n := Apply(s, FinishRaises(r));
    forall q | q in n.runs && n.runs[q].background && !n.runs[q].phase.Ended?
      ensures n.runs[q].key in n.background && n.background[n.runs[q].key] == q
    {
      assert q != r && q in s.runs && n.runs[q] == s.runs[q];
      assert !s.RunIn(q, Ended);
    }
  }

  lemma PhaseKeepsHandles(s: State, e: Event)
    requires HandleInv(s) && Enabled(s, e) && (e.CancelledEarly? || e.EnterFinalize?)
    ensures HandleInv(Apply(s, e))
  {
  }

  lemma OtherStepKeepsHandles(s: State, e: Event)
    requires HandleInv(s) && Enabled(s, e)
    requires e.Call? || e.Log? || e.Cancel? || e.Fire? || e.FireCancelled? || e.Tick?
    ensures HandleInv(Apply(s, e))
  {
  }

  lemma StartKeepsHandles(s: State, k: Key, r: RunId)
    requires HandleInv(s) && r !in s.runs
    ensures HandleInv(Apply(s, Start(k, r))) <==> !Overtakes(s, Start(k, r))
  {
    var t := Apply(s, Start(k, r));
    if Overtakes(s, Start(k, r)) {
      var q := s.background[k];
      assert q in t.runs && t.runs[q] == s.runs[q] && t.background[k] == r;
    }
  }

  lemma {:induction false} PrefixOfRun(es: seq<Event>, n: nat)
    requires RunAll(es).Some? && n <= |es|
    ensures RunAll(es[..n]).Some?
    ensures n < |es| ==> Enabled(RunAll(es[..n]).value, es[n]) && RunAll(es[..n + 1]) == Some(Apply(RunAll(es[..n]).value, es[n]))
  {
    if n == |es| {
      assert es[..n] == es;
    } else {
      var before := es[..|es| - 1];
      if n < |before| {
        PrefixesAgree(es, n);
        PrefixOfRun(before, n);
      } else {
        assert es[..n] == before && es[..n + 1] == es;
      }
    }
  }

  lemma PrefixesAgree(es: seq<Event>, n: nat)
    requires n < |es| - 1
    ensures es[..|es| - 1][..n] == es[..n] && es[..|es| - 1][..n + 1] == es[..n + 1] && es[..|es| - 1][n] == es[n]
  {
  }

  ghost predicate HandlesAlways(es: seq<Event>)
    requires RunAll(es).Some?
  {
    forall n {:trigger RunAll(es[..n])} :: 0 <= n <= |es| && RunAll(es[..n]).Some? ==> HandleInv(RunAll(es[..n]).value)
  }

  ghost predicate NeverOvertakes(es: seq<Event>)
    requires RunAll(es).Some?
  {
    forall n {:trigger RunAll(es[..n])} :: 0 <= n < |es| && RunAll(es[..n]).Some? ==> !Overtakes(RunAll(es[..n]).value, es[n])
  }

  lemma {:induction false} HandlesUpTo(es: seq<Event>, n: nat)
    requires RunAll(es).Some? && NeverOvertakes(es) && n <= |es|
    ensures RunAll(es[..n]).Some? && HandleInv(RunAll(es[..n]).value)
  {
    if n > 0 {
      HandlesUpTo(es, n - 1);
      PrefixOfRun(es, n - 1);
      StepKeepsHandles(RunAll(es[..n - 1]).value, es[n - 1]);
    } else {
      assert es[..0] == [];
    }
  }

  /** In a run every unfinished background run stays cancellable exactly when no start
      overtakes an unfinished background run that has not begun. */
  lemma CancelHandleExact(es: seq<Event>)
    requires RunAll(es).Some?
    ensures HandlesAlways(es) <==> NeverOvertakes(es)
  {
    if NeverOvertakes(es) {
      forall n | 0 <= n <= |es| && RunAll(es[..n]).Some? ensures HandleInv(RunAll(es[..n]).value) {
        HandlesUpTo(es, n);
      }
    }
    if HandlesAlways(es) {
      forall n | 0 <= n < |es| && RunAll(es[..n]).Some? ensures !Overtakes(RunAll(es[..n]).value, es[n]) {
        PrefixOfRun(es, n);
        assert HandleInv(RunAll(es[..n]).value) && HandleInv(RunAll(es[..n + 1]).value);
        StepKeepsHandles(RunAll(es[..n]).value, es[n]);
      }
    }
  }

  lemma Extends(es: seq<Event>, s: State, e: Event, t: State)
    requires RunAll(es) == Some(s) && Enabled(s, e) && Apply(s, e) == t
    ensures RunAll(es + [e]) == Some(t)
  {
    assert (es + [e])[..|es|] == es;
  }

  /** Two starts before either run begins: the first run executes, the second is rejected
      and takes the only cancel handle with it, so a cancel finds nothing. */
  lemma OvertakenRunCannotBeCancelled(k: Key) returns (es: seq<Event>, s: State)
    ensures RunAll(es) == Some(s)
    ensures s.RunIn(0, Executing) && s.runs[0] == Run(k, true, Executing, false) && Apply(s, Cancel(k)) == s
  {
    var created := Run(k, true, Created, false);
    var one := INIT.(background := map[k := 0], runs := map[0 := created]);
    var two := INIT.(background := map[k := 1], runs := map[0 := created, 1 := created]);
    var begun := two.(active := map[k := true], logs := map[k := []], runs := two.runs[0 := created.(phase := Executing)]);
    s := begun.(background := map[], runs := begun.runs[1 := created.(phase := Ended)]);
    Extends([], INIT, Start(k, 0), one);
    es := [] + [Start(k, 0)];
    Extends(es, one, Start(k, 1), two);
    es := es + [Start(k, 1)];
    Extends(es, two, Begin(0), begun);
    es := es + [Begin(0)];
    assert begun.background - {k} == s.background;
    Extends(es, begun, Begin(1), s);
    es := es + [Begin(1)];
  }

  // ---------- Flags without a run ----------

  ghost predicate HasRun(s: State, k: Key) { exists r :: s.Live(r) && s.runs[r].key == k }

  ghost predicate FlagsHeld(s: State) { forall k :: s.Active(k) ==> HasRun(s, k) }

  /** At every point of the run each set flag has a live run. */
  ghost predicate FlagsAlwaysHeld(es: seq<Event>) {
    && (RunAll(es).Some? ==> FlagsHeld(RunAll(es).value))
    && (es == [] || FlagsAlwaysHeld(es[..|es| - 1]))
  }

  /** No finalisation raised, or was cancelled, before it cleared the flag. */
  predicate NoRaise(es: seq<Event>) {
    es == [] || (NoRaise(es[..|es| - 1]) && !es[|es| - 1].FinishRaises?)
  }

  lemma RaiseLeavesFlag(s: State, r: RunId)
    requires RunsInv(s) && Enabled(s, FinishRaises(r))
    ensures var t := Apply(s, FinishRaises(r)); t.Active(s.runs[r].key) && !HasRun(t, s.runs[r].key)
  {
    var t := Apply(s, FinishRaises(r));
    assert s.Live(r);
    forall q ensures !(t.Live(q) && t.runs[q].key == s.runs[r].key) { assert t.Live(q) ==> s.Live(q) && t.runs[q] == s.runs[q]; }
  }

  lemma BeginHoldsFlags(s: State, r: RunId)
    requires FlagsHeld(s) && Enabled(s, Begin(r))
    ensures FlagsHeld(Apply(s, Begin(r)))
  {
    var t := Apply(s, Begin(r));
    forall k | t.Active(k) ensures HasRun(t, k) {
      if s.Active(k) {
        var q :| s.Live(q) && s.runs[q].key == k;
        assert t.Live(q) && t.runs[q] == s.runs[q];
      } else {
        assert t.Live(r) && t.runs[r].key == k;
      }
    }
  }

  lemma FinishHoldsFlags(s: State, r: RunId, cancelled: bool, tid: TimerId)
    requires FlagsHeld(s) && Enabled(s, Finish(r, cancelled, tid))
    ensures FlagsHeld(Apply(s, Finish(r, cancelled, tid)))
  {
    var t := Apply(s, Finish(r, cancelled, tid));
    FlagAfterFinish(s, r, cancelled, tid);
    forall k | t.Active(k) ensures HasRun(t, k) {
      var q :| s.Live(q) && s.runs[q].key == k;
      assert t.Live(q) && t.runs[q].key == k;
    }
  }

  lemma FlagAfterFinish(s: State, r: RunId, cancelled: bool, tid: TimerId)
    requires Enabled(s, Finish(r, cancelled, tid))
    ensures var t := Apply(s, Finish(r, cancelled, tid));
      && (forall k :: t.Active(k) <==> s.Active(k) && k != s.runs[r].key)
      && t.runs == s.runs[r := s.runs[r].(phase := Ended)]
  {
    var k := s.runs[r].key;
    PruneKeepsFlags(ScheduleCleanup(Cleared(s, k), k, tid));
  }

  /** All other steps keep every flag and every live run. */
  lemma FlagsUntouched(s: State, e: Event)
    requires Enabled(s, e) && !e.Begin? && !e.Finish? && !e.FinishRaises?
    ensures var t := Apply(s, e);
      && (forall k :: t.Active(k) == s.Active(k))
      && (forall q :: t.Live(q) == s.Live(q) && (s.Live(q) ==> t.runs[q].key == s.runs[q].key))
  {
  }

  lemma StepHoldsFlags(s: State, e: Event)
    requires RunsInv(s) && FlagsHeld(s) && Enabled(s, e)
    ensures FlagsHeld(Apply(s, e)) <==> !e.FinishRaises?
  {
    if e.FinishRaises? {
      RaiseLeavesFlag(s, e.r);
    } else if e.Begin? {
      BeginHoldsFlags(s, e.r);
    } else if e.Finish? {
      FinishHoldsFlags(s, e.r, e.cancelled, e.t);
    } else {
      FlagsUntouched(s, e);
      var t := Apply(s, e);
      forall k | t.Active(k) ensures HasRun(t, k) {
        var q :| s.Live(q) && s.runs[q].key == k;
        assert t.Live(q);
      }
    }
  }

  lemma {:induction false} FlagsFollowRaises(es: seq<Event>)
    requires RunAll(es).Some?
    ensures FlagsAlwaysHeld(es) <==> NoRaise(es)
    ensures NoRaise(es) ==> FlagsHeld(RunAll(es).value)
  {
    if es != [] {
      var before := es[..|es| - 1];
      FlagsFollowRaises(before);
      RunsKeepInv(before);
      if NoRaise(before) { StepHoldsFlags(RunAll(before).value, es[|es| - 1]); }
    }
  }

  /** At every point of a run each set flag has a live run if and only if no finalisation
      raised before it cleared its flag. */
  lemma FlagsHeldExact(es: seq<Event>)
    requires RunAll(es).Some?
    ensures FlagsAlwaysHeld(es) <==> NoRaise(es)
  {
    FlagsFollowRaises(es);
  }

  /** A run that is called and raises in its finalisation leaves the key stuck. */
  lemma RaisedRunLeavesFlag(k: Key) returns (es: seq<Event>, s: State)
    ensures es == [Call(k, 0), Begin(0), FinishRaises(0)] && RunAll(es) == Some(s)
    ensures s.Active(k) && !HasRun(s, k) && !NoRaise(es)
  {
    var created := Run(k, false, Created, false);
    var s1 := INIT.(runs := map[0 := created]);
    var s2 := s1.(active := map[k := true], logs := map[k := []], runs := map[0 := created.(phase := Executing)]);
    s := s2.(runs := map[0 := created.(phase := Ended)]);
    Extends([], INIT, Call(k, 0), s1);
    es := [] + [Call(k, 0)];
    Extends(es, s1, Begin(0), s2);
    es := es + [Begin(0)];
    Extends(es, s2, FinishRaises(0), s);
    es := es + [FinishRaises(0)];
    assert es == [Call(k, 0), Begin(0), FinishRaises(0)];
  }

  lemma StuckStep(s: State, e: Event, k: Key)
    requires Enabled(s, e) && s.Active(k) && !HasRun(s, k)
    ensures Apply(s, e).Active(k) && !HasRun(Apply(s, e), k)
  {
    var t := Apply(s, e);
    if e.Finish? {
      FlagAfterFinish(s, e.r, e.cancelled, e.t);
      assert s.Live(e.r) && s.runs[e.r].key != k;
      forall q ensures !(t.Live(q) && t.runs[q].key == k) { assert t.Live(q) ==> s.Live(q); }
    } else if e.Begin? || e.FinishRaises? {
      OwnStepLeavesStuck(s, e, k);
    } else {
      FlagsUntouched(s, e);
      forall q ensures !(t.Live(q) && t.runs[q].key == k) { assert t.Live(q) ==> s.Live(q); }
    }
  }

  lemma OwnStepLeavesStuck(s: State, e: Event, k: Key)
    requires Enabled(s, e) && (e.Begin? || e.FinishRaises?) && s.Active(k) && !HasRun(s, k)
    ensures Apply(s, e).Active(k) && !HasRun(Apply(s, e), k)
  {
    var t := Apply(s, e);
    assert t.runs == s.runs[e.r := t.runs[e.r]] && t.runs[e.r].key == s.runs[e.r].key;
    assert t.Live(e.r) ==> e.Begin? && !s.Active(s.runs[e.r].key);
    forall q ensures !(t.Live(q) && t.runs[q].key == k) { assert q != e.r ==> t.Live(q) == s.Live(q); }
  }

  /** A flag that has lost its run stays set through every later run: no execution of the key
      ever begins again. */
  lemma {:induction false} StuckFlagStays(es: seq<Event>, more: seq<Event>, k: Key)
    requires RunAll(es).Some? && RunAll(es + more).Some?
    requires RunAll(es).value.Active(k) && !HasRun(RunAll(es).value, k)
    ensures RunAll(es + more).value.Active(k) && !HasRun(RunAll(es + more).value, k)
  {
    if more == [] {
      assert es + more == es;
    } else {
      var all, shorter := es + more, more[..|more| - 1];
      assert all[..|all| - 1] == es + shorter && all[|all| - 1] == more[|more| - 1];
      StuckFlagStays(es, shorter, k);
      StuckStep(RunAll(es + shorter).value, more[|more| - 1], k);
    }
  }

  // ---------- What a cancel does ----------

  /** A handle names a background run of its own key. */
  predicate HandleFits(s: State, k: Key) {
    k in s.background ==>
      s.background[k] in s.runs && s.runs[s.background[k]].background && s.runs[s.background[k]].key == k
  }

  /** Runs are never forgotten nor change their key. */
  predicate RunStays(s: State, t: State, r: RunId) {
    r in s.runs ==> r in t.runs && t.runs[r].key == s.runs[r].key && t.runs[r].background == s.runs[r].background
  }

  lemma StepKeepsRunIds(s: State, e: Event, r: RunId)
    requires Enabled(s, e)
    ensures RunStays(s, Apply(s, e), r)
  {
    if e.Finish? { FlagAfterFinish(s, e.r, e.cancelled, e.t); }
  }

  lemma StepKeepsHandleFit(s: State, e: Event, k: Key)
    requires HandleFits(s, k) && Enabled(s, e)
    ensures HandleFits(Apply(s, e), k)
  {
    var t := Apply(s, e);
    HandlesOnlyGo(s, e, k);
    if k in s.background { StepKeepsRunIds(s, e, s.background[k]); }
  }

  /** Only a start registers a handle. */
  lemma HandlesOnlyGo(s: State, e: Event, k: Key)
    requires Enabled(s, e)
    ensures var t := Apply(s, e);
      k in t.background ==>
        || (k in s.background && t.background[k] == s.background[k])
        || (e.Start? && e.key == k && t.background[k] == e.r && e.r in t.runs && t.runs[e.r] == Run(k, true, Created, false))
  {
    if e.Finish? {
      FinishOnlyDropsHandles(s, e.r, e.cancelled, e.t, k);
    } else if e.Begin? || e.FinishRaises? {
      DropOnlyDrops(s, e.r, k);
    } else if !e.Start? {
      assert Apply(s, e).background == s.background;
    }
  }

  lemma DropOnlyDrops(s: State, r: RunId, k: Key)
    requires r in s.runs
    ensures k in DropHandle(s, r).background ==> k in s.background && DropHandle(s, r).background[k] == s.background[k]
  {
  }

  lemma FinishOnlyDropsHandles(s: State, r: RunId, cancelled: bool, t: TimerId, k: Key)
    requires Enabled(s, Finish(r, cancelled, t))
    ensures var u := Apply(s, Finish(r, cancelled, t));
      k in u.background ==> k in s.background && u.background[k] == s.background[k]
  {
  }

  lemma {:induction false} HandlesAlwaysFit(es: seq<Event>, k: Key)
    requires RunAll(es).Some?
    ensures HandleFits(RunAll(es).value, k)
  {
    if es != [] {
      HandlesAlwaysFit(es[..|es| - 1], k);
      StepKeepsHandleFit(RunAll(es[..|es| - 1]).value, es[|es| - 1], k);
    }
  }

  /** A cancel can reach a run of the key. */
  predicate Cancellable(s: State, k: Key) {
    k in s.background && s.background[k] in s.runs && !s.runs[s.background[k]].phase.Ended?
  }

  /** A cancel changes anything if and only if the registered run of the key has not ended.
      Then exactly that run, which is one of the key, is asked to cancel; no flag, timer or
      handle changes and every log line written so far stays. */
  lemma CancelExact(es: seq<Event>, k: Key)
    requires RunAll(es).Some?
    ensures var s, t := RunAll(es).value, Apply(RunAll(es).value, Cancel(k));
      && (t == s <==> !Cancellable(s, k))
      && t.active == s.active && t.background == s.background && SameTimers(s, t) && t.runs.Keys == s.runs.Keys
      && (forall j :: j in s.logs ==> j in t.logs && s.logs[j] <= t.logs[j] && (j != k ==> t.logs[j] == s.logs[j]))
      && (Cancellable(s, k) ==>
            var r := s.background[k];
            && s.runs[r].key == k && t.runs[r].cancelRequested && t.runs[r].phase == s.runs[r].phase
            && k in t.logs && |t.logs[k]| == (if k in s.logs then |s.logs[k]| else 0) + 1
            && (forall q :: q in s.runs && q != r ==> t.runs[q] == s.runs[q]))
  {
    HandlesAlwaysFit(es, k);
  }

  /** A run that was asked to cancel before its first step. */
  predicate Doomed(s: State, r: RunId) {
    r in s.runs && s.runs[r].cancelRequested && (s.runs[r].phase.Created? || s.runs[r].phase.Ended?)
  }

  lemma StepKeepsDoomed(s: State, e: Event, r: RunId)
    requires Doomed(s, r) && Enabled(s, e)
    ensures Doomed(Apply(s, e), r)
  {
    if e.Finish? {
      FlagAfterFinish(s, e.r, e.cancelled, e.t);
    } else if e.Begin? || e.FinishRaises? {
      assert e.r != r ==> Apply(s, e).runs[r] == s.runs[r];
    }
  }

  predicate OwnStep(e: Event, r: RunId) {
    (e.Begin? || e.CancelledEarly? || e.Log? || e.EnterFinalize? || e.Finish? || e.FinishRaises?) && e.r == r
  }

  lemma RunSnoc(first: seq<Event>, more: seq<Event>)
    requires more != [] && RunAll(first + more).Some?
    ensures var before, e := first + more[..|more| - 1], more[|more| - 1];
      && RunAll(before).Some? && Enabled(RunAll(before).value, e)
      && RunAll(first + more) == Some(Apply(RunAll(before).value, e))
  {
    var all := first + more;
    assert all[..|all| - 1] == first + more[..|more| - 1];
  }

  lemma {:induction false} DoomedStays(first: seq<Event>, r: RunId, more: seq<Event>)
    requires RunAll(first).Some? && Doomed(RunAll(first).value, r) && RunAll(first + more).Some?
    ensures Doomed(RunAll(first + more).value, r)
  {
    if more == [] {
      assert first + more == first;
    } else {
      RunSnoc(first, more);
      DoomedStays(first, r, more[..|more| - 1]);
      StepKeepsDoomed(RunAll(first + more[..|more| - 1]).value, more[|more| - 1], r);
    }
  }

  lemma DoomedSteps(s: State, r: RunId)
    requires Doomed(s, r)
    ensures !s.Live(r) && (s.RunIn(r, Created) <==> Enabled(s, CancelledEarly(r)))
    ensures forall e :: Enabled(s, e) && OwnStep(e, r) ==> e == CancelledEarly(r)
  {
  }

  lemma CancelDooms(s: State, k: Key)
    requires Cancellable(s, k) && s.runs[s.background[k]].phase.Created?
    ensures Doomed(Apply(s, Cancel(k)), s.background[k])
  {
  }

  /** A run that is cancelled before its first step never executes, whatever happens later:
      the only step it can make is to receive its cancellation, which it can until it has. */
  lemma CancelledRunNeverExecutes(es: seq<Event>, k: Key, more: seq<Event>)
    requires RunAll(es).Some? && Cancellable(RunAll(es).value, k)
    requires RunAll(es).value.runs[RunAll(es).value.background[k]].phase.Created?
    requires RunAll(es + [Cancel(k)] + more).Some?
    ensures var r, u := RunAll(es).value.background[k], RunAll(es + [Cancel(k)] + more).value;
      && !u.Live(r)
      && (forall e :: Enabled(u, e) && OwnStep(e, r) ==> e == CancelledEarly(r))
      && (u.RunIn(r, Created) <==> Enabled(u, CancelledEarly(r)))
  {
    var s := RunAll(es).value;
    Extends(es, s, Cancel(k), Apply(s, Cancel(k)));
    CancelDooms(s, k);
    DoomedStays(es + [Cancel(k)], s.background[k], more);
    DoomedSteps(RunAll(es + [Cancel(k)] + more).value, s.background[k]);
  }

  // ---------- A run from its start to its end ----------

  /** A start is accepted if and only if the key's flag is down.  Then a run is made, with the
      key's handle; its first step is possible at once, and passes the running check if the
      flag is still down: the flag goes up and the buffer is empty. */
  lemma StartExact(es: seq<Event>, k: Key, r: RunId)
    requires RunAll(es).Some? && Enabled(RunAll(es).value, Start(k, r))
    ensures var s, t := RunAll(es).value, Apply(RunAll(es).value, Start(k, r));
      if s.Active(k) then t == s
      else
        && t.RunIn(r, Created) && t.runs[r].key == k && Cancellable(t, k) && t.background[k] == r
        && Enabled(t, Begin(r))
        && var u := Apply(t, Begin(r));
           u.Live(r) && u.Active(k) && k in u.logs && u.logs[k] == []
  {
  }

  /** A begun run takes its key if and only if the flag is down; otherwise it is over. */
  lemma BeginExact(es: seq<Event>, r: RunId)
    requires RunAll(es).Some? && Enabled(RunAll(es).value, Begin(r))
    ensures var s, t := RunAll(es).value, Apply(RunAll(es).value, Begin(r));
      var k := s.runs[r].key;
      && (t.Live(r) <==> !s.Active(k)) && (t.RunIn(r, Ended) <==> s.Active(k))
      && (t.Live(r) ==> t.Active(k) && k in t.logs && t.logs[k] == [])
      && (forall q :: q != r ==> t.Live(q) == s.Live(q))
  {
  }

  /** What an event writes into the buffer of a live run. */
  function Said(s: State, e: Event, r: RunId): seq<string>
    requires r in s.runs
  {
    if e.Log? && e.r == r then [e.line]
    else if e.Cancel? && e.key == s.runs[r].key && Cancellable(s, e.key) then ["cancel requested"]
    else []
  }

  lemma LiveStaysKeyed(s: State, e: Event, r: RunId)
    requires Enabled(s, e) && r in s.runs && !s.RunIn(r, Created)
    ensures var t := Apply(s, e);
      r in t.runs && !t.RunIn(r, Created) && t.runs[r].key == s.runs[r].key && (t.Live(r) ==> s.Live(r))
  {
    if e.Finish? { FlagAfterFinish(s, e.r, e.cancelled, e.t); }
  }

  /** `kept` are the newest lines of `all`, at least a thousand unless there are fewer. */
  predicate Newest(kept: seq<string>, all: seq<string>) {
    && |kept| <= |all| && kept == all[|all| - |kept|..]
    && (|kept| == |all| || |kept| >= 1000)
  }

  lemma NewestGrow(kept: seq<string>, all: seq<string>, line: string, handled: bool)
    requires Newest(kept, all)
    ensures Newest(Emitted(kept, line, handled), all + [line])
  {
    assert kept + [line] == (all + [line])[|all| - |kept|..];
  }

  lemma StepWrites(s: State, e: Event, r: RunId)
    requires Inv(s) && Enabled(s, e) && s.Live(r) && Apply(s, e).Live(r)
    ensures var t, k := Apply(s, e), s.runs[r].key;
      && k in s.logs && k in t.logs
      && t.logs[k] == if e.Log? && e.r == r then Emitted(s.logs[k], e.line, e.handled) else s.logs[k] + Said(s, e, r)
  {
    var k := s.runs[r].key;
    assert s.Active(k) && k in s.logs && s.logs[k] + [] == s.logs[k];
    match e
    case Log(q, _, _) => assert s.Live(q);
    case Begin(q) => BeginFrame(s, q);
    case Finish(q, cancelled, t) =>
      assert s.Live(q) && q != r && s.runs[q].key != k;
      FinishKeepsOthersLog(s, q, cancelled, t, k);
    case _ =>
  }

  lemma FinishKeepsOthersLog(s: State, q: RunId, cancelled: bool, t: TimerId, k: Key)
    requires Enabled(s, Finish(q, cancelled, t)) && s.Active(k) && k != s.runs[q].key && k in s.logs
    ensures var u := Apply(s, Finish(q, cancelled, t)); k in u.logs && u.logs[k] == s.logs[k]
  {
  }

  /** All that was written into the run's buffer by the events `more`, which follow `first`. */
  function Transcript(first: seq<Event>, r: RunId, more: seq<Event>): seq<string>
    requires RunAll(first).Some? && r in RunAll(first).value.runs && RunAll(first + more).Some?
    requires !RunAll(first).value.RunIn(r, Created)
    ensures r in RunAll(first + more).value.runs && !RunAll(first + more).value.RunIn(r, Created)
  {
    if more == [] then assert first + more == first; []
    else
      var before, e := more[..|more| - 1], more[|more| - 1];
      RunSnoc(first, more);
      var so := Transcript(first, r, before);
      LiveStaysKeyed(RunAll(first + before).value, e, r);
      so + Said(RunAll(first + before).value, e, r)
  }

  /** As long as a run lives, its key's buffer holds the lines it has logged since it began and
      a note of every accepted cancel, in order: all of them, or at least the newest thousand. */
  lemma {:induction false} BufferIsTranscript(es: seq<Event>, r: RunId, more: seq<Event>)
    requires RunAll(es + [Begin(r)]).Some? && RunAll(es + [Begin(r)]).value.Live(r)
    requires RunAll(es + [Begin(r)] + more).Some? && RunAll(es + [Begin(r)] + more).value.Live(r)
    ensures var u := RunAll(es + [Begin(r)] + more).value;
      var k := u.runs[r].key;
      && k == RunAll(es + [Begin(r)]).value.runs[r].key
      && k in u.logs && Newest(u.logs[k], Transcript(es + [Begin(r)], r, more))
  {
    var first := es + [Begin(r)];
    if more == [] {
      assert first + more == first && first[..|es|] == es;
      BeginFrame(RunAll(es).value, r);
    } else {
      var before, e := more[..|more| - 1], more[|more| - 1];
      RunSnoc(first, more);
      var sofar := Transcript(first, r, before);
      LiveStaysKeyed(RunAll(first + before).value, e, r);
      BufferIsTranscript(es, r, before);
      RunsKeepInv(first + before);
      StepWrites(RunAll(first + before).value, e, r);
      var kept := RunAll(first + before).value.logs[RunAll(first).value.runs[r].key];
      if e.Log? && e.r == r {
        NewestGrow(kept, sofar, e.line, e.handled);
      } else {
        NewestSame(kept, sofar, Said(RunAll(first + before).value, e, r));
      }
    }
  }

  lemma NewestSame(kept: seq<string>, all: seq<string>, more: seq<string>)
    requires Newest(kept, all) && |more| <= 1
    ensures Newest(kept + more, all + more)
  {
    if more == [] {
      assert kept + more == kept && all + more == all;
    } else {
      NewestGrow(kept, all, more[0], false);
      assert more == [more[0]];
    }
  }

  /** A logged line is the last one of its key's buffer; one through the handler leaves at most a
      thousand. */
  lemma LogExact(es: seq<Event>, r: RunId, line: string, handled: bool)
    requires RunAll(es).Some? && Enabled(RunAll(es).value, Log(r, line, handled))
    ensures var s, t := RunAll(es).value, Apply(RunAll(es).value, Log(r, line, handled));
      var k := s.runs[r].key;
      && k in s.logs && k in t.logs && t.logs[k] != [] && t.logs[k][|t.logs[k]| - 1] == line
      && |t.logs[k]| == (if handled && |s.logs[k]| >= 1000 then 1000 else |s.logs[k]| + 1)
      && (forall j :: j != k && j in s.logs ==> j in t.logs && t.logs[j] == s.logs[j])
  {
    RunsKeepInv(es);
    assert RunAll(es).value.Live(r);
  }

  /** A finished run: it is over, its flag is down and its handle gone; its buffer stays, with
      a new timer of the key that is due 60 seconds later; other keys' flags do not change. */
  lemma FinishExact(es: seq<Event>, r: RunId, cancelled: bool, t: TimerId)
    requires RunAll(es).Some? && Enabled(RunAll(es).value, Finish(r, cancelled, t))
    ensures var s, u := RunAll(es).value, Apply(RunAll(es).value, Finish(r, cancelled, t));
      var k := s.runs[r].key;
      && u.RunIn(r, Ended) && !u.Active(k) && (s.runs[r].background ==> k !in u.background)
      && k in s.logs && k in u.logs && u.logs[k] == s.logs[k]
      && k in u.cleanup && u.cleanup[k] == t && u.TimerIn(t, Asleep) && u.timers[t] == Timer(k, s.now + 60, Asleep)
      && (forall j :: j != k ==> u.Active(j) == s.Active(j))
      && (forall q :: q in s.runs && q != r ==> q in u.runs && u.runs[q] == s.runs[q])
  {
    RunsKeepInv(es);
    var s := RunAll(es).value;
    FlagAfterFinish(s, r, cancelled, t);
    StepKeepsRetention(s, Finish(r, cancelled, t));
    assert s.Live(r);
    ScheduleKeepsTimers(Cleared(s, s.runs[r].key), s.runs[r].key, t);
    PruneKeepsTimers(ScheduleCleanup(Cleared(s, s.runs[r].key), s.runs[r].key, t));
  }

  /** After a run that was not cancelled no dictionary holds anything stale: every flag kept is
      up, every handle names an unfinished run, every registered timer sleeps. */
  lemma NothingStaleAfterFinish(es: seq<Event>, r: RunId, t: TimerId, k: Key)
    requires RunAll(es).Some? && Enabled(RunAll(es).value, Finish(r, false, t))
    ensures var u := Apply(RunAll(es).value, Finish(r, false, t));
      && (k in u.active ==> u.active[k])
      && (k in u.background ==> Cancellable(u, k))
      && (k in u.cleanup ==> u.TimerIn(u.cleanup[k], Asleep))
  {
    RunsKeepInv(es);
    var s := RunAll(es).value;
    var cleared := ScheduleCleanup(Cleared(s, s.runs[r].key), s.runs[r].key, t);
    StepKeepsTimers(s, Finish(r, false, t));
    HandlesAlwaysFit(es, k);
    var u := Apply(s, Finish(r, false, t));
    assert u.active == Prune(cleared).active;
    assert k in u.background ==> k in Prune(cleared).background && k in s.background && u.background[k] == s.background[k];
    FlagAfterFinish(s, r, false, t);
  }

  /** A timer that fires unregisters itself and drops the buffer of its key, unless the key has
      begun again. */
  lemma FireExact(es: seq<Event>, t: TimerId)
    requires RunAll(es).Some? && Enabled(RunAll(es).value, Fire(t))
    ensures var s, u := RunAll(es).value, Apply(RunAll(es).value, Fire(t));
      var k := s.timers[t].key;
      && k !in u.cleanup && u.TimerIn(t, Finished)
      && (k in u.logs <==> s.Active(k))
      && (forall j :: j != k ==> (j in u.logs) == (j in s.logs) && (j in s.logs ==> u.logs[j] == s.logs[j]))
  {
    RunsKeepInv(es);
  }

  /** The dictionaries pruned one after the other are the pruned state. */
  lemma PruneParts(s: State, t: State)
    requires t.runs == s.runs && t.timers == s.timers && t.endedAt == s.endedAt && t.now == s.now
    requires t.active == map k | k in s.active && s.active[k] :: true
    requires t.logs == map k | k in s.logs && ((k in t.active && t.active[k]) || k in s.cleanup) :: s.logs[k]
    requires t.background == map k | k in s.background && !t.RunIn(s.background[k], Ended) :: s.background[k]
    requires t.cleanup == map k | k in s.cleanup && !t.TimerIn(s.cleanup[k], Finished) :: s.cleanup[k]
    ensures t == Prune(s)
  {
    var p := Prune(s);
    assert t.logs == p.logs;
    assert t.background == p.background;
    assert t.cleanup == p.cleanup;
  }

  // ---------- The code itself ----------

  class SignTaskService {
    var active: map<Key, bool>
    var logs: map<Key, seq<string>>
    var cleanup: map<Key, TimerId>
    var background: map<Key, RunId>
    var runs: map<RunId, Run>
    var timers: map<TimerId, Timer>
    var now: int
    ghost var endedAt: map<Key, int>

    ghost function View(): State
      reads this
    {
      State(active, logs, cleanup, background, runs, timers, endedAt, now)
    }

    constructor ()
      ensures View() == INIT
    {
      active, logs, cleanup, background, runs, timers, endedAt, now := map[], map[], map[], map[], map[], map[], map[], 0;
    }

    /** `start_task_run` of an existing task. */
    method StartTaskRun(k: Key, r: RunId) returns (started: bool)
      requires Enabled(View(), Start(k, r))
      modifies this
      ensures View() == Apply(old(View()), Start(k, r))
      ensures started == !old(View().Active(k))
    {
      if k in active && active[k] {
        return false;
      }
      runs := runs[r := Run(k, true, Created, false)];
      background := background[k := r];
      return true;
    }

    /** `execute_sign_task` up to its first await; a rejected background run also leaves
        `runner`. */
    method BeginExecution(r: RunId) returns (accepted: bool)
      requires Enabled(View(), Begin(r))
      modifies this
      ensures View() == Apply(old(View()), Begin(r))
      ensures accepted == !old(View().Active(runs[r].key))
    {
      var k := runs[r].key;
      if k in active && active[k] {
        LeaveRunner(r);
        return false;
      }
      active := active[k := true];
      logs := logs[k := []];
      endedAt := endedAt - {k};
      runs := runs[r := runs[r].(phase := Executing)];
      return true;
    }

    /** A line of the run, through `TaskLogHandler.emit` or appended directly. */
    method WriteLog(r: RunId, line: string, handled: bool)
      requires Enabled(View(), Log(r, line, handled))
      modifies this`logs
      ensures View() == Apply(old(View()), Log(r, line, handled))
    {
      var k := runs[r].key;
      if k !in logs {
        return;
      }
      logs := logs[k := logs[k] + [line]];
      if handled && |logs[k]| > LOG_LINES {
        logs := logs[k := logs[k][|logs[k]| - LOG_LINES..]];
      }
    }

    /** The end of `runner`; a direct call has no handle to drop. */
    method LeaveRunner(r: RunId)
      requires r in runs
      modifies this`background, this`runs
      ensures View() == SetPhase(DropHandle(old(View()), r), r, Ended)
    {
      if runs[r].background {
        background := background - {runs[r].key};
      }
      runs := runs[r := runs[r].(phase := Ended)];
    }

    /** `_runner_schedule_cleanup`. */
    method RegisterCleanup(k: Key, t: TimerId)
      modifies this`timers, this`cleanup
      ensures View() == ScheduleCleanup(old(View()), k, t)
    {
      if k in cleanup && cleanup[k] in timers {
        var o := cleanup[k];
        if !timers[o].phase.Finished? {
          timers := timers[o := timers[o].(phase := CancelRequested)];
        }
      }
      timers := timers[t := Timer(k, now + LOG_RETENTION, Asleep)];
      cleanup := cleanup[k := t];
    }

    /** `_prune_stale_entries`, dictionary by dictionary. */
    method PruneStaleEntries()
      modifies this`active, this`logs, this`background, this`cleanup
      ensures View() == Prune(old(View()))
    {
      PruneFlags();
      PruneLogs();
      PruneHandles();
      PruneTimers();
      PruneParts(old(View()), View());
    }

    method PruneFlags()
      modifies this`active
      ensures active == map k | k in old(active) && old(active)[k] :: true
    {
      var todo := active.Keys;
      while todo != {}
        invariant todo <= old(active).Keys
        invariant active == map k | k in old(active) && (k in todo || old(active)[k]) :: old(active)[k]
        decreases todo
      {
        var k :| k in todo;
        if !active[k] { active := active - {k}; }
        todo := todo - {k};
      }
    }

    method PruneLogs()
      modifies this`logs
      ensures logs == map k | k in old(logs) && ((k in active && active[k]) || k in cleanup) :: old(logs)[k]
    {
      var todo := logs.Keys;
      while todo != {}
        invariant todo <= old(logs).Keys
        invariant logs == map k | k in old(logs) && (k in todo || (k in active && active[k]) || k in cleanup) :: old(logs)[k]
        decreases todo
      {
        var k :| k in todo;
        if !(k in active && active[k]) && k !in cleanup { logs := logs - {k}; }
        todo := todo - {k};
      }
    }

    method PruneHandles()
      modifies this`background
      ensures background == map k | k in old(background) && !View().RunIn(old(background)[k], Ended) :: old(background)[k]
    {
      var todo := background.Keys;
      while todo != {}
        invariant todo <= old(background).Keys
        invariant background == map k | k in old(background) && (k in todo || !View().RunIn(old(background)[k], Ended)) :: old(background)[k]
        decreases todo
      {
        var k :| k in todo;
        if background[k] in runs && runs[background[k]].phase.Ended? { background := background - {k}; }
        todo := todo - {k};
      }
    }

    method PruneTimers()
      modifies this`cleanup
      ensures cleanup == map k | k in old(cleanup) && !View().TimerIn(old(cleanup)[k], Finished) :: old(cleanup)[k]
    {
      var todo := cleanup.Keys;
      while todo != {}
        invariant todo <= old(cleanup).Keys
        invariant cleanup == map k | k in old(cleanup) && (k in todo || !View().TimerIn(old(cleanup)[k], Finished)) :: old(cleanup)[k]
        decreases todo
      {
        var k :| k in todo;
        if cleanup[k] in timers && timers[cleanup[k]].phase.Finished? { cleanup := cleanup - {k}; }
        todo := todo - {k};
      }
    }

    /** The end of `_runner_finalize` and of `execute_sign_task`: a cancelled run does not
        reach the pruning. */
    method FinishExecution(r: RunId, cancelled: bool, t: TimerId)
      requires Enabled(View(), Finish(r, cancelled, t))
      modifies this
      ensures View() == Apply(old(View()), Finish(r, cancelled, t))
    {
      var k := runs[r].key;
      active := active[k := false];
      endedAt := endedAt[k := now];
      RegisterCleanup(k, t);
      if !cancelled {
        PruneStaleEntries();
      }
      LeaveRunner(r);
    }

    /** `cancel_task_run` without a run id. */
    method CancelTaskRun(k: Key) returns (ok: bool)
      modifies this
      ensures View() == Apply(old(View()), Cancel(k))
      ensures ok == old(k in background && background[k] in runs && !runs[background[k]].phase.Ended?)
    {
      if k !in background || background[k] !in runs || runs[background[k]].phase.Ended? {
        return false;
      }
      var r := background[k];
      runs := runs[r := runs[r].(cancelRequested := true)];
      logs := logs[k := (if k in logs then logs[k] else []) + ["cancel requested"]];
      return true;
    }

    /** The cleanup timer after its sleep. */
    method CleanupFires(t: TimerId)
      requires Enabled(View(), Fire(t))
      modifies this
      ensures View() == Apply(old(View()), Fire(t))
    {
      var k := timers[t].key;
      if !(k in active && active[k]) {
        logs := logs - {k};
      }
      LeaveCleanup(t);
    }

    /** The `finally` of a cleanup timer, which is all a cancelled one runs. */
    method LeaveCleanup(t: TimerId)
      requires t in timers
      modifies this`cleanup, this`timers
      ensures View() == Unregister(old(View()), t)
    {
      var k := timers[t].key;
      if k in cleanup && cleanup[k] == t {
        cleanup := cleanup - {k};
      }
      timers := timers[t := timers[t].(phase := Finished)];
    }
  }
}
