/** The resumable action flow of one chat (`sign_a_chat`, tg_signer/core/signer_runner.py).

    Two nested retry loops drive `wait_for`: a step is retried once on a transient
    error, and a failed step restarts the flow `rewind` steps before the failure. */
module ActionFlow {
  import opened Options

  /** What one call of `wait_for` does.  `stop` is the stop_after_current_action flag
      seen after a successful step. */
  datatype Outcome = Done(stop: bool) | Refused | Transient | Fatal

  datatype Call = Call(step: nat, ok: bool)

  datatype Result = NoActions | Returned(stopped: bool) | Failed

  const STEP_TRIES: nat := 2

  datatype Config = Config(actions: nat, attempts: nat, rewind: nat) {
    predicate Valid() { actions >= 1 && attempts >= 1 }

    /** The most steps one attempt after the first can add beyond its net progress. */
    function Redo(): nat { if actions < rewind + 1 then actions else rewind + 1 }

    function MaxCalls(): nat
      requires Valid()
    {
      2 * (actions + Redo() * (attempts - 1))
    }
  }

  /** The flow as a machine that is fed one `wait_for` outcome at a time.
      `last` is last_successful_index; `clears` lists the attempts that emptied the
      chat's message cache. */
  datatype Machine = Machine(
    attempt: nat, last: nat, step: nat, tryNo: nat,
    calls: seq<Call>, clears: seq<nat>, end: Option<Result>)

  function Resume(last: nat, rewind: nat): nat {
    if last + 1 - rewind < 1 then 1 else last + 1 - rewind
  }

  function Start(): Machine { Machine(1, 0, 1, 1, [], [1], None) }

  function Feed1(cfg: Config, m: Machine, o: Outcome): Machine {
    if m.end.Some? then m
    else
      var called := m.(calls := m.calls + [Call(m.step, o.Done?)]);
      if o.Done? then
        var passed := called.(last := m.step, tryNo := 1);
        if o.stop then passed.(end := Some(Returned(true)))
        else if m.step >= cfg.actions then passed.(end := Some(Returned(false)))
        else passed.(step := m.step + 1)
      else if o.Transient? && m.tryNo < STEP_TRIES then called.(tryNo := m.tryNo + 1)
      else if m.attempt >= cfg.attempts then called.(end := Some(Failed))
      else
        var step := Resume(m.last, cfg.rewind);
        called.(attempt := m.attempt + 1, step := step, tryNo := 1,
                clears := m.clears + if step == 1 then [m.attempt + 1] else [])
  }

  function Feed(cfg: Config, outs: seq<Outcome>): Machine {
    if outs == [] then Start()
    else Feed1(cfg, Feed(cfg, outs[..|outs| - 1]), outs[|outs| - 1])
  }

  lemma FeedExtends(cfg: Config, outs: seq<Outcome>, o: Outcome)
    ensures Feed(cfg, outs + [o]) == Feed1(cfg, Feed(cfg, outs), o)
  {
    assert (outs + [o])[..|outs|] == outs;
  }

  // ---------- Invariant: the potential and the order of successes ----------

  predicate SucceededBefore(calls: seq<Call>, i: nat, step: nat) {
    exists j :: 0 <= j < i && j < |calls| && calls[j] == Call(step, true)
  }

  /** No action is attempted before every earlier action has succeeded. */
  ghost predicate InOrder(calls: seq<Call>) {
    forall i, k :: 0 <= i < |calls| && 1 <= k < calls[i].step ==> SucceededBefore(calls, i, k)
  }

  /** A running machine has made at most two calls for each step it was credited. */
  ghost predicate Inv(cfg: Config, m: Machine) {
    && cfg.Valid()
    && 1 <= m.attempt <= cfg.attempts
    && 1 <= m.step <= cfg.actions
    && 1 <= m.tryNo <= STEP_TRIES
    && (m.end.None? ==>
          && m.step - 1 <= m.last < cfg.actions
          && |m.calls| <= 2 * (m.step + cfg.Redo() * (m.attempt - 1) - 1) + m.tryNo - 1)
    && (m.end.Some? ==> m.end.value != NoActions && |m.calls| <= cfg.MaxCalls())
    && InOrder(m.calls)
    && (forall k :: 1 <= k <= m.last ==> SucceededBefore(m.calls, |m.calls|, k))
    && (m.end == Some(Returned(false)) ==> m.last == cfg.actions)
  }

  lemma RedoSteps(cfg: Config, a: nat, b: nat)
    requires a <= b
    ensures cfg.Redo() * a <= cfg.Redo() * b
    ensures cfg.Redo() * (a + 1) == cfg.Redo() * a + cfg.Redo()
  {
  }

  lemma CallKeepsOrder(calls: seq<Call>, c: Call)
    requires InOrder(calls)
    requires forall k :: 1 <= k < c.step ==> SucceededBefore(calls, |calls|, k)
    ensures InOrder(calls + [c])
    ensures forall k :: SucceededBefore(calls, |calls|, k) ==> SucceededBefore(calls + [c], |calls + [c]|, k)
    ensures c.ok ==> SucceededBefore(calls + [c], |calls + [c]|, c.step)
  {
    var longer := calls + [c];
    assert longer[|calls|] == c;
    forall i, k | 0 <= i <= |calls| && SucceededBefore(calls, i, k)
      ensures SucceededBefore(longer, i, k) && SucceededBefore(longer, |longer|, k)
    {
      var j :| 0 <= j < i && j < |calls| && calls[j] == Call(k, true);
      assert longer[j] == Call(k, true);
    }
    forall i, k | 0 <= i < |longer| && 1 <= k < longer[i].step ensures SucceededBefore(longer, i, k) {
      assert i < |calls| ==> longer[i] == calls[i];
      assert SucceededBefore(calls, i, k);
    }
  }

  lemma Feed1KeepsInv(cfg: Config, m: Machine, o: Outcome)
    requires Inv(cfg, m)
    ensures Inv(cfg, Feed1(cfg, m, o))
  {
    if m.end.None? {
      CallKeepsOrder(m.calls, Call(m.step, o.Done?));
      RedoSteps(cfg, m.attempt - 1, cfg.attempts - 1);
    }
  }

  lemma {:induction false} FeedKeepsInv(cfg: Config, outs: seq<Outcome>)
    requires cfg.Valid()
    ensures Inv(cfg, Feed(cfg, outs))
  {
    if outs != [] {
      FeedKeepsInv(cfg, outs[..|outs| - 1]);
      Feed1KeepsInv(cfg, Feed(cfg, outs[..|outs| - 1]), outs[|outs| - 1]);
    }
  }

  lemma {:induction false} RunningConsumesAll(cfg: Config, outs: seq<Outcome>)
    ensures |Feed(cfg, outs).calls| <= |outs|
    ensures Feed(cfg, outs).end.None? ==> |Feed(cfg, outs).calls| == |outs|
  {
    if outs != [] { RunningConsumesAll(cfg, outs[..|outs| - 1]); }
  }

  // ---------- How many calls a run can make ----------

  /** Every run stops within MaxCalls calls, which is at most twice the number of actions
      plus `rewind + 1` for each further attempt. */
  lemma CallsBounded(cfg: Config, outs: seq<Outcome>)
    requires cfg.Valid()
    ensures |Feed(cfg, outs).calls| <= cfg.MaxCalls()
    ensures cfg.MaxCalls() <= 2 * (cfg.actions + (cfg.rewind + 1) * (cfg.attempts - 1))
    ensures |outs| >= cfg.MaxCalls() ==> Feed(cfg, outs).end.Some?
  {
    var m := Feed(cfg, outs);
    FeedKeepsInv(cfg, outs);
    RunningConsumesAll(cfg, outs);
    RedoSteps(cfg, m.attempt - 1, cfg.attempts - 1);
    assert cfg.Redo() * (cfg.attempts - 1) <= (cfg.rewind + 1) * (cfg.attempts - 1);
  }

  /** The state after a transient failure and a second call with this outcome. */
  lemma TwoCalls(cfg: Config, outs: seq<Outcome>, last: Outcome)
    requires cfg.Valid() && Feed(cfg, outs).end.None? && Feed(cfg, outs).tryNo == 1
    requires last == if Feed(cfg, outs).step < cfg.actions then Done(false) else Fatal
    ensures var m, next := Feed(cfg, outs), Feed(cfg, outs + [Transient] + [last]);
      && |next.calls| == |m.calls| + 2
      && (m.step < cfg.actions ==>
            next.end.None? && next.tryNo == 1 && next.step == m.step + 1 && next.attempt == m.attempt)
      && (m.step >= cfg.actions && m.attempt < cfg.attempts ==>
            next.end.None? && next.tryNo == 1 && next.attempt == m.attempt + 1 && next.step == cfg.actions - cfg.Redo() + 1)
      && (m.step >= cfg.actions && m.attempt >= cfg.attempts ==> next.end == Some(Failed))
  {
    FeedKeepsInv(cfg, outs);
    FeedExtends(cfg, outs, Transient);
    FeedExtends(cfg, outs + [Transient], last);
  }

  /** From the first try of a step: fail transiently once everywhere, and for good at the
      last action, until the attempts are used up. */
  lemma WorstFrom(cfg: Config, outs: seq<Outcome>) returns (longer: seq<Outcome>)
    requires cfg.Valid()
    requires var m := Feed(cfg, outs); m.end.None? && m.tryNo == 1
    ensures var m := Feed(cfg, outs);
      && Feed(cfg, longer).end == Some(Failed)
      && |Feed(cfg, longer).calls|
         == |m.calls| + 2 * (cfg.actions - m.step + 1 + cfg.Redo() * (cfg.attempts - m.attempt))
    decreases cfg.attempts - Feed(cfg, outs).attempt, cfg.actions - Feed(cfg, outs).step
  {
    var m := Feed(cfg, outs);
    FeedKeepsInv(cfg, outs);
    var last := if m.step < cfg.actions then Done(false) else Fatal;
    longer := outs + [Transient] + [last];
    TwoCalls(cfg, outs, last);
    var next := Feed(cfg, longer);
    if m.step < cfg.actions {
      longer := WorstFrom(cfg, longer);
    } else if m.attempt < cfg.attempts {
      RedoSteps(cfg, cfg.attempts - next.attempt, cfg.attempts - next.attempt);
      longer := WorstFrom(cfg, longer);
    }
  }

  /** The bound is reached: some run fails after exactly MaxCalls calls. */
  lemma MaxCallsReached(cfg: Config) returns (outs: seq<Outcome>)
    requires cfg.Valid()
    ensures Feed(cfg, outs).end == Some(Failed)
    ensures |Feed(cfg, outs).calls| == cfg.MaxCalls()
  {
    outs := WorstFrom(cfg, []);
  }

  // ---------- What has happened to the actions ----------

  /** For any rewind: no action runs before every earlier one succeeded, and a return
      without the stop signal means that every action succeeded. */
  lemma ActionsInOrder(cfg: Config, outs: seq<Outcome>)
    requires cfg.Valid()
    ensures var m := Feed(cfg, outs);
      && InOrder(m.calls)
      && (m.end == Some(Returned(false)) ==>
            forall k :: 1 <= k <= cfg.actions ==> SucceededBefore(m.calls, |m.calls|, k))
  {
    FeedKeepsInv(cfg, outs);
  }

  function Successes(calls: seq<Call>): seq<nat> {
    if calls == [] then []
    else
      var c := calls[|calls| - 1];
      Successes(calls[..|calls| - 1]) + if c.ok then [c.step] else []
  }

  function UpTo(k: nat): seq<nat> { if k == 0 then [] else UpTo(k - 1) + [k] }

  /** The successful steps so far are 1, 2, ..., last, each once, and the next one follows. */
  ghost predicate Straight(cfg: Config, m: Machine) {
    && Successes(m.calls) == UpTo(m.last)
    && (m.end.None? ==> m.step == m.last + 1 && m.step <= cfg.actions)
    && (m.end == Some(Returned(false)) ==> m.last == cfg.actions)
  }

  lemma SuccessesExtend(calls: seq<Call>, c: Call)
    ensures Successes(calls + [c]) == Successes(calls) + if c.ok then [c.step] else []
  {
    assert (calls + [c])[..|calls|] == calls;
  }

  lemma Feed1StaysStraight(cfg: Config, m: Machine, o: Outcome)
    requires cfg.rewind == 0 && Straight(cfg, m)
    ensures Straight(cfg, Feed1(cfg, m, o))
  {
    SuccessesExtend(m.calls, Call(m.step, o.Done?));
  }

  /** Without rewind the successful steps of the whole run are 1, 2, ..., last, each once. */
  lemma {:induction false} NoRepeatWithoutRewind(cfg: Config, outs: seq<Outcome>)
    requires cfg.Valid() && cfg.rewind == 0
    ensures Straight(cfg, Feed(cfg, outs))
  {
    if outs != [] {
      NoRepeatWithoutRewind(cfg, outs[..|outs| - 1]);
      Feed1StaysStraight(cfg, Feed(cfg, outs[..|outs| - 1]), outs[|outs| - 1]);
    }
  }

  // ---------- The run, read from the outcomes ----------

  /** The i-th call is the first try of its step: it does not repeat a transient failure. */
  predicate FirstTry(outs: seq<Outcome>, i: nat)
    requires i <= |outs|
  {
    i == 0 || !(outs[i - 1].Transient? && FirstTry(outs, i - 1))
  }

  /** The failures that are not tried again within their step. */
  function Failures(outs: seq<Outcome>): nat {
    if outs == [] then 0
    else
      var n := |outs| - 1;
      Failures(outs[..n]) + if outs[n].Done? || (outs[n].Transient? && FirstTry(outs, n)) then 0 else 1
  }

  /** The step that succeeded last, 0 if none did. */
  function LastSuccess(calls: seq<Call>): nat {
    if calls == [] then 0
    else if calls[|calls| - 1].ok then calls[|calls| - 1].step
    else LastSuccess(calls[..|calls| - 1])
  }

  /** Where a new attempt begins: `rewind` steps before the one after the last success, but
      not before the first. */
  function ResumeAt(calls: seq<Call>, rewind: nat): nat {
    if LastSuccess(calls) < rewind + 1 then 1 else LastSuccess(calls) + 1 - rewind
  }

  lemma {:induction false} FirstTryOfPrefix(outs: seq<Outcome>, o: Outcome, i: nat)
    requires i <= |outs|
    ensures FirstTry(outs + [o], i) == FirstTry(outs, i)
  {
    if i > 0 { FirstTryOfPrefix(outs, o, i - 1); }
  }

  /** The machine's counters are what the outcomes and the calls say. */
  predicate Tracks(cfg: Config, outs: seq<Outcome>, m: Machine) {
    && m.last == LastSuccess(m.calls)
    && (m.end.None? ==> m.tryNo == (if FirstTry(outs, |outs|) then 1 else 2) && m.attempt == Failures(outs) + 1 <= cfg.attempts)
  }

  /** The answer to one more outcome of a running flow. */
  predicate Answers(cfg: Config, outs: seq<Outcome>, o: Outcome, m: Machine, n: Machine) {
    var again := o.Transient? && FirstTry(outs, |outs|);
    var fails := Failures(outs + [o]);
    && n.calls == m.calls + [Call(m.step, o.Done?)]
    && n.end == (
         if o.Done? && o.stop then Some(Returned(true))
         else if o.Done? && m.step == cfg.actions then Some(Returned(false))
         else if fails == cfg.attempts then Some(Failed)
         else None)
    && (n.end.None? ==>
          n.step == if o.Done? then m.step + 1 else if again then m.step else ResumeAt(n.calls, cfg.rewind))
    && n.clears == m.clears + if n.end.None? && !o.Done? && !again && ResumeAt(n.calls, cfg.rewind) == 1 then [fails + 1] else []
  }

  lemma OneMoreOutcome(cfg: Config, outs: seq<Outcome>, o: Outcome, m: Machine)
    requires Inv(cfg, m) && m.end.None? && Tracks(cfg, outs, m)
    ensures Tracks(cfg, outs + [o], Feed1(cfg, m, o)) && Answers(cfg, outs, o, m, Feed1(cfg, m, o))
  {
    var longer := outs + [o];
    assert longer[..|outs|] == outs && longer[|outs|] == o;
    FirstTryOfPrefix(outs, o, |outs|);
    LastSuccessSnoc(m.calls, Call(m.step, o.Done?));
  }

  lemma LastSuccessSnoc(calls: seq<Call>, c: Call)
    ensures LastSuccess(calls + [c]) == if c.ok then c.step else LastSuccess(calls)
  {
    assert (calls + [c])[..|calls|] == calls;
  }

  lemma {:induction false} FeedTracks(cfg: Config, outs: seq<Outcome>)
    requires cfg.Valid()
    ensures Tracks(cfg, outs, Feed(cfg, outs))
  {
    if outs != [] {
      var before := outs[..|outs| - 1];
      FeedTracks(cfg, before);
      FeedKeepsInv(cfg, before);
      assert outs == before + [outs[|outs| - 1]];
      if Feed(cfg, before).end.None? {
        OneMoreOutcome(cfg, before, outs[|outs| - 1], Feed(cfg, before));
      }
    }
  }

  /** Every run, call by call, read from the outcomes alone.  It begins at the first action with
      the chat's messages cleared.  A success goes on to the next action, or returns at the last
      one or on the stop signal.  The first transient failure of a try repeats the action; any
      other failure begins a new attempt, `rewind` steps before the action that failed, with the
      messages cleared if and only if that is the first action; the flow fails exactly when as
      many attempts as configured have failed so. */
  lemma RunExact(cfg: Config, outs: seq<Outcome>, o: Outcome)
    requires cfg.Valid() && Feed(cfg, outs).end.None?
    ensures Answers(cfg, outs, o, Feed(cfg, outs), Feed(cfg, outs + [o]))
    ensures outs == [] ==> Feed(cfg, outs).step == 1 && Feed(cfg, outs).clears == [1] && Feed(cfg, outs).calls == []
  {
    FeedTracks(cfg, outs);
    FeedKeepsInv(cfg, outs);
    FeedExtends(cfg, outs, o);
    OneMoreOutcome(cfg, outs, o, Feed(cfg, outs));
  }

  // ---------- The code itself ----------

  /** `read_positive_int_env`: a missing or unreadable variable gives the default as is. */
  function ReadPositiveIntEnv(raw: Option<int>, default: nat, minimum: nat): nat {
    match raw
    case None => default
    case Some(v) => if v < minimum then minimum else v
  }

  /** The attempts come from the task's context variable when that is positive. */
  function ReadConfig(actions: nat, envAttempts: Option<int>, ctxAttempts: Option<int>, envRewind: Option<int>): Config {
    var attempts := ReadPositiveIntEnv(envAttempts, 1, 1);
    Config(actions,
           if ctxAttempts.Some? && ctxAttempts.value > 0 then ctxAttempts.value else attempts,
           ReadPositiveIntEnv(envRewind, 0, 0))
  }

  /** The task's own positive retry count goes before the environment's, whatever that is;
      otherwise a readable environment value counts, at least 1, else there is one attempt.  The
      rewind is the environment's value, not below 0. */
  lemma ConfigExact(actions: nat, envAttempts: Option<int>, ctxAttempts: Option<int>, envRewind: Option<int>)
    ensures var cfg := ReadConfig(actions, envAttempts, ctxAttempts, envRewind);
      && cfg.actions == actions && cfg.attempts >= 1
      && (ctxAttempts.Some? && ctxAttempts.value >= 1 ==> cfg.attempts == ctxAttempts.value)
      && (!(ctxAttempts.Some? && ctxAttempts.value >= 1) ==>
            && (envAttempts.Some? && envAttempts.value >= 1 ==> cfg.attempts == envAttempts.value)
            && (envAttempts.None? || envAttempts.value < 1 ==> cfg.attempts == 1))
      && (envRewind.Some? && envRewind.value >= 0 ==> cfg.rewind == envRewind.value)
      && (envRewind.None? || envRewind.value < 0 ==> cfg.rewind == 0)
  {
  }

  /** The machine after the first n outcomes of an endless supply. */
  function Driven(cfg: Config, outcome: nat -> Outcome, n: nat): Machine {
    if n == 0 then Start() else Feed1(cfg, Driven(cfg, outcome, n - 1), outcome(n - 1))
  }

  lemma {:induction false} DrivenIsFeed(cfg: Config, outcome: nat -> Outcome, n: nat)
    ensures Driven(cfg, outcome, n) == Feed(cfg, seq(n, i requires 0 <= i < n => outcome(i)))
  {
    if n > 0 {
      DrivenIsFeed(cfg, outcome, n - 1);
      var outs := seq(n, i requires 0 <= i < n => outcome(i));
      assert outs[..n - 1] == seq(n - 1, i requires 0 <= i < n - 1 => outcome(i));
    }
  }

  /** The machine after one whole step: a failure leaves no try. */
  function AfterStep(cfg: Config, m: Machine, o: Outcome, calls: seq<Call>): Machine {
    Feed1(cfg, m.(tryNo := STEP_TRIES), o).(calls := calls, tryNo := 1)
  }

  lemma DrivenStep(cfg: Config, outcome: nat -> Outcome, n: nat)
    ensures Driven(cfg, outcome, n + 1) == Feed1(cfg, Driven(cfg, outcome, n), outcome(n))
  {
  }

  lemma OneTry(cfg: Config, m: Machine, tryNo: nat, calls: seq<Call>, o: Outcome)
    requires m.end.None? && m.tryNo == 1 && 1 <= tryNo <= STEP_TRIES
    ensures var n, more := Feed1(cfg, m.(tryNo := tryNo, calls := calls), o), calls + [Call(m.step, o.Done?)];
      if o.Transient? && tryNo < STEP_TRIES then n == m.(tryNo := tryNo + 1, calls := more)
      else n.(tryNo := 1) == AfterStep(cfg, m, o, more) && (n.end.None? ==> n.tryNo == 1)
  {
  }

  /** One step: `wait_for`, once more after a transient error. */
  method RunStep(ghost cfg: Config, outcome: nat -> Outcome, step: nat, before: seq<Call>)
    returns (o: Outcome, calls: seq<Call>)
    requires var m := Driven(cfg, outcome, |before|);
      m.end.None? && m.tryNo == 1 && m.step == step && m.calls == before
    ensures var m, n := Driven(cfg, outcome, |before|), Driven(cfg, outcome, |calls|);
      n.(tryNo := 1) == AfterStep(cfg, m, o, calls) && (n.end.None? ==> n.tryNo == 1)
  {
    ghost var m := Driven(cfg, outcome, |before|);
    ghost var n := m;
    calls := before;
    var tryNo := 1;
    while true
      invariant 1 <= tryNo <= STEP_TRIES
      invariant n == Driven(cfg, outcome, |calls|)
      invariant n == m.(tryNo := tryNo, calls := calls)
      decreases STEP_TRIES - tryNo
    {
      o := outcome(|calls|);
      DrivenStep(cfg, outcome, |calls|);
      OneTry(cfg, m, tryNo, calls, o);
      n := Feed1(cfg, n, o);
      calls := calls + [Call(step, o.Done?)];
      if !o.Transient? || tryNo >= STEP_TRIES {
        return;
      }
      tryNo := tryNo + 1;
    }
  }

  /** `sign_a_chat` from the retry set-up on.  The n-th call of `wait_for` in this run has
      outcome `outcome(n)`; the loops do exactly what the machine does with them. */
  method SignAChat(
      actions: nat, envAttempts: Option<int>, ctxAttempts: Option<int>, envRewind: Option<int>,
      outcome: nat -> Outcome)
    returns (result: Result, calls: seq<Call>, clears: seq<nat>)
    ensures actions == 0 ==> result == NoActions && calls == [] && clears == []
    ensures actions > 0 ==>
      var cfg := ReadConfig(actions, envAttempts, ctxAttempts, envRewind);
      var m := Driven(cfg, outcome, |calls|);
      m.end == Some(result) && m.calls == calls && m.clears == clears
  {
    calls, clears := [], [];
    if actions == 0 {
      return NoActions, calls, clears;
    }
    var maxAttempts := ReadPositiveIntEnv(envAttempts, 1, 1);
    if ctxAttempts.Some? && ctxAttempts.value > 0 {
      maxAttempts := ctxAttempts.value;
    }
    var rewind := ReadPositiveIntEnv(envRewind, 0, 0);
    ghost var cfg := ReadConfig(actions, envAttempts, ctxAttempts, envRewind);
    var last: nat := 0;
    ghost var m := Start();
    for attempt := 1 to maxAttempts + 1
      invariant m == Driven(cfg, outcome, |calls|)
      invariant attempt <= maxAttempts ==> m.end.None? && m.attempt == attempt
      invariant attempt > maxAttempts ==> m.end == Some(Failed) && m.clears == clears
      invariant m.calls == calls && m.last == last
      invariant m.end.None? ==>
        && m.tryNo == 1 && m.step == Resume(last, rewind)
        && (attempt == 1 ==> m.step == 1)
        && m.clears == clears + if m.step == 1 then [attempt] else []
    {
      var failedIndex := if last > 0 then last + 1 else 1;
      var start: nat := 1;
      if attempt > 1 && failedIndex - rewind > 1 {
        start := failedIndex - rewind;
      }
      if start == 1 {
        clears := clears + [attempt];
      }
      var index := start;
      var failed := false;
      while !failed
        invariant m == Driven(cfg, outcome, |calls|)
        invariant m.calls == calls && m.last == last
        invariant !failed ==> m.end.None? && m.attempt == attempt && m.tryNo == 1 && m.step == index && m.clears == clears
        invariant failed && attempt < maxAttempts ==>
          && m.end.None? && m.attempt == attempt + 1 && m.tryNo == 1 && m.step == Resume(last, rewind)
          && m.clears == clears + if m.step == 1 then [attempt + 1] else []
        invariant failed && attempt >= maxAttempts ==> m.end == Some(Failed) && m.clears == clears
        decreases !failed, actions - index
      {
        var o;
        o, calls := RunStep(cfg, outcome, index, calls);
        m := Driven(cfg, outcome, |calls|);
        if !o.Done? {
          failed := true;
        } else {
          last := index;
          if o.stop {
            return Returned(true), calls, clears;
          }
          if index >= actions {
            return Returned(false), calls, clears;
          }
          index := index + 1;
        }
      }
    }
    return Failed, calls, clears;
  }
}
