/** The coalescing reconcile runner (backend/services/proxy_runtime.py).

    One event loop; an event is the code between two suspension points.  A runner is the
    task around `_runner`; a pass is one call of `reconcile_proxy_runtime`, which begins
    when it has the reconcile lock and reads the settings. */
module ReconcileRunner {
  import opened Options

  type Id = nat

  /** Created: not yet run.  Waiting: for the lock, before a pass.  Inside: in a pass. */
  datatype Phase = Created | Waiting | Inside

  /** `released`: a stop has let go of the runner and asked for its cancellation. */
  datatype Runner = Runner(phase: Phase, released: bool)

  datatype Mark = Call | Began

  /** `log` is history: the schedule calls and the beginnings of passes, in order. */
  datatype State = State(
    pending: bool, handle: Option<Id>, runners: map<Id, Runner>, holder: Option<Id>, next: Id, log: seq<Mark>)
  {
    predicate In(id: Id, phase: Phase) { id in runners && runners[id].phase == phase }
    predicate Busy() { holder.Some? || exists id :: id in runners && runners[id].phase.Waiting? }
    predicate Idle() { runners == map[] }
  }

  const INIT := State(false, None, map[], None, 0, [])

  datatype Event =
    | Schedule
    | FirstStep(id: Id)
    | Acquire(id: Id)
    | PassEnds(id: Id)
    | PassRaises(id: Id)
    | Stop(caller: Option<Id>)   // called by a pass of this runner, or from elsewhere
    | CancelArrives(id: Id)

  predicate Enabled(s: State, e: Event) {
    match e
    case Schedule => true
    case FirstStep(id) => s.In(id, Created)
    case Acquire(id) => s.In(id, Waiting) && s.holder.None?
    case PassEnds(id) => s.In(id, Inside)
    case PassRaises(id) => s.In(id, Inside)
    case Stop(caller) => caller.Some? ==> s.In(caller.value, Inside)
    case CancelArrives(id) => id in s.runners && s.runners[id].released
  }

  /** The `finally` of the runner, and its end. */
  function Ended(s: State, id: Id): State {
    s.(handle := None, runners := s.runners - {id})
  }

  function Begin(s: State, id: Id): State
    requires id in s.runners
  {
    s.(runners := s.runners[id := s.runners[id].(phase := Inside)], holder := Some(id), log := s.log + [Began])
  }

  /** The test of `while _RECONCILE_PENDING` and what follows it up to a suspension. */
  function Loop(s: State, id: Id): State
    requires id in s.runners
  {
    if !s.pending then Ended(s, id)
    else
      var t := s.(pending := false);
      if s.Busy() then t.(runners := t.runners[id := t.runners[id].(phase := Waiting)]) else Begin(t, id)
  }

  function LockReleased(s: State, id: Id): State {
    if s.holder == Some(id) then s.(holder := None) else s
  }

  function Apply(s: State, e: Event): State
    requires Enabled(s, e)
  {
    match e
    case Schedule =>
      var t := s.(pending := true, log := s.log + [Call]);
      if s.handle.Some? && s.handle.value in s.runners then t
      else t.(handle := Some(s.next), runners := s.runners[s.next := Runner(Created, false)], next := s.next + 1)
    case FirstStep(id) => Loop(s, id)
    case Acquire(id) => Begin(s, id)
    case PassEnds(id) => Loop(LockReleased(s, id), id)
    case PassRaises(id) => Ended(LockReleased(s, id), id)
    case Stop(caller) =>
      var t := s.(pending := false, handle := None);
      if s.handle.Some? && s.handle.value in s.runners && s.handle != caller then
        t.(runners := s.runners[s.handle.value := s.runners[s.handle.value].(released := true)])
      else t
    case CancelArrives(id) =>
      if s.runners[id].phase.Created? then s.(runners := s.runners - {id})
      else Ended(LockReleased(s, id), id)
  }

  function Run(es: seq<Event>): Option<State> {
    if es == [] then Some(INIT)
    else
      var before := Run(es[..|es| - 1]);
      var e := es[|es| - 1];
      if before.Some? && Enabled(before.value, e) then Some(Apply(before.value, e)) else None
  }

  // ---------- On every run ----------

  /** The lock has one holder, which is inside; runner ids are not reused. */
  predicate Exclusive(s: State, id: Id) {
    && (s.In(id, Inside) <==> s.holder == Some(id))
    && (id in s.runners ==> id < s.next)
    && (s.handle == Some(id) ==> id in s.runners && !s.runners[id].released)
  }

  ghost predicate LockInv(s: State) { forall id :: Exclusive(s, id) }

  lemma StepKeepsLock(s: State, e: Event)
    requires LockInv(s) && Enabled(s, e)
    ensures LockInv(Apply(s, e))
  {
    forall id ensures Exclusive(Apply(s, e), id) {
      assert Exclusive(s, id);
      if e.FirstStep? || e.PassEnds? || e.PassRaises? || e.CancelArrives? || e.Acquire? { assert Exclusive(s, e.id); }
      if s.holder.Some? { assert Exclusive(s, s.holder.value); }
    }
  }

  lemma {:induction false} RunsKeepLock(es: seq<Event>)
    requires Run(es).Some?
    ensures LockInv(Run(es).value)
  {
    if es != [] {
      RunsKeepLock(es[..|es| - 1]);
      StepKeepsLock(Run(es[..|es| - 1]).value, es[|es| - 1]);
    }
  }

  /** Passes never overlap, stops and raises included. */
  lemma PassesExclude(es: seq<Event>, i: Id, j: Id)
    requires Run(es).Some? && Run(es).value.In(i, Inside) && Run(es).value.In(j, Inside)
    ensures i == j
  {
    RunsKeepLock(es);
    assert Exclusive(Run(es).value, i) && Exclusive(Run(es).value, j);
  }

  // ---------- How many runners ----------

  ghost predicate OneAtMost(s: State) { forall i, j :: i in s.runners && j in s.runners ==> i == j }

  /** A request that comes while a runner that a stop has let go of has not ended yet. */
  predicate Early(s: State, e: Event) { e.Schedule? && s.handle.None? && s.runners != map[] }

  predicate Orderly(es: seq<Event>) {
    es == [] ||
    var before := es[..|es| - 1];
    Orderly(before) && (Run(before).Some? ==> !Early(Run(before).value, es[|es| - 1]))
  }

  ghost predicate AlwaysOne(es: seq<Event>) {
    es == [] || (AlwaysOne(es[..|es| - 1]) && (Run(es).Some? ==> OneAtMost(Run(es).value)))
  }

  lemma StepCountsRunners(s: State, e: Event)
    requires LockInv(s) && OneAtMost(s) && Enabled(s, e)
    ensures OneAtMost(Apply(s, e)) <==> !Early(s, e)
  {
    var t := Apply(s, e);
    if e.Schedule? {
      if s.handle.Some? { assert Exclusive(s, s.handle.value); }
      if Early(s, e) {
        var other :| other in s.runners;
        assert Exclusive(s, other);
        assert other in t.runners && s.next in t.runners;
      }
    } else {
      assert t.runners.Keys <= s.runners.Keys;
    }
  }

  lemma {:induction false} OneUnlessEarly(es: seq<Event>)
    requires Run(es).Some?
    ensures AlwaysOne(es) <==> Orderly(es)
    ensures Orderly(es) ==> OneAtMost(Run(es).value)
  {
    if es != [] {
      var before := es[..|es| - 1];
      OneUnlessEarly(before);
      RunsKeepLock(before);
      if Orderly(before) { StepCountsRunners(Run(before).value, es[|es| - 1]); }
    }
  }

  /** At no time are two runners alive if and only if no request comes between a stop and
      the end of the runner it let go of. */
  lemma OneRunnerExact(es: seq<Event>)
    requires Run(es).Some?
    ensures AlwaysOne(es) <==> Orderly(es)
  {
    OneUnlessEarly(es);
  }

  // ---------- No lost request ----------

  /** Every call is followed by the beginning of a pass. */
  ghost predicate Served(log: seq<Mark>) {
    forall i :: 0 <= i < |log| && log[i].Call? ==> exists j :: i < j < |log| && log[j].Began?
  }

  lemma BeganServes(log: seq<Mark>)
    ensures Served(log + [Began])
  {
    assert (log + [Began])[|log|].Began?;
  }

  lemma CallIsUnserved(log: seq<Mark>)
    ensures !Served(log + [Call])
  {
    assert (log + [Call])[|log|].Call?;
  }

  predicate NoStop(es: seq<Event>) { forall i :: 0 <= i < |es| ==> !es[i].Stop? }
  predicate NoRaise(es: seq<Event>) { forall i :: 0 <= i < |es| ==> !es[i].PassRaises? }

  /** Without stops: one runner, which the handle names and which never waits, or none. */
  ghost predicate Solo(s: State) {
    && (if s.handle.Some? then s.runners.Keys == {s.handle.value} else s.runners == map[])
    && (forall id :: id in s.runners ==> !s.runners[id].released && !s.runners[id].phase.Waiting?
                                         && (s.runners[id].phase.Created? ==> s.pending))
  }

  ghost predicate RequestInv(s: State) {
    LockInv(s) && Solo(s) && (Served(s.log) <==> !s.pending)
  }

  lemma LoopKeepsRequests(s: State, id: Id)
    requires s.handle == Some(id) && s.runners.Keys == {id} && s.holder.None?
    requires !s.runners[id].released && !s.runners[id].phase.Waiting?
    requires Served(s.log) <==> !s.pending
    ensures Solo(Loop(s, id)) && (Served(Loop(s, id).log) <==> !Loop(s, id).pending)
  {
    BeganServes(s.log);
    assert !s.Busy();
  }

  lemma StepKeepsRequests(s: State, e: Event)
    requires RequestInv(s) && Enabled(s, e) && !e.Stop?
    ensures RequestInv(Apply(s, e))
  {
    StepKeepsLock(s, e);
    match e
    case Schedule => CallIsUnserved(s.log);
    case FirstStep(id) =>
      assert Exclusive(s, id);
      assert s.holder.Some? ==> Exclusive(s, s.holder.value);
      LoopKeepsRequests(s, id);
    case PassEnds(id) =>
      assert Exclusive(s, id);
      LoopKeepsRequests(LockReleased(s, id), id);
    case _ =>
  }

  lemma {:induction false} RunsKeepRequests(es: seq<Event>)
    requires Run(es).Some? && NoStop(es)
    ensures RequestInv(Run(es).value)
    ensures NoRaise(es) && Run(es).value.pending ==> Run(es).value.handle.Some?
  {
    if es != [] {
      var before := es[..|es| - 1];
      RunsKeepRequests(before);
      StepKeepsRequests(Run(before).value, es[|es| - 1]);
    }
  }

  /** Whenever no runner is alive, every call has been followed by a pass that began after
      it, if and only if the flag is down; and it is down if no pass raised. */
  lemma NoLostRequest(es: seq<Event>)
    requires Run(es).Some? && NoStop(es) && Run(es).value.Idle()
    ensures Served(Run(es).value.log) <==> !Run(es).value.pending
    ensures NoRaise(es) ==> Served(Run(es).value.log)
  {
    RunsKeepRequests(es);
  }

  lemma RunExtends(es: seq<Event>, s: State, e: Event, t: State)
    requires Run(es) == Some(s) && Enabled(s, e) && Apply(s, e) == t
    ensures Run(es + [e]) == Some(t)
  {
    assert (es + [e])[..|es|] == es;
  }

  /** A raising pass leaves requests unserved exactly when one arrived during it. */
  lemma RaiseExact(es: seq<Event>, id: Id)
    requires Run(es).Some? && NoStop(es) && Enabled(Run(es).value, PassRaises(id))
    ensures var t := Apply(Run(es).value, PassRaises(id));
      t.Idle() && (Served(t.log) <==> !Run(es).value.pending)
  {
    RunsKeepRequests(es);
    StepKeepsRequests(Run(es).value, PassRaises(id));
    assert Exclusive(Run(es).value, id);
  }

  /** A request during a pass that raises is forgotten: no runner is left, and no pass follows
      it until somebody asks again. */
  lemma RaiseLosesRequest()
    ensures Run([Schedule, FirstStep(0), Schedule, PassRaises(0)])
         == Some(State(true, None, map[], None, 1, [Call, Began, Call]))
    ensures !Served([Call, Began, Call])
  {
    var s1 := State(true, Some(0), map[0 := Runner(Created, false)], None, 1, [Call]);
    var s2 := State(false, Some(0), map[0 := Runner(Inside, false)], Some(0), 1, [Call, Began]);
    var s3 := s2.(pending := true, log := [Call, Began, Call]);
    var s4 := State(true, None, map[], None, 1, [Call, Began, Call]);
    var p1 := [] + [Schedule];
    var p2 := p1 + [FirstStep(0)];
    var p3 := p2 + [Schedule];
    RunExtends([], INIT, Schedule, s1);
    assert !s1.Busy();
    RunExtends(p1, s1, FirstStep(0), s2);
    RunExtends(p2, s2, Schedule, s3);
    assert s3.runners - {0} == map[];
    RunExtends(p3, s3, PassRaises(0), s4);
    assert p3 + [PassRaises(0)] == [Schedule, FirstStep(0), Schedule, PassRaises(0)];
    CallIsUnserved([Call, Began]);
    assert [Call, Began] + [Call] == [Call, Began, Call];
  }

  // ---------- Every request is served ----------

  function RunFrom(s: State, es: seq<Event>): Option<State>
    decreases |es|
  {
    if es == [] then Some(s) else if Enabled(s, es[0]) then RunFrom(Apply(s, es[0]), es[1..]) else None
  }

  /** The rest of the runner's life if nothing else happens and its passes return. */
  function Rest(s: State): seq<Event> {
    if s.handle.None? then []
    else
      var id := s.handle.value;
      if s.In(id, Created) then [FirstStep(id), PassEnds(id)]
      else if s.pending then [PassEnds(id), PassEnds(id)]
      else [PassEnds(id)]
  }

  lemma EndsServed(s: State, id: Id)
    requires RequestInv(s) && s.In(id, Inside) && !s.pending
    ensures RunFrom(s, [PassEnds(id)]).Some?
    ensures RunFrom(s, [PassEnds(id)]).value.Idle() && Served(RunFrom(s, [PassEnds(id)]).value.log)
  {
    assert RunFrom(s, [PassEnds(id)]) == RunFrom(Apply(s, PassEnds(id)), []);
    StepKeepsRequests(s, PassEnds(id));
  }

  lemma BeginsThenEnds(s: State, e: Event, id: Id)
    requires RequestInv(s) && s.pending && Enabled(s, e) && (e == FirstStep(id) || e == PassEnds(id))
    ensures RunFrom(s, [e, PassEnds(id)]).Some?
    ensures RunFrom(s, [e, PassEnds(id)]).value.Idle() && Served(RunFrom(s, [e, PassEnds(id)]).value.log)
  {
    var t := Apply(s, e);
    assert Exclusive(s, id);
    assert s.holder.Some? ==> Exclusive(s, s.holder.value);
    StepKeepsRequests(s, e);
    assert [e, PassEnds(id)][1..] == [PassEnds(id)];
    EndsServed(t, id);
  }

  /** From every state of a run without stops and raises, letting the runner go on for at
      most two steps serves every call made so far. */
  lemma RestServes(es: seq<Event>)
    requires Run(es).Some? && NoStop(es) && NoRaise(es)
    ensures var s := Run(es).value;
      && |Rest(s)| <= 2 && RunFrom(s, Rest(s)).Some?
      && RunFrom(s, Rest(s)).value.Idle() && Served(RunFrom(s, Rest(s)).value.log)
  {
    RunsKeepRequests(es);
    var s := Run(es).value;
    if s.handle.Some? {
      var id := s.handle.value;
      if s.pending {
        BeginsThenEnds(s, if s.In(id, Created) then FirstStep(id) else PassEnds(id), id);
      } else {
        EndsServed(s, id);
      }
    }
  }

  // ---------- Coalescing ----------

  predicate Coalesced(s: State) {
    multiset(s.log)[Began] + (if s.pending then 1 else 0) <= multiset(s.log)[Call]
  }

  lemma StepCoalesces(s: State, e: Event)
    requires RequestInv(s) && Coalesced(s) && Enabled(s, e) && !e.Stop?
    ensures Coalesced(Apply(s, e))
  {
  }

  /** There are never more passes than calls, a waiting request counted as one to come. */
  lemma {:induction false} PassesCoalesce(es: seq<Event>)
    requires Run(es).Some? && NoStop(es)
    ensures Coalesced(Run(es).value)
  {
    if es != [] {
      var before := es[..|es| - 1];
      PassesCoalesce(before);
      RunsKeepRequests(before);
      StepCoalesces(Run(before).value, es[|es| - 1]);
    }
  }

  // ---------- What a stop does ----------

  /** A stop lowers the flag and the handle.  It lets go of the registered runner and asks for
      its cancellation, unless that runner itself makes the call, and of no other. */
  lemma StopExact(es: seq<Event>, caller: Option<Id>, id: Id)
    requires Run(es).Some? && Enabled(Run(es).value, Stop(caller))
    ensures var s, t := Run(es).value, Apply(Run(es).value, Stop(caller));
      && !t.pending && t.handle.None? && t.holder == s.holder && t.runners.Keys == s.runners.Keys
      && (id in s.runners ==>
            && t.runners[id].phase == s.runners[id].phase
            && (t.runners[id].released <==> s.runners[id].released || (s.handle == Some(id) && caller != Some(id))))
  {
    RunsKeepLock(es);
    var s := Run(es).value;
    if s.handle.Some? { assert Exclusive(s, s.handle.value); }
  }

  predicate Released(s: State, id: Id) { id in s.runners ==> s.runners[id].released }

  /** A runner that was let go of stays so until it has ended, can receive its cancellation at
      any time, and is gone when it has, with the lock given back if it held it. */
  lemma ReleasedRunnerEnds(s: State, e: Event, id: Id)
    requires LockInv(s) && Enabled(s, e) && id in s.runners && s.runners[id].released
    ensures Released(Apply(s, e), id)
    ensures Enabled(s, CancelArrives(id))
    ensures var t := Apply(s, CancelArrives(id));
      id !in t.runners && t.holder != Some(id) && t.runners == s.runners - {id} && t.pending == s.pending
  {
    assert Exclusive(s, id) && Exclusive(s, s.next);
  }

  // ---------- A stop can leave two runners ----------

  /** A request during the shutdown starts a second runner, and the end of the first one
      makes the second invisible, so that a third is started beside it. */
  lemma StopLeavesTwo()
    ensures Run([Schedule, FirstStep(0), Stop(None), Schedule, CancelArrives(0), Schedule])
         == Some(State(true, Some(2), map[1 := Runner(Created, false), 2 := Runner(Created, false)], None, 3,
                       [Call, Began, Call, Call]))
  {
    var new0, inside := Runner(Created, false), Runner(Inside, false);
    var s1 := State(true, Some(0), map[0 := new0], None, 1, [Call]);
    var s2 := State(false, Some(0), map[0 := inside], Some(0), 1, [Call, Began]);
    var s3 := s2.(handle := None, runners := map[0 := Runner(Inside, true)]);
    var s4 := State(true, Some(1), s3.runners[1 := new0], Some(0), 2, [Call, Began, Call]);
    var s5 := State(true, None, map[1 := new0], None, 2, s4.log);
    var s6 := State(true, Some(2), map[1 := new0, 2 := new0], None, 3, [Call, Began, Call, Call]);
    var p1 := [] + [Schedule];
    var p2 := p1 + [FirstStep(0)];
    var p3 := p2 + [Stop(None)];
    var p4 := p3 + [Schedule];
    var p5 := p4 + [CancelArrives(0)];
    RunExtends([], INIT, Schedule, s1);
    assert !s1.Busy();
    RunExtends(p1, s1, FirstStep(0), s2);
    RunExtends(p2, s2, Stop(None), s3);
    RunExtends(p3, s3, Schedule, s4);
    assert s4.runners - {0} == s5.runners;
    RunExtends(p4, s4, CancelArrives(0), s5);
    RunExtends(p5, s5, Schedule, s6);
    assert p5 + [Schedule] == [Schedule, FirstStep(0), Stop(None), Schedule, CancelArrives(0), Schedule];
  }

  // ---------- The module's state ----------

  /** `log` is history; `runners` are the loop's tasks, `holder` that of the lock. */
  class ProxyRuntime {
    var pending: bool
    var handle: Option<Id>
    var runners: map<Id, Runner>
    var holder: Option<Id>
    var next: Id
    ghost var log: seq<Mark>

    ghost function View(): State
      reads this
    {
      State(pending, handle, runners, holder, next, log)
    }

    constructor ()
      ensures View() == INIT
    {
      pending, handle, runners, holder, next, log := false, None, map[], None, 0, [];
    }

    /** `schedule_proxy_runtime_reconcile`; the result names the runner that will serve. */
    method ScheduleReconcile(hasLoop: bool) returns (runner: Option<Id>)
      modifies this
      ensures View() == if hasLoop then Apply(old(View()), Schedule) else old(View())
      ensures if hasLoop then runner.Some? && handle == runner && runner.value in runners else runner.None?
    {
      if !hasLoop {
        return None;
      }
      log := log + [Call];
      if handle.Some? && handle.value in runners {
        pending := true;
        return handle;
      }
      pending := true;
      runners := runners[next := Runner(Created, false)];
      handle := Some(next);
      next := next + 1;
      return handle;
    }

    method EnterPass(id: Id)
      requires id in runners
      modifies `runners, `holder, `log
      ensures View() == Begin(old(View()), id)
    {
      runners := runners[id := runners[id].(phase := Inside)];
      holder := Some(id);
      log := log + [Began];
    }

    method LeaveRunner(id: Id)
      modifies `handle, `runners
      ensures View() == Ended(old(View()), id)
    {
      handle := None;
      runners := runners - {id};
    }

    /** The loop's test, up to the next suspension. */
    method TestLoop(id: Id)
      requires id in runners
      modifies this
      ensures View() == Loop(old(View()), id)
    {
      if !pending {
        LeaveRunner(id);
        return;
      }
      pending := false;
      if holder.Some? || exists other :: other in runners && runners[other].phase.Waiting? {
        runners := runners[id := runners[id].(phase := Waiting)];
      } else {
        EnterPass(id);
      }
    }

    method ReturnFromPass(id: Id)
      requires Enabled(View(), PassEnds(id))
      modifies this
      ensures View() == Apply(old(View()), PassEnds(id))
    {
      if holder == Some(id) {
        holder := None;
      }
      TestLoop(id);
    }

    method RaiseFromPass(id: Id)
      requires Enabled(View(), PassRaises(id))
      modifies this
      ensures View() == Apply(old(View()), PassRaises(id))
    {
      if holder == Some(id) {
        holder := None;
      }
      LeaveRunner(id);
    }

    /** `stop_proxy_runtime_reconcile` up to the wait for the cancelled task; `caller` is the
        runner whose pass makes the call, if it is one. */
    method StopReconcile(caller: Option<Id>)
      requires Enabled(View(), Stop(caller))
      modifies this
      ensures View() == Apply(old(View()), Stop(caller))
    {
      pending := false;
      var task := handle;
      handle := None;
      if task.Some? && task.value in runners && task != caller {
        runners := runners[task.value := runners[task.value].(released := true)];
      }
    }
  }
}
