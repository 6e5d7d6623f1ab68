/** The account lock and its cooldown (backend/services/sign_task_runner.py).

    All runs of one account pass one lock, which login code of the same account takes and
    releases too.  A run that leaves the lock stamps the account's
    end time before any waiter can resume: between the lock's release and the first line of
    `_runner_finalize` there is no await that suspends. */
module AccountCooldown {
  import opened Options

  type Account = nat
  type RunId = nat

  const MAX_STAMPS: nat := 100

  /** The largest cooldown the setting allows (backend/services/runtime_settings.py). */
  const MAX_COOLDOWN: real := 600.0

  /** A cooldown the service can read: whole seconds within the setting's bounds. */
  predicate Readable(cooldown: real) {
    0.0 <= cooldown <= MAX_COOLDOWN && cooldown.Floor as real == cooldown
  }

  datatype Phase = Prechecking | Waiting | Cooling(wakeAt: real) | Inside | Finalizing | Ended

  /** `cool` is the cooldown the run read when it got the lock, `prev` when the run that
      held the lock before it left the lock, `started` when it began to execute. */
  datatype Run = Run(account: Account, phase: Phase, cool: real, prev: Option<real>, started: Option<real>) {
    predicate HasLock() { phase.Cooling? || phase.Inside? }
  }

  datatype Holder = ByRun(r: RunId) | Foreign   // other services take the same lock

  /** `lastEnd` is _account_last_run_end; `lastHolderEnd` is history: when a run last left
      the account's lock. */
  datatype State = State(
    runs: map<RunId, Run>,
    holder: map<Account, Holder>,
    lastEnd: map<Account, real>,
    lastHolderEnd: map<Account, real>,
    now: real)

  const INIT := State(map[], map[], map[], map[], 1.0)

  datatype Event =
    | Arrive(r: RunId, a: Account)
    | Wait(r: RunId)
    | SkipLock(r: RunId)             // precheck failed, or cancelled before getting the lock
    | Acquire(r: RunId, cooldown: real)
    | Wake(r: RunId)
    | Release(r: RunId)
    | End(r: RunId)                  // cancelled: no pruning
    | EndAndPrune(r: RunId, kept: set<Account>)
    | ForeignAcquire(a: Account)
    | ForeignRelease(a: Account)     // login code: released if locked, whoever holds it
    | Tick(seconds: real)

  /** The entries `_prune_stale_entries` keeps: all, or the 100 most recent ones. */
  predicate MayKeep(lastEnd: map<Account, real>, kept: set<Account>) {
    if |lastEnd| <= MAX_STAMPS then kept == lastEnd.Keys
    else
      && kept <= lastEnd.Keys && |kept| == MAX_STAMPS
      && forall a, b :: a in kept && b in lastEnd && b !in kept ==> lastEnd[b] <= lastEnd[a]
  }

  predicate Is(s: State, r: RunId, p: Phase) { r in s.runs && s.runs[r].phase == p }

  predicate Enabled(accounts: nat, s: State, e: Event) {
    match e
    case Arrive(r, a) => r !in s.runs && a < accounts
    case Wait(r) => Is(s, r, Prechecking)
    case SkipLock(r) => Is(s, r, Prechecking) || Is(s, r, Waiting)
    case Acquire(r, cooldown) => Is(s, r, Waiting) && s.runs[r].account !in s.holder && Readable(cooldown)
    case Wake(r) => r in s.runs && s.runs[r].phase.Cooling? && s.runs[r].phase.wakeAt <= s.now
    case Release(r) => r in s.runs && s.runs[r].HasLock()
    case End(r) => Is(s, r, Finalizing)
    case EndAndPrune(r, kept) => Is(s, r, Finalizing) && MayKeep(s.lastEnd, kept)
    case ForeignAcquire(a) => a !in s.holder
    case ForeignRelease(a) => a in s.holder
    case Tick(d) => d >= 0.0
  }

  function SetRun(s: State, r: RunId, run: Run): State { s.(runs := s.runs[r := run]) }

  /** `_runner_acquire_lock` once the lock is held. */
  function Acquired(s: State, r: RunId, cooldown: real): State
    requires r in s.runs
  {
    var a := s.runs[r].account;
    var run := s.runs[r].(cool := cooldown, prev := if a in s.lastHolderEnd then Some(s.lastHolderEnd[a]) else None);
    var stamped := a in s.lastEnd && s.lastEnd[a] != 0.0;
    var wait := if stamped then cooldown - (s.now - s.lastEnd[a]) else 0.0;
    SetRun(s, r, if wait > 0.0 then run.(phase := Cooling(s.now + wait)) else run.(phase := Inside, started := Some(s.now)))
      .(holder := s.holder[a := ByRun(r)])
  }

  function Stamp(s: State, r: RunId): State
    requires r in s.runs
  {
    SetRun(s, r, s.runs[r].(phase := Finalizing)).(lastEnd := s.lastEnd[s.runs[r].account := s.now])
  }

  function Apply(accounts: nat, s: State, e: Event): State
    requires Enabled(accounts, s, e)
  {
    match e
    case Arrive(r, a) => SetRun(s, r, Run(a, Prechecking, 0.0, None, None))
    case Wait(r) => SetRun(s, r, s.runs[r].(phase := Waiting))
    case SkipLock(r) => Stamp(s, r)
    case Acquire(r, cooldown) => Acquired(s, r, cooldown)
    case Wake(r) => SetRun(s, r, s.runs[r].(phase := Inside, started := Some(s.now)))
    // Leaving a lock that is not locked raises, which leads to the same finalisation; one
    // that another run has taken meanwhile is released under that run.
    case Release(r) =>
      var a := s.runs[r].account;
      Stamp(s, r).(holder := s.holder - {a}, lastHolderEnd := s.lastHolderEnd[a := s.now])
    case End(r) => SetRun(s, r, s.runs[r].(phase := Ended))
    case EndAndPrune(r, kept) =>
      SetRun(s, r, s.runs[r].(phase := Ended)).(lastEnd := map a | a in s.lastEnd && a in kept :: s.lastEnd[a])
    case ForeignAcquire(a) => s.(holder := s.holder[a := Foreign])
    case ForeignRelease(a) => s.(holder := s.holder - {a})
    case Tick(d) => s.(now := s.now + d)
  }

  /** All runs over the accounts 0, ..., accounts - 1. */
  function RunAll(accounts: nat, es: seq<Event>): Option<State> {
    if es == [] then Some(INIT)
    else
      var before := RunAll(accounts, es[..|es| - 1]);
      var e := es[|es| - 1];
      if before.Some? && Enabled(accounts, before.value, e) then Some(Apply(accounts, before.value, e)) else None
  }

  // ---------- Mutual exclusion ----------

  /** Every run between taking and leaving the lock holds it. */
  predicate HoldsLock(s: State, r: RunId) {
    r in s.runs && s.runs[r].HasLock() ==>
      s.runs[r].account in s.holder && s.holder[s.runs[r].account] == ByRun(r)
  }

  ghost predicate LockInv(s: State) { forall r :: HoldsLock(s, r) }

  /** A run that holds the lock is between taking and leaving it. */
  ghost predicate HolderInv(s: State) {
    forall a :: a in s.holder && s.holder[a].ByRun? ==>
      s.holder[a].r in s.runs && s.runs[s.holder[a].r].HasLock() && s.runs[s.holder[a].r].account == a
  }

  /** A release from outside that finds a run holding the lock. */
  predicate Steals(s: State, e: Event) {
    e.ForeignRelease? && e.a in s.holder && s.holder[e.a].ByRun?
  }

  lemma StepKeepsHolder(accounts: nat, s: State, e: Event)
    requires HolderInv(s) && Enabled(accounts, s, e)
    ensures HolderInv(Apply(accounts, s, e))
  {
    var t := Apply(accounts, s, e);
    forall a | a in t.holder && t.holder[a].ByRun?
      ensures t.holder[a].r in t.runs && t.runs[t.holder[a].r].HasLock() && t.runs[t.holder[a].r].account == a
    {
      assert e.Acquire? || a in s.holder;
    }
  }

  lemma AcquireKeepsLock(accounts: nat, s: State, r: RunId, cooldown: real)
    requires LockInv(s) && Enabled(accounts, s, Acquire(r, cooldown))
    ensures LockInv(Apply(accounts, s, Acquire(r, cooldown)))
  {
    forall q ensures HoldsLock(Apply(accounts, s, Acquire(r, cooldown)), q) { assert HoldsLock(s, q); }
  }

  lemma ReleaseKeepsLock(accounts: nat, s: State, r: RunId)
    requires LockInv(s) && Enabled(accounts, s, Release(r))
    ensures LockInv(Apply(accounts, s, Release(r)))
  {
    forall q ensures HoldsLock(Apply(accounts, s, Release(r)), q) { assert HoldsLock(s, q) && HoldsLock(s, r); }
  }

  lemma ForeignReleaseExact(accounts: nat, s: State, a: Account)
    requires LockInv(s) && HolderInv(s) && Enabled(accounts, s, ForeignRelease(a))
    ensures LockInv(Apply(accounts, s, ForeignRelease(a))) <==> !Steals(s, ForeignRelease(a))
  {
    var t := Apply(accounts, s, ForeignRelease(a));
    if s.holder[a].ByRun? {
      assert !HoldsLock(t, s.holder[a].r);
    } else {
      forall q ensures HoldsLock(t, q) { assert HoldsLock(s, q); }
    }
  }

  lemma OtherKeepsLock(accounts: nat, s: State, e: Event)
    requires LockInv(s) && Enabled(accounts, s, e)
    requires !e.Acquire? && !e.Release? && !e.ForeignRelease?
    ensures LockInv(Apply(accounts, s, e))
  {
    forall q ensures HoldsLock(Apply(accounts, s, e), q) { assert HoldsLock(s, q); }
  }

  lemma StepIsExact(accounts: nat, s: State, e: Event)
    requires LockInv(s) && HolderInv(s) && Enabled(accounts, s, e)
    ensures LockInv(Apply(accounts, s, e)) <==> !Steals(s, e)
  {
    if e.Acquire? {
      AcquireKeepsLock(accounts, s, e.r, e.cooldown);
    } else if e.Release? {
      ReleaseKeepsLock(accounts, s, e.r);
    } else if e.ForeignRelease? {
      ForeignReleaseExact(accounts, s, e.a);
    } else {
      OtherKeepsLock(accounts, s, e);
    }
  }

  /** At every point of the run the lock belongs to whoever is inside. */
  ghost predicate AlwaysHeld(accounts: nat, es: seq<Event>) {
    && (RunAll(accounts, es).Some? ==> LockInv(RunAll(accounts, es).value))
    && (es == [] || AlwaysHeld(accounts, es[..|es| - 1]))
  }

  /** No release from outside found a run holding the lock. */
  predicate NeverStolen(accounts: nat, es: seq<Event>) {
    es == [] ||
    var before := es[..|es| - 1];
    NeverStolen(accounts, before)
    && (RunAll(accounts, before).Some? ==> !Steals(RunAll(accounts, before).value, es[|es| - 1]))
  }

  lemma {:induction false} RunsFollowThefts(accounts: nat, es: seq<Event>)
    requires RunAll(accounts, es).Some?
    ensures HolderInv(RunAll(accounts, es).value)
    ensures AlwaysHeld(accounts, es) <==> NeverStolen(accounts, es)
    ensures NeverStolen(accounts, es) ==> LockInv(RunAll(accounts, es).value)
  {
    if es != [] {
      var before := es[..|es| - 1];
      RunsFollowThefts(accounts, before);
      var s, e := RunAll(accounts, before).value, es[|es| - 1];
      StepKeepsHolder(accounts, s, e);
      if NeverStolen(accounts, before) { StepIsExact(accounts, s, e); }
    }
  }

  /** At every point of a run the account's lock belongs to whoever is inside it if and only
      if no release from outside finds a run holding the lock. */
  lemma LockExact(accounts: nat, es: seq<Event>)
    requires RunAll(accounts, es).Some?
    ensures AlwaysHeld(accounts, es) <==> NeverStolen(accounts, es)
  {
    RunsFollowThefts(accounts, es);
  }

  /** Then two runs of one account are never both between taking and leaving the lock. */
  lemma NoOverlapInAccount(accounts: nat, es: seq<Event>, q: RunId, r: RunId)
    requires RunAll(accounts, es).Some? && NeverStolen(accounts, es)
    ensures var s := RunAll(accounts, es).value;
      (q in s.runs && r in s.runs && s.runs[q].HasLock() && s.runs[r].HasLock()
       && s.runs[q].account == s.runs[r].account) ==> q == r
  {
    RunsFollowThefts(accounts, es);
    assert HoldsLock(RunAll(accounts, es).value, q) && HoldsLock(RunAll(accounts, es).value, r);
  }

  lemma Extend(accounts: nat, es: seq<Event>, e: Event) returns (fs: seq<Event>)
    requires RunAll(accounts, es).Some? && Enabled(accounts, RunAll(accounts, es).value, e)
    ensures fs == es + [e] && RunAll(accounts, fs) == Some(Apply(accounts, RunAll(accounts, es).value, e))
  {
    fs := es + [e];
    assert fs[..|es|] == es;
  }

  /** A login holds the lock while two runs wait.  It fails in two calls at once: the first
      release lets one run in, the second takes the lock from under it and lets the other in. */
  lemma TwoReleasesLetTwoIn(accounts: nat) returns (es: seq<Event>)
    requires accounts > 0
    ensures RunAll(accounts, es).Some? && !NeverStolen(accounts, es)
    ensures var s := RunAll(accounts, es).value;
      && 0 in s.runs && s.runs[0].phase.Inside? && s.runs[0].account == 0
      && 1 in s.runs && s.runs[1].phase.Inside? && s.runs[1].account == 0
  {
    es := TwoWait(accounts);
    es := Extend(accounts, es, ForeignRelease(0));
    es := Extend(accounts, es, Acquire(0, MAX_COOLDOWN));
    es := Extend(accounts, es, ForeignRelease(0));
    es := Extend(accounts, es, Acquire(1, MAX_COOLDOWN));
    RunsFollowThefts(accounts, es);
    var s := RunAll(accounts, es).value;
    assert !HoldsLock(s, 0);
  }

  lemma TwoWait(accounts: nat) returns (es: seq<Event>)
    requires accounts > 0
    ensures RunAll(accounts, es) == Some(State(
      map[0 := Run(0, Waiting, 0.0, None, None), 1 := Run(0, Waiting, 0.0, None, None)],
      map[0 := Foreign], map[], map[], 1.0))
  {
    es := Extend(accounts, [], ForeignAcquire(0));
    es := Extend(accounts, es, Arrive(0, 0));
    es := Extend(accounts, es, Arrive(1, 0));
    es := Extend(accounts, es, Wait(0));
    es := Extend(accounts, es, Wait(1));
    var s := RunAll(accounts, es).value;
    assert s.runs == map[0 := Run(0, Waiting, 0.0, None, None), 1 := Run(0, Waiting, 0.0, None, None)];
    assert s.holder == map[0 := Foreign];
  }

  // ---------- Cooldown ----------

  /** Every run that has started did so at least its cooldown after the previous holder
      of the lock left it. */
  predicate RunRested(run: Run) {
    run.started.Some? && run.prev.Some? ==> run.started.value >= run.prev.value + run.cool
  }

  ghost predicate Rested(s: State) { forall r :: r in s.runs ==> RunRested(s.runs[r]) }

  ghost predicate StampsInv(accounts: nat, s: State) {
    && s.now >= 1.0
    && (forall a :: a in s.lastEnd ==> a < accounts && 1.0 <= s.lastEnd[a] <= s.now)
    && (forall a :: a in s.lastHolderEnd ==> a in s.lastEnd && s.lastHolderEnd[a] <= s.lastEnd[a])
  }

  /** A cooling run wakes late enough; a run before the lock has not started. */
  predicate RunFits(accounts: nat, run: Run) {
    && run.account < accounts
    && (run.phase.Cooling? && run.prev.Some? ==> run.phase.wakeAt >= run.prev.value + run.cool)
    && (run.phase.Prechecking? || run.phase.Waiting? || run.phase.Cooling? ==> run.started.None?)
  }

  ghost predicate StampInv(accounts: nat, s: State) {
    StampsInv(accounts, s) && forall r :: r in s.runs ==> RunFits(accounts, s.runs[r])
  }

  lemma FewKeys(m: map<Account, real>, n: nat)
    requires forall a :: a in m ==> a < n
    ensures |m| <= n
  {
    RangeSize(m.Keys, n);
  }

  lemma {:induction false} RangeSize(s: set<nat>, n: nat)
    requires forall a :: a in s ==> a < n
    ensures |s| <= n
  {
    if n > 0 { RangeSize(s - {n - 1}, n - 1); } else { assert s == {}; }
  }

  lemma PruneKeepsAll(accounts: nat, s: State, kept: set<Account>)
    requires accounts <= MAX_STAMPS && StampInv(accounts, s) && MayKeep(s.lastEnd, kept)
    ensures (map a | a in s.lastEnd && a in kept :: s.lastEnd[a]) == s.lastEnd
  {
    FewKeys(s.lastEnd, accounts);
  }

  lemma StepKeepsStamps(accounts: nat, s: State, e: Event)
    requires accounts <= MAX_STAMPS && StampInv(accounts, s) && Enabled(accounts, s, e)
    ensures StampsInv(accounts, Apply(accounts, s, e))
  {
    match e
    case EndAndPrune(r, kept) => PruneKeepsAll(accounts, s, kept);
    case Release(r) => assert RunFits(accounts, s.runs[r]);
    case SkipLock(r) => assert RunFits(accounts, s.runs[r]);
    case _ =>
  }

  lemma StepKeepsFits(accounts: nat, s: State, e: Event)
    requires StampInv(accounts, s) && Enabled(accounts, s, e)
    ensures forall r :: r in Apply(accounts, s, e).runs ==> RunFits(accounts, Apply(accounts, s, e).runs[r])
  {
    var t := Apply(accounts, s, e);
    forall r | r in t.runs ensures RunFits(accounts, t.runs[r]) {
      assert r in s.runs ==> RunFits(accounts, s.runs[r]);
    }
  }

  lemma StepKeepsRested(accounts: nat, s: State, e: Event)
    requires StampInv(accounts, s) && Rested(s) && Enabled(accounts, s, e)
    ensures Rested(Apply(accounts, s, e))
  {
    var t := Apply(accounts, s, e);
    forall r | r in t.runs ensures RunRested(t.runs[r]) {
      assert r in s.runs ==> RunRested(s.runs[r]) && RunFits(accounts, s.runs[r]);
    }
  }

  lemma {:induction false} RunsKeepRested(accounts: nat, es: seq<Event>)
    requires accounts <= MAX_STAMPS && RunAll(accounts, es).Some?
    ensures StampInv(accounts, RunAll(accounts, es).value) && Rested(RunAll(accounts, es).value)
  {
    if es != [] {
      RunsKeepRested(accounts, es[..|es| - 1]);
      var s, e := RunAll(accounts, es[..|es| - 1]).value, es[|es| - 1];
      StepKeepsStamps(accounts, s, e);
      StepKeepsFits(accounts, s, e);
      StepKeepsRested(accounts, s, e);
    }
  }

  // ---------- How long a run waits ----------

  /** When a run of the account last began its finalisation, read from the events. */
  function LastEnd(accounts: nat, es: seq<Event>, a: Account): Option<real> {
    if es == [] then None
    else
      var earlier, e := es[..|es| - 1], es[|es| - 1];
      var s := RunAll(accounts, earlier);
      if (e.Release? || e.SkipLock?) && s.Some? && e.r in s.value.runs && s.value.runs[e.r].account == a
      then Some(s.value.now)
      else LastEnd(accounts, earlier, a)
  }

  lemma {:induction false} StampsAreLastEnds(accounts: nat, es: seq<Event>, a: Account)
    requires accounts <= MAX_STAMPS && RunAll(accounts, es).Some?
    ensures var s := RunAll(accounts, es).value;
      LastEnd(accounts, es, a) == if a in s.lastEnd then Some(s.lastEnd[a]) else None
  {
    if es != [] {
      var earlier, e := es[..|es| - 1], es[|es| - 1];
      StampsAreLastEnds(accounts, earlier, a);
      RunsKeepRested(accounts, earlier);
      StepStamps(accounts, RunAll(accounts, earlier).value, e, a);
    }
  }

  lemma StepStamps(accounts: nat, s: State, e: Event, a: Account)
    requires accounts <= MAX_STAMPS && StampInv(accounts, s) && Enabled(accounts, s, e)
    ensures var t := Apply(accounts, s, e);
      if (e.Release? || e.SkipLock?) && s.runs[e.r].account == a then a in t.lastEnd && t.lastEnd[a] == s.now
      else (a in t.lastEnd <==> a in s.lastEnd) && (a in s.lastEnd ==> t.lastEnd[a] == s.lastEnd[a])
  {
    if e.EndAndPrune? { PruneKeepsAll(accounts, s, e.kept); }
  }

  /** The run may wake up when that much time has passed. */
  predicate WakesAfter(accounts: nat, s: State, wait: real, r: RunId)
    requires wait >= 0.0
  {
    Enabled(accounts, Apply(accounts, s, Tick(wait)), Wake(r))
  }

  /** With at most 100 accounts a run that gets the lock starts at once if the cooldown has
      passed since a run of its account last ended, or none has; otherwise it sleeps exactly
      until then: it wakes up no earlier, may start from then on, and still holds the lock. */
  lemma WaitExact(accounts: nat, es: seq<Event>, r: RunId, cooldown: real)
    requires accounts <= MAX_STAMPS && RunAll(accounts, es).Some?
    requires Enabled(accounts, RunAll(accounts, es).value, Acquire(r, cooldown))
    ensures var s, t := RunAll(accounts, es).value, Apply(accounts, RunAll(accounts, es).value, Acquire(r, cooldown));
      var a := s.runs[r].account;
      var end := LastEnd(accounts, es, a);
      && a in t.holder && t.holder[a] == ByRun(r)
      && (if end.None? || s.now >= end.value + cooldown then t.runs[r].phase.Inside? && t.runs[r].started == Some(s.now)
          else
            t.runs[r].phase == Cooling(end.value + cooldown) && t.runs[r].started.None?
            && (forall wait :: wait >= 0.0 ==> (WakesAfter(accounts, t, wait, r) <==> s.now + wait >= end.value + cooldown)))
  {
    var s := RunAll(accounts, es).value;
    StampsAreLastEnds(accounts, es, s.runs[r].account);
    RunsKeepRested(accounts, es);
    assert RunFits(accounts, s.runs[r]);
    WaitFrom(accounts, s, r, cooldown);
    WakesFrom(accounts, Apply(accounts, s, Acquire(r, cooldown)), r);
  }

  lemma WakesFrom(accounts: nat, t: State, r: RunId)
    requires r in t.runs
    ensures t.runs[r].phase.Cooling? ==>
      forall wait :: wait >= 0.0 ==> (WakesAfter(accounts, t, wait, r) <==> t.now + wait >= t.runs[r].phase.wakeAt)
  {
  }

  lemma WaitFrom(accounts: nat, s: State, r: RunId, cooldown: real)
    requires Enabled(accounts, s, Acquire(r, cooldown)) && s.runs[r].started.None?
    requires var a := s.runs[r].account; a in s.lastEnd ==> s.lastEnd[a] >= 1.0
    ensures var t, a := Apply(accounts, s, Acquire(r, cooldown)), s.runs[r].account;
      && a in t.holder && t.holder[a] == ByRun(r)
      && (if a !in s.lastEnd || s.now >= s.lastEnd[a] + cooldown then t.runs[r].phase.Inside? && t.runs[r].started == Some(s.now)
          else t.runs[r].phase == Cooling(s.lastEnd[a] + cooldown) && t.runs[r].started.None?)
      && t.now == s.now
  {
  }

  // ---------- More than 100 accounts ----------

  /** Every account below m was visited once, account k leaving its lock at time k + 1. */
  ghost predicate Visited(s: State, m: nat) {
    && s.holder == map[] && s.now == 1.0 + m as real
    && (forall a: nat :: a in s.lastEnd <==> a < m) && (forall a :: a in s.lastEnd ==> s.lastEnd[a] == 1.0 + a as real)
    && s.lastHolderEnd == s.lastEnd
    && (forall r: nat :: r in s.runs <==> r < m) && (forall r :: r in s.runs ==> s.runs[r].phase == Finalizing)
  }

  lemma VisitOne(accounts: nat, es: seq<Event>, k: nat) returns (fs: seq<Event>)
    requires k < accounts && RunAll(accounts, es).Some? && Visited(RunAll(accounts, es).value, k)
    ensures RunAll(accounts, fs).Some? && Visited(RunAll(accounts, fs).value, k + 1)
  {
    var s := RunAll(accounts, es).value;
    fs := Extend(accounts, es, Arrive(k, k));
    fs := Extend(accounts, fs, Wait(k));
    fs := Extend(accounts, fs, Acquire(k, MAX_COOLDOWN));
    fs := Extend(accounts, fs, Release(k));
    fs := Extend(accounts, fs, Tick(1.0));
    var t := RunAll(accounts, fs).value;
    assert t.lastEnd == s.lastEnd[k := s.now] && t.lastHolderEnd == s.lastHolderEnd[k := s.now];
    assert t.holder == map[];
  }

  lemma {:induction false} VisitMany(accounts: nat, m: nat) returns (es: seq<Event>)
    requires m <= accounts
    ensures RunAll(accounts, es).Some? && Visited(RunAll(accounts, es).value, m)
  {
    if m == 0 {
      es := [];
    } else {
      es := VisitMany(accounts, m - 1);
      es := VisitOne(accounts, es, m - 1);
    }
  }

  lemma {:induction false} From1To(m: nat) returns (s: set<nat>)
    ensures |s| == m && forall a: nat :: a in s <==> 1 <= a <= m
  {
    s := {};
    if m > 0 {
      s := From1To(m - 1);
      s := s + {m};
    }
  }

  /** With more accounts, a run with the cooldown always at its largest in which an account
      is entered again 101 seconds after it was left. */
  lemma ForgottenCooldown(accounts: nat) returns (es: seq<Event>)
    requires accounts > MAX_STAMPS
    ensures RunAll(accounts, es).Some? && !Rested(RunAll(accounts, es).value)
  {
    es := VisitMany(accounts, MAX_STAMPS + 1);
    var kept := From1To(MAX_STAMPS);
    es := ForgetFirst(accounts, es, MAX_STAMPS + 1, kept);
    es := UnstampedStart(accounts, es, MAX_STAMPS + 1);
  }

  lemma ForgetFirst(accounts: nat, es: seq<Event>, m: nat, kept: set<nat>) returns (fs: seq<Event>)
    requires RunAll(accounts, es).Some? && Visited(RunAll(accounts, es).value, m)
    requires m == MAX_STAMPS + 1 && |kept| == MAX_STAMPS && forall a: nat :: a in kept <==> 1 <= a <= MAX_STAMPS
    ensures RunAll(accounts, fs).Some?
    ensures var s := RunAll(accounts, fs).value;
      && s.holder == map[] && s.now == 102.0 && m !in s.runs
      && 0 !in s.lastEnd && 0 in s.lastHolderEnd && s.lastHolderEnd[0] == 1.0
  {
    var s := RunAll(accounts, es).value;
    assert s.lastEnd.Keys == kept + {0};
    assert |kept + {0}| == |kept| + 1;
    fs := Extend(accounts, es, EndAndPrune(0, kept));
  }

  /** A run of account 0, whose stamp is gone although its last holder has just left. */
  lemma UnstampedStart(accounts: nat, es: seq<Event>, r: RunId) returns (fs: seq<Event>)
    requires accounts > 0 && RunAll(accounts, es).Some?
    requires var s := RunAll(accounts, es).value;
      s.holder == map[] && 0 !in s.lastEnd && 0 in s.lastHolderEnd && s.lastHolderEnd[0] == 1.0
      && s.now == 102.0 && r !in s.runs
    ensures RunAll(accounts, fs).Some? && !Rested(RunAll(accounts, fs).value)
  {
    fs := Extend(accounts, es, Arrive(r, 0));
    fs := Extend(accounts, fs, Wait(r));
    fs := Extend(accounts, fs, Acquire(r, MAX_COOLDOWN));
    var t := RunAll(accounts, fs).value;
    assert t.runs[r] == Run(0, Inside, MAX_COOLDOWN, Some(1.0), Some(102.0));
    assert !RunRested(t.runs[r]);
  }

  /** In every run each start keeps its cooldown exactly when there are at most as many
      accounts as the service keeps end times for. */
  lemma CooldownExact(accounts: nat)
    ensures (forall es :: RunAll(accounts, es).Some? ==> Rested(RunAll(accounts, es).value)) <==> accounts <= MAX_STAMPS
  {
    if accounts <= MAX_STAMPS {
      forall es | RunAll(accounts, es).Some? ensures Rested(RunAll(accounts, es).value) {
        RunsKeepRested(accounts, es);
      }
    } else {
      var es := ForgottenCooldown(accounts);
    }
  }

  // ---------- The code itself ----------

  class AccountLocks {
    const accounts: nat
    var runs: map<RunId, Run>
    var holder: map<Account, Holder>
    var lastEnd: map<Account, real>
    var lastHolderEnd: map<Account, real>   // history only: no branch reads it
    var now: real

    ghost function View(): State
      reads this
    {
      State(runs, holder, lastEnd, lastHolderEnd, now)
    }

    /** `_runner_acquire_lock` from holding the lock to its cooldown sleep or to the
        execution. */
    method LockHeld(r: RunId, cooldown: real)
      requires Enabled(accounts, View(), Acquire(r, cooldown))
      modifies this
      ensures View() == Apply(accounts, old(View()), Acquire(r, cooldown))
    {
      var a := runs[r].account;
      holder := holder[a := ByRun(r)];
      var run := runs[r].(cool := cooldown, prev := if a in lastHolderEnd then Some(lastHolderEnd[a]) else None);
      if a in lastEnd && lastEnd[a] != 0.0 {
        var gap := now - lastEnd[a];
        var wait := cooldown - gap;
        if wait > 0.0 {
          runs := runs[r := run.(phase := Cooling(now + wait))];
          return;
        }
      }
      runs := runs[r := run.(phase := Inside, started := Some(now))];
    }

    /** Leaving `async with account_lock`, the exception branches and the first line of
        `_runner_finalize`: one step. */
    method LeaveLock(r: RunId)
      requires Enabled(accounts, View(), Release(r))
      modifies this
      ensures View() == Apply(accounts, old(View()), Release(r))
    {
      var a := runs[r].account;
      holder := holder - {a};
      lastHolderEnd := lastHolderEnd[a := now];
      BeginFinalize(r);
    }

    /** The login code's release: whoever holds the lock, if anybody does. */
    method ReleaseIfLocked(a: Account)
      modifies this`holder
      ensures View() == if Enabled(accounts, old(View()), ForeignRelease(a)) then Apply(accounts, old(View()), ForeignRelease(a))
                        else old(View())
    {
      if a in holder {
        holder := holder - {a};
      }
    }

    method BeginFinalize(r: RunId)
      requires r in runs
      modifies this`runs, this`lastEnd
      ensures View() == Stamp(old(View()), r)
    {
      lastEnd := lastEnd[runs[r].account := now];
      runs := runs[r := runs[r].(phase := Finalizing)];
    }

    /** The bound on the end times in `_prune_stale_entries`: the oldest go. */
    method PruneEnds() returns (ghost kept: set<Account>)
      modifies this`lastEnd
      ensures MayKeep(old(lastEnd), kept)
      ensures lastEnd == map a | a in old(lastEnd) && a in kept :: old(lastEnd)[a]
    {
      kept := lastEnd.Keys;
      while |lastEnd| > MAX_STAMPS
        invariant kept == lastEnd.Keys <= old(lastEnd).Keys
        invariant forall a :: a in lastEnd ==> lastEnd[a] == old(lastEnd)[a]
        invariant forall a, b :: a in lastEnd && b in old(lastEnd) && b !in lastEnd ==> old(lastEnd)[b] <= old(lastEnd)[a]
        invariant lastEnd == old(lastEnd) || (|old(lastEnd)| > MAX_STAMPS && |lastEnd| >= MAX_STAMPS)
        decreases |lastEnd|
      {
        var oldest := Oldest(lastEnd);
        assert (lastEnd - {oldest}).Keys == lastEnd.Keys - {oldest};
        lastEnd := lastEnd - {oldest};
        kept := lastEnd.Keys;
      }
    }
  }

  method Oldest(m: map<Account, real>) returns (a: Account)
    requires m != map[]
    ensures a in m && forall b :: b in m ==> m[a] <= m[b]
  {
    a :| a in m;
    var todo := m.Keys;
    while todo != {}
      invariant todo <= m.Keys && a in m
      invariant forall b :: b in m && b !in todo ==> m[a] <= m[b]
      decreases todo
    {
      var b :| b in todo;
      if m[b] < m[a] { a := b; }
      todo := todo - {b};
    }
  }
}
