/** The life of one shared Telegram client (tg_signer/core/client.py).

    Every coroutine that runs `async with client` goes through `__aenter__` and
    `__aexit__`.  One step below is the code between two suspension points.  All
    coroutines of this module use one account key; different keys share nothing. */
module ClientLifecycle {
  import opened Options

  type Cid = nat   // a coroutine
  type Obj = nat   // a client object

  const MAX_RETRIES: nat := 5

  /** Where a coroutine is suspended.  Connecting, Probing, RetryStopping, Sleeping,
      RollbackStopping and Stopping are inside `async with lock`. */
  datatype Pc =
    | Outside
    | WaitEnter
    | Connecting(attempt: nat)
    | Probing(attempt: nat)
    | RetryStopping(attempt: nat)
    | Sleeping(attempt: nat)
    | RollbackStopping
    | Inside
    | WaitExit
    | Stopping
  {
    predicate Startup() { Connecting? || Probing? || RetryStopping? || Sleeping? }
    predicate InLock() { Startup() || RollbackStopping? || Stopping? }
    predicate StopRunning() { RetryStopping? || RollbackStopping? || Stopping? }
    predicate Holder() { Inside? || WaitExit? }
  }

  /** `refs`, `instance` and `lockMade` are this key's entries of _CLIENT_REFS,
      _CLIENT_INSTANCES and _CLIENT_ASYNC_LOCKS (an absent count reads as 0);
      `owner` is who holds the lock; `connected` holds the objects whose
      is_connected flag is set; `got` is the object each coroutine last got from
      get_client, and objects are numbered as they are made.  `lost` is history: the
      holders that were cancelled before their exit could count them out. */
  datatype State = State(
    pc: map<Cid, Pc>,
    owner: Option<Cid>,
    lockMade: bool,
    refs: int,
    instance: Option<Obj>,
    connected: set<Obj>,
    got: map<Cid, Obj>,
    made: nat,
    lost: nat)
  {
    function Mine(c: Cid): Obj { if c in got then got[c] else 0 }
    function At(c: Cid): Pc { if c in pc then pc[c] else Outside }
    function Holders(): set<Cid> { set c | c in pc && pc[c].Holder() }
    function Move(c: Cid, p: Pc): State { this.(pc := pc[c := p]) }
  }

  const INIT := State(map[], None, false, 0, None, {}, map[], 0, 0)

  /** What may happen next.  `fits` says whether the registered object has the requested
      settings (updates and proxy); `up`/`down` say whether the object's is_connected flag
      is set/cleared when the awaited call returns or raises; `locked` says whether
      the exception text contains "database is locked". */
  datatype Event =
    | GetClient(c: Cid, fits: bool)
    | Enter(c: Cid)
    | CancelWait(c: Cid)
    | AcquireEnter(c: Cid)
    | Connected(c: Cid, authorized: bool)
    | ConnectRaised(c: Cid, locked: bool, up: bool)
    | ProbeOk(c: Cid)
    | ProbeRaised(c: Cid, locked: bool)
    | RetryStopped(c: Cid, down: bool)
    | Wake(c: Cid)
    | RolledBack(c: Cid, down: bool)
    | Leave(c: Cid)
    | CancelExit(c: Cid)   // cancelled while waiting for the lock to leave
    | AcquireExit(c: Cid)
    | Stopped(c: Cid, down: bool)
    | StopCancelled(c: Cid, down: bool)   // cancelled during the last holder's stop

  /** Somebody else waits for the lock: a free lock that nobody waits for is taken without
      suspending. */
  predicate OthersQueue(s: State, c: Cid) {
    exists d :: d in s.pc && d != c && (s.pc[d].WaitEnter? || s.pc[d].WaitExit?)
  }

  predicate Enabled(s: State, e: Event) {
    match e
    case GetClient(c, _) => s.At(c).Outside?
    case Enter(c) => s.At(c).Outside? && c in s.got
    case CancelWait(c) => s.At(c).WaitEnter?
    case AcquireEnter(c) => s.At(c).WaitEnter? && s.owner.None?
    case Connected(c, _) => s.At(c).Connecting?
    case ConnectRaised(c, _, _) => s.At(c).Connecting?
    case ProbeOk(c) => s.At(c).Probing?
    case ProbeRaised(c, _) => s.At(c).Probing?
    case RetryStopped(c, _) => s.At(c).RetryStopping?
    case Wake(c) => s.At(c).Sleeping?
    case RolledBack(c, _) => s.At(c).RollbackStopping?
    case Leave(c) => s.At(c).Inside?
    case CancelExit(c) => s.At(c).WaitExit? && OthersQueue(s, c)
    case AcquireExit(c) => s.At(c).WaitExit? && s.owner.None?
    case Stopped(c, _) => s.At(c).Stopping?
    case StopCancelled(c, _) => s.At(c).Stopping?
  }

  function SetConnected(s: State, o: Obj, up: bool): State {
    s.(connected := if up then s.connected + {o} else s.connected - {o})
  }

  /** The try body of one startup attempt up to its first await. */
  function Attempt(s: State, c: Cid, o: Obj, attempt: nat): State {
    s.Move(c, if o in s.connected then Probing(attempt) else Connecting(attempt))
  }

  /** The except branch of one startup attempt. */
  function Failed(s: State, c: Cid, o: Obj, attempt: nat, locked: bool): State {
    if locked && attempt < MAX_RETRIES - 1 then
      s.Move(c, if o in s.connected then RetryStopping(attempt) else Sleeping(attempt))
    else if s.refs - 1 <= 0 then
      s.(refs := 0, instance := None).Move(c, RollbackStopping)
    else
      s.(refs := s.refs - 1, owner := None).Move(c, Outside)
  }

  /** `get_client`: the registered object, unless there is none or it is unfit and unused. */
  predicate MakesNew(s: State, fits: bool) {
    s.instance.None? || (!fits && s.refs <= 0 && s.instance.value !in s.connected)
  }

  function Apply(s: State, e: Event): State
    requires Enabled(s, e)
  {
    match e
    case GetClient(c, fits) =>
      if MakesNew(s, fits) then s.(instance := Some(s.made), got := s.got[c := s.made], made := s.made + 1)
      else s.(got := s.got[c := s.instance.value])
    case Enter(c) => s.(lockMade := true).Move(c, WaitEnter)
    case CancelWait(c) => s.Move(c, Outside)
    case AcquireEnter(c) =>
      var t := s.(refs := s.refs + 1);
      if t.refs == 1 then Attempt(t.(owner := Some(c)), c, s.Mine(c), 0) else t.Move(c, Inside)
    case Connected(c, authorized) =>
      var t := SetConnected(s, s.Mine(c), true);
      if authorized then t.Move(c, Probing(s.At(c).attempt))
      else Failed(t, c, s.Mine(c), s.At(c).attempt, false)
    case ConnectRaised(c, locked, up) =>
      Failed(SetConnected(s, s.Mine(c), up), c, s.Mine(c), s.At(c).attempt, locked)
    case ProbeOk(c) => s.(owner := None).Move(c, Inside)
    case ProbeRaised(c, locked) => Failed(s, c, s.Mine(c), s.At(c).attempt, locked)
    case RetryStopped(c, down) =>
      (if down then SetConnected(s, s.Mine(c), false) else s).Move(c, Sleeping(s.At(c).attempt))
    case Wake(c) => Attempt(s, c, s.Mine(c), s.At(c).attempt + 1)
    case RolledBack(c, down) =>
      (if down then SetConnected(s, s.Mine(c), false) else s).(owner := None).Move(c, Outside)
    case Leave(c) => s.Move(c, if s.lockMade then WaitExit else Outside)
    case CancelExit(c) => s.(lost := s.lost + 1).Move(c, Outside)
    case AcquireExit(c) =>
      var t := s.(refs := s.refs - 1);
      if t.refs <= 0 then t.(refs := 0, owner := Some(c)).Move(c, Stopping) else t.Move(c, Outside)
    case Stopped(c, down) =>
      (if down then SetConnected(s, s.Mine(c), false) else s)
        .(instance := None, refs := 0, owner := None).Move(c, Outside)
    case StopCancelled(c, down) =>
      (if down then SetConnected(s, s.Mine(c), false) else s).(owner := None).Move(c, Outside)
  }

  // ---------- Runs: any interleaving of any number of coroutines ----------

  /** The state after the events `es`, or None when some event of `es` was not possible. */
  function Run(es: seq<Event>): Option<State> {
    if es == [] then Some(INIT)
    else
      var before := Run(es[..|es| - 1]);
      var e := es[|es| - 1];
      if before.Some? && Enabled(before.value, e) then Some(Apply(before.value, e)) else None
  }

  lemma RunExtends(es: seq<Event>, e: Event)
    requires Run(es).Some? && Enabled(Run(es).value, e)
    ensures Run(es + [e]) == Some(Apply(Run(es).value, e))
  {
    assert (es + [e])[..|es|] == es;
  }

  // ---------- The counting invariant ----------

  /** Who owns the lock is exactly who is in a locked phase; the count is the number
      of holders, lost ones included, when the lock is free, and while it is held there is no
      holder at all: one pending entrant (count 1) or a stop in progress (count 0). */
  ghost predicate Inv(s: State) {
    && (forall c :: c in s.pc && s.pc[c].InLock() ==> s.owner == Some(c))
    && (forall c :: c in s.pc && s.pc[c].Startup() ==> AttemptInRange(s.pc[c]))
    && (forall c :: c in s.pc && !s.pc[c].Outside? ==> s.lockMade)
    && (s.owner.None? ==> s.refs == |s.Holders()| + s.lost)
    && (s.owner.Some? ==>
          && s.At(s.owner.value).InLock()
          && s.Holders() == {} && s.lost == 0
          && s.refs == if s.At(s.owner.value).Startup() then 1 else 0)
  }

  /** A retry is only planned while another attempt is left. */
  predicate AttemptInRange(p: Pc)
    requires p.Startup()
  {
    p.attempt < if p.RetryStopping? || p.Sleeping? then MAX_RETRIES - 1 else MAX_RETRIES
  }

  lemma HoldersAfterMove(s: State, t: State, c: Cid, p: Pc)
    requires t.pc == s.pc[c := p]
    ensures t.Holders() == if p.Holder() then s.Holders() + {c} else s.Holders() - {c}
    ensures (c in s.Holders()) == s.At(c).Holder()
  {
  }

  /** Moves by the lock owner keep the invariant when count and phase agree. */
  lemma OwnerMoves(s: State, t: State, c: Cid, p: Pc)
    requires Inv(s) && s.owner == Some(c) && t.pc == s.pc[c := p] && t.lockMade == s.lockMade && t.lost == s.lost
    requires p.Startup() ==> AttemptInRange(p)
    requires if p.InLock() then t.owner == Some(c) && t.refs == (if p.Startup() then 1 else 0)
             else t.owner == None && t.refs == if p.Holder() then 1 else 0
    ensures Inv(t)
  {
    HoldersAfterMove(s, t, c, p);
    if p.Holder() { assert t.Holders() == {c}; }
  }

  lemma StartupKeepsInv(s: State, e: Event)
    requires Inv(s) && Enabled(s, e)
    requires e.Connected? || e.ConnectRaised? || e.ProbeOk? || e.ProbeRaised?
          || e.RetryStopped? || e.Wake? || e.RolledBack? || e.Stopped? || e.StopCancelled?
    ensures Inv(Apply(s, e))
  {
    assert e.c in s.pc && s.owner == Some(e.c);
    var t := Apply(s, e);
    OwnerMoves(s, t, e.c, t.At(e.c));
  }

  lemma Sizes(h: set<Cid>, c: Cid)
    ensures |h + {c}| == if c in h then |h| else |h| + 1
    ensures |h - {c}| == if c in h then |h| - 1 else |h|
  {
    if c in h {
      assert h + {c} == h;
    } else {
      assert h - {c} == h;
    }
  }

  predicate Counts(p: Pc, n: int) { n == if p.Holder() then 1 else 0 }

  /** Moves outside the lock keep the invariant when the count follows the holder status. */
  lemma BystanderMoves(s: State, t: State, c: Cid, p: Pc, gone: int, come: int)
    requires Inv(s) && t.pc == s.pc[c := p] && t.owner == s.owner
    requires !s.At(c).InLock() && !p.InLock()
    requires t.lockMade == s.lockMade || t.lockMade
    requires !p.Outside? ==> t.lockMade
    requires Counts(s.At(c), gone) && Counts(p, come) && t.refs - t.lost == s.refs - s.lost - gone + come
    requires s.owner.Some? ==> gone == come && t.lost == s.lost
    ensures Inv(t)
  {
    HoldersAfterMove(s, t, c, p);
    Sizes(s.Holders(), c);
    assert s.owner.Some? ==> t.Holders() == {};
  }

  /** Taking the lock to start or to stop the client. */
  lemma OwnerArrives(s: State, t: State, c: Cid, p: Pc)
    requires Inv(s) && t.pc == s.pc[c := p] && s.owner.None? && t.owner == Some(c)
    requires !s.At(c).InLock() && p.InLock() && t.lockMade
    requires p.Startup() ==> AttemptInRange(p)
    requires s.Holders() <= {c}
    requires t.refs == (if p.Startup() then 1 else 0) && t.lost == 0
    ensures Inv(t)
  {
    HoldersAfterMove(s, t, c, p);
  }

  lemma WaitersKeepInv(s: State, e: Event)
    requires Inv(s) && Enabled(s, e)
    requires e.Enter? || e.CancelWait? || e.Leave?
    ensures Inv(Apply(s, e))
  {
    var t := Apply(s, e);
    var n := if e.Leave? then 1 else 0;
    assert e.c in s.pc || e.Enter?;
    BystanderMoves(s, t, e.c, t.At(e.c), n, n);
  }

  lemma EnterKeepsInv(s: State, c: Cid)
    requires Inv(s) && Enabled(s, AcquireEnter(c))
    ensures Inv(Apply(s, AcquireEnter(c)))
  {
    var t := Apply(s, AcquireEnter(c));
    assert c in s.pc;
    if t.owner.None? {
      BystanderMoves(s, t, c, Inside, 0, 1);
    } else {
      assert s.Holders() == {};
      OwnerArrives(s, t, c, t.At(c));
    }
  }

  lemma ExitKeepsInv(s: State, c: Cid)
    requires Inv(s) && Enabled(s, AcquireExit(c))
    ensures Inv(Apply(s, AcquireExit(c)))
  {
    var t := Apply(s, AcquireExit(c));
    assert c in s.Holders();
    if t.owner.None? {
      BystanderMoves(s, t, c, Outside, 1, 0);
    } else {
      assert |s.Holders() - {c}| == 0;
      OwnerArrives(s, t, c, Stopping);
    }
  }

  lemma CancelExitKeepsInv(s: State, c: Cid)
    requires Inv(s) && Enabled(s, CancelExit(c))
    ensures Inv(Apply(s, CancelExit(c))) && s.owner.None? && s.refs >= 1
  {
    assert c in s.Holders();
    BystanderMoves(s, Apply(s, CancelExit(c)), c, Outside, 1, 0);
  }

  lemma StepKeepsInv(s: State, e: Event)
    requires Inv(s) && Enabled(s, e)
    ensures Inv(Apply(s, e))
  {
    match e
    case GetClient(_, _) => assert Apply(s, e).Holders() == s.Holders();
    case Enter(_) => WaitersKeepInv(s, e);
    case CancelWait(_) => WaitersKeepInv(s, e);
    case Leave(_) => WaitersKeepInv(s, e);
    case CancelExit(c) => CancelExitKeepsInv(s, c);
    case AcquireEnter(c) => EnterKeepsInv(s, c);
    case AcquireExit(c) => ExitKeepsInv(s, c);
    case _ => StartupKeepsInv(s, e);
  }

  lemma {:induction false} RunsKeepInv(es: seq<Event>)
    requires Run(es).Some?
    ensures Inv(Run(es).value)
  {
    if es != [] {
      RunsKeepInv(es[..|es| - 1]);
      StepKeepsInv(Run(es[..|es| - 1]).value, es[|es| - 1]);
    } else {
      assert INIT.Holders() == {};
    }
  }

  // ---------- What every run guarantees ----------

  predicate NoCancelledExit(es: seq<Event>) { forall i :: 0 <= i < |es| ==> !es[i].CancelExit? }

  lemma StepLoses(s: State, e: Event)
    requires Enabled(s, e)
    ensures Apply(s, e).lost == s.lost + if e.CancelExit? then 1 else 0
  {
  }

  lemma NoneCancelledSnoc(es: seq<Event>)
    requires es != []
    ensures NoCancelledExit(es) <==> NoCancelledExit(es[..|es| - 1]) && !es[|es| - 1].CancelExit?
  {
  }

  lemma {:induction false} LostAreCancelled(es: seq<Event>)
    requires Run(es).Some?
    ensures Run(es).value.lost == 0 <==> NoCancelledExit(es)
  {
    if es != [] {
      var before := es[..|es| - 1];
      LostAreCancelled(before);
      StepLoses(Run(before).value, es[|es| - 1]);
      NoneCancelledSnoc(es);
    }
  }

  /** Whenever the lock is free the count is the number of holders if and only if no holder
      was cancelled while it waited for the lock to leave; the count is never negative, and an
      exit that gets the lock always finds a positive one. */
  lemma CountIsHolders(es: seq<Event>)
    requires Run(es).Some?
    ensures var s := Run(es).value;
      && s.refs >= 0
      && (s.owner.None? ==> (s.refs == |s.Holders()| <==> NoCancelledExit(es)))
      && (forall c :: Enabled(s, AcquireExit(c)) ==> s.refs >= 1)
  {
    RunsKeepInv(es);
    LostAreCancelled(es);
    var s := Run(es).value;
    forall c | Enabled(s, AcquireExit(c)) ensures s.refs >= 1 {
      assert c in s.Holders();
    }
  }

  /** After such a cancellation the count never returns to zero and the lock is never held
      again: no later run stops the client, or starts it should it go down. */
  lemma LostHolderStays(es: seq<Event>, more: seq<Event>)
    requires Run(es).Some? && Run(es + more).Some? && !NoCancelledExit(es)
    ensures Run(es + more).value.refs >= 1 && Run(es + more).value.owner.None?
  {
    var all := es + more;
    var i :| 0 <= i < |es| && es[i].CancelExit?;
    assert all[i].CancelExit?;
    RunsKeepInv(all);
    LostAreCancelled(all);
  }

  /** At most one coroutine is between acquiring and releasing the lock, so a connect
      never overlaps a stop, and no stop runs while any holder is inside. */
  lemma ConnectNeverOverlapsStop(es: seq<Event>, c: Cid, d: Cid)
    requires Run(es).Some?
    ensures var s := Run(es).value;
      && (s.At(c).InLock() && s.At(d).InLock() ==> c == d)
      && !(s.At(c).Connecting? && s.At(d).StopRunning())
      && (s.At(c).StopRunning() ==> !s.At(d).Holder())
  {
    RunsKeepInv(es);
    var s := Run(es).value;
    if s.At(d).Holder() {
      assert d in s.Holders();
    }
  }

  /** A startup makes at most MAX_RETRIES attempts: they are numbered below it. */
  lemma StartupAttemptsBounded(es: seq<Event>, c: Cid)
    requires Run(es).Some?
    ensures var p := Run(es).value.At(c); p.Startup() ==> p.attempt < MAX_RETRIES
  {
    RunsKeepInv(es);
  }

  // ---------- Start-ups: which failures are tried again ----------

  /** The coroutine that is starting up is the only holder to be: the count is 1. */
  lemma StartupHoldsOne(es: seq<Event>, c: Cid)
    requires Run(es).Some? && Run(es).value.At(c).Startup()
    ensures Run(es).value.refs == 1 && Run(es).value.owner == Some(c)
  {
    RunsKeepInv(es);
  }

  /** Does the event make the attempt of its coroutine fail, and may it be tried again? */
  predicate AttemptFails(e: Event) { e.ConnectRaised? || e.ProbeRaised? || (e.Connected? && !e.authorized) }
  predicate DatabaseLocked(e: Event) { (e.ConnectRaised? || e.ProbeRaised?) && e.locked }

  /** A failed attempt is tried again, with the count still 1 and the object registered, if
      and only if the database was locked and it was not the fifth one; a connected client is
      stopped first.  Every other failure takes the count back, unregisters the object and
      stops it; a refused session is such a failure. */
  lemma RetryExact(es: seq<Event>, e: Event)
    requires Run(es).Some? && Enabled(Run(es).value, e) && AttemptFails(e)
    ensures var s, t := Run(es).value, Apply(Run(es).value, e);
      var k := s.At(e.c).attempt;
      && (t.At(e.c) == RetryStopping(k) || t.At(e.c) == Sleeping(k) <==> DatabaseLocked(e) && k < 4)
      && (t.At(e.c).RollbackStopping? <==> !(DatabaseLocked(e) && k < 4))
      && (t.At(e.c).RollbackStopping? ==> t.refs == 0 && t.instance == None)
      && (!t.At(e.c).RollbackStopping? ==>
            && t.refs == 1 && t.instance == s.instance
            && (t.At(e.c).RetryStopping? <==> s.Mine(e.c) in t.connected))
      && t.owner == Some(e.c)
  {
    StartupHoldsOne(es, e.c);
  }

  /** The own steps still ahead of the coroutine that holds the lock, at most. */
  function StepsLeft(p: Pc): nat
    requires p.Startup() ==> p.attempt < MAX_RETRIES
  {
    match p
    case Connecting(k) => 4 * (4 - k) + 5
    case Probing(k) => 4 * (4 - k) + 4
    case RetryStopping(k) => 4 * (4 - k) + 3
    case Sleeping(k) => 4 * (4 - k) + 2
    case RollbackStopping => 1
    case Stopping => 1
    case _ => 0
  }

  /** The lock is always given back: every own step of its holder is one step nearer to the
      release, at most 21 in all, and nobody else can delay it. */
  lemma LockIsReleased(es: seq<Event>, e: Event, c: Cid)
    requires Run(es).Some? && Enabled(Run(es).value, e) && Run(es).value.owner == Some(c)
    ensures var s, t := Run(es).value, Apply(Run(es).value, e);
      && (t.At(c).Startup() ==> t.At(c).attempt < MAX_RETRIES)
      && (s.At(c).Startup() ==> s.At(c).attempt < MAX_RETRIES)
      && 1 <= StepsLeft(s.At(c)) <= 21
      && (if e.c == c then
            StepsLeft(t.At(c)) < StepsLeft(s.At(c)) && (StepsLeft(t.At(c)) == 0 <==> t.owner == None)
          else t.At(c) == s.At(c) && t.owner == Some(c))
  {
    RunsKeepInv(es);
    var s := Run(es).value;
    assert s.At(c).InLock() && c in s.pc;
    if e.c == c { OwnerIsNearer(s, e); } else { OthersLeaveOwner(s, e, c); }
  }

  lemma OwnerIsNearer(s: State, e: Event)
    requires Inv(s) && Enabled(s, e) && s.owner == Some(e.c)
    requires s.At(e.c).Startup() ==> s.At(e.c).attempt < MAX_RETRIES
    ensures var t := Apply(s, e);
      && (t.At(e.c).Startup() ==> t.At(e.c).attempt < MAX_RETRIES)
      && StepsLeft(t.At(e.c)) < StepsLeft(s.At(e.c)) && (StepsLeft(t.At(e.c)) == 0 <==> t.owner == None)
  {
    assert s.At(e.c).InLock() && e.c in s.pc && ByOwner(e);
    assert s.refs == if s.At(e.c).Startup() then 1 else 0;
    assert s.At(e.c).Startup() ==> AttemptInRange(s.At(e.c));
  }

  lemma OthersLeaveOwner(s: State, e: Event, c: Cid)
    requires Inv(s) && Enabled(s, e) && s.owner == Some(c) && e.c != c
    ensures var t := Apply(s, e); t.At(c) == s.At(c) && t.owner == Some(c) && t.Mine(c) == s.Mine(c) && t.connected == s.connected
  {
    assert s.At(e.c).InLock() ==> e.c in s.pc;
  }

  /** The first coroutine of all, whose first k attempts find the database locked. */
  function LockedStart(c: Cid, k: nat): seq<Event> {
    if k == 0 then [GetClient(c, true)] + [Enter(c)] + [AcquireEnter(c)]
    else LockedStart(c, k - 1) + [ConnectRaised(c, true, false)] + [Wake(c)]
  }

  function Attempting(c: Cid, k: nat): State {
    State(map[c := Connecting(k)], Some(c), true, 1, Some(0), {}, map[c := 0], 1, 0)
  }

  lemma Follows(es: seq<Event>, s: State, e: Event, t: State)
    requires Run(es) == Some(s) && Enabled(s, e) && Apply(s, e) == t
    ensures Run(es + [e]) == Some(t)
  {
    RunExtends(es, e);
  }

  lemma FirstAttempt(c: Cid)
    ensures Run(LockedStart(c, 0)) == Some(Attempting(c, 0))
  {
    var a := INIT.(instance := Some(0), got := map[c := 0], made := 1);
    var b := a.(lockMade := true).Move(c, WaitEnter);
    Follows([], INIT, GetClient(c, true), a);
    assert [] + [GetClient(c, true)] == [GetClient(c, true)];
    Follows([GetClient(c, true)], a, Enter(c), b);
    Follows([GetClient(c, true)] + [Enter(c)], b, AcquireEnter(c), Attempting(c, 0));
  }

  /** All five attempts can be used up: after k locked ones, for every k up to 4, the next is
      under way. */
  lemma {:induction false} LockedAttempts(c: Cid, k: nat)
    requires k <= 4
    ensures Run(LockedStart(c, k)) == Some(Attempting(c, k))
  {
    if k == 0 {
      FirstAttempt(c);
    } else {
      LockedAttempts(c, k - 1);
      NextAttempt(LockedStart(c, k - 1), c, k - 1);
    }
  }

  lemma NextAttempt(es: seq<Event>, c: Cid, k: nat)
    requires Run(es) == Some(Attempting(c, k)) && k < 4
    ensures Run(es + [ConnectRaised(c, true, false)] + [Wake(c)]) == Some(Attempting(c, k + 1))
  {
    var asleep := Attempting(c, k).(pc := map[c := Sleeping(k)]);
    FailsLocked(c, k, asleep);
    Follows(es, Attempting(c, k), ConnectRaised(c, true, false), asleep);
    WakesAgain(c, k, asleep);
    Follows(es + [ConnectRaised(c, true, false)], asleep, Wake(c), Attempting(c, k + 1));
  }

  lemma FailsLocked(c: Cid, k: nat, asleep: State)
    requires k < 4 && asleep == Attempting(c, k).(pc := map[c := Sleeping(k)])
    ensures Enabled(Attempting(c, k), ConnectRaised(c, true, false))
    ensures Apply(Attempting(c, k), ConnectRaised(c, true, false)) == asleep
  {
  }

  lemma WakesAgain(c: Cid, k: nat, asleep: State)
    requires asleep == Attempting(c, k).(pc := map[c := Sleeping(k)])
    ensures Enabled(asleep, Wake(c)) && Apply(asleep, Wake(c)) == Attempting(c, k + 1)
  {
  }

  /** Attempts 0 to 4 all find the database locked: then, and only then, the start-up is
      given up, and the key is free again. */
  lemma FiveAttempts(c: Cid)
    ensures var es := LockedStart(c, 4) + [ConnectRaised(c, true, false)] + [RolledBack(c, true)];
      Run(es) == Some(State(map[c := Outside], None, true, 0, None, {}, map[c := 0], 1, 0))
  {
    LockedAttempts(c, 4);
    var rolling := Attempting(c, 4).(refs := 0, instance := None, pc := map[c := RollbackStopping]);
    Follows(LockedStart(c, 4), Attempting(c, 4), ConnectRaised(c, true, false), rolling);
    Follows(LockedStart(c, 4) + [ConnectRaised(c, true, false)], rolling, RolledBack(c, true),
            State(map[c := Outside], None, true, 0, None, {}, map[c := 0], 1, 0));
  }

  /** A coroutine connects an unconnected object, and probes or stops a connected one. */
  predicate PhaseFits(s: State, c: Cid) {
    && (s.At(c).Connecting? ==> s.Mine(c) !in s.connected)
    && (s.At(c).Probing? || s.At(c).RetryStopping? ==> s.Mine(c) in s.connected)
  }

  lemma OwnFit(s: State, e: Event)
    requires Enabled(s, e) && PhaseFits(s, e.c)
    ensures PhaseFits(Apply(s, e), e.c)
  {
    assert e.GetClient? || Apply(s, e).got == s.got;
  }

  lemma StepKeepsFit(s: State, e: Event, c: Cid)
    requires Inv(s) && Enabled(s, e) && PhaseFits(s, c)
    ensures PhaseFits(Apply(s, e), c)
  {
    if s.At(c).Startup() && e.c != c {
      OthersLeaveOwner(s, e, c);
    } else if e.c == c {
      OwnFit(s, e);
    } else {
      assert Apply(s, e).At(c) == s.At(c);
    }
  }

  /** No object is ever connected twice, nor probed or stopped without being connected. */
  lemma {:induction false} NeverConnectedTwice(es: seq<Event>, c: Cid)
    requires Run(es).Some?
    ensures PhaseFits(Run(es).value, c)
  {
    if es != [] {
      var before := es[..|es| - 1];
      NeverConnectedTwice(before, c);
      RunsKeepInv(before);
      StepKeepsFit(Run(before).value, es[|es| - 1], c);
    }
  }

  /** Somebody is inside, waits to leave or is starting up. */
  ghost predicate InUse(s: State) { exists c :: c in s.pc && (s.pc[c].Holder() || s.pc[c].Startup()) }

  lemma UseIsCounted(s: State)
    requires Inv(s) && s.lost == 0
    ensures InUse(s) <==> s.refs > 0
  {
    if s.owner.Some? {
      var c := s.owner.value;
      assert s.At(c).Startup() ==> c in s.pc;
      forall d | d in s.pc && (s.pc[d].Holder() || s.pc[d].Startup()) ensures s.refs > 0 {
        assert d !in s.Holders() && s.owner == Some(d);
      }
    } else {
      if s.refs > 0 {
        var c :| c in s.Holders();
        assert c in s.pc && s.pc[c].Holder();
      }
      assert forall d :: d in s.pc && s.pc[d].Holder() ==> d in s.Holders();
    }
  }

  /** `get_client` hands out a fresh object if and only if none is registered, or the
      registered one does not fit, is not connected and nobody uses the key: an object in use
      is never replaced. */
  lemma ReplacedExact(es: seq<Event>, c: Cid, fits: bool)
    requires Run(es).Some? && NoCancelledExit(es) && Enabled(Run(es).value, GetClient(c, fits))
    ensures var s, t := Run(es).value, Apply(Run(es).value, GetClient(c, fits));
      && t.instance == Some(t.Mine(c))
      && (t.Mine(c) == s.made && t.made == s.made + 1 <==>
            s.instance.None? || (!fits && s.instance.value !in s.connected && !InUse(s)))
      && (t.made == s.made + 1 || (t.made == s.made && t.instance == s.instance))
  {
    RunsKeepInv(es);
    LostAreCancelled(es);
    UseIsCounted(Run(es).value);
  }

  // ---------- Who starts and who stops the client ----------

  /** With the lock a coroutine starts the client if and only if nobody is inside or waits to
      leave, and is inside at once otherwise. */
  lemma EnterExact(es: seq<Event>, c: Cid)
    requires Run(es).Some? && NoCancelledExit(es) && Enabled(Run(es).value, AcquireEnter(c))
    ensures var s, t := Run(es).value, Apply(Run(es).value, AcquireEnter(c));
      && (t.At(c).Startup() <==> s.Holders() == {})
      && (t.At(c).Inside? <==> s.Holders() != {})
      && (t.At(c).Startup() ==> t.At(c).attempt == 0 && t.owner == Some(c))
      && (t.At(c).Inside? ==> t.owner == None)
      && t.refs == |s.Holders()| + 1 && t.connected == s.connected && t.instance == s.instance
  {
    RunsKeepInv(es);
    LostAreCancelled(es);
  }

  /** With the lock a leaving holder stops the client if and only if it is the only one, and is
      gone at once otherwise. */
  lemma ExitExact(es: seq<Event>, c: Cid)
    requires Run(es).Some? && NoCancelledExit(es) && Enabled(Run(es).value, AcquireExit(c))
    ensures var s, t := Run(es).value, Apply(Run(es).value, AcquireExit(c));
      && (t.At(c).Stopping? <==> s.Holders() == {c})
      && (t.At(c).Outside? <==> s.Holders() != {c})
      && (t.At(c).Stopping? ==> t.owner == Some(c))
      && (t.At(c).Outside? ==> t.owner == None)
      && t.refs == |s.Holders()| - 1 && t.connected == s.connected && t.instance == s.instance
  {
    RunsKeepInv(es);
    LostAreCancelled(es);
    var s := Run(es).value;
    assert c in s.Holders();
    Sizes(s.Holders(), c);
    if s.Holders() != {c} { assert s.Holders() - {c} != {}; }
  }

  /** The end of a stop gives the lock back at count zero.  Whether it worked or not, the last
      holder's stop leaves no object registered, so that the next one asked for is new; one that
      is cancelled, and that of a roll-back, leave what is registered. */
  lemma StopExact(es: seq<Event>, e: Event)
    requires Run(es).Some? && Enabled(Run(es).value, e) && (e.Stopped? || e.StopCancelled? || e.RolledBack?)
    ensures var s, t := Run(es).value, Apply(Run(es).value, e);
      && t.owner == None && t.refs == 0 && t.At(e.c).Outside?
      && (e.Stopped? ==> t.instance == None) && (!e.Stopped? ==> t.instance == s.instance)
      && t.connected == (if e.down then s.connected - {s.Mine(e.c)} else s.connected)
      && (e.Stopped? ==> forall d, fits :: Enabled(t, GetClient(d, fits)) ==> Apply(t, GetClient(d, fits)).Mine(d) == t.made)
  {
    RunsKeepInv(es);
    assert e.c in Run(es).value.pc;
  }

  // ---------- Connected while anyone is inside ----------

  ghost predicate HoldersConnected(s: State) {
    forall c :: c in s.Holders() ==> s.Mine(c) in s.connected
  }

  /** A coroutine joins on a positive count although its own object is not connected. */
  predicate Cold(s: State, e: Event) {
    e.AcquireEnter? && s.refs >= 1 && s.Mine(e.c) !in s.connected
  }

  /** Connected for every holder and for the entrant that is being probed. */
  ghost predicate WarmInv(s: State) {
    && Inv(s) && HoldersConnected(s)
    && (forall c :: c in s.pc && s.pc[c].Probing? ==> s.Mine(c) in s.connected)
  }

  predicate ByOwner(e: Event) {
    e.Connected? || e.ConnectRaised? || e.ProbeOk? || e.ProbeRaised?
    || e.RetryStopped? || e.Wake? || e.RolledBack? || e.Stopped? || e.StopCancelled?
  }

  /** The owner moves while nobody is inside, and goes in itself only after the probe. */
  lemma OwnerIsAlone(s: State, e: Event)
    requires Inv(s) && Enabled(s, e) && ByOwner(e)
    ensures s.Holders() == {} && s.owner == Some(e.c)
    ensures Apply(s, e).Holders() == if e.ProbeOk? then {e.c} else {}
  {
    var t := Apply(s, e);
    assert e.c in s.pc && s.owner == Some(e.c);
    HoldersAfterMove(s, t, e.c, t.At(e.c));
  }

  /** Only the lock owner changes the connection, and only while nobody is inside. */
  lemma OwnerStaysWarm(s: State, e: Event)
    requires WarmInv(s) && Enabled(s, e) && ByOwner(e)
    ensures WarmInv(Apply(s, e))
    ensures s.owner == Some(e.c) && Apply(s, e).Holders() == if e.ProbeOk? then {e.c} else {}
  {
    var t := Apply(s, e);
    StartupKeepsInv(s, e);
    OwnerIsAlone(s, e);
    assert forall d :: d in t.pc && t.pc[d].Probing? ==> t.owner == Some(d) && d == e.c;
    assert t.got == s.got;
  }

  /** Everybody else leaves the connection and the objects in use alone. */
  lemma OthersKeepObjects(s: State, e: Event, d: Cid)
    requires Enabled(s, e) && !ByOwner(e)
    ensures var t := Apply(s, e);
      && t.connected == s.connected
      && (s.At(d) != Outside ==> t.Mine(d) == s.Mine(d))
      && (d != e.c ==> t.At(d) == s.At(d))
  {
  }

  lemma JoinIsExact(s: State, c: Cid)
    requires WarmInv(s) && Enabled(s, AcquireEnter(c))
    ensures var t := Apply(s, AcquireEnter(c));
      && (HoldersConnected(t) <==> !Cold(s, AcquireEnter(c)))
      && (HoldersConnected(t) ==> WarmInv(t))
  {
    var t := Apply(s, AcquireEnter(c));
    EnterKeepsInv(s, c);
    assert c in s.pc;
    HoldersAfterMove(s, t, c, t.At(c));
    if s.refs == 0 { assert s.Holders() == {}; }
    assert forall d :: d in s.pc ==> !s.pc[d].InLock();
  }

  lemma OthersStayWarm(s: State, e: Event)
    requires WarmInv(s) && Enabled(s, e) && !ByOwner(e) && !e.AcquireEnter?
    ensures WarmInv(Apply(s, e))
  {
    var t := Apply(s, e);
    StepKeepsInv(s, e);
    forall d ensures OthersWarm(t, d) {
      OthersKeepObjects(s, e, d);
      OthersKeepObjects(s, e, e.c);
      assert s.At(d).Holder() ==> d in s.Holders();
    }
    assert forall d :: d in t.Holders() ==> t.At(d).Holder() && OthersWarm(t, d);
    assert forall d :: d in t.pc && t.pc[d].Probing? ==> t.At(d).Probing? && OthersWarm(t, d);
  }

  predicate OthersWarm(t: State, d: Cid) {
    (t.At(d).Holder() ==> t.Mine(d) in t.connected) && (t.At(d).Probing? ==> t.Mine(d) in t.connected)
  }

  /** Every holder's object has been connected at every point of the run. */
  ghost predicate AlwaysConnected(es: seq<Event>) {
    && (Run(es).Some? ==> HoldersConnected(Run(es).value))
    && (es == [] || AlwaysConnected(es[..|es| - 1]))
  }

  /** At no point of the run did a coroutine join cold. */
  predicate NeverCold(es: seq<Event>) {
    es == [] ||
    var before := es[..|es| - 1];
    NeverCold(before) && (Run(before).Some? ==> !Cold(Run(before).value, es[|es| - 1]))
  }

  lemma StepIsExact(s: State, e: Event)
    requires WarmInv(s) && Enabled(s, e)
    ensures HoldersConnected(Apply(s, e)) <==> !Cold(s, e)
    ensures HoldersConnected(Apply(s, e)) ==> WarmInv(Apply(s, e))
  {
    if ByOwner(e) {
      OwnerStaysWarm(s, e);
    } else if e.AcquireEnter? {
      JoinIsExact(s, e.c);
    } else {
      OthersStayWarm(s, e);
    }
  }

  lemma {:induction false} RunsStayWarm(es: seq<Event>)
    requires Run(es).Some?
    ensures AlwaysConnected(es) <==> NeverCold(es)
    ensures NeverCold(es) ==> WarmInv(Run(es).value)
  {
    if es == [] {
      assert INIT.Holders() == {};
    } else {
      var before := es[..|es| - 1];
      RunsStayWarm(before);
      if NeverCold(before) { StepIsExact(Run(before).value, es[|es| - 1]); }
    }
  }

  /** At every point of a run all holders' objects are connected if and only if no coroutine
      that takes the lock finds a positive count while its own object is not connected. */
  lemma ConnectedExact(es: seq<Event>)
    requires Run(es).Some?
    ensures AlwaysConnected(es) <==> NeverCold(es)
  {
    RunsStayWarm(es);
  }

  /** A coroutine that joins with the object of somebody inside never joins cold. */
  lemma SharedObjectJoinsWarm(es: seq<Event>, c: Cid, d: Cid)
    requires Run(es).Some? && NeverCold(es) && Enabled(Run(es).value, AcquireEnter(c))
    requires var s := Run(es).value; s.At(d).Holder() && s.Mine(c) == s.Mine(d)
    ensures !Cold(Run(es).value, AcquireEnter(c))
  {
    RunsStayWarm(es);
    assert d in Run(es).value.Holders();
  }

  // ---------- With get_client: how two objects meet on one count ----------

  lemma Extend(es: seq<Event>, s: State, e: Event, t: State) returns (fs: seq<Event>)
    requires Run(es) == Some(s) && Enabled(s, e) && Apply(s, e) == t
    ensures Run(fs) == Some(t)
  {
    fs := es + [e];
    Follows(es, s, e, t);
  }

  lemma MoveTwice(s: State, c: Cid, p: Pc, q: Pc)
    ensures s.Move(c, p).Move(c, q) == s.Move(c, q)
  {
  }

  /** A waiting coroutine that finds the lock free and the count zero starts its object. */
  lemma StartsUp(es: seq<Event>, s: State, c: Cid) returns (fs: seq<Event>)
    requires Run(es) == Some(s) && s.At(c) == WaitEnter && s.owner.None? && s.refs == 0 && s.Mine(c) !in s.connected
    ensures Run(fs) == Some(s.(refs := 1, connected := s.connected + {s.Mine(c)}).Move(c, Inside))
  {
    var a := s.(owner := Some(c), refs := 1);
    var b := a.(connected := s.connected + {s.Mine(c)});
    fs := Extend(es, s, AcquireEnter(c), a.Move(c, Connecting(0)));
    MoveTwice(b, c, Connecting(0), Probing(0));
    fs := Extend(fs, a.Move(c, Connecting(0)), Connected(c, true), b.Move(c, Probing(0)));
    MoveTwice(b, c, Probing(0), Inside);
    fs := Extend(fs, b.Move(c, Probing(0)), ProbeOk(c), b.(owner := None).Move(c, Inside));
  }

  /** The only holder begins to stop the client. */
  lemma BeginsStop(es: seq<Event>, s: State, c: Cid) returns (fs: seq<Event>)
    requires Run(es) == Some(s) && s.At(c) == Inside && s.owner.None? && s.refs == 1 && s.lockMade
    ensures Run(fs) == Some(s.(owner := Some(c), refs := 0).Move(c, Stopping))
  {
    fs := Extend(es, s, Leave(c), s.Move(c, WaitExit));
    MoveTwice(s, c, WaitExit, Stopping);
    fs := Extend(fs, s.Move(c, WaitExit), AcquireExit(c), s.(owner := Some(c), refs := 0).Move(c, Stopping));
  }

  /** Two coroutines get the same object and one of them begins to enter. */
  lemma BothGet(c: Cid, d: Cid) returns (es: seq<Event>, s: State)
    requires c != d
    ensures Run(es) == Some(s)
    ensures s == State(map[c := WaitEnter], None, true, 0, Some(0), {}, map[c := 0, d := 0], 1, 0)
  {
    var a := INIT.(instance := Some(0), got := map[c := 0], made := 1);
    es := Extend([], INIT, GetClient(c, true), a);
    var b := a.(got := map[c := 0, d := 0]);
    es := Extend(es, a, GetClient(d, true), b);
    s := b.(lockMade := true).Move(c, WaitEnter);
    es := Extend(es, b, Enter(c), s);
  }

  /** Two coroutines get the same object; one uses it and, as the last holder, begins to stop
      it while the other waits for the lock. */
  lemma WaitsForStop(c: Cid, d: Cid) returns (es: seq<Event>, s: State)
    requires c != d
    ensures Run(es) == Some(s) && s.At(c) == Stopping && s.At(d) == WaitEnter && s.owner == Some(c)
    ensures s.pc.Keys == {c, d} && s.refs == 0 && s.lockMade
    ensures s.got == map[c := 0, d := 0] && s.made == 1 && s.connected == {0}
  {
    var s3;
    es, s3 := BothGet(c, d);
    es := StartsUp(es, s3, c);
    var s4 := s3.(refs := 1, connected := {0}).Move(c, Inside);
    assert s3.connected + {0} == {0};
    es := BeginsStop(es, s4, c);
    var s5 := s4.(owner := Some(c), refs := 0).Move(c, Stopping);
    s := s5.Move(d, WaitEnter);
    es := Extend(es, s5, Enter(d), s);
  }

  /** The stop unregisters the object, the waiter starts it again unregistered, and a third
      coroutine gets a new object and joins with it on the waiter's count: it is inside an
      object nobody connected. */
  lemma WaiterAndNewcomerMeet(c: Cid, d: Cid, e: Cid) returns (es: seq<Event>, s: State)
    requires c != d && d != e && e != c
    ensures Run(es) == Some(s) && s.At(d) == Inside && s.At(e) == Inside && s.refs == 2
    ensures s.Mine(d) != s.Mine(e) && s.instance == Some(s.Mine(e)) && s.connected == {s.Mine(d)}
    ensures !HoldersConnected(s) && !NeverCold(es)
  {
    var s0;
    es, s0 := WaitsForStop(c, d);
    var s1 := s0.(instance := None, connected := {}, owner := None).Move(c, Outside);
    assert s0.connected - {0} == {};
    es := Extend(es, s0, Stopped(c, true), s1);
    es := StartsUp(es, s1, d);
    var s2 := s1.(refs := 1, connected := s1.connected + {0}).Move(d, Inside);
    var s3 := s2.(instance := Some(1), got := s2.got[e := 1], made := 2);
    es := Extend(es, s2, GetClient(e, true), s3);
    var s4 := s3.Move(e, WaitEnter);
    es := Extend(es, s3, Enter(e), s4);
    s := s4.(refs := 2).Move(e, Inside);
    es := Extend(es, s4, AcquireEnter(e), s);
    assert e in s.Holders();
    RunsStayWarm(es);
  }

  /** One coroutine starts the client while another waits for the lock.  The first leaves, has
      to queue behind the other, and is cancelled there; then the other goes in: the count is
      two with one holder. */
  lemma CancelledExitMiscounts(c: Cid, d: Cid) returns (es: seq<Event>, s: State)
    requires c != d
    ensures Run(es) == Some(s) && s.refs == 2 && s.Holders() == {d} && s.owner.None? && !NoCancelledExit(es)
  {
    var a: State;
    es, a := LeavesBehind(c, d);
    assert d in a.pc && a.pc[d].WaitEnter?;
    var b := a.(lost := 1).Move(c, Outside);
    es := Extend(es, a, CancelExit(c), b);
    s := b.(refs := 2).Move(d, Inside);
    es := Extend(es, b, AcquireEnter(d), s);
    assert s.Holders() == {d};
    LostAreCancelled(es);
  }

  lemma LeavesBehind(c: Cid, d: Cid) returns (es: seq<Event>, s: State)
    requires c != d
    ensures Run(es) == Some(s) && s.pc.Keys == {c, d} && s.At(c) == WaitExit && s.At(d) == WaitEnter
    ensures s.owner.None? && s.refs == 1 && s.lost == 0 && s.lockMade
  {
    var s3;
    es, s3 := BothGet(c, d);
    var s4 := s3.(owner := Some(c), refs := 1).Move(c, Connecting(0));
    es := Extend(es, s3, AcquireEnter(c), s4);
    var s5 := s4.Move(d, WaitEnter);
    es := Extend(es, s4, Enter(d), s5);
    es, s := GoesInAndLeaves(es, s5, c);
  }

  lemma GoesInAndLeaves(es: seq<Event>, s: State, c: Cid) returns (fs: seq<Event>, t: State)
    requires Run(es) == Some(s) && s.At(c) == Connecting(0) && s.lockMade
    ensures Run(fs) == Some(t) && t.owner.None? && t.refs == s.refs && t.lost == s.lost && t.lockMade
    ensures t.pc == s.pc[c := WaitExit]
  {
    var a := SetConnected(s, s.Mine(c), true).Move(c, Probing(0));
    fs := Extend(es, s, Connected(c, true), a);
    var b := a.(owner := None).Move(c, Inside);
    fs := Extend(fs, a, ProbeOk(c), b);
    t := b.Move(c, WaitExit);
    fs := Extend(fs, b, Leave(c), t);
  }

  // ---------- Nothing is left connected ----------

  predicate StopsWork(e: Event) {
    (e.RetryStopped? || e.RolledBack? || e.Stopped? || e.StopCancelled?) ==> e.down
  }

  /** What lies connected is the object of every holder. */
  ghost predicate OneObject(s: State) {
    forall o, c :: o in s.connected && c in s.Holders() ==> s.Mine(c) == o
  }

  /** Nothing is connected but the owner's object while the lock is held, and but the one
      object of all the holders while it is free. */
  ghost predicate CleanInv(s: State) {
    && WarmInv(s) && s.lost == 0
    && (s.owner.Some? ==> s.connected <= {s.Mine(s.owner.value)})
    && (s.owner.None? ==> OneObject(s) && (s.Holders() == {} ==> s.connected == {}))
  }

  lemma OwnerStaysClean(s: State, e: Event)
    requires CleanInv(s) && Enabled(s, e) && ByOwner(e) && StopsWork(e)
    ensures CleanInv(Apply(s, e))
  {
    OwnerStaysWarm(s, e);
    var t := Apply(s, e);
    assert t.got == s.got;
    assert s.refs == if s.At(e.c).Startup() then 1 else 0;
  }

  lemma JoinStaysClean(s: State, c: Cid)
    requires CleanInv(s) && Enabled(s, AcquireEnter(c)) && !Cold(s, AcquireEnter(c))
    ensures CleanInv(Apply(s, AcquireEnter(c)))
  {
    var t := Apply(s, AcquireEnter(c));
    JoinIsExact(s, c);
    HoldersAfterMove(s, t, c, t.At(c));
    assert t.got == s.got && t.connected == s.connected;
    assert s.refs == |s.Holders()|;
  }

  lemma LeaveStaysClean(s: State, c: Cid)
    requires CleanInv(s) && Enabled(s, AcquireExit(c))
    ensures CleanInv(Apply(s, AcquireExit(c)))
  {
    var t := Apply(s, AcquireExit(c));
    OthersStayWarm(s, AcquireExit(c));
    HoldersAfterMove(s, t, c, t.At(c));
    assert t.got == s.got && t.connected == s.connected;
    assert c in s.Holders();
    NonEmptyIffCounted(t);
  }

  lemma WaitersKeepHolders(s: State, e: Event)
    requires Enabled(s, e) && (e.Enter? || e.CancelWait? || e.Leave?)
    requires e.Leave? ==> s.lockMade
    ensures Apply(s, e).Holders() == s.Holders()
  {
    var t := Apply(s, e);
    assert e.c in s.pc || e.Enter?;
    HoldersAfterMove(s, t, e.c, t.At(e.c));
  }

  lemma CleanTransfers(s: State, t: State)
    requires CleanInv(s) && WarmInv(t)
    requires t.got == s.got && t.lost == s.lost && t.owner == s.owner && t.connected == s.connected && t.Holders() == s.Holders()
    ensures CleanInv(t)
  {
  }

  lemma WaitStaysClean(s: State, e: Event)
    requires CleanInv(s) && Enabled(s, e) && (e.Enter? || e.CancelWait? || e.Leave?)
    ensures CleanInv(Apply(s, e))
  {
    assert e.Leave? ==> e.c in s.pc && s.lockMade;
    OthersStayWarm(s, e);
    WaitersKeepHolders(s, e);
    CleanTransfers(s, Apply(s, e));
  }

  lemma FetchStaysClean(s: State, c: Cid, fits: bool)
    requires CleanInv(s) && Enabled(s, GetClient(c, fits))
    ensures CleanInv(Apply(s, GetClient(c, fits)))
  {
    var t := Apply(s, GetClient(c, fits));
    OthersStayWarm(s, GetClient(c, fits));
    assert t.pc == s.pc && t.Holders() == s.Holders() && t.owner == s.owner && t.connected == s.connected;
    assert forall d :: d != c ==> t.Mine(d) == s.Mine(d);
    assert c !in s.Holders() && s.owner != Some(c);
  }

  lemma OthersStayClean(s: State, e: Event)
    requires CleanInv(s) && Enabled(s, e) && !ByOwner(e) && !Cold(s, e) && !e.CancelExit?
    ensures CleanInv(Apply(s, e))
  {
    if e.AcquireEnter? {
      JoinStaysClean(s, e.c);
    } else if e.AcquireExit? {
      LeaveStaysClean(s, e.c);
    } else if e.GetClient? {
      FetchStaysClean(s, e.c, e.fits);
    } else {
      WaitStaysClean(s, e);
    }
  }

  lemma NonEmptyIffCounted(s: State)
    requires Inv(s)
    ensures s.owner.None? && s.lost == 0 ==> (s.Holders() != {} <==> s.refs > 0)
  {
  }

  lemma {:induction false} RunsStayClean(es: seq<Event>)
    requires Run(es).Some? && NeverCold(es)
    requires forall i :: 0 <= i < |es| ==> StopsWork(es[i]) && !es[i].CancelExit?
    ensures CleanInv(Run(es).value)
  {
    if es == [] {
      assert INIT.Holders() == {};
    } else {
      var before, e := es[..|es| - 1], es[|es| - 1];
      RunsStayClean(before);
      if ByOwner(e) { OwnerStaysClean(Run(before).value, e); } else { OthersStayClean(Run(before).value, e); }
    }
  }

  lemma OwnerIsBusy(s: State)
    requires Inv(s)
    ensures s.owner.None? || s.At(s.owner.value).InLock()
  {
  }

  /** When every stop takes the client down, nobody joins cold and no exit is cancelled, a key nobody uses has a
      free lock, count 0 and no connection left, however many objects it has had: failed
      startups and last exits both clean up. */
  lemma IdleMeansDisconnected(es: seq<Event>)
    requires Run(es).Some? && NeverCold(es)
    requires forall i :: 0 <= i < |es| ==> StopsWork(es[i]) && !es[i].CancelExit?
    requires forall c :: Run(es).value.At(c).Outside? || Run(es).value.At(c).WaitEnter?
    ensures var s := Run(es).value; s.owner.None? && s.refs == 0 && s.connected == {}
  {
    RunsStayClean(es);
    var s := Run(es).value;
    assert forall c :: c in s.Holders() ==> s.At(c).Holder();
    assert s.Holders() == {};
    OwnerIsBusy(s);
  }

  /** On such a run joining cold is exactly joining with another object than those inside. */
  lemma ColdIsForeign(es: seq<Event>, c: Cid, d: Cid)
    requires Run(es).Some? && NeverCold(es)
    requires forall i :: 0 <= i < |es| ==> StopsWork(es[i]) && !es[i].CancelExit?
    requires Enabled(Run(es).value, AcquireEnter(c)) && Run(es).value.At(d).Holder()
    ensures Cold(Run(es).value, AcquireEnter(c)) <==> Run(es).value.Mine(c) != Run(es).value.Mine(d)
  {
    RunsStayClean(es);
    var s := Run(es).value;
    assert d in s.Holders();
    NonEmptyIffCounted(s);
  }


  // ---------- The code itself ----------

  /** The module dictionaries' entries for one key, updated in place by the code between
      two suspension points of `__aenter__` and `__aexit__`. */
  class SharedClient {
    var pc: map<Cid, Pc>
    var owner: Option<Cid>
    var lockMade: bool
    var refs: int
    var instance: Option<Obj>
    var connected: set<Obj>
    var got: map<Cid, Obj>
    var made: nat
    ghost var lost: nat

    ghost function View(): State
      reads this
    {
      State(pc, owner, lockMade, refs, instance, connected, got, made, lost)
    }

    function At(c: Cid): Pc
      reads this
    {
      if c in pc then pc[c] else Outside
    }

    function Mine(c: Cid): Obj
      reads this
    {
      if c in got then got[c] else 0
    }

    constructor ()
      ensures View() == INIT
    {
      pc, owner, lockMade, refs, instance, connected, got, made, lost := map[], None, false, 0, None, {}, map[], 0, 0;
    }

    /** `get_client`; `fits` compares the registered object's settings with the requested. */
    method FetchClient(c: Cid, fits: bool) returns (o: Obj)
      requires Enabled(View(), GetClient(c, fits))
      modifies this
      ensures View() == Apply(old(View()), GetClient(c, fits))
      ensures o == Mine(c) && instance == Some(o)
    {
      if instance.Some? {
        if !fits && refs <= 0 && instance.value !in connected {
          instance := None;
        } else {
          got := got[c := instance.value];
          return instance.value;
        }
      }
      o := made;
      made := made + 1;
      instance := Some(o);
      got := got[c := o];
    }

    /** `__aenter__` up to waiting for the lock. */
    method BeginEnter(c: Cid)
      requires Enabled(View(), Enter(c))
      modifies this
      ensures View() == Apply(old(View()), Enter(c))
    {
      if !lockMade {
        lockMade := true;
      }
      pc := pc[c := WaitEnter];
    }

    /** `__aenter__` once the lock is held: the first holder starts the client. */
    method LockForEnter(c: Cid)
      requires Enabled(View(), AcquireEnter(c))
      modifies this
      ensures View() == Apply(old(View()), AcquireEnter(c))
    {
      refs := refs + 1;
      if refs == 1 {
        owner := Some(c);
        TryAttempt(c, 0);
      } else {
        pc := pc[c := Inside];
      }
    }

    method TryAttempt(c: Cid, attempt: nat)
      modifies this`pc
      ensures View() == Attempt(old(View()), c, Mine(c), attempt)
    {
      if Mine(c) !in connected {
        pc := pc[c := Connecting(attempt)];
      } else {
        pc := pc[c := Probing(attempt)];
      }
    }

    /** `connect()` returned: unauthorised sessions raise ConnectionError. */
    method ConnectReturned(c: Cid, authorized: bool)
      requires Enabled(View(), Connected(c, authorized))
      modifies this
      ensures View() == Apply(old(View()), Connected(c, authorized))
    {
      connected := connected + {Mine(c)};
      var attempt := At(c).attempt;
      if authorized {
        pc := pc[c := Probing(attempt)];
      } else {
        HandleFailure(c, attempt, false);
      }
    }

    method ConnectFailed(c: Cid, locked: bool, up: bool)
      requires Enabled(View(), ConnectRaised(c, locked, up))
      modifies this
      ensures View() == Apply(old(View()), ConnectRaised(c, locked, up))
    {
      connected := if up then connected + {Mine(c)} else connected - {Mine(c)};
      HandleFailure(c, At(c).attempt, locked);
    }

    method ProbeReturned(c: Cid)
      requires Enabled(View(), ProbeOk(c))
      modifies this
      ensures View() == Apply(old(View()), ProbeOk(c))
    {
      owner := None;
      pc := pc[c := Inside];
    }

    method ProbeFailed(c: Cid, locked: bool)
      requires Enabled(View(), ProbeRaised(c, locked))
      modifies this
      ensures View() == Apply(old(View()), ProbeRaised(c, locked))
    {
      HandleFailure(c, At(c).attempt, locked);
    }

    /** The `except Exception` branch: retry on a locked database, else roll the count back. */
    method HandleFailure(c: Cid, attempt: nat, locked: bool)
      modifies this
      ensures View() == Failed(old(View()), c, Mine(c), attempt, locked)
    {
      if locked && attempt < MAX_RETRIES - 1 {
        if Mine(c) in connected {
          pc := pc[c := RetryStopping(attempt)];
        } else {
          pc := pc[c := Sleeping(attempt)];
        }
        return;
      }
      refs := refs - 1;
      if refs <= 0 {
        refs := 0;
        instance := None;
        pc := pc[c := RollbackStopping];
      } else {
        owner := None;
        pc := pc[c := Outside];
      }
    }

    method RetryStopReturned(c: Cid, down: bool)
      requires Enabled(View(), RetryStopped(c, down))
      modifies this
      ensures View() == Apply(old(View()), RetryStopped(c, down))
    {
      if down { connected := connected - {Mine(c)}; }
      pc := pc[c := Sleeping(At(c).attempt)];
    }

    method SleepOver(c: Cid)
      requires Enabled(View(), Wake(c))
      modifies this
      ensures View() == Apply(old(View()), Wake(c))
    {
      TryAttempt(c, At(c).attempt + 1);
    }

    method RollbackStopReturned(c: Cid, down: bool)
      requires Enabled(View(), RolledBack(c, down))
      modifies this
      ensures View() == Apply(old(View()), RolledBack(c, down))
    {
      if down { connected := connected - {Mine(c)}; }
      owner := None;
      pc := pc[c := Outside];
    }

    /** `__aexit__` up to waiting for the lock; without a lock entry it returns at once. */
    method BeginExit(c: Cid)
      requires Enabled(View(), Leave(c))
      modifies this
      ensures View() == Apply(old(View()), Leave(c))
    {
      if !lockMade {
        pc := pc[c := Outside];
        return;
      }
      pc := pc[c := WaitExit];
    }

    /** Cancelled in that wait: nothing is counted out. */
    method ExitCancelled(c: Cid)
      requires Enabled(View(), CancelExit(c))
      modifies this
      ensures View() == Apply(old(View()), CancelExit(c))
    {
      lost := lost + 1;
      pc := pc[c := Outside];
    }

    /** `__aexit__` once the lock is held: the last holder stops the client. */
    method LockForExit(c: Cid)
      requires Enabled(View(), AcquireExit(c))
      modifies this
      ensures View() == Apply(old(View()), AcquireExit(c))
    {
      refs := refs - 1;
      if refs <= 0 {
        refs := 0;
        owner := Some(c);
        pc := pc[c := Stopping];
      } else {
        pc := pc[c := Outside];
      }
    }

    method StopReturned(c: Cid, down: bool)
      requires Enabled(View(), Stopped(c, down))
      modifies this
      ensures View() == Apply(old(View()), Stopped(c, down))
    {
      if down { connected := connected - {Mine(c)}; }
      instance := None;
      refs := 0;
      owner := None;
      pc := pc[c := Outside];
    }

    /** The last holder is cancelled during the stop: the count is zero already, the object
        stays registered. */
    method StopInterrupted(c: Cid, down: bool)
      requires Enabled(View(), StopCancelled(c, down))
      modifies this
      ensures View() == Apply(old(View()), StopCancelled(c, down))
    {
      if down { connected := connected - {Mine(c)}; }
      owner := None;
      pc := pc[c := Outside];
    }
  }
}
