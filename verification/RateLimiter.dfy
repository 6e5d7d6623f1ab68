/** The in-memory rate limiter (backend/core/rate_limit.py): sliding windows, a block
    after an overrun, and an amortised sweep over all buckets.  Time is a real number of
    seconds on a clock that never goes back. */
module RateLimiter {
  import opened Options

  datatype Bucket = Bucket(scope: string, key: string)

  datatype Params = Params(maxAttempts: int, window: int, block: int) {
    function Limit(): nat { Max(maxAttempts, 1) }
    function Window(): nat { Max(window, 1) }
    function Block(): nat { Max(block, 1) }
  }

  datatype Answer = Accepted | Rejected(retryAfter: int)

  const STALE_BUCKET_AGE: real := 3600.0
  const SWEEP_INTERVAL: nat := 256

  function Max(a: int, b: int): int { if a >= b then a else b }

  function Ceil(x: real): int { -((-x).Floor) }

  // ---------- One bucket alone ----------

  /** What the limiter remembers of one bucket; an absent deque is empty. */
  datatype Slot = Slot(attempts: seq<real>, blockedUntil: Option<real>) {
    function BlockedUntil(): real { if blockedUntil.Some? then blockedUntil.value else 0.0 }
  }

  const EMPTY := Slot([], None)

  function EvictOld(attempts: seq<real>, cutoff: real): seq<real> {
    if attempts != [] && attempts[0] <= cutoff then EvictOld(attempts[1..], cutoff) else attempts
  }

  function HitSlot(s: Slot, p: Params, now: real): (Slot, Answer) {
    if s.BlockedUntil() > now then
      (s, Rejected(Max(Ceil(s.BlockedUntil() - now), 1)))
    else
      var attempts := EvictOld(s.attempts, now - p.Window() as real) + [now];
      if |attempts| <= p.Limit() then (s.(attempts := attempts), Accepted)
      else (Slot([], Some(now + p.Block() as real)), Rejected(p.Block()))
  }

  // ---------- The limiter ----------

  datatype Limiter = Limiter(attempts: map<Bucket, seq<real>>, blocked: map<Bucket, real>, hits: nat) {
    function SlotOf(b: Bucket): Slot {
      Slot(if b in attempts then attempts[b] else [], if b in blocked then Some(blocked[b]) else None)
    }
  }

  predicate Stale(attempts: seq<real>, now: real) {
    attempts == [] || attempts[|attempts| - 1] <= now - STALE_BUCKET_AGE
  }

  function Sweep(l: Limiter, now: real): Limiter {
    l.(attempts := map b | b in l.attempts && !Stale(l.attempts[b], now) :: l.attempts[b],
       blocked := map b | b in l.blocked && l.blocked[b] > now :: l.blocked[b])
  }

  /** Counting the hit, with the sweep when its turn has come. */
  function CountHit(l: Limiter, now: real): Limiter {
    if l.hits + 1 >= SWEEP_INTERVAL then Sweep(l.(hits := 0), now) else l.(hits := l.hits + 1)
  }

  function HitLimiter(l: Limiter, b: Bucket, p: Params, now: real): (Limiter, Answer) {
    var counted := CountHit(l, now);
    var (slot, answer) := HitSlot(counted.SlotOf(b), p, now);
    if counted.SlotOf(b).BlockedUntil() > now then (counted, answer)
    else
      (counted.(attempts := counted.attempts[b := slot.attempts],
                blocked := if answer.Rejected? then counted.blocked[b := slot.BlockedUntil()] else counted.blocked),
       answer)
  }

  datatype Op = Hit(b: Bucket, p: Params, now: real) | Reset(b: Bucket) | ResetAll

  function Perform(l: Limiter, op: Op): Limiter {
    match op
    case Hit(b, p, now) => HitLimiter(l, b, p, now).0
    case Reset(b) => l.(attempts := l.attempts - {b}, blocked := l.blocked - {b})
    case ResetAll => Limiter(map[], map[], 0)
  }

  function After(ops: seq<Op>): Limiter {
    if ops == [] then Limiter(map[], map[], 0)
    else Perform(After(ops[..|ops| - 1]), ops[|ops| - 1])
  }

  /** The last clock reading; the clock starts at or after 0. */
  function Clock(ops: seq<Op>): real {
    if ops == [] then 0.0
    else if ops[|ops| - 1].Hit? then ops[|ops| - 1].now
    else Clock(ops[..|ops| - 1])
  }

  predicate Clocked(ops: seq<Op>) {
    ops == [] ||
    (Clocked(ops[..|ops| - 1]) && (ops[|ops| - 1].Hit? ==> Clock(ops[..|ops| - 1]) <= ops[|ops| - 1].now))
  }

  // ---------- Reference: every bucket on its own, never swept ----------

  function PerformAlone(s: Slot, op: Op, b: Bucket): Slot {
    match op
    case Hit(c, p, now) => if c == b then HitSlot(s, p, now).0 else s
    case Reset(c) => if c == b then EMPTY else s
    case ResetAll => EMPTY
  }

  function AfterAlone(ops: seq<Op>, b: Bucket): Slot {
    if ops == [] then EMPTY
    else PerformAlone(AfterAlone(ops[..|ops| - 1], b), ops[|ops| - 1], b)
  }

  // ---------- The sweep cannot be observed ----------

  ghost predicate SortedUpTo(a: seq<real>, now: real) {
    && (forall i, j :: 0 <= i < j < |a| ==> a[i] <= a[j])
    && (forall i :: 0 <= i < |a| ==> a[i] <= now)
  }

  /** `l` is what is left of `s` after sweeps: equal, or forgotten because too old. */
  ghost predicate Forgets(l: Slot, s: Slot, now: real) {
    && SortedUpTo(s.attempts, now)
    && (l.attempts == s.attempts
        || (l.attempts == [] && forall i :: 0 <= i < |s.attempts| ==> s.attempts[i] <= now - STALE_BUCKET_AGE))
    && (l.blockedUntil == s.blockedUntil || (l.blockedUntil.None? && s.BlockedUntil() <= now))
    && (s.BlockedUntil() > now ==> s.attempts == [])
  }

  lemma {:induction false} EvictIsSuffix(a: seq<real>, cutoff: real) returns (k: nat)
    ensures k <= |a| && EvictOld(a, cutoff) == a[k..]
    ensures forall i :: 0 <= i < k ==> a[i] <= cutoff
    ensures k < |a| ==> a[k] > cutoff
  {
    k := 0;
    if a != [] && a[0] <= cutoff {
      var j := EvictIsSuffix(a[1..], cutoff);
      k := j + 1;
      assert forall i :: 1 <= i < k ==> a[i] == a[1..][i - 1];
    }
  }

  lemma EvictAll(a: seq<real>, cutoff: real)
    requires forall i :: 0 <= i < |a| ==> a[i] <= cutoff
    ensures EvictOld(a, cutoff) == []
  {
    var k := EvictIsSuffix(a, cutoff);
  }

  lemma HitSlotForgets(l: Slot, s: Slot, p: Params, before: real, now: real)
    requires Forgets(l, s, before) && 0.0 <= before <= now
    requires p.window as real <= STALE_BUCKET_AGE
    ensures HitSlot(l, p, now).1 == HitSlot(s, p, now).1
    ensures Forgets(HitSlot(l, p, now).0, HitSlot(s, p, now).0, now)
  {
    if s.BlockedUntil() <= now {
      SameAfterEviction(l, s, p, before, now);
      SortedAfterEviction(s.attempts, now - p.Window() as real, before, now);
    }
  }

  lemma SameAfterEviction(l: Slot, s: Slot, p: Params, before: real, now: real)
    requires Forgets(l, s, before) && 0.0 <= before <= now && p.window as real <= STALE_BUCKET_AGE
    ensures EvictOld(l.attempts, now - p.Window() as real) == EvictOld(s.attempts, now - p.Window() as real)
  {
    if l.attempts != s.attempts { EvictAll(s.attempts, now - p.Window() as real); }
  }

  lemma SortedAfterEviction(a: seq<real>, cutoff: real, before: real, now: real)
    requires SortedUpTo(a, before) && before <= now
    ensures SortedUpTo(EvictOld(a, cutoff) + [now], now)
  {
    var k := EvictIsSuffix(a, cutoff);
  }

  lemma ForgetsLater(l: Slot, s: Slot, before: real, now: real)
    requires Forgets(l, s, before) && before <= now
    ensures Forgets(l, s, now)
  {
  }

  lemma SweepForgets(l: Limiter, s: Slot, b: Bucket, now: real)
    requires Forgets(l.SlotOf(b), s, now) && now >= 0.0
    ensures Forgets(CountHit(l, now).SlotOf(b), s, now)
  {
  }

  lemma HitForgets(l: Limiter, s: Slot, b: Bucket, c: Bucket, p: Params, before: real, now: real)
    requires Forgets(l.SlotOf(b), s, before) && 0.0 <= before <= now
    requires p.window as real <= STALE_BUCKET_AGE
    ensures Forgets(HitLimiter(l, c, p, now).0.SlotOf(b), PerformAlone(s, Hit(c, p, now), b), now)
  {
    ForgetsLater(l.SlotOf(b), s, before, now);
    SweepForgets(l, s, b, now);
    var counted := CountHit(l, now);
    var next := HitLimiter(l, c, p, now).0;
    if c == b {
      HitSlotForgets(counted.SlotOf(b), s, p, now, now);
      assert next.SlotOf(b) == HitSlot(counted.SlotOf(b), p, now).0;
    } else {
      assert next.SlotOf(b) == counted.SlotOf(b);
    }
  }

  lemma {:induction false} RunForgets(ops: seq<Op>, b: Bucket)
    requires Clocked(ops) && Windows(ops, 3600)
    ensures Clock(ops) >= 0.0
    ensures Forgets(After(ops).SlotOf(b), AfterAlone(ops, b), Clock(ops))
  {
    if ops != [] {
      var before, op := ops[..|ops| - 1], ops[|ops| - 1];
      assert Windows(before, 3600);
      RunForgets(before, b);
      if op.Hit? {
        HitForgets(After(before), AfterAlone(before, b), b, op.b, op.p, Clock(before), op.now);
      }
    }
  }

  predicate Windows(ops: seq<Op>, w: int) {
    forall i :: 0 <= i < |ops| && ops[i].Hit? ==> ops[i].p.window <= w
  }

  /** The limiter's answer to a hit that follows `ops`, and the answer of the bucket alone. */
  function AnswerAfter(ops: seq<Op>, b: Bucket, p: Params, now: real): Answer {
    HitLimiter(After(ops), b, p, now).1
  }

  function AnswerAlone(ops: seq<Op>, b: Bucket, p: Params, now: real): Answer {
    HitSlot(AfterAlone(ops, b), p, now).1
  }

  /** For windows of at most an hour, every answer is that of a limiter which keeps the
      buckets apart and never sweeps. */
  lemma SweepInvisible(ops: seq<Op>, b: Bucket, p: Params, now: real)
    requires Clocked(ops + [Hit(b, p, now)]) && Windows(ops + [Hit(b, p, now)], 3600)
    ensures AnswerAfter(ops, b, p, now) == AnswerAlone(ops, b, p, now)
  {
    var all := ops + [Hit(b, p, now)];
    assert all[..|ops|] == ops && all[|ops|] == Hit(b, p, now);
    forall i | 0 <= i < |ops| && ops[i].Hit? ensures ops[i].p.window <= 3600 { assert all[i] == ops[i]; }
    RunForgets(ops, b);
    var l, s := After(ops), AfterAlone(ops, b);
    ForgetsLater(l.SlotOf(b), s, Clock(ops), now);
    SweepForgets(l, s, b, now);
    HitSlotForgets(CountHit(l, now).SlotOf(b), s, p, now, now);
  }

  ghost predicate SweepUnseen(w: int) {
    forall ops, b, p, now ::
      Clocked(ops + [Hit(b, p, now)]) && Windows(ops + [Hit(b, p, now)], w)
      ==> AnswerAfter(ops, b, p, now) == AnswerAlone(ops, b, p, now)
  }

  const WATCHED := Bucket("login", "watched")
  const OTHER := Bucket("login", "other")

  /** One hit on the watched bucket at time 0, then k hits on another one. */
  function Filler(w: int, k: nat): seq<Op> {
    if k == 0 then [Hit(WATCHED, Params(1, w, 1), 0.0)]
    else Filler(w, k - 1) + [Hit(OTHER, Params(1, 1, 1), 0.0)]
  }

  lemma FirstHit(p: Params, now: real)
    requires now >= 0.0
    ensures HitSlot(EMPTY, p, now) == (Slot([now], None), Accepted)
  {
    assert EvictOld([], now - p.Window() as real) + [now] == [now];
  }

  lemma Snoc(ops: seq<Op>, op: Op, b: Bucket)
    ensures After(ops + [op]) == Perform(After(ops), op)
    ensures AfterAlone(ops + [op], b) == PerformAlone(AfterAlone(ops, b), op, b)
    ensures Clock(ops + [op]) == if op.Hit? then op.now else Clock(ops)
    ensures Clocked(ops + [op]) <==> Clocked(ops) && (op.Hit? ==> Clock(ops) <= op.now)
  {
    assert (ops + [op])[..|ops|] == ops;
  }

  /** A hit on one bucket before the sweep is due leaves every other bucket as it is. */
  lemma OtherBucketHit(l: Limiter, b: Bucket, c: Bucket, p: Params, now: real)
    requires b != c && l.hits + 1 < SWEEP_INTERVAL
    ensures var next := HitLimiter(l, c, p, now).0;
      next.hits == l.hits + 1 && next.SlotOf(b) == l.SlotOf(b)
  {
  }

  lemma {:induction false} FillerState(w: int, k: nat)
    requires k <= 254 && w >= 1
    ensures Clocked(Filler(w, k)) && Clock(Filler(w, k)) == 0.0 && Windows(Filler(w, k), w)
    ensures var l := After(Filler(w, k)); l.hits == k + 1 && l.SlotOf(WATCHED) == Slot([0.0], None)
    ensures AfterAlone(Filler(w, k), WATCHED) == Slot([0.0], None)
  {
    if k > 0 {
      FillerState(w, k - 1);
      Snoc(Filler(w, k - 1), Hit(OTHER, Params(1, 1, 1), 0.0), WATCHED);
      OtherBucketHit(After(Filler(w, k - 1)), WATCHED, OTHER, Params(1, 1, 1), 0.0);
    } else {
      FillerStart(w);
    }
  }

  lemma FillerStart(w: int)
    requires w >= 1
    ensures var ops := Filler(w, 0);
      && Clocked(ops) && Clock(ops) == 0.0 && Windows(ops, w)
      && After(ops).hits == 1 && After(ops).SlotOf(WATCHED) == Slot([0.0], None)
      && AfterAlone(ops, WATCHED) == Slot([0.0], None)
  {
    var op := Hit(WATCHED, Params(1, w, 1), 0.0);
    assert [] + [op] == [op];
    Snoc([], op, WATCHED);
    FirstHitOfAll(WATCHED, op.p, 0.0);
    FirstHit(op.p, 0.0);
  }

  lemma FirstHitOfAll(b: Bucket, p: Params, now: real)
    requires now >= 0.0
    ensures var next := HitLimiter(Limiter(map[], map[], 0), b, p, now).0;
      next.hits == 1 && next.SlotOf(b) == Slot([now], None)
  {
    FirstHit(p, now);
    assert Limiter(map[], map[], 1).SlotOf(b) == EMPTY;
  }

  /** For a longer window: one hit, 254 hits on another bucket, and an hour later the sweep
      that comes with the next hit forgets the first one. */
  lemma LongWindowIsSwept(w: int)
    requires w > 3600
    ensures var ops, p := Filler(w, 254), Params(1, w, 1);
      && Clocked(ops + [Hit(WATCHED, p, 3600.0)]) && Windows(ops + [Hit(WATCHED, p, 3600.0)], w)
      && AnswerAfter(ops, WATCHED, p, 3600.0) == Accepted
      && AnswerAlone(ops, WATCHED, p, 3600.0) == Rejected(1)
  {
    var ops, p := Filler(w, 254), Params(1, w, 1);
    FillerState(w, 254);
    var all := ops + [Hit(WATCHED, p, 3600.0)];
    assert all[..|ops|] == ops;
    var swept := CountHit(After(ops), 3600.0);
    assert swept.SlotOf(WATCHED) == EMPTY;
    assert EvictOld([0.0], 3600.0 - w as real) == [0.0];
  }

  /** Exactly the windows of up to an hour are safe from the sweep. */
  lemma SweepInvisibleExact(w: int)
    ensures SweepUnseen(w) <==> w <= 3600
  {
    if w <= 3600 {
      forall ops, b, p, now | Clocked(ops + [Hit(b, p, now)]) && Windows(ops + [Hit(b, p, now)], w)
        ensures AnswerAfter(ops, b, p, now) == AnswerAlone(ops, b, p, now)
      {
        SweepInvisible(ops, b, p, now);
      }
    } else {
      LongWindowIsSwept(w);
    }
  }

  // ---------- How many hits a window can hold ----------

  /** One bucket hit at the given times with fixed parameters: its slot and the times of
      the accepted hits. */
  function Hits(p: Params, times: seq<real>): (Slot, seq<real>) {
    if times == [] then (EMPTY, [])
    else
      var (slot, accepted) := Hits(p, times[..|times| - 1]);
      var now := times[|times| - 1];
      var (next, answer) := HitSlot(slot, p, now);
      (next, if answer.Accepted? then accepted + [now] else accepted)
  }

  predicate Monotone(times: seq<real>) {
    && (forall i :: 0 <= i < |times| ==> 0.0 <= times[i])
    && (forall i, j :: 0 <= i < j < |times| ==> times[i] <= times[j])
  }

  /** Accepted hits that lie in the half-open window (hi - length, hi]. */
  function InWindow(accepted: seq<real>, hi: real, length: real): set<nat> {
    set i: nat | i < |accepted| && hi - length < accepted[i] <= hi
  }

  /** The accepted hits in the window that ends at `hi`. */
  function Counted(p: Params, times: seq<real>, hi: real): nat {
    |InWindow(Hits(p, times).1, hi, p.Window() as real)|
  }

  ghost predicate WindowsRespected(p: Params) {
    forall times, hi :: Monotone(times) ==> Counted(p, times, hi) <= p.Limit()
  }

  /** When the bucket can next accept, at the earliest. */
  function Horizon(s: Slot, now: real): real {
    if s.BlockedUntil() > now then s.BlockedUntil() else now
  }

  /** The deque is the accepted hits from the k-th on; the forgotten ones are a window
      older than anything still to come, and any Limit+1 accepted hits span a window. */
  ghost predicate HitsInv(p: Params, s: Slot, accepted: seq<real>, now: real, k: nat) {
    && SortedUpTo(accepted, now)
    && k <= |accepted| && s.attempts == accepted[k..] && |s.attempts| <= p.Limit()
    && (forall i :: 0 <= i < k ==> accepted[i] + p.Window() as real <= Horizon(s, now))
    && Spaced(p, accepted)
    && (s.BlockedUntil() > now ==> s.attempts == [])
  }

  ghost predicate Spaced(p: Params, accepted: seq<real>) {
    forall i, j :: 0 <= i && i + p.Limit() <= j < |accepted| ==> accepted[j] - accepted[i] >= p.Window() as real
  }

  /** Evicting at `now` leaves the accepted hits from some k' on; all others are a window old. */
  lemma EvictionForgetsOld(p: Params, s: Slot, accepted: seq<real>, before: real, k: nat, now: real) returns (k': nat)
    requires HitsInv(p, s, accepted, before, k) && before <= now && s.BlockedUntil() <= now
    ensures k <= k' <= |accepted|
    ensures EvictOld(s.attempts, now - p.Window() as real) == accepted[k'..]
    ensures forall i :: 0 <= i < k' ==> accepted[i] + p.Window() as real <= now
  {
    var dropped := EvictIsSuffix(s.attempts, now - p.Window() as real);
    k' := k + dropped;
    assert s.attempts[dropped..] == accepted[k'..];
    forall i | 0 <= i < k' ensures accepted[i] + p.Window() as real <= now {
      assert i >= k ==> accepted[i] == accepted[k..][i - k];
    }
  }

  lemma AcceptKeepsHitsInv(p: Params, s: Slot, accepted: seq<real>, before: real, k: nat, now: real, k': nat)
    requires HitsInv(p, s, accepted, before, k) && before <= now && s.BlockedUntil() <= now
    requires k' <= |accepted| && |accepted| - k' + 1 <= p.Limit()
    requires forall i :: 0 <= i < k' ==> accepted[i] + p.Window() as real <= now
    ensures HitsInv(p, s.(attempts := accepted[k'..] + [now]), accepted + [now], now, k')
  {
    assert accepted[k'..] + [now] == (accepted + [now])[k'..];
    AppendSpaced(p, accepted, now, k');
    AppendSorted(accepted, before, now);
  }

  lemma AppendSpaced(p: Params, accepted: seq<real>, now: real, k: nat)
    requires Spaced(p, accepted)
    requires k <= |accepted| && |accepted| - k + 1 <= p.Limit()
    requires forall i :: 0 <= i < k ==> accepted[i] + p.Window() as real <= now
    ensures Spaced(p, accepted + [now])
  {
  }

  lemma AppendSorted(a: seq<real>, before: real, now: real)
    requires SortedUpTo(a, before) && before <= now
    ensures SortedUpTo(a + [now], now)
  {
  }

  lemma OverrunKeepsHitsInv(p: Params, s: Slot, accepted: seq<real>, before: real, k: nat, now: real)
    requires p.Block() >= p.Window()
    requires HitsInv(p, s, accepted, before, k) && before <= now
    ensures HitsInv(p, Slot([], Some(now + p.Block() as real)), accepted, now, |accepted|)
  {
  }

  lemma BlockedKeepsHitsInv(p: Params, s: Slot, accepted: seq<real>, before: real, k: nat, now: real)
    requires HitsInv(p, s, accepted, before, k) && before <= now < s.BlockedUntil()
    ensures HitsInv(p, s, accepted, now, k)
  {
  }

  lemma HitKeepsHitsInv(p: Params, s: Slot, accepted: seq<real>, before: real, k: nat, now: real) returns (k': nat)
    requires p.Block() >= p.Window()
    requires HitsInv(p, s, accepted, before, k) && 0.0 <= before <= now
    ensures var (next, answer) := HitSlot(s, p, now);
      HitsInv(p, next, if answer.Accepted? then accepted + [now] else accepted, now, k')
  {
    k' := k;
    if s.BlockedUntil() > now {
      BlockedKeepsHitsInv(p, s, accepted, before, k, now);
    } else {
      k' := EvictionForgetsOld(p, s, accepted, before, k, now);
      if |accepted| - k' + 1 <= p.Limit() {
        AcceptKeepsHitsInv(p, s, accepted, before, k, now, k');
      } else {
        OverrunKeepsHitsInv(p, s, accepted, before, k, now);
        k' := |accepted|;
      }
    }
  }

  lemma {:induction false} RunKeepsHitsInv(p: Params, times: seq<real>) returns (k: nat)
    requires p.Block() >= p.Window() && Monotone(times)
    ensures HitsInv(p, Hits(p, times).0, Hits(p, times).1, if times == [] then 0.0 else times[|times| - 1], k)
  {
    k := 0;
    if times != [] {
      var before := times[..|times| - 1];
      k := RunKeepsHitsInv(p, before);
      k := HitKeepsHitsInv(p, Hits(p, before).0, Hits(p, before).1,
                           if before == [] then 0.0 else before[|before| - 1], k, times[|times| - 1]);
    }
  }

  lemma {:induction false} RangeSize(s: set<nat>, lo: nat, n: nat)
    requires forall i :: i in s ==> lo <= i < lo + n
    ensures |s| <= n
  {
    if n > 0 {
      RangeSize(s - {lo + n - 1}, lo, n - 1);
    } else {
      assert s == {};
    }
  }

  lemma SpacingLimitsWindow(p: Params, accepted: seq<real>, hi: real)
    requires Spaced(p, accepted)
    ensures |InWindow(accepted, hi, p.Window() as real)| <= p.Limit()
  {
    var s := InWindow(accepted, hi, p.Window() as real);
    if s != {} {
      var first := Least(s);
      forall i | i in s ensures first <= i < first + p.Limit() {
        SpacedApart(p, accepted, first, i);
      }
      RangeSize(s, first, p.Limit());
    }
  }

  lemma SpacedApart(p: Params, accepted: seq<real>, i: nat, j: nat)
    requires Spaced(p, accepted) && i < |accepted| && j < |accepted|
    ensures j < i + p.Limit() || accepted[j] - accepted[i] >= p.Window() as real
  {
  }

  lemma {:induction false} Least(s: set<nat>) returns (m: nat)
    requires s != {}
    ensures m in s && forall i :: i in s ==> m <= i
  {
    var some :| some in s;
    m := some;
    var rest := s - {some};
    if rest != {} {
      var n := Least(rest);
      m := if n < some then n else some;
    }
    assert forall i :: i in s ==> i == some || i in rest;
  }

  /** n hits at time 0: all accepted up to the limit. */
  lemma {:induction false} BurstAtZero(p: Params, n: nat) returns (times: seq<real>)
    requires n <= p.Limit()
    ensures |times| == n && (forall i :: 0 <= i < n ==> times[i] == 0.0)
    ensures Hits(p, times) == (Slot(times, None), times)
  {
    times := [];
    if n > 0 {
      var before := BurstAtZero(p, n - 1);
      times := before + [0.0];
      HitsExtend(p, before, 0.0);
      HitAtZero(p, before);
    }
  }

  lemma ShortBlockOverfills(p: Params) returns (times: seq<real>, hi: real)
    requires p.Block() < p.Window()
    ensures Monotone(times)
    ensures Counted(p, times, hi) > p.Limit()
  {
    var burst := BurstAtZero(p, p.Limit());
    hi := p.Block() as real;
    OverrunAtZero(p, burst);
    times := burst + [0.0] + [hi];
    MonotoneBurst(burst, hi);
    AfterTheBlock(p, burst + [0.0], burst, hi);
    BurstInside(burst, hi, p.Window() as real);
    assert Hits(p, times).1 == burst + [hi];
  }

  lemma MonotoneBurst(burst: seq<real>, hi: real)
    requires hi >= 0.0 && (forall i :: 0 <= i < |burst| ==> burst[i] == 0.0)
    ensures Monotone(burst + [0.0] + [hi])
  {
  }

  lemma BurstInside(burst: seq<real>, hi: real, length: real)
    requires 0.0 <= hi < length && (forall i :: 0 <= i < |burst| ==> burst[i] == 0.0)
    ensures |InWindow(burst + [hi], hi, length)| == |burst| + 1
  {
    AllInside(burst + [hi], hi, length);
  }

  lemma HitsExtend(p: Params, times: seq<real>, now: real)
    ensures var (slot, accepted) := Hits(p, times);
      var (next, answer) := HitSlot(slot, p, now);
      Hits(p, times + [now]) == (next, if answer.Accepted? then accepted + [now] else accepted)
  {
    assert (times + [now])[..|times|] == times;
  }

  lemma AfterTheBlock(p: Params, times: seq<real>, accepted: seq<real>, hi: real)
    requires Hits(p, times) == (Slot([], Some(hi)), accepted)
    ensures Hits(p, times + [hi]).1 == accepted + [hi]
  {
    HitsExtend(p, times, hi);
    assert EvictOld([], hi - p.Window() as real) + [hi] == [hi];
  }

  /** At time 0 nothing is old enough to be evicted. */
  lemma HitAtZero(p: Params, burst: seq<real>)
    requires forall i :: 0 <= i < |burst| ==> burst[i] == 0.0
    ensures HitSlot(Slot(burst, None), p, 0.0)
         == if |burst| + 1 <= p.Limit() then (Slot(burst + [0.0], None), Accepted)
            else (Slot([], Some(p.Block() as real)), Rejected(p.Block()))
  {
    var k := EvictIsSuffix(burst, 0.0 - p.Window() as real);
    assert burst[0..] == burst;
  }

  lemma OverrunAtZero(p: Params, burst: seq<real>)
    requires |burst| == p.Limit() && (forall i :: 0 <= i < |burst| ==> burst[i] == 0.0)
    requires Hits(p, burst) == (Slot(burst, None), burst)
    ensures Hits(p, burst + [0.0]) == (Slot([], Some(p.Block() as real)), burst)
  {
    HitsExtend(p, burst, 0.0);
    HitAtZero(p, burst);
  }

  lemma {:induction false} AllInside(accepted: seq<real>, hi: real, length: real)
    requires forall i :: 0 <= i < |accepted| ==> hi - length < accepted[i] <= hi
    ensures |InWindow(accepted, hi, length)| == |accepted|
  {
    if accepted != [] {
      var n := |accepted| - 1;
      AllInside(accepted[..n], hi, length);
      assert InWindow(accepted, hi, length) == InWindow(accepted[..n], hi, length) + {n};
    } else {
      assert InWindow(accepted, hi, length) == {};
    }
  }

  /** Every window of the configured length holds at most the configured number of accepted
      hits, for all hit times, exactly when a block lasts at least one window. */
  lemma WindowLimitExact(p: Params)
    ensures WindowsRespected(p) <==> p.Block() >= p.Window()
  {
    if p.Block() >= p.Window() {
      forall times, hi | Monotone(times) ensures Counted(p, times, hi) <= p.Limit() {
        var k := RunKeepsHitsInv(p, times);
        SpacingLimitsWindow(p, Hits(p, times).1, hi);
      }
    } else {
      var times, hi := ShortBlockOverfills(p);
    }
  }

  // ---------- ... on the limiter itself ----------

  /** The times at which the limiter accepted a hit on the bucket. */
  function AcceptedAt(ops: seq<Op>, b: Bucket): seq<real> {
    if ops == [] then []
    else
      var before, op := ops[..|ops| - 1], ops[|ops| - 1];
      AcceptedAt(before, b)
      + if op.Hit? && op.b == b && AnswerAfter(before, b, op.p, op.now).Accepted? then [op.now] else []
  }

  /** The times of all hits on the bucket. */
  function HitTimes(ops: seq<Op>, b: Bucket): seq<real> {
    if ops == [] then []
    else
      var op := ops[|ops| - 1];
      HitTimes(ops[..|ops| - 1], b) + if op.Hit? && op.b == b then [op.now] else []
  }

  /** The bucket is hit with these parameters only and never reset; anything may happen to
      the other buckets. */
  predicate Steady(ops: seq<Op>, b: Bucket, p: Params) {
    forall i :: 0 <= i < |ops| && Touches(ops[i], b) ==> ops[i].Hit? && ops[i].p == p
  }

  predicate Touches(op: Op, b: Bucket) {
    op.ResetAll? || op.b == b
  }

  lemma {:induction false} HitTimesMonotone(ops: seq<Op>, b: Bucket)
    requires Clocked(ops)
    ensures Clock(ops) >= 0.0 && Monotone(HitTimes(ops, b))
    ensures forall i :: 0 <= i < |HitTimes(ops, b)| ==> HitTimes(ops, b)[i] <= Clock(ops)
  {
    if ops != [] { HitTimesMonotone(ops[..|ops| - 1], b); }
  }

  lemma {:induction false} LimiterFollowsHits(ops: seq<Op>, b: Bucket, p: Params)
    requires Clocked(ops) && Windows(ops, 3600) && Steady(ops, b, p)
    ensures AfterAlone(ops, b) == Hits(p, HitTimes(ops, b)).0 && AcceptedAt(ops, b) == Hits(p, HitTimes(ops, b)).1
  {
    if ops != [] {
      var before, op := ops[..|ops| - 1], ops[|ops| - 1];
      assert forall i :: 0 <= i < |before| ==> before[i] == ops[i];
      LimiterFollowsHits(before, b, p);
      if Touches(op, b) {
        assert before + [op] == ops;
        SweepInvisible(before, b, op.p, op.now);
        HitsExtend(p, HitTimes(before, b), op.now);
      } else {
        NothingAdded(HitTimes(before, b));
        NothingAdded(AcceptedAt(before, b));
      }
    }
  }

  lemma NothingAdded(times: seq<real>)
    ensures times + [] == times
  {
  }

  /** How many hits on the bucket the limiter accepted in the window that ends at `hi`. */
  function AcceptedWithin(ops: seq<Op>, b: Bucket, p: Params, hi: real): nat {
    |InWindow(AcceptedAt(ops, b), hi, p.Window() as real)|
  }

  ghost predicate LimiterRespects(p: Params) {
    forall ops, b, hi ::
      Clocked(ops) && Windows(ops, 3600) && Steady(ops, b, p) ==> AcceptedWithin(ops, b, p, hi) <= p.Limit()
  }

  /** The bucket alone hit at these times. */
  function OnlyHits(b: Bucket, p: Params, times: seq<real>): seq<Op> {
    seq(|times|, i requires 0 <= i < |times| => Hit(b, p, times[i]))
  }

  lemma {:induction false} OnlyHitsAreClocked(b: Bucket, p: Params, times: seq<real>)
    requires Monotone(times)
    ensures Clocked(OnlyHits(b, p, times)) && HitTimes(OnlyHits(b, p, times), b) == times
    ensures Clock(OnlyHits(b, p, times)) == if times == [] then 0.0 else times[|times| - 1]
  {
    if times != [] {
      var n := |times| - 1;
      OnlyHitsAreClocked(b, p, times[..n]);
      assert OnlyHits(b, p, times)[..n] == OnlyHits(b, p, times[..n]);
      assert times == times[..n] + [times[n]];
    }
  }

  /** On the limiter with its sweep, whatever happens to other buckets: for windows of up to
      an hour, every window holds at most the configured number of accepted hits exactly when
      a block lasts at least one window. */
  lemma LimiterWindowExact(p: Params)
    requires p.window <= 3600
    ensures LimiterRespects(p) <==> p.Block() >= p.Window()
  {
    WindowLimitExact(p);
    if p.Block() >= p.Window() {
      forall ops, b, hi | Clocked(ops) && Windows(ops, 3600) && Steady(ops, b, p)
        ensures AcceptedWithin(ops, b, p, hi) <= p.Limit()
      {
        LimiterFollowsHits(ops, b, p);
        HitTimesMonotone(ops, b);
        assert Counted(p, HitTimes(ops, b), hi) <= p.Limit();
      }
    } else {
      var times, hi := ShortBlockOverfills(p);
      LimiterOverfills(p, times, hi);
    }
  }

  lemma LimiterOverfills(p: Params, times: seq<real>, hi: real)
    requires p.window <= 3600 && Monotone(times) && Counted(p, times, hi) > p.Limit()
    ensures !LimiterRespects(p)
  {
    var ops := OnlyHits(WATCHED, p, times);
    OnlyHitsAreClocked(WATCHED, p, times);
    LimiterFollowsHits(ops, WATCHED, p);
    assert AcceptedWithin(ops, WATCHED, p, hi) > p.Limit();
  }

  // ---------- Every answer ----------

  /** What a reader of the answers knows about a bucket: the times of the hits accepted since
      its last overrun or reset, until when the last overrun blocks it, and the latest time
      that lay before the window of one of those hits. */
  datatype Trace = Trace(recent: seq<real>, blockedTo: real, before: real)

  const UNTOUCHED := Trace([], 0.0, -1.0)

  function AtLeastOne(n: int): nat { if n >= 1 then n else 1 }
  function Later(a: real, b: real): real { if a >= b then a else b }

  /** A rejection while the bucket was not blocked is an overrun. */
  function Noted(tr: Trace, p: Params, now: real, answer: Answer): Trace {
    if answer.Accepted? then
      tr.(recent := tr.recent + [now], before := Later(tr.before, now - AtLeastOne(p.window) as real))
    else if tr.blockedTo > now then tr
    else Trace([], now + AtLeastOne(p.block) as real, -1.0)
  }

  function TraceOf(ops: seq<Op>, b: Bucket): Trace {
    if ops == [] then UNTOUCHED
    else
      var earlier, op := ops[..|ops| - 1], ops[|ops| - 1];
      var tr := TraceOf(earlier, b);
      if op.ResetAll? || (op.Reset? && op.b == b) then UNTOUCHED
      else if op.Reset? || op.b != b then tr
      else Noted(tr, op.p, op.now, AnswerAfter(earlier, b, op.p, op.now))
  }

  /** The accepted hits after the given time. */
  function AcceptedSince(tr: Trace, time: real): set<nat> { set i: nat | i < |tr.recent| && tr.recent[i] > time }

  /** The deque is the accepted hits from the k-th on, which are those that no window has left
      behind. */
  ghost predicate Follows(s: Slot, tr: Trace, now: real, k: nat) {
    && s.BlockedUntil() == tr.blockedTo
    && SortedUpTo(tr.recent, now) && tr.before <= now - 1.0
    && k <= |tr.recent| && s.attempts == tr.recent[k..]
    && SplitAt(tr.recent, tr.before, k)
  }

  predicate SplitAt(a: seq<real>, time: real, k: nat) {
    forall i :: 0 <= i < |a| ==> (a[i] > time <==> i >= k)
  }

  lemma EvictionFollows(s: Slot, tr: Trace, earlier: real, k: nat, cutoff: real) returns (k': nat)
    requires Follows(s, tr, earlier, k)
    ensures k' <= |tr.recent| && EvictOld(s.attempts, cutoff) == tr.recent[k'..]
    ensures SplitAt(tr.recent, Later(tr.before, cutoff), k')
  {
    var dropped := EvictIsSuffix(s.attempts, cutoff);
    k' := k + dropped;
    assert s.attempts[dropped..] == tr.recent[k'..];
    forall i | 0 <= i < |tr.recent| ensures tr.recent[i] > Later(tr.before, cutoff) <==> i >= k' {
      assert i >= k ==> tr.recent[i] == s.attempts[i - k];
      assert k' < |tr.recent| ==> tr.recent[k'] == s.attempts[dropped];
    }
  }

  lemma AcceptedFollows(s: Slot, tr: Trace, earlier: real, now: real, time: real, k: nat)
    requires SortedUpTo(tr.recent, earlier) && earlier <= now && k <= |tr.recent|
    requires SplitAt(tr.recent, time, k) && time <= now - 1.0 && s.BlockedUntil() == tr.blockedTo
    ensures Follows(s.(attempts := tr.recent[k..] + [now]), tr.(recent := tr.recent + [now], before := time), now, k)
  {
    assert tr.recent[k..] + [now] == (tr.recent + [now])[k..];
    AppendSorted(tr.recent, earlier, now);
  }

  lemma HitFollows(s: Slot, tr: Trace, earlier: real, k: nat, p: Params, now: real) returns (k': nat)
    requires Follows(s, tr, earlier, k) && 0.0 <= earlier <= now
    ensures var (next, answer) := HitSlot(s, p, now); Follows(next, Noted(tr, p, now, answer), now, k')
  {
    k' := k;
    if s.BlockedUntil() <= now {
      k' := EvictionFollows(s, tr, earlier, k, now - p.Window() as real);
      AcceptedFollows(s, tr, earlier, now, Later(tr.before, now - p.Window() as real), k');
      if HitSlot(s, p, now).1.Rejected? { k' := 0; }
    }
  }

  lemma {:induction false} SlotFollows(ops: seq<Op>, b: Bucket) returns (k: nat)
    requires Clocked(ops) && Windows(ops, 3600)
    ensures Clock(ops) >= 0.0 && Follows(AfterAlone(ops, b), TraceOf(ops, b), Clock(ops), k)
  {
    k := 0;
    if ops != [] {
      var before, op := ops[..|ops| - 1], ops[|ops| - 1];
      assert forall i :: 0 <= i < |before| ==> before[i] == ops[i];
      k := SlotFollows(before, b);
      if op.Hit? && op.b == b {
        assert before + [op] == ops;
        SweepInvisible(before, b, op.p, op.now);
        k := HitFollows(AfterAlone(before, b), TraceOf(before, b), Clock(before), k, op.p, op.now);
      } else if Touches(op, b) {
        k := 0;
      }
    }
  }

  function Between(lo: nat, n: nat): set<nat>
    requires lo <= n
  {
    if lo == n then {} else Between(lo, n - 1) + {n - 1}
  }

  lemma {:induction false} BetweenSize(lo: nat, n: nat)
    requires lo <= n
    ensures |Between(lo, n)| == n - lo && forall i: nat :: i in Between(lo, n) <==> lo <= i < n
  {
    if lo < n { BetweenSize(lo, n - 1); }
  }

  lemma SplitSize(tr: Trace, time: real, k: nat)
    requires k <= |tr.recent| && SplitAt(tr.recent, time, k)
    ensures |AcceptedSince(tr, time)| == |tr.recent| - k
  {
    BetweenSize(k, |tr.recent|);
    assert AcceptedSince(tr, time) == Between(k, |tr.recent|);
  }

  lemma WholeSeconds(left: real)
    requires left > 0.0
    ensures var r := Max(Ceil(left), 1); r >= 1 && (r - 1) as real < left <= r as real
  {
  }

  /** The answer that a reader of the earlier answers expects. */
  predicate Expected(tr: Trace, p: Params, now: real, answer: Answer) {
    if tr.blockedTo > now then
      answer.Rejected? && answer.retryAfter >= 1
      && now + (answer.retryAfter - 1) as real < tr.blockedTo <= now + answer.retryAfter as real
    else if |AcceptedSince(tr, Later(tr.before, now - AtLeastOne(p.window) as real))| < AtLeastOne(p.maxAttempts) then
      answer == Accepted
    else answer == Rejected(AtLeastOne(p.block))
  }

  lemma SlotAnswer(s: Slot, tr: Trace, earlier: real, k: nat, p: Params, now: real)
    requires Follows(s, tr, earlier, k) && 0.0 <= earlier <= now
    ensures Expected(tr, p, now, HitSlot(s, p, now).1)
  {
    if s.BlockedUntil() > now {
      WholeSeconds(s.BlockedUntil() - now);
    } else {
      var k' := EvictionFollows(s, tr, earlier, k, now - p.Window() as real);
      SplitSize(tr, Later(tr.before, now - p.Window() as real), k');
    }
  }

  /** Every answer of the limiter with its sweep, for windows of up to an hour and any mix of
      parameters, read from the earlier answers.  A blocked bucket rejects with the whole
      seconds that are left, at least one.  Any other bucket accepts if and only if fewer than
      max(maxAttempts, 1) hits accepted since its last overrun or reset lie in the last
      max(window, 1) seconds and in the windows of all those hits, and otherwise is blocked for
      max(block, 1) seconds. */
  lemma AnswerExact(ops: seq<Op>, b: Bucket, p: Params, now: real)
    requires Clocked(ops + [Hit(b, p, now)]) && Windows(ops + [Hit(b, p, now)], 3600)
    ensures Expected(TraceOf(ops, b), p, now, AnswerAfter(ops, b, p, now))
  {
    var all := ops + [Hit(b, p, now)];
    assert all[..|ops|] == ops && all[|ops|] == Hit(b, p, now);
    PrefixOfRun(all, ops);
    SweepInvisible(ops, b, p, now);
    var k := SlotFollows(ops, b);
    SlotAnswer(AfterAlone(ops, b), TraceOf(ops, b), Clock(ops), k, p, now);
  }

  /** Every earlier hit on the bucket came with at least this window. */
  predicate WindowsAtLeast(ops: seq<Op>, b: Bucket, w: int) {
    forall i :: 0 <= i < |ops| && ops[i].Hit? && ops[i].b == b ==> AtLeastOne(ops[i].p.window) >= w
  }

  lemma {:induction false} NothingLeftBehind(ops: seq<Op>, b: Bucket, w: nat, now: real)
    requires Clocked(ops) && Clock(ops) <= now && WindowsAtLeast(ops, b, w)
    ensures 0.0 <= Clock(ops) && TraceOf(ops, b).before <= Later(-1.0, now - w as real)
    ensures forall i :: 0 <= i < |TraceOf(ops, b).recent| ==> 0.0 <= TraceOf(ops, b).recent[i] <= Clock(ops)
  {
    if ops != [] {
      var earlier := ops[..|ops| - 1];
      assert forall i :: 0 <= i < |earlier| ==> earlier[i] == ops[i];
      NothingLeftBehind(earlier, b, w, now);
    }
  }

  /** So as long as a bucket's windows do not grow, in particular with the same parameters
      throughout, a hit on it that is not blocked is accepted if and only if fewer than
      max(maxAttempts, 1) hits accepted since its last overrun or reset lie in
      (now - max(window, 1), now]. */
  lemma AcceptedExact(ops: seq<Op>, b: Bucket, p: Params, now: real)
    requires Clocked(ops + [Hit(b, p, now)]) && Windows(ops + [Hit(b, p, now)], 3600)
    requires WindowsAtLeast(ops, b, AtLeastOne(p.window))
    ensures var tr := TraceOf(ops, b);
      AnswerAfter(ops, b, p, now).Accepted? <==>
        tr.blockedTo <= now && |InWindow(tr.recent, now, AtLeastOne(p.window) as real)| < AtLeastOne(p.maxAttempts)
  {
    var tr, window := TraceOf(ops, b), AtLeastOne(p.window);
    var all := ops + [Hit(b, p, now)];
    assert all[..|ops|] == ops;
    AnswerExact(ops, b, p, now);
    NothingLeftBehind(ops, b, window, now);
    assert AcceptedSince(tr, Later(tr.before, now - window as real)) == InWindow(tr.recent, now, window as real);
  }

  /** A sweep drops exactly the buckets without a hit in the last hour and the blocks that are
      over, and leaves the others as they are. */
  lemma SweepExact(l: Limiter, now: real, b: Bucket)
    ensures var t := Sweep(l, now);
      && (b in t.attempts <==> b in l.attempts && l.attempts[b] != [] && l.attempts[b][|l.attempts[b]| - 1] > now - 3600.0)
      && (b in t.attempts ==> t.attempts[b] == l.attempts[b])
      && (b in t.blocked <==> b in l.blocked && l.blocked[b] > now)
      && (b in t.blocked ==> t.blocked[b] == l.blocked[b])
      && t.hits == l.hits
  {
  }

  // ---------- Retry-After ----------

  /** While a bucket is blocked its deque is empty. */
  ghost predicate BlockedIsEmpty(s: Slot, now: real) {
    s.BlockedUntil() > now ==> s.attempts == []
  }

  lemma {:induction false} BlockedStaysEmpty(ops: seq<Op>, b: Bucket)
    requires Clocked(ops)
    ensures Clock(ops) >= 0.0 && BlockedIsEmpty(AfterAlone(ops, b), Clock(ops))
  {
    if ops != [] {
      BlockedStaysEmpty(ops[..|ops| - 1], b);
    }
  }

  lemma {:induction false} OthersLeaveAlone(ops: seq<Op>, later: seq<Op>, b: Bucket)
    requires forall i :: 0 <= i < |later| ==> !Touches(later[i], b)
    ensures AfterAlone(ops + later, b) == AfterAlone(ops, b)
  {
    if later != [] {
      var n := |later| - 1;
      assert (ops + later)[..|ops + later| - 1] == ops + later[..n];
      OthersLeaveAlone(ops, later[..n], b);
    } else {
      assert ops + later == ops;
    }
  }

  /** After a rejection the bucket accepts again once Retry-After has passed, whatever the
      new parameters are, and not one whole second earlier. */
  lemma RejectedSlot(s: Slot, p: Params, now: real, q: Params, again: real)
    requires HitSlot(s, p, now).1.Rejected? && BlockedIsEmpty(s, now) && 0.0 <= now <= again
    ensures var (next, answer) := HitSlot(s, p, now);
      && (again >= now + answer.retryAfter as real ==> HitSlot(next, q, again).1 == Accepted)
      && (again <= now + (answer.retryAfter - 1) as real && answer.retryAfter > 1 ==> HitSlot(next, q, again).1.Rejected?)
  {
    var next := HitSlot(s, p, now).0;
    assert next.attempts == [];
    assert EvictOld(next.attempts, again - q.Window() as real) == [];
  }

  /** On the limiter itself, with any activity on other buckets in between. */
  lemma RetryAfterIsExact(ops: seq<Op>, b: Bucket, p: Params, now: real, later: seq<Op>, q: Params, again: real)
    requires Clocked(ops + [Hit(b, p, now)] + later + [Hit(b, q, again)])
    requires Windows(ops + [Hit(b, p, now)] + later + [Hit(b, q, again)], 3600)
    requires forall i :: 0 <= i < |later| ==> !Touches(later[i], b)
    requires AnswerAfter(ops, b, p, now).Rejected?
    ensures var r := AnswerAfter(ops, b, p, now).retryAfter;
      var second := AnswerAfter(ops + [Hit(b, p, now)] + later, b, q, again);
      && (again >= now + r as real ==> second == Accepted)
      && (again <= now + (r - 1) as real && r > 1 ==> second.Rejected?)
  {
    var first := ops + [Hit(b, p, now)];
    var all := first + later + [Hit(b, q, again)];
    PrefixOfRun(all, first);
    SweepInvisible(ops, b, p, now);
    SweepInvisible(first + later, b, q, again);
    OthersLeaveAlone(first, later, b);
    LastHit(ops, b, p, now);
    ClockMonotone(first, later, Hit(b, q, again));
    RejectedSlot(AfterAlone(ops, b), p, now, q, again);
  }

  lemma PrefixOfRun(all: seq<Op>, first: seq<Op>)
    requires first <= all && Clocked(all) && Windows(all, 3600)
    ensures Clocked(first) && Windows(first, 3600)
  {
    assert all[..|first|] == first;
    ClockedPrefix(all, |first|);
    forall i | 0 <= i < |first| && first[i].Hit? ensures first[i].p.window <= 3600 { assert first[i] == all[i]; }
  }

  lemma LastHit(ops: seq<Op>, b: Bucket, p: Params, now: real)
    requires Clocked(ops + [Hit(b, p, now)])
    ensures Clock(ops + [Hit(b, p, now)]) == now && 0.0 <= now
    ensures BlockedIsEmpty(AfterAlone(ops, b), now)
    ensures AfterAlone(ops + [Hit(b, p, now)], b) == HitSlot(AfterAlone(ops, b), p, now).0
  {
    assert (ops + [Hit(b, p, now)])[..|ops|] == ops;
    BlockedStaysEmpty(ops, b);
  }

  lemma {:induction false} ClockedPrefix(ops: seq<Op>, k: nat)
    requires Clocked(ops) && k <= |ops|
    ensures Clocked(ops[..k])
  {
    if k < |ops| {
      ClockedPrefix(ops[..|ops| - 1], k);
      assert ops[..|ops| - 1][..k] == ops[..k];
    } else {
      assert ops[..k] == ops;
    }
  }

  lemma {:induction false} ClockMonotone(ops: seq<Op>, later: seq<Op>, op: Op)
    requires op.Hit? && Clocked(ops + later + [op])
    ensures Clock(ops) <= op.now
  {
    var before := ops + later;
    assert (before + [op])[..|before|] == before;
    LaterClock(ops, later);
  }

  lemma {:induction false} LaterClock(ops: seq<Op>, later: seq<Op>)
    requires Clocked(ops + later)
    ensures Clock(ops) <= Clock(ops + later)
  {
    if later != [] {
      var n := |later| - 1;
      assert (ops + later)[..|ops + later| - 1] == ops + later[..n];
      LaterClock(ops, later[..n]);
    } else {
      assert ops + later == ops;
    }
  }

  // ---------- The code itself ----------

  class InMemoryRateLimiter {
    var attempts: map<Bucket, seq<real>>
    var blocked: map<Bucket, real>
    var hitsSinceSweep: nat

    ghost function View(): Limiter
      reads this
    {
      Limiter(attempts, blocked, hitsSinceSweep)
    }

    constructor ()
      ensures View() == After([])
    {
      attempts, blocked, hitsSinceSweep := map[], map[], 0;
    }

    method Reset(b: Bucket)
      modifies this
      ensures View() == Perform(old(View()), Op.Reset(b))
    {
      attempts := attempts - {b};
      blocked := blocked - {b};
    }

    method ResetAll()
      modifies this
      ensures View() == Perform(old(View()), Op.ResetAll)
    {
      attempts := map[];
      blocked := map[];
      hitsSinceSweep := 0;
    }

    method SweepExpired(now: real)
      modifies this
      ensures View() == Sweep(old(View()), now)
    {
      var todo := attempts.Keys;
      while todo != {}
        invariant todo <= old(attempts).Keys && blocked == old(blocked) && hitsSinceSweep == old(hitsSinceSweep)
        invariant attempts == map b | b in old(attempts) && (b in todo || !Stale(old(attempts)[b], now)) :: old(attempts)[b]
        decreases todo
      {
        var b :| b in todo;
        if Stale(attempts[b], now) {
          attempts := attempts - {b};
        }
        todo := todo - {b};
      }
      todo := blocked.Keys;
      while todo != {}
        invariant todo <= old(blocked).Keys && hitsSinceSweep == old(hitsSinceSweep)
        invariant attempts == Sweep(old(View()), now).attempts
        invariant blocked == map b | b in old(blocked) && (b in todo || old(blocked)[b] > now) :: old(blocked)[b]
        decreases todo
      {
        var b :| b in todo;
        if blocked[b] <= now {
          blocked := blocked - {b};
        }
        todo := todo - {b};
      }
    }

    method Hit(b: Bucket, p: Params, now: real) returns (answer: Answer)
      modifies this
      ensures (View(), answer) == HitLimiter(old(View()), b, p, now)
    {
      hitsSinceSweep := hitsSinceSweep + 1;
      if hitsSinceSweep >= SWEEP_INTERVAL {
        hitsSinceSweep := 0;
        SweepExpired(now);
      }
      var blockedUntil := if b in blocked then blocked[b] else 0.0;
      if blockedUntil > now {
        return Rejected(Max(Ceil(blockedUntil - now), 1));
      }
      var queue := if b in attempts then attempts[b] else [];
      var cutoff := now - Max(p.window, 1) as real;
      while queue != [] && queue[0] <= cutoff
        invariant EvictOld(queue, cutoff) == EvictOld(if b in attempts then attempts[b] else [], cutoff)
        decreases |queue|
      {
        queue := queue[1..];
      }
      queue := queue + [now];
      if |queue| <= Max(p.maxAttempts, 1) {
        attempts := attempts[b := queue];
        return Accepted;
      }
      var retryAfter := Max(p.block, 1);
      blocked := blocked[b := now + retryAfter as real];
      attempts := attempts[b := []];
      return Rejected(retryAfter);
    }
  }
}
