/** Idempotent run requests (backend/services/control_plane.py).

    `start_task_run` holds one mutex from the look-up to the end of the awaited start, so
    requests are served one at a time: Begin is the code up to the await, Complete and Fail
    the code after it.  A request id is the trimmed text; the empty one asks for no
    idempotency. */
module ControlPlane {
  import opened Options

  const TTL: real := 900.0
  const LIMIT: nat := 512

  datatype Key = Key(actor: string, id: string)
  datatype Target = Target(account: string, task: string)
  datatype Row = Row(key: Key, target: Target, result: string, expires: real)
  datatype Request = Request(key: Key, target: Target) {
    predicate Idempotent() { key.id != "" }
  }
  datatype Pending = Pending(request: Request, now: real)
  datatype Answer = Replayed(result: string) | Conflict | MustStart

  // ---------- The table: a dictionary in insertion order ----------

  predicate HasKey(rows: seq<Row>, k: Key) { exists i :: 0 <= i < |rows| && rows[i].key == k }

  /** Looking the key up in the insertion-ordered dictionary. */
  function Find(rows: seq<Row>, k: Key): Option<Row> {
    if rows == [] then None
    else if rows[0].key == k then Some(rows[0])
    else Find(rows[1..], k)
  }

  function Live(rows: seq<Row>, now: real): seq<Row> {
    if rows == [] then []
    else (if rows[0].expires <= now then [] else [rows[0]]) + Live(rows[1..], now)
  }

  /** Python's stable `sorted` by expires_at. */
  function Sorted(rows: seq<Row>): (r: seq<Row>)
    ensures |r| == |rows|
  {
    if rows == [] then [] else Insert(rows[0], Sorted(rows[1..]))
  }

  function Insert(r: Row, rows: seq<Row>): (s: seq<Row>)
    ensures |s| == |rows| + 1
  {
    if rows == [] || r.expires <= rows[0].expires then [r] + rows else [rows[0]] + Insert(r, rows[1..])
  }

  function WithoutKeys(rows: seq<Row>, gone: seq<Row>): seq<Row> {
    if rows == [] then []
    else (if HasKey(gone, rows[0].key) then [] else [rows[0]]) + WithoutKeys(rows[1..], gone)
  }

  function Prune(rows: seq<Row>, now: real): seq<Row> {
    var live := Live(rows, now);
    if |live| <= LIMIT then live else DropOldest(live, |live| - LIMIT)
  }

  function DropOldest(rows: seq<Row>, k: nat): seq<Row>
    requires k <= |rows|
  {
    WithoutKeys(rows, Sorted(rows)[..k])
  }

  // ---------- The protocol ----------

  /** `log` records every start of a request with an id, in order; it is history, not
      program state. */
  datatype State = State(rows: seq<Row>, pending: Option<Pending>, log: seq<Row>, clock: real)

  const INIT := State([], None, [], 0.0)

  /** Complete: the start returned.  Nothing after it suspends or raises, so that every
      start of a request with an id is stored.  Fail: the start raised. */
  datatype Event = Begin(request: Request, now: real) | Complete(result: string) | Fail

  predicate Enabled(s: State, e: Event) {
    match e
    case Begin(_, now) => s.pending.None? && s.clock <= now
    case _ => s.pending.Some?
  }

  function AnswerTo(s: State, request: Request, now: real): Answer {
    var found := Find(Prune(s.rows, now), request.key);
    if request.Idempotent() && found.Some? then
      if found.value.target != request.target then Conflict else Replayed(found.value.result)
    else MustStart
  }

  function Apply(s: State, e: Event): State
    requires Enabled(s, e)
  {
    match e
    case Begin(request, now) =>
      s.(rows := Prune(s.rows, now), clock := now,
         pending := if AnswerTo(s, request, now).MustStart? then Some(Pending(request, now)) else None)
    case Complete(result) =>
      var p := s.pending.value;
      if p.request.Idempotent() then
        var row := Row(p.request.key, p.request.target, result, p.now + TTL);
        s.(rows := s.rows + [row], log := s.log + [row], pending := None)
      else s.(pending := None)
    case Fail => s.(pending := None)
  }

  function Run(es: seq<Event>): Option<State> {
    if es == [] then Some(INIT)
    else
      var before := Run(es[..|es| - 1]);
      if before.Some? && Enabled(before.value, es[|es| - 1]) then Some(Apply(before.value, es[|es| - 1])) else None
  }

  // ---------- The table is the tail of the log ----------

  predicate DistinctKeys(rows: seq<Row>) {
    forall i, j :: 0 <= i < j < |rows| ==> rows[i].key != rows[j].key
  }

  predicate Ordered(rows: seq<Row>) {
    forall i, j :: 0 <= i < j < |rows| ==> rows[i].expires <= rows[j].expires
  }

  /** Row i was pushed out: LIMIT rows with other, pairwise different keys follow it. */
  predicate Crowded(log: seq<Row>, i: nat) {
    i + LIMIT < |log| && DistinctKeys(log[i..i + LIMIT + 1])
  }

  predicate Forgotten(log: seq<Row>, i: nat, now: real) {
    i < |log| && (log[i].expires <= now || Crowded(log, i))
  }

  /** Two starts with one key: a TTL apart, or LIMIT other keys started in between. */
  ghost predicate StartsApart(log: seq<Row>) {
    forall i, j :: 0 <= i < j < |log| && log[i].key == log[j].key ==>
      log[i].expires + TTL <= log[j].expires || (i + LIMIT < j && Crowded(log, i))
  }

  /** The table holds exactly the log from row `from` on; everything before is forgotten. */
  ghost predicate Inv(s: State, from: nat) {
    && from <= |s.log| && s.rows == s.log[from..]
    && DistinctKeys(s.rows) && Ordered(s.log)
    && (forall i :: 0 <= i < |s.log| ==> s.log[i].expires <= s.clock + TTL)
    && (forall i :: 0 <= i < from ==> Forgotten(s.log, i, s.clock))
    && |s.rows| <= LIMIT + 1
    && (s.pending.Some? ==>
          && s.pending.value.now == s.clock
          && |s.rows| <= LIMIT
          && (s.pending.value.request.Idempotent() ==> !HasKey(s.rows, s.pending.value.request.key)))
    && StartsApart(s.log)
  }

  lemma {:induction false} FindIsHasKey(rows: seq<Row>, k: Key)
    ensures Find(rows, k).Some? <==> HasKey(rows, k)
    ensures Find(rows, k).Some? ==> Find(rows, k).value in rows && Find(rows, k).value.key == k
  {
    if rows != [] {
      FindIsHasKey(rows[1..], k);
      if HasKey(rows[1..], k) {
        var i :| 0 <= i < |rows[1..]| && rows[1..][i].key == k;
        assert rows[i + 1].key == k;
      }
      assert forall i :: 1 <= i < |rows| ==> rows[i] == rows[1..][i - 1];
    }
  }

  lemma {:induction false} LiveFrom(rows: seq<Row>, now: real, k: nat)
    requires k <= |rows|
    requires forall i :: 0 <= i < |rows| ==> (rows[i].expires <= now <==> i < k)
    ensures Live(rows, now) == rows[k..]
  {
    if rows != [] {
      var rest := rows[1..];
      assert forall i :: 1 <= i < |rows| ==> rows[i] == rest[i - 1];
      if k > 0 {
        LiveFrom(rest, now, k - 1);
        assert rest[k - 1..] == rows[k..];
      } else {
        LiveFrom(rest, now, 0);
      }
    }
  }

  lemma LiveIsTail(rows: seq<Row>, now: real) returns (k: nat)
    requires Ordered(rows)
    ensures k <= |rows| && Live(rows, now) == rows[k..]
    ensures forall i :: 0 <= i < |rows| ==> (rows[i].expires <= now <==> i < k)
  {
    k := 0;
    while k < |rows| && rows[k].expires <= now
      invariant k <= |rows| && forall i :: 0 <= i < k ==> rows[i].expires <= now
    {
      k := k + 1;
    }
    LiveFrom(rows, now, k);
  }

  lemma {:induction false} SortedIsIdentity(rows: seq<Row>)
    requires Ordered(rows)
    ensures Sorted(rows) == rows
  {
    if rows != [] {
      SortedIsIdentity(rows[1..]);
      assert |rows| > 1 ==> rows[0].expires <= rows[1..][0].expires;
    }
  }

  lemma {:induction false} WithoutPrefix(rows: seq<Row>, gone: seq<Row>, k: nat)
    requires k <= |rows|
    requires forall i :: 0 <= i < |rows| ==> (HasKey(gone, rows[i].key) <==> i < k)
    ensures WithoutKeys(rows, gone) == rows[k..]
  {
    if rows != [] {
      var rest := rows[1..];
      assert forall i :: 1 <= i < |rows| ==> rows[i] == rest[i - 1];
      if k > 0 {
        WithoutPrefix(rest, gone, k - 1);
        assert rest[k - 1..] == rows[k..];
      } else {
        WithoutPrefix(rest, gone, 0);
      }
    }
  }

  lemma PrefixKeys(rows: seq<Row>, k: nat)
    requires DistinctKeys(rows) && k <= |rows|
    ensures forall i :: 0 <= i < |rows| ==> (HasKey(rows[..k], rows[i].key) <==> i < k)
  {
    forall i | 0 <= i < |rows| ensures HasKey(rows[..k], rows[i].key) <==> i < k {
      assert i < k ==> rows[..k][i].key == rows[i].key;
    }
  }

  lemma TailKeeps(rows: seq<Row>, k: nat)
    requires Ordered(rows) && DistinctKeys(rows) && k <= |rows|
    ensures Ordered(rows[k..]) && DistinctKeys(rows[k..])
  {
  }

  lemma DropOldestIsTail(rows: seq<Row>, k: nat)
    requires DistinctKeys(rows) && Ordered(rows) && k <= |rows|
    ensures DropOldest(rows, k) == rows[k..]
  {
    SortedIsIdentity(rows);
    PrefixKeys(rows, k);
    WithoutPrefix(rows, rows[..k], k);
  }

  /** On an ordered table pruning drops a prefix: expired rows, then the oldest overflow. */
  lemma PruneIsTail(rows: seq<Row>, now: real) returns (k: nat)
    requires Ordered(rows) && DistinctKeys(rows)
    ensures k <= |rows| <= k + LIMIT && Prune(rows, now) == rows[k..]
    ensures forall i :: 0 <= i < |rows| ==> (i < k <==> rows[i].expires <= now || i + LIMIT < |rows|)
  {
    var live := LiveIsTail(rows, now);
    PruneLive(rows, now, live);
    k := if |rows| - live > LIMIT then |rows| - LIMIT else live;
  }

  lemma PruneLive(rows: seq<Row>, now: real, k: nat)
    requires Ordered(rows) && DistinctKeys(rows) && k <= |rows| && Live(rows, now) == rows[k..]
    ensures Prune(rows, now) == rows[if |rows| - k > LIMIT then |rows| - LIMIT else k..]
  {
    TailKeeps(rows, k);
    if |rows[k..]| > LIMIT {
      DropOldestIsTail(rows[k..], |rows[k..]| - LIMIT);
      SliceOfTail(rows, k, |rows[k..]| - LIMIT);
    }
  }

  lemma SliceOfTail(rows: seq<Row>, k: nat, j: nat)
    requires k + j <= |rows|
    ensures rows[k..][j..] == rows[k + j..]
  {
  }

  // ---------- Every step keeps the invariant ----------

  lemma ForgottenLater(log: seq<Row>, longer: seq<Row>, i: nat, before: real, now: real)
    requires Forgotten(log, i, before) && log <= longer && before <= now
    ensures Forgotten(longer, i, now)
  {
    if Crowded(log, i) {
      assert log[i..i + LIMIT + 1] == longer[i..i + LIMIT + 1];
    }
  }

  /** At any later time the table is pruned to exactly the rows of the log that are not
      forgotten then. */
  lemma PruneIsExact(s: State, from: nat, now: real) returns (from': nat)
    requires Inv(s, from) && s.clock <= now
    ensures from <= from' <= |s.log| && Prune(s.rows, now) == s.log[from'..]
    ensures |s.log| - from' <= LIMIT
    ensures forall i :: 0 <= i < |s.log| ==> (Forgotten(s.log, i, now) <==> i < from')
  {
    TailKeepsOrder(s.log, from);
    var k := PruneIsTail(s.rows, now);
    from' := from + k;
    assert s.rows[k..] == s.log[from'..];
    forall i | 0 <= i < |s.log| ensures Forgotten(s.log, i, now) <==> i < from' {
      if i < from {
        ForgottenLater(s.log, s.log, i, s.clock, now);
      } else if i < from' {
        DroppedIsForgotten(s, from, i, now);
      } else {
        assert s.rows[i - from] == s.log[i];
      }
    }
  }

  lemma DroppedIsForgotten(s: State, from: nat, i: nat, now: real)
    requires Inv(s, from) && from <= i < |s.log|
    requires s.rows[i - from].expires <= now || i - from + LIMIT < |s.rows|
    ensures Forgotten(s.log, i, now)
  {
    assert s.rows[i - from] == s.log[i];
    if i - from + LIMIT < |s.rows| {
      assert s.log[i..i + LIMIT + 1] == s.rows[i - from..i - from + LIMIT + 1];
    }
  }

  lemma BeginKeepsInv(s: State, from: nat, request: Request, now: real) returns (from': nat)
    requires Inv(s, from) && Enabled(s, Begin(request, now))
    ensures Inv(Apply(s, Begin(request, now)), from')
  {
    from' := PruneIsExact(s, from, now);
    TailDistinct(s, from, from');
    FindIsHasKey(Prune(s.rows, now), request.key);
  }

  lemma TailDistinct(s: State, from: nat, from': nat)
    requires Inv(s, from) && from <= from' <= |s.log|
    ensures DistinctKeys(s.log[from'..])
  {
    assert s.log[from'..] == s.rows[from' - from..];
  }

  lemma TailKeepsOrder(log: seq<Row>, from: nat)
    requires Ordered(log) && from <= |log|
    ensures Ordered(log[from..])
  {
  }

  lemma CompleteKeepsInv(s: State, from: nat, result: string)
    requires Inv(s, from) && s.pending.Some?
    ensures Inv(Apply(s, Complete(result)), from)
  {
    var p := s.pending.value;
    if p.request.Idempotent() {
      var row := Row(p.request.key, p.request.target, result, p.now + TTL);
      var longer := s.log + [row];
      assert s.rows + [row] == longer[from..];
      AppendDistinct(s.rows, row);
      forall i | 0 <= i < from ensures Forgotten(longer, i, s.clock) {
        ForgottenLater(s.log, longer, i, s.clock, s.clock);
      }
      AppendApart(s, from, row);
    }
  }

  lemma AppendDistinct(rows: seq<Row>, row: Row)
    requires DistinctKeys(rows) && !HasKey(rows, row.key)
    ensures DistinctKeys(rows + [row])
  {
  }

  lemma TailKeyFree(log: seq<Row>, from: nat, k: Key)
    requires from <= |log| && !HasKey(log[from..], k)
    ensures forall i :: from <= i < |log| ==> log[i].key != k
  {
    assert forall i :: from <= i < |log| ==> log[i] == log[from..][i - from];
  }

  lemma AppendApart(s: State, from: nat, row: Row)
    requires Inv(s, from) && !HasKey(s.rows, row.key) && row.expires == s.clock + TTL
    ensures StartsApart(s.log + [row])
  {
    var longer := s.log + [row];
    TailKeyFree(s.log, from, row.key);
    forall i, j | 0 <= i < j < |longer| && longer[i].key == longer[j].key
      ensures longer[i].expires + TTL <= longer[j].expires || (i + LIMIT < j && Crowded(longer, i))
    {
      if j < |s.log| {
        if Crowded(s.log, i) { assert s.log[i..i + LIMIT + 1] == longer[i..i + LIMIT + 1]; }
      } else {
        assert Forgotten(s.log, i, s.clock);
        if Crowded(s.log, i) { assert s.log[i..i + LIMIT + 1] == longer[i..i + LIMIT + 1]; }
      }
    }
  }

  lemma {:induction false} RunKeepsInv(es: seq<Event>) returns (from: nat)
    requires Run(es).Some?
    ensures Inv(Run(es).value, from)
  {
    from := 0;
    if es != [] {
      from := RunKeepsInv(es[..|es| - 1]);
      var s := Run(es[..|es| - 1]).value;
      match es[|es| - 1]
      case Begin(request, now) => from := BeginKeepsInv(s, from, request, now);
      case Complete(result) => CompleteKeepsInv(s, from, result);
      case _ =>
    }
  }

  // ---------- What every run guarantees ----------

  /** The table never exceeds LIMIT + 1 rows, and two starts of one key are a TTL apart or
      have LIMIT starts with other, pairwise different keys between them. */
  lemma DuplicatesAreApart(es: seq<Event>)
    requires Run(es).Some?
    ensures var s := Run(es).value;
      |s.rows| <= LIMIT + 1 && StartsApart(s.log)
  {
    var from := RunKeepsInv(es);
  }

  /** A request whose key was stored less than a TTL ago and not pushed out since is not
      started again: it gets the stored result, or a conflict for another target. */
  lemma FreshKeyIsReplayed(es: seq<Event>, i: nat, request: Request, now: real)
    requires Run(es).Some? && Enabled(Run(es).value, Begin(request, now)) && request.Idempotent()
    requires var log := Run(es).value.log;
      && i < |log| && log[i].key == request.key && now < log[i].expires
      && |log| <= i + LIMIT
    ensures var s := Run(es).value;
      AnswerTo(s, request, now)
      == if s.log[i].target == request.target then Replayed(s.log[i].result) else Conflict
  {
    var from := RunKeepsInv(es);
    var s := Run(es).value;
    assert !Forgotten(s.log, i, s.clock);
    var from' := PruneIsExact(s, from, now);
    assert !Forgotten(s.log, i, now);
    var kept := s.log[from'..];
    TailDistinct(s, from, from');
    assert kept[i - from'] == s.log[i];
    FindUnique(kept, i - from');
  }

  lemma FindUnique(rows: seq<Row>, i: nat)
    requires DistinctKeys(rows) && i < |rows|
    ensures Find(rows, rows[i].key) == Some(rows[i])
  {
    assert HasKey(rows, rows[i].key);
    FindIsHasKey(rows, rows[i].key);
  }

  // ---------- When a run is started ----------

  lemma AnswerFromKept(s: State, from: nat, from': nat, request: Request, now: real)
    requires Inv(s, from) && from <= from' <= |s.log| && Prune(s.rows, now) == s.log[from'..]
    ensures AnswerTo(s, request, now).MustStart? <==>
      request.key.id == "" || forall i :: from' <= i < |s.log| ==> s.log[i].key != request.key
    ensures forall i :: from' <= i < |s.log| && s.log[i].key == request.key && request.key.id != "" ==>
      AnswerTo(s, request, now) == if s.log[i].target == request.target then Replayed(s.log[i].result) else Conflict
  {
    TailDistinct(s, from, from');
    FoundInTail(s.log, from', request.key);
  }

  lemma FoundInTail(log: seq<Row>, from: nat, k: Key)
    requires from <= |log| && DistinctKeys(log[from..])
    ensures Find(log[from..], k).None? <==> forall i :: from <= i < |log| ==> log[i].key != k
    ensures forall i :: from <= i < |log| && log[i].key == k ==> Find(log[from..], k) == Some(log[i])
  {
    var kept := log[from..];
    FindIsHasKey(kept, k);
    forall i | from <= i < |log| && log[i].key == k ensures Find(kept, k) == Some(log[i]) {
      assert kept[i - from] == log[i];
      FindUnique(kept, i - from);
    }
    if HasKey(kept, k) {
      var n :| 0 <= n < |kept| && kept[n].key == k;
      assert log[from + n] == kept[n];
    }
  }

  /** Every run: a request is started if and only if it has no id or every start with its key
      is forgotten, expired or crowded out.  Otherwise it gets the result of the one that is
      not, or a conflict if that had another target. */
  lemma AnswerExact(es: seq<Event>, request: Request, now: real)
    requires Run(es).Some? && Enabled(Run(es).value, Begin(request, now))
    ensures var s := Run(es).value;
      var answer := AnswerTo(s, request, now);
      && (answer.MustStart? <==>
            request.key.id == "" || forall i :: 0 <= i < |s.log| && s.log[i].key == request.key ==> Forgotten(s.log, i, now))
      && (forall i :: 0 <= i < |s.log| && s.log[i].key == request.key && !Forgotten(s.log, i, now) && request.key.id != "" ==>
            answer == if s.log[i].target == request.target then Replayed(s.log[i].result) else Conflict)
      && Apply(s, Begin(request, now)).pending == (if answer.MustStart? then Some(Pending(request, now)) else None)
  {
    var from := RunKeepsInv(es);
    var from' := PruneIsExact(Run(es).value, from, now);
    AnswerFromKept(Run(es).value, from, from', request, now);
  }

  lemma RunSnoc(es: seq<Event>, e: Event)
    requires Run(es).Some? && Enabled(Run(es).value, e)
    ensures Run(es + [e]) == Some(Apply(Run(es).value, e))
  {
    assert (es + [e])[..|es|] == es;
  }

  /** A started request that returns is stored for 900 seconds if it has an id, and then, until
      those are over, the same request is answered with that result and not started again; one
      that raises is not stored. */
  lemma StartedIsStored(es: seq<Event>, request: Request, now: real, result: string, again: Request, later: real)
    requires Run(es).Some? && Enabled(Run(es).value, Begin(request, now)) && AnswerTo(Run(es).value, request, now).MustStart?
    requires again.key == request.key && now <= later
    ensures var s, t, failed := Run(es).value, Run(es + [Begin(request, now)] + [Complete(result)]), Run(es + [Begin(request, now)] + [Fail]);
      && t.Some? && t.value.pending == None && failed.Some? && failed.value.pending == None && failed.value.log == s.log
      && t.value.log == (if request.key.id == "" then s.log else s.log + [Row(request.key, request.target, result, now + 900.0)])
      && (request.key.id != "" && later < now + 900.0 ==>
            AnswerTo(t.value, again, later) == if again.target == request.target then Replayed(result) else Conflict)
  {
    var first := es + [Begin(request, now)];
    RunSnoc(es, Begin(request, now));
    RunSnoc(first, Complete(result));
    RunSnoc(first, Fail);
    var t := Run(first + [Complete(result)]).value;
    if request.key.id != "" && later < now + 900.0 {
      FreshKeyIsReplayed(first + [Complete(result)], |t.log| - 1, again, later);
    }
  }

  lemma ReplayedRow(s: State, from: nat, request: Request, now: real) returns (i: nat)
    requires Inv(s, from) && AnswerTo(s, request, now).Replayed?
    ensures i < |s.log| && s.log[i].key == request.key && s.log[i].target == request.target
    ensures AnswerTo(s, request, now) == Replayed(s.log[i].result) && now < s.log[i].expires
    ensures forall j :: i < j < |s.log| ==> s.log[j].key != request.key
  {
    TailKeepsOrder(s.log, from);
    var k := PruneIsTail(s.rows, now);
    var kept := s.rows[k..];
    var n := FoundAt(kept, request.key);
    i := from + k + n;
    assert kept[n] == s.rows[k + n];
    LastOfItsKey(s.log, s.rows, from, k + n);
  }

  lemma {:induction false} FoundAt(rows: seq<Row>, k: Key) returns (n: nat)
    requires Find(rows, k).Some?
    ensures n < |rows| && rows[n] == Find(rows, k).value && rows[n].key == k
  {
    n := 0;
    if rows[0].key != k {
      n := FoundAt(rows[1..], k);
      n := n + 1;
    }
  }

  /** Whatever is replayed is the result of the last stored start of that key. */
  lemma ReplayIsLastStart(es: seq<Event>, request: Request, now: real) returns (i: nat)
    requires Run(es).Some? && Enabled(Run(es).value, Begin(request, now))
    requires AnswerTo(Run(es).value, request, now).Replayed?
    ensures var s := Run(es).value;
      && i < |s.log| && s.log[i].key == request.key && s.log[i].target == request.target
      && AnswerTo(s, request, now) == Replayed(s.log[i].result)
      && now < s.log[i].expires
      && (forall j :: i < j < |s.log| ==> s.log[j].key != request.key)
  {
    var from := RunKeepsInv(es);
    i := ReplayedRow(Run(es).value, from, request, now);
  }

  lemma LastOfItsKey(log: seq<Row>, rows: seq<Row>, from: nat, n: nat)
    requires from <= |log| && rows == log[from..] && DistinctKeys(rows) && n < |rows|
    ensures log[from + n] == rows[n]
    ensures forall j :: from + n < j < |log| ==> log[j].key != rows[n].key
  {
    forall j | from + n < j < |log| ensures log[j].key != rows[n].key {
      assert log[j] == rows[j - from];
    }
  }

  // ---------- The code itself ----------

  lemma {:induction false} LiveAppend(rows: seq<Row>, r: Row, now: real)
    ensures Live(rows + [r], now) == Live(rows, now) + if r.expires <= now then [] else [r]
  {
    if rows != [] {
      LiveAppend(rows[1..], r, now);
      assert (rows + [r])[1..] == rows[1..] + [r];
    }
  }

  class ControlPlane {
    var rows: seq<Row>
    var pending: Option<Pending>   // who holds _run_lock across the await
    ghost var log: seq<Row>
    ghost var clock: real

    ghost function View(): State
      reads this
    {
      State(rows, pending, log, clock)
    }

    constructor ()
      ensures View() == INIT
    {
      rows, pending, log, clock := [], None, [], 0.0;
    }

    /** The expiry loop of `_prune_requests`. */
    method DropExpired(now: real)
      modifies this`rows
      ensures rows == Live(old(rows), now)
    {
      var live, i := [], 0;
      while i < |rows|
        invariant 0 <= i <= |rows| && rows == old(rows)
        invariant live == Live(rows[..i], now)
      {
        LiveAppend(rows[..i], rows[i], now);
        assert rows[..i] + [rows[i]] == rows[..i + 1];
        if rows[i].expires > now {
          live := live + [rows[i]];
        }
        i := i + 1;
      }
      assert rows[..i] == rows;
      rows := live;
    }

    /** `_prune_requests`. */
    method PruneRequests(now: real)
      modifies this`rows
      ensures rows == Prune(old(rows), now)
    {
      DropExpired(now);
      if |rows| <= LIMIT {
        return;
      }
      var oldest := Sorted(rows)[..|rows| - LIMIT];
      rows := WithoutKeys(rows, oldest);
    }

    /** `start_task_run` from taking the lock to its return or its await. */
    method BeginRun(request: Request, now: real) returns (answer: Answer)
      requires Enabled(View(), Begin(request, now))
      modifies this
      ensures View() == Apply(old(View()), Begin(request, now))
      ensures answer == AnswerTo(old(View()), request, now)
    {
      clock := now;
      PruneRequests(now);
      var found := Find(rows, request.key);
      if request.key.id != "" && found.Some? {
        if found.value.target != request.target {
          return Conflict;
        }
        return Replayed(found.value.result);
      }
      pending := Some(Pending(request, now));
      return MustStart;
    }

    /** After the await: remember the result and release the lock. */
    method CompleteRun(result: string)
      requires pending.Some?
      modifies this
      ensures View() == Apply(old(View()), Complete(result))
    {
      var p := pending.value;
      if p.request.key.id != "" {
        var row := Row(p.request.key, p.request.target, result, p.now + TTL);
        rows := rows + [row];
        log := log + [row];
      }
      pending := None;
    }

    /** The start raised: nothing is stored. */
    method FailRun()
      requires pending.Some?
      modifies this
      ensures View() == Apply(old(View()), Fail)
    {
      pending := None;
    }
  }
}
