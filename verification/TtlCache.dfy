/** The LRU cache with expiry (backend/utils/cache.py).  The ordered dictionary is the
    sequence of its entries, least recently used first; every operation is given the clock
    reading it takes, and the clock never goes back. */
module TtlCache {
  import opened Options

  type Key = string
  type Value = string

  datatype Entry = Entry(key: Key, value: Value, expireAt: real)

  datatype Config = Config(maxsize: nat, ttl: real) {
    predicate Valid() { maxsize >= 1 && ttl > 0.0 }
  }

  datatype Op =
    | Get(key: Key, now: real)        // get() or `in`
    | Set(key: Key, value: Value, now: real)
    | Delete(key: Key)
    | Clear
    | Purge(now: real)

  // ---------- The ordered dictionary ----------

  function IndexOf(rows: seq<Entry>, k: Key): (i: nat)
    ensures i <= |rows| && (i < |rows| ==> rows[i].key == k)
    ensures forall j :: 0 <= j < i ==> rows[j].key != k
  {
    if rows == [] || rows[0].key == k then 0 else 1 + IndexOf(rows[1..], k)
  }

  function RemoveAt(rows: seq<Entry>, i: nat): seq<Entry>
    requires i < |rows|
  {
    rows[..i] + rows[i + 1..]
  }

  function Unexpired(rows: seq<Entry>, now: real): seq<Entry> {
    if rows == [] then []
    else
      var n := |rows| - 1;
      Unexpired(rows[..n], now) + if now >= rows[n].expireAt then [] else [rows[n]]
  }

  function Lookup(rows: seq<Entry>, k: Key, now: real): Option<Value> {
    var i := IndexOf(rows, k);
    if i < |rows| && now < rows[i].expireAt then Some(rows[i].value) else None
  }

  function Perform(cfg: Config, rows: seq<Entry>, op: Op): seq<Entry> {
    match op
    case Get(k, now) =>
      var i := IndexOf(rows, k);
      if i == |rows| then rows
      else if now >= rows[i].expireAt then RemoveAt(rows, i)
      else RemoveAt(rows, i) + [rows[i]]
    case Set(k, v, now) =>
      var i := IndexOf(rows, k);
      (if i < |rows| then RemoveAt(rows, i)
       else if |rows| >= cfg.maxsize && rows != [] then rows[1..]
       else rows) + [Entry(k, v, now + cfg.ttl)]
    case Delete(k) =>
      var i := IndexOf(rows, k);
      if i < |rows| then RemoveAt(rows, i) else rows
    case Clear => []
    case Purge(now) => Unexpired(rows, now)
  }

  // ---------- History ----------

  /** An operation together with whether it found a live entry. */
  datatype Event = Event(op: Op, hit: bool) {
    predicate Touches(k: Key) { (op.Set? || (op.Get? && hit)) && op.key == k }
    predicate Forgets(k: Key) { op.Clear? || (op.Delete? && op.key == k) }
  }

  function Hits(rows: seq<Entry>, op: Op): bool {
    op.Get? && Lookup(rows, op.key, op.now).Some?
  }

  function Rows(cfg: Config, ops: seq<Op>): seq<Entry> {
    if ops == [] then [] else Perform(cfg, Rows(cfg, ops[..|ops| - 1]), ops[|ops| - 1])
  }

  function History(cfg: Config, ops: seq<Op>): seq<Event> {
    if ops == [] then []
    else
      var before := ops[..|ops| - 1];
      History(cfg, before) + [Event(ops[|ops| - 1], Hits(Rows(cfg, before), ops[|ops| - 1]))]
  }

  function Clock(ops: seq<Op>): real {
    if ops == [] then 0.0
    else
      var op := ops[|ops| - 1];
      if op.Delete? || op.Clear? then Clock(ops[..|ops| - 1]) else op.now
  }

  predicate Clocked(ops: seq<Op>) {
    ops == [] || (Clocked(ops[..|ops| - 1]) && Clock(ops[..|ops| - 1]) <= Clock(ops))
  }

  /** The value and time of the last `set` of k that no delete or clear has undone. */
  function LastSet(h: seq<Event>, k: Key): Option<(Value, real)> {
    if h == [] then None
    else
      var e := h[|h| - 1];
      if e.op.Set? && e.op.key == k then Some((e.op.value, e.op.now))
      else if e.Forgets(k) then None
      else LastSet(h[..|h| - 1], k)
  }

  /** The other keys touched since k itself was last touched. */
  function Crowd(h: seq<Event>, k: Key): set<Key> {
    if h == [] || h[|h| - 1].Touches(k) then {}
    else
      var e := h[|h| - 1];
      Crowd(h[..|h| - 1], k) + if e.op.Set? || (e.op.Get? && e.hit) then {e.op.key} else {}
  }

  // ---------- Invariant ----------

  predicate DistinctKeys(rows: seq<Entry>) {
    forall i, j :: 0 <= i < j < |rows| ==> rows[i].key != rows[j].key
  }

  predicate HasKey(rows: seq<Entry>, k: Key) { exists i :: 0 <= i < |rows| && rows[i].key == k }

  /** The entry holds the last value set, and all entries after it were touched since. */
  ghost predicate EntryTrue(cfg: Config, h: seq<Event>, rows: seq<Entry>, i: nat)
    requires i < |rows|
  {
    && LastSet(h, rows[i].key).Some?
    && rows[i].value == LastSet(h, rows[i].key).value.0
    && rows[i].expireAt == LastSet(h, rows[i].key).value.1 + cfg.ttl
    && (forall j :: i < j < |rows| ==> rows[j].key in Crowd(h, rows[i].key))
  }

  /** Why a key may be absent: not set (or deleted), too old, or crowded out. */
  ghost predicate AbsenceExplained(cfg: Config, h: seq<Event>, k: Key, now: real) {
    || LastSet(h, k).None?
    || LastSet(h, k).value.1 + cfg.ttl <= now
    || |Crowd(h, k)| >= cfg.maxsize
  }

  ghost predicate Inv(cfg: Config, h: seq<Event>, rows: seq<Entry>, now: real) {
    && DistinctKeys(rows) && |rows| <= cfg.maxsize
    && (forall i :: 0 <= i < |rows| ==> EntryTrue(cfg, h, rows, i))
    && (forall k :: !HasKey(rows, k) ==> AbsenceExplained(cfg, h, k, now))
  }

  lemma HistorySnoc(h: seq<Event>, e: Event, k: Key)
    ensures LastSet(h + [e], k)
         == if e.op.Set? && e.op.key == k then Some((e.op.value, e.op.now))
            else if e.Forgets(k) then None else LastSet(h, k)
    ensures Crowd(h + [e], k)
         == if e.Touches(k) then {}
            else Crowd(h, k) + if e.op.Set? || (e.op.Get? && e.hit) then {e.op.key} else {}
  {
    assert (h + [e])[..|h|] == h;
  }

  /** An operation that does not concern k leaves its explanation valid. */
  lemma StillExplained(cfg: Config, h: seq<Event>, e: Event, k: Key, before: real, now: real)
    requires AbsenceExplained(cfg, h, k, before) && before <= now
    requires !e.Touches(k)
    ensures AbsenceExplained(cfg, h + [e], k, now)
  {
    HistorySnoc(h, e, k);
    SubsetSize(Crowd(h, k), Crowd(h + [e], k));
  }

  lemma {:induction false} SubsetSize(a: set<Key>, b: set<Key>)
    requires a <= b
    ensures |a| <= |b|
  {
    if a != {} {
      var k :| k in a;
      SubsetSize(a - {k}, b - {k});
    }
  }

  lemma {:induction false} KeysSize(rows: seq<Entry>, s: set<Key>)
    requires DistinctKeys(rows)
    requires forall i :: 0 <= i < |rows| ==> rows[i].key in s
    ensures |rows| <= |s|
  {
    if rows != [] {
      var n := |rows| - 1;
      KeysSize(rows[..n], s - {rows[n].key});
    }
  }

  /** `kept` is `rows` at the increasing positions `pos`. */
  predicate Selects(pos: seq<nat>, rows: seq<Entry>, kept: seq<Entry>) {
    && |pos| == |kept|
    && (forall j :: 0 <= j < |pos| ==> pos[j] < |rows| && kept[j] == rows[pos[j]])
    && (forall i, j :: 0 <= i < j < |pos| ==> pos[i] < pos[j])
  }

  /** The entries of `rows` that `kept` lost. */
  predicate Lost(pos: seq<nat>, rows: seq<Entry>, i: nat) { i < |rows| && i !in pos }

  lemma SelectsKeys(pos: seq<nat>, rows: seq<Entry>, kept: seq<Entry>, k: Key)
    requires Selects(pos, rows, kept) && DistinctKeys(rows)
    ensures DistinctKeys(kept) && |kept| <= |rows|
    ensures HasKey(kept, k) ==> HasKey(rows, k)
    ensures HasKey(rows, k) && !HasKey(kept, k) ==> exists i: nat :: Lost(pos, rows, i) && rows[i].key == k
  {
    forall i, j | 0 <= i < j < |kept| ensures kept[i].key != kept[j].key {
      assert pos[i] < pos[j];
    }
    KeysSize(kept, set i | 0 <= i < |rows| :: rows[i].key);
    KeySetSize(rows);
    if HasKey(kept, k) {
      var j :| 0 <= j < |kept| && kept[j].key == k;
      assert rows[pos[j]].key == k;
    } else if HasKey(rows, k) {
      var i :| 0 <= i < |rows| && rows[i].key == k;
      forall j | 0 <= j < |pos| ensures pos[j] != i { assert kept[j] == rows[pos[j]] && kept[j].key != k; }
      assert Lost(pos, rows, i);
    }
  }

  lemma {:induction false} KeySetSize(rows: seq<Entry>)
    ensures |set i | 0 <= i < |rows| :: rows[i].key| <= |rows|
  {
    var s := set i | 0 <= i < |rows| :: rows[i].key;
    if rows != [] {
      var n := |rows| - 1;
      KeySetSize(rows[..n]);
      var t := set i | 0 <= i < |rows[..n]| :: rows[..n][i].key;
      assert s == t + {rows[n].key};
    } else {
      assert s == {};
    }
  }

  /** A kept entry that the event neither touches nor forgets stays true. */
  lemma KeptStaysTrue(cfg: Config, h: seq<Event>, e: Event, rows: seq<Entry>, pos: seq<nat>, kept: seq<Entry>, i: nat)
    requires Selects(pos, rows, kept) && i < |kept| && EntryTrue(cfg, h, rows, pos[i])
    requires !e.Touches(kept[i].key) && !e.Forgets(kept[i].key)
    requires !(e.op.Set? && e.op.key == kept[i].key)
    ensures EntryTrue(cfg, h + [e], kept, i)
  {
    HistorySnoc(h, e, kept[i].key);
    forall j | i < j < |kept| ensures kept[j].key in Crowd(h + [e], kept[i].key) {
      assert pos[i] < pos[j];
    }
  }

  /** Operations that touch nothing: what is lost must be explained. */
  lemma KeepSome(cfg: Config, h: seq<Event>, e: Event, rows: seq<Entry>, pos: seq<nat>, kept: seq<Entry>, before: real, now: real)
    requires Inv(cfg, h, rows, before) && before <= now && Selects(pos, rows, kept)
    requires forall k :: !e.Touches(k)
    requires forall j :: 0 <= j < |kept| ==> !e.Forgets(kept[j].key)
    requires forall i: nat :: Lost(pos, rows, i) ==> AbsenceExplained(cfg, h + [e], rows[i].key, now)
    ensures Inv(cfg, h + [e], kept, now)
  {
    SelectsKeys(pos, rows, kept, "");
    forall i | 0 <= i < |kept| ensures EntryTrue(cfg, h + [e], kept, i) {
      assert !e.Touches(kept[i].key);
      KeptStaysTrue(cfg, h, e, rows, pos, kept, i);
    }
    forall k | !HasKey(kept, k) ensures AbsenceExplained(cfg, h + [e], k, now) {
      SelectsKeys(pos, rows, kept, k);
      if !HasKey(rows, k) {
        StillExplained(cfg, h, e, k, before, now);
      }
    }
  }

  /** Operations that touch k: its entry becomes the newest one. */
  lemma TouchKey(cfg: Config, h: seq<Event>, e: Event, rows: seq<Entry>, pos: seq<nat>, kept: seq<Entry>, entry: Entry, before: real, now: real)
    requires Inv(cfg, h, rows, before) && before <= now && Selects(pos, rows, kept)
    requires e.Touches(entry.key) && !HasKey(kept, entry.key) && |kept| < cfg.maxsize
    requires LastSet(h + [e], entry.key) == Some((entry.value, entry.expireAt - cfg.ttl))
    requires forall i: nat :: Lost(pos, rows, i) && rows[i].key != entry.key ==> AbsenceExplained(cfg, h + [e], rows[i].key, now)
    ensures Inv(cfg, h + [e], kept + [entry], now)
  {
    var all := kept + [entry];
    SelectsKeys(pos, rows, kept, "");
    assert forall i :: 0 <= i < |kept| ==> kept[i].key != entry.key;
    forall i | 0 <= i < |all| ensures EntryTrue(cfg, h + [e], all, i) {
      if i < |kept| {
        KeptStaysTrue(cfg, h, e, rows, pos, kept, i);
        HistorySnoc(h, e, kept[i].key);
      }
    }
    forall k | !HasKey(all, k) ensures AbsenceExplained(cfg, h + [e], k, now) {
      assert all[|kept|].key == entry.key;
      assert forall i :: 0 <= i < |kept| ==> all[i] == kept[i];
      SelectsKeys(pos, rows, kept, k);
      if !HasKey(rows, k) {
        StillExplained(cfg, h, e, k, before, now);
      }
    }
  }

  function AllBut(n: nat, i: nat): seq<nat>
    requires i < n
  {
    seq(n - 1, j requires 0 <= j < n - 1 => if j < i then j else j + 1)
  }

  function Everything(n: nat): seq<nat> { seq(n, j requires 0 <= j < n => j) }

  lemma AllButSelects(rows: seq<Entry>, i: nat)
    requires i < |rows|
    ensures Selects(AllBut(|rows|, i), rows, RemoveAt(rows, i))
    ensures forall j: nat :: Lost(AllBut(|rows|, i), rows, j) ==> j == i
    ensures DistinctKeys(rows) ==> !HasKey(RemoveAt(rows, i), rows[i].key)
  {
    var pos := AllBut(|rows|, i);
    forall j: nat | j < |rows| && j != i ensures j in pos {
      assert pos[if j < i then j else j - 1] == j;
    }
    assert forall j :: 0 <= j < |pos| ==> pos[j] != i && RemoveAt(rows, i)[j] == rows[pos[j]];
  }

  lemma EverythingSelects(rows: seq<Entry>)
    ensures Selects(Everything(|rows|), rows, rows)
    ensures forall j: nat :: !Lost(Everything(|rows|), rows, j)
  {
    forall j: nat | j < |rows| ensures j in Everything(|rows|) {
      assert Everything(|rows|)[j] == j;
    }
  }

  /** `kept` is the live part of `rows`, at these positions, in order. */
  ghost predicate KeepsLive(pos: seq<nat>, rows: seq<Entry>, kept: seq<Entry>, now: real) {
    && Selects(pos, rows, kept)
    && (forall i: nat :: i < |rows| ==> (i in pos <==> now < rows[i].expireAt))
  }

  lemma LiveSnoc(pos: seq<nat>, rows: seq<Entry>, kept: seq<Entry>, now: real, e: Entry) returns (longer: seq<nat>)
    requires KeepsLive(pos, rows, kept, now)
    ensures KeepsLive(longer, rows + [e], kept + if now >= e.expireAt then [] else [e], now)
  {
    longer := pos + if now >= e.expireAt then [] else [|rows|];
    assert forall i: nat :: i in longer <==> i in pos || (i == |rows| && now < e.expireAt);
    assert forall i: nat :: i < |rows| ==> (rows + [e])[i] == rows[i];
  }

  /** A purge keeps exactly the entries that have not expired, in their order. */
  lemma {:induction false} PurgeExact(rows: seq<Entry>, now: real) returns (pos: seq<nat>)
    ensures KeepsLive(pos, rows, Unexpired(rows, now), now)
  {
    pos := [];
    if rows != [] {
      var n := |rows| - 1;
      pos := PurgeExact(rows[..n], now);
      pos := LiveSnoc(pos, rows[..n], Unexpired(rows[..n], now), now, rows[n]);
      assert rows == rows[..n] + [rows[n]];
    }
  }

  // ---------- Every operation keeps the invariant ----------

  lemma GetKeepsInv(cfg: Config, h: seq<Event>, rows: seq<Entry>, k: Key, before: real, now: real)
    requires cfg.Valid() && Inv(cfg, h, rows, before) && before <= now
    ensures Inv(cfg, h + [Event(Get(k, now), Hits(rows, Get(k, now)))], Perform(cfg, rows, Get(k, now)), now)
  {
    var i, op := IndexOf(rows, k), Get(k, now);
    var e := Event(op, Hits(rows, op));
    HistorySnoc(h, e, k);
    if i == |rows| {
      EverythingSelects(rows);
      KeepSome(cfg, h, e, rows, Everything(|rows|), rows, before, now);
    } else {
      AllButSelects(rows, i);
      assert EntryTrue(cfg, h, rows, i);
      if now >= rows[i].expireAt {
        KeepSome(cfg, h, e, rows, AllBut(|rows|, i), RemoveAt(rows, i), before, now);
      } else {
        TouchKey(cfg, h, e, rows, AllBut(|rows|, i), RemoveAt(rows, i), rows[i], before, now);
      }
    }
  }

  lemma SetPresent(cfg: Config, h: seq<Event>, rows: seq<Entry>, e: Event, i: nat, entry: Entry, before: real, now: real)
    requires Inv(cfg, h, rows, before) && before <= now && i < |rows| && rows[i].key == entry.key
    requires e.Touches(entry.key) && LastSet(h + [e], entry.key) == Some((entry.value, entry.expireAt - cfg.ttl))
    ensures Inv(cfg, h + [e], RemoveAt(rows, i) + [entry], now)
  {
    AllButSelects(rows, i);
    TouchKey(cfg, h, e, rows, AllBut(|rows|, i), RemoveAt(rows, i), entry, before, now);
  }

  lemma SetEvicting(cfg: Config, h: seq<Event>, rows: seq<Entry>, e: Event, entry: Entry, before: real, now: real)
    requires cfg.Valid() && Inv(cfg, h, rows, before) && before <= now && |rows| >= cfg.maxsize
    requires e.op.Set? && e.op.key == entry.key && !HasKey(rows, entry.key)
    requires LastSet(h + [e], entry.key) == Some((entry.value, entry.expireAt - cfg.ttl))
    ensures Inv(cfg, h + [e], rows[1..] + [entry], now)
  {
    AllButSelects(rows, 0);
    SelectsKeys(AllBut(|rows|, 0), rows, RemoveAt(rows, 0), entry.key);
    assert RemoveAt(rows, 0) == rows[1..];
    EvictedIsExplained(cfg, h, rows, e, now);
    TouchKey(cfg, h, e, rows, AllBut(|rows|, 0), rows[1..], entry, before, now);
  }

  lemma SetKeepsInv(cfg: Config, h: seq<Event>, rows: seq<Entry>, k: Key, v: Value, before: real, now: real)
    requires cfg.Valid() && Inv(cfg, h, rows, before) && before <= now
    ensures Inv(cfg, h + [Event(Set(k, v, now), false)], Perform(cfg, rows, Set(k, v, now)), now)
  {
    var i, e, entry := IndexOf(rows, k), Event(Set(k, v, now), false), Entry(k, v, now + cfg.ttl);
    HistorySnoc(h, e, k);
    if i < |rows| {
      SetPresent(cfg, h, rows, e, i, entry, before, now);
    } else if |rows| >= cfg.maxsize {
      SetEvicting(cfg, h, rows, e, entry, before, now);
    } else {
      EverythingSelects(rows);
      TouchKey(cfg, h, e, rows, Everything(|rows|), rows, entry, before, now);
    }
  }

  /** The evicted head: all the other entries and the new key were touched after it. */
  lemma EvictedIsExplained(cfg: Config, h: seq<Event>, rows: seq<Entry>, e: Event, now: real)
    requires |rows| >= cfg.maxsize >= 1 && DistinctKeys(rows) && EntryTrue(cfg, h, rows, 0)
    requires e.op.Set? && !HasKey(rows, e.op.key)
    ensures AbsenceExplained(cfg, h + [e], rows[0].key, now)
  {
    HistorySnoc(h, e, rows[0].key);
    var later := rows[1..] + [Entry(e.op.key, "", 0.0)];
    assert !e.Touches(rows[0].key);
    forall i, j | 0 <= i < j < |later| ensures later[i].key != later[j].key {
      assert later[i] == rows[i + 1];
    }
    KeysSize(later, Crowd(h + [e], rows[0].key));
  }

  lemma OthersKeepInv(cfg: Config, h: seq<Event>, rows: seq<Entry>, op: Op, before: real, now: real)
    requires cfg.Valid() && Inv(cfg, h, rows, before) && before <= now
    requires op.Delete? || op.Clear? || (op.Purge? && op.now == now)
    ensures Inv(cfg, h + [Event(op, false)], Perform(cfg, rows, op), now)
  {
    var e := Event(op, false);
    match op
    case Delete(k) =>
      var i := IndexOf(rows, k);
      HistorySnoc(h, e, k);
      if i < |rows| {
        AllButSelects(rows, i);
        KeepSome(cfg, h, e, rows, AllBut(|rows|, i), RemoveAt(rows, i), before, now);
      } else {
        EverythingSelects(rows);
        KeepSome(cfg, h, e, rows, Everything(|rows|), rows, before, now);
      }
    case Clear =>
      forall k ensures AbsenceExplained(cfg, h + [e], k, now) { HistorySnoc(h, e, k); }
    case Purge(_) =>
      var pos := PurgeExact(rows, now);
      forall i: nat | Lost(pos, rows, i) ensures AbsenceExplained(cfg, h + [e], rows[i].key, now) {
        assert EntryTrue(cfg, h, rows, i);
        HistorySnoc(h, e, rows[i].key);
      }
      KeepSome(cfg, h, e, rows, pos, Unexpired(rows, now), before, now);
  }

  lemma {:induction false} RunKeepsInv(cfg: Config, ops: seq<Op>)
    requires cfg.Valid() && Clocked(ops)
    ensures Inv(cfg, History(cfg, ops), Rows(cfg, ops), Clock(ops))
  {
    if ops != [] {
      var before, op := ops[..|ops| - 1], ops[|ops| - 1];
      RunKeepsInv(cfg, before);
      match op
      case Get(k, now) => GetKeepsInv(cfg, History(cfg, before), Rows(cfg, before), k, Clock(before), now);
      case Set(k, v, now) => SetKeepsInv(cfg, History(cfg, before), Rows(cfg, before), k, v, Clock(before), now);
      case _ => OthersKeepInv(cfg, History(cfg, before), Rows(cfg, before), op, Clock(before), Clock(ops));
    }
  }

  // ---------- What every run guarantees ----------

  /** A hit returns the last value set, less than ttl ago. */
  lemma HitIsFresh(cfg: Config, ops: seq<Op>, k: Key, now: real)
    requires cfg.Valid() && Clocked(ops) && Clock(ops) <= now
    requires Lookup(Rows(cfg, ops), k, now).Some?
    ensures var last := LastSet(History(cfg, ops), k);
      last.Some? && Lookup(Rows(cfg, ops), k, now) == Some(last.value.0) && now < last.value.1 + cfg.ttl
  {
    RunKeepsInv(cfg, ops);
    assert EntryTrue(cfg, History(cfg, ops), Rows(cfg, ops), IndexOf(Rows(cfg, ops), k));
  }

  /** A key that was set less than ttl ago, not deleted since, and followed by touches of
      fewer than maxsize other keys, is found. */
  lemma MissIsExplained(cfg: Config, ops: seq<Op>, k: Key, now: real)
    requires cfg.Valid() && Clocked(ops) && Clock(ops) <= now
    requires var last := LastSet(History(cfg, ops), k);
      last.Some? && now < last.value.1 + cfg.ttl && |Crowd(History(cfg, ops), k)| < cfg.maxsize
    ensures Lookup(Rows(cfg, ops), k, now) == Some(LastSet(History(cfg, ops), k).value.0)
  {
    RunKeepsInv(cfg, ops);
    Unexplained(cfg, History(cfg, ops), Rows(cfg, ops), k, Clock(ops), now);
  }

  lemma Unexplained(cfg: Config, h: seq<Event>, rows: seq<Entry>, k: Key, before: real, now: real)
    requires Inv(cfg, h, rows, before) && before <= now && !AbsenceExplained(cfg, h, k, now)
    ensures LastSet(h, k).Some? && Lookup(rows, k, now) == Some(LastSet(h, k).value.0)
  {
    assert !AbsenceExplained(cfg, h, k, before);
    assert HasKey(rows, k);
    assert EntryTrue(cfg, h, rows, IndexOf(rows, k));
  }

  lemma SizeBounded(cfg: Config, ops: seq<Op>)
    requires cfg.Valid() && Clocked(ops)
    ensures |Rows(cfg, ops)| <= cfg.maxsize && DistinctKeys(Rows(cfg, ops))
  {
    RunKeepsInv(cfg, ops);
  }

  /** So after a purge on any run a key is there if and only if it is found at that time, and a
      lookup of an expired key removes it. */
  lemma PurgedRun(cfg: Config, ops: seq<Op>, k: Key, now: real)
    requires cfg.Valid() && Clocked(ops) && Clock(ops) <= now
    ensures HasKey(Perform(cfg, Rows(cfg, ops), Purge(now)), k) <==> Lookup(Rows(cfg, ops), k, now).Some?
    ensures HasKey(Perform(cfg, Rows(cfg, ops), Get(k, now)), k) <==> Lookup(Rows(cfg, ops), k, now).Some?
  {
    var rows := Rows(cfg, ops);
    RunKeepsInv(cfg, ops);
    var pos := PurgeExact(rows, now);
    var i := IndexOf(rows, k);
    var kept := Unexpired(rows, now);
    if i < |rows| {
      assert forall j :: 0 <= j < |rows| && rows[j].key == k ==> j == i;
      if i in pos {
        var j :| 0 <= j < |pos| && pos[j] == i;
        assert kept[j].key == k;
      }
      AllButSelects(rows, i);
      if now < rows[i].expireAt { assert (RemoveAt(rows, i) + [rows[i]])[|rows| - 1].key == k; }
    }
  }

  // ---------- The code itself ----------

  class TTLCache {
    const cfg: Config
    var data: seq<Entry>

    /** A maxsize below 1 or a ttl not above 0 is refused. */
    static method Create(maxsize: int, ttl: real) returns (cache: TTLCache?)
      ensures cache == null <==> maxsize < 1 || ttl <= 0.0
      ensures cache != null ==> fresh(cache) && cache.cfg == Config(maxsize, ttl) && cache.data == []
    {
      if maxsize < 1 || ttl <= 0.0 {
        return null;
      }
      cache := new TTLCache(maxsize, ttl);
    }

    constructor (maxsize: nat, ttl: real)
      requires maxsize >= 1 && ttl > 0.0
      ensures cfg == Config(maxsize, ttl) && cfg.Valid() && data == []
    {
      cfg := Config(maxsize, ttl);
      data := [];
    }

    method Get(k: Key, now: real) returns (found: Option<Value>)
      modifies this
      ensures data == Perform(cfg, old(data), Op.Get(k, now))
      ensures found == Lookup(old(data), k, now)
    {
      var i := IndexOf(data, k);
      if i == |data| {
        return None;
      }
      var entry := data[i];
      data := data[..i] + data[i + 1..];
      if now >= entry.expireAt {
        return None;
      }
      data := data + [entry];
      return Some(entry.value);
    }

    /** `in` takes the same steps as get and tells only whether the key is live. */
    method Contains(k: Key, now: real) returns (found: bool)
      modifies this
      ensures data == Perform(cfg, old(data), Op.Get(k, now))
      ensures found == Lookup(old(data), k, now).Some?
    {
      var i := IndexOf(data, k);
      if i == |data| {
        return false;
      }
      var entry := data[i];
      data := data[..i] + data[i + 1..];
      if now >= entry.expireAt {
        return false;
      }
      data := data + [entry];
      return true;
    }

    method Set(k: Key, v: Value, now: real)
      requires cfg.Valid()
      modifies this
      ensures data == Perform(cfg, old(data), Op.Set(k, v, now))
    {
      var expireAt := now + cfg.ttl;
      var i := IndexOf(data, k);
      if i < |data| {
        data := data[..i] + data[i + 1..];
      } else if |data| >= cfg.maxsize {
        data := data[1..];
      }
      data := data + [Entry(k, v, expireAt)];
    }

    method Delete(k: Key) returns (existed: bool)
      modifies this
      ensures data == Perform(cfg, old(data), Op.Delete(k))
      ensures existed == HasKey(old(data), k)
    {
      var i := IndexOf(data, k);
      if i < |data| {
        data := data[..i] + data[i + 1..];
        return true;
      }
      return false;
    }

    method Clear() returns (count: nat)
      modifies this
      ensures data == Perform(cfg, old(data), Op.Clear) && count == |old(data)|
    {
      count := |data|;
      data := [];
    }

    method PurgeExpired(now: real) returns (count: nat)
      modifies this
      ensures data == Perform(cfg, old(data), Op.Purge(now)) && count == |old(data)| - |data|
    {
      var kept, i := [], 0;
      count := 0;
      while i < |data|
        invariant 0 <= i <= |data| && data == old(data)
        invariant kept == Unexpired(data[..i], now) && count == i - |kept|
      {
        assert data[..i + 1][..i] == data[..i];
        if now >= data[i].expireAt {
          count := count + 1;
        } else {
          kept := kept + [data[i]];
        }
        i := i + 1;
      }
      assert data[..i] == data;
      data := kept;
    }
  }
}
