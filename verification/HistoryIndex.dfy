/** The recent-history index: an append-only file per directory and one in-memory list
    (backend/services/sign_task_history_index.py).  File writes succeed; whether a file is
    large enough to be trimmed and what the history files contain are inputs. */
module HistoryIndex {
  import opened Options
  import opened Text

  type Dir = nat

  const MEMORY_MAX: nat := 200
  const DEFAULT_MAX_LINES: int := 2000
  const MESSAGE_MAX: nat := 500
  const DATE_LENGTH: nat := 10

  datatype Entry = Entry(
    time: string, createdAt: string, account: string, task: string,
    success: bool, message: string, category: string)

  datatype Line = Record(entry: Entry) | Junk

  function Take<T>(s: seq<T>, n: nat): seq<T> { if n < |s| then s[..n] else s }

  /** `build_index_entry`. */
  function BuildEntry(time: string, account: string, task: string, success: bool, message: string, category: string): Entry {
    Entry(time, time, account, task, success, Take(message, MESSAGE_MAX), category)
  }

  function EntryTime(e: Entry): string { if e.time != "" then e.time else e.createdAt }

  /** How a stored object is read back. */
  function Normalize(e: Entry): (r: Entry)
    ensures EntryTime(r) == EntryTime(e) == r.createdAt && |r.message| <= MESSAGE_MAX
  {
    BuildEntry(EntryTime(e), e.account, e.task, e.success, e.message, e.category)
  }

  function EntryKey(e: Entry): string {
    e.account + "|" + e.task + "|" + EntryTime(e) + "|" + if e.success then "True" else "False"
  }

  lemma NormalizeTwice(e: Entry)
    ensures Normalize(Normalize(e)) == Normalize(e)
  {
  }

  // ---------- Reading the file, newest line first ----------

  datatype Query = Query(account: string, datePrefix: string) {
    predicate Unfiltered() { account == "" && datePrefix == "" }

    /** What reading makes of the filters it is given. */
    function Trimmed(): (t: Query)
      ensures Unfiltered() ==> t.Unfiltered()
      ensures |t.datePrefix| <= DATE_LENGTH
    {
      Query(Strip(account), Take(Strip(datePrefix), DATE_LENGTH))
    }

    predicate Selects(e: Entry) {
      && (account == "" || e.account == account)
      && (datePrefix == "" || datePrefix <= EntryTime(e))
    }
  }

  function Read(lines: seq<Line>, q: Query, limit: nat): seq<Entry> {
    if lines == [] || limit == 0 then []
    else
      var n := |lines| - 1;
      if lines[n].Record? && q.Selects(lines[n].entry) then
        [Normalize(lines[n].entry)] + Read(lines[..n], q, limit - 1)
      else Read(lines[..n], q, limit)
  }

  /** The whole file, newest first. */
  function ReadAll(lines: seq<Line>): seq<Entry> {
    if lines == [] then []
    else
      var n := |lines| - 1;
      (if lines[n].Record? then [Normalize(lines[n].entry)] else []) + ReadAll(lines[..n])
  }

  predicate Clean(lines: seq<Line>) { forall i :: 0 <= i < |lines| ==> lines[i].Record? }

  lemma {:induction false} ReadUnfiltered(lines: seq<Line>, q: Query, limit: nat)
    requires q.Unfiltered()
    ensures Read(lines, q, limit) == Take(ReadAll(lines), limit)
  {
    if lines != [] && limit > 0 {
      var n := |lines| - 1;
      if lines[n].Record? {
        ReadUnfiltered(lines[..n], q, limit - 1);
        TakeCons(Normalize(lines[n].entry), ReadAll(lines[..n]), limit);
      } else {
        ReadUnfiltered(lines[..n], q, limit);
        assert [] + ReadAll(lines[..n]) == ReadAll(lines[..n]);
      }
    }
  }

  lemma TakeCons<T>(e: T, s: seq<T>, n: nat)
    requires n > 0
    ensures Take([e] + s, n) == [e] + Take(s, n - 1)
  {
  }

  lemma {:induction false} ReadAllSize(lines: seq<Line>)
    requires Clean(lines)
    ensures |ReadAll(lines)| == |lines|
  {
    if lines != [] { ReadAllSize(lines[..|lines| - 1]); }
  }

  /** Dropping old lines cuts the reading at its end. */
  lemma {:induction false} ReadAllOfTail(lines: seq<Line>, k: nat)
    requires Clean(lines) && k <= |lines|
    ensures ReadAll(lines[k..]) == Take(ReadAll(lines), |lines| - k)
  {
    ReadAllSize(lines);
    if k < |lines| {
      var n := |lines| - 1;
      ReadAllOfTail(lines[..n], k);
      ReadAllSize(lines[..n]);
      TailWithoutLast(lines, k);
      if lines[n].Record? { TakeCons(Normalize(lines[n].entry), ReadAll(lines[..n]), |lines| - k); }
    } else {
      assert lines[k..] == [];
    }
  }

  lemma TailWithoutLast(lines: seq<Line>, k: nat)
    requires k < |lines|
    ensures var tail := lines[k..];
      tail[..|tail| - 1] == lines[..|lines| - 1][k..] && tail[|tail| - 1] == lines[|lines| - 1]
  {
  }

  lemma ReadAllOfAppend(lines: seq<Line>, e: Entry)
    ensures ReadAll(lines + [Record(e)]) == [Normalize(e)] + ReadAll(lines)
  {
    assert (lines + [Record(e)])[..|lines|] == lines;
  }

  // ---------- State ----------

  datatype State = State(files: map<Dir, seq<Line>>, memDir: Option<Dir>, mem: seq<Entry>) {
    function Lines(d: Dir): seq<Line> { if d in files then files[d] else [] }
    function ForgetMemory(): State { this.(memDir := None, mem := []) }
  }

  const INIT := State(map[], None, [])

  /** `_sync_memory`. */
  function SyncMemory(s: State, d: Dir, newestFirst: seq<Entry>): State {
    s.(memDir := Some(d), mem := Take(newestFirst, MEMORY_MAX))
  }

  function WithoutKey(es: seq<Entry>, k: string): seq<Entry> {
    if es == [] then []
    else (if EntryKey(es[0]) == k then [] else [es[0]]) + WithoutKey(es[1..], k)
  }

  /** `_prepend_memory`. */
  function PrependMemory(s: State, d: Dir, e: Entry): State {
    var recent := if s.memDir == Some(d) then s.mem else [];
    s.(memDir := Some(d), mem := Take([e] + WithoutKey(recent, EntryKey(e)), MEMORY_MAX))
  }

  /** Python's `items[-n:]`. */
  function KeepLast<T>(s: seq<T>, n: int): seq<T> {
    if n == 0 then s
    else if n > 0 then (if |s| <= n then s else s[|s| - n..])
    else if -n >= |s| then [] else s[-n..]
  }

  function Append(s: State, d: Dir, e: Entry, maxLines: int, large: bool): State {
    var lines := s.Lines(d) + [Record(e)];
    var t := PrependMemory(s, d, e);
    t.(files := t.files[d := if large && |lines| > maxLines then KeepLast(lines, maxLines) else lines])
  }

  /** Which lines a removal deletes: all criteria given, trimmed by then, must hold. */
  predicate Removes(line: Line, account: string, task: string, createdAt: string) {
    && line.Record?
    && (account == "" || line.entry.account == account)
    && (task == "" || line.entry.task == task)
    && (createdAt == "" || EntryTime(line.entry) == createdAt)
  }

  function KeptLines(lines: seq<Line>, account: string, task: string, createdAt: string): seq<Line> {
    if lines == [] then []
    else
      var n := |lines| - 1;
      KeptLines(lines[..n], account, task, createdAt)
      + if Removes(lines[n], account, task, createdAt) then [] else [lines[n]]
  }

  function Remove(s: State, d: Dir, account: string, task: string, createdAt: string): State {
    RemoveTrimmed(s, d, Strip(account), Strip(task), Strip(createdAt))
  }

  function RemoveTrimmed(s: State, d: Dir, account: string, task: string, createdAt: string): State {
    if d !in s.files || (account == "" && task == "" && createdAt == "") then s
    else
      var kept := KeptLines(s.files[d], account, task, createdAt);
      if |kept| == |s.files[d]| then s
      else s.(files := if kept == [] then s.files - {d} else s.files[d := kept]).ForgetMemory()
  }

  function ClearIndex(s: State, d: Dir): State { s.(files := s.files - {d}).ForgetMemory() }

  /** What the directory holds besides the index: `found` are its history items in the
      order the files are visited. */
  datatype Disk = Disk(dirExists: bool, hasFiles: bool, found: seq<Entry>)

  predicate TimeLeq(a: string, b: string) {
    a == [] || (b != [] && (a[0] < b[0] || (a[0] == b[0] && TimeLeq(a[1..], b[1..]))))
  }

  /** Python's stable `sort` by time. */
  function InsertByTime(e: Entry, es: seq<Entry>): seq<Entry> {
    if es == [] || TimeLeq(e.time, es[0].time) then [e] + es else [es[0]] + InsertByTime(e, es[1..])
  }

  function SortByTime(es: seq<Entry>): seq<Entry> {
    if es == [] then [] else InsertByTime(es[0], SortByTime(es[1..]))
  }

  /** `entry_from_history_item` of every item. */
  function FromHistory(found: seq<Entry>): seq<Entry> {
    seq(|found|, i requires 0 <= i < |found| =>
      BuildEntry(found[i].time, found[i].account, found[i].task, found[i].success, found[i].message, found[i].category))
  }

  function RebuiltEntries(disk: Disk, maxLines: int): seq<Entry> {
    var sorted := SortByTime(FromHistory(disk.found));
    if |sorted| > maxLines then KeepLast(sorted, maxLines) else sorted
  }

  function Records(es: seq<Entry>): seq<Line> { seq(|es|, i requires 0 <= i < |es| => Record(es[i])) }

  function Reverse<T>(s: seq<T>): seq<T> { if s == [] then [] else [s[|s| - 1]] + Reverse(s[..|s| - 1]) }

  function Rebuild(s: State, d: Dir, disk: Disk, maxLines: int): State {
    if !disk.dirExists then ClearIndex(s, d)
    else
      var es := RebuiltEntries(disk, maxLines);
      SyncMemory(s.(files := s.files[d := Records(es)]), d, Reverse(es))
  }

  function AtLeast1(limit: int): nat { if limit < 1 then 1 else limit }

  function GetMemoryRecent(s: State, d: Dir, limit: int): Option<seq<Entry>> {
    if s.memDir != Some(d) || s.mem == [] then None else Some(Take(s.mem, AtLeast1(limit)))
  }

  function EnsureIndex(s: State, d: Dir, disk: Disk): State {
    if d in s.files then s else Rebuild(s, d, disk, DEFAULT_MAX_LINES)
  }

  /** `list_recent_from_index`: the new state and the answer. */
  function ListRecent(s: State, d: Dir, disk: Disk, q: Query, limit: int, preferMemory: bool): (State, seq<Entry>) {
    var remembered := GetMemoryRecent(s, d, limit);
    if preferMemory && q.Unfiltered() && remembered.Some? then (s, remembered.value)
    else
      var t := EnsureIndex(s, d, disk);
      var items := Read(t.Lines(d), q.Trimmed(), AtLeast1(limit));
      if items != [] then (if q.Unfiltered() then SyncMemory(t, d, items) else t, items)
      else if disk.dirExists && disk.hasFiles then
        var u := Rebuild(t, d, disk, DEFAULT_MAX_LINES);
        (u, Read(u.Lines(d), q.Trimmed(), AtLeast1(limit)))
      else (t, [])
  }

  datatype Event =
    | DoAppend(d: Dir, e: Entry, maxLines: int, large: bool)
    | DoRemove(d: Dir, account: string, task: string, createdAt: string)
    | DoClear(d: Dir)
    | DoForget
    | DoRebuild(d: Dir, disk: Disk, maxLines: int)
    | DoList(d: Dir, disk: Disk, q: Query, limit: int, preferMemory: bool)

  function Apply(s: State, ev: Event): State {
    match ev
    case DoAppend(d, e, maxLines, large) => Append(s, d, e, maxLines, large)
    case DoRemove(d, account, task, createdAt) => Remove(s, d, account, task, createdAt)
    case DoClear(d) => ClearIndex(s, d)
    case DoForget => s.ForgetMemory()
    case DoRebuild(d, disk, maxLines) => Rebuild(s, d, disk, maxLines)
    case DoList(d, disk, q, limit, preferMemory) => ListRecent(s, d, disk, q, limit, preferMemory).0
  }

  function After(evs: seq<Event>): State {
    if evs == [] then INIT else Apply(After(evs[..|evs| - 1]), evs[|evs| - 1])
  }

  // ---------- The memory list is a prefix of the file ----------

  ghost predicate FilesClean(s: State) { forall d :: d in s.files ==> Clean(s.files[d]) }

  ghost predicate MemoryIsPrefix(s: State) {
    if s.memDir.None? then s.mem == [] else s.mem <= ReadAll(s.Lines(s.memDir.value))
  }

  ghost predicate Inv(s: State) { FilesClean(s) && MemoryIsPrefix(s) && |s.mem| <= MEMORY_MAX }

  /** Entries with the key stand only at the end of the list. */
  predicate OnlyAtEnd(es: seq<Entry>, k: string) {
    forall i, j :: 0 <= i < j < |es| && EntryKey(es[i]) == k ==> EntryKey(es[j]) == k
  }

  lemma {:induction false} WithoutAbsentKey(es: seq<Entry>, k: string)
    requires forall i :: 0 <= i < |es| ==> EntryKey(es[i]) != k
    ensures WithoutKey(es, k) == es
  {
    if es != [] { WithoutAbsentKey(es[1..], k); }
  }

  lemma {:induction false} WithoutOnlyKey(es: seq<Entry>, k: string)
    requires forall i :: 0 <= i < |es| ==> EntryKey(es[i]) == k
    ensures WithoutKey(es, k) == []
  {
    if es != [] { WithoutOnlyKey(es[1..], k); }
  }

  lemma {:induction false} NoKeyLeft(es: seq<Entry>, k: string)
    ensures forall i :: 0 <= i < |WithoutKey(es, k)| ==> EntryKey(WithoutKey(es, k)[i]) != k
    ensures |WithoutKey(es, k)| <= |es|
  {
    if es != [] { NoKeyLeft(es[1..], k); }
  }

  /** Removing the key leaves a prefix exactly when its entries stand only at the end. */
  lemma {:induction false} WithoutKeyIsPrefix(es: seq<Entry>, k: string)
    ensures WithoutKey(es, k) <= es <==> OnlyAtEnd(es, k)
  {
    if es != [] {
      var rest := es[1..];
      WithoutKeyIsPrefix(rest, k);
      if EntryKey(es[0]) == k {
        NoKeyLeft(rest, k);
        if OnlyAtEnd(es, k) {
          WithoutOnlyKey(rest, k);
        } else {
          SomeKeptEntry(rest, k);
          assert WithoutKey(es, k)[0] != es[0];
        }
      } else {
        assert WithoutKey(es, k) == [es[0]] + WithoutKey(rest, k);
        PrefixCons(es[0], WithoutKey(rest, k), rest);
        assert es == [es[0]] + rest;
        assert OnlyAtEnd(es, k) <==> OnlyAtEnd(rest, k) by { OnlyAtEndTail(es, k); }
      }
    }
  }

  lemma PrefixCons(e: Entry, a: seq<Entry>, b: seq<Entry>)
    ensures [e] + a <= [e] + b <==> a <= b
  {
    if [e] + a <= [e] + b {
      assert a == ([e] + a)[1..] && ([e] + b)[1..] == b;
    }
  }

  lemma OnlyAtEndTail(es: seq<Entry>, k: string)
    requires es != [] && EntryKey(es[0]) != k
    ensures OnlyAtEnd(es, k) <==> OnlyAtEnd(es[1..], k)
  {
    var rest := es[1..];
    if OnlyAtEnd(rest, k) {
      forall i, j | 0 <= i < j < |es| && EntryKey(es[i]) == k ensures EntryKey(es[j]) == k {
        assert es[i] == rest[i - 1] && es[j] == rest[j - 1];
      }
    }
    if OnlyAtEnd(es, k) {
      forall i, j | 0 <= i < j < |rest| && EntryKey(rest[i]) == k ensures EntryKey(rest[j]) == k {
        assert es[i + 1] == rest[i] && es[j + 1] == rest[j];
      }
    }
  }

  lemma {:induction false} SomeKeptEntry(es: seq<Entry>, k: string)
    requires exists i :: 0 <= i < |es| && EntryKey(es[i]) != k
    ensures WithoutKey(es, k) != []
  {
    if EntryKey(es[0]) == k {
      assert exists i :: 0 <= i < |es[1..]| && EntryKey(es[1..][i]) != k by {
        var i :| 0 <= i < |es| && EntryKey(es[i]) != k;
        assert es[1..][i - 1] == es[i];
      }
      SomeKeptEntry(es[1..], k);
    }
  }

  // ---------- Every operation keeps the prefix ----------

  lemma TakeIsPrefix<T>(a: seq<T>, b: seq<T>, n: nat)
    ensures a <= b ==> Take(a, n) <= b
    ensures a <= b && |a| <= n ==> a <= Take(b, n)
    ensures a <= Take(b, n) ==> a <= b
  {
  }

  lemma SyncIsPrefix(s: State, d: Dir, items: seq<Entry>)
    requires FilesClean(s) && items <= ReadAll(s.Lines(d))
    ensures Inv(SyncMemory(s, d, items))
  {
    TakeIsPrefix(items, ReadAll(s.Lines(d)), MEMORY_MAX);
  }

  /** The file of d after an append, before and after trimming. */
  lemma AppendedReading(s: State, d: Dir, e: Entry, maxLines: int, large: bool)
    requires FilesClean(s) && maxLines >= MEMORY_MAX && Normalize(e) == e
    ensures var t := Append(s, d, e, maxLines, large);
      && FilesClean(t)
      && (ReadAll(t.Lines(d)) == [e] + ReadAll(s.Lines(d)) || ReadAll(t.Lines(d)) == Take([e] + ReadAll(s.Lines(d)), maxLines))
  {
    var lines := s.Lines(d) + [Record(e)];
    ReadAllOfAppend(s.Lines(d), e);
    assert Clean(lines);
    TrimmedReading(lines, maxLines);
  }

  lemma TrimmedReading(lines: seq<Line>, maxLines: int)
    requires Clean(lines) && maxLines > 0
    ensures Clean(KeepLast(lines, maxLines))
    ensures ReadAll(KeepLast(lines, maxLines)) == Take(ReadAll(lines), maxLines)
  {
    ReadAllSize(lines);
    if |lines| > maxLines {
      ReadAllOfTail(lines, |lines| - maxLines);
    }
  }

  /** The prepended list fits the extended reading exactly when the key's older entries
      stand only at the end. */
  lemma PrependFits(mem: seq<Entry>, e: Entry, reading: seq<Entry>)
    requires mem <= reading && |mem| <= MEMORY_MAX
    ensures Take([e] + WithoutKey(mem, EntryKey(e)), MEMORY_MAX) <= [e] + reading <==> OnlyAtEnd(mem, EntryKey(e))
  {
    var k := EntryKey(e);
    var rest := WithoutKey(mem, k);
    NoKeyLeft(mem, k);
    WithoutKeyIsPrefix(mem, k);
    if |rest| == |mem| {
      SameSizeMeansAbsent(mem, k);
      PrefixCons(e, rest, reading);
      TakeIsPrefix([e] + rest, [e] + reading, MEMORY_MAX);
    } else {
      assert Take([e] + rest, MEMORY_MAX) == [e] + rest;
      PrefixCons(e, rest, reading);
      ShorterPrefix(rest, mem, reading);
    }
  }

  lemma ShorterPrefix<T>(a: seq<T>, b: seq<T>, c: seq<T>)
    requires b <= c && |a| <= |b|
    ensures a <= c <==> a <= b
  {
    if a <= c { assert forall i :: 0 <= i < |a| ==> a[i] == c[i] == b[i]; }
  }

  lemma {:induction false} SameSizeMeansAbsent(es: seq<Entry>, k: string)
    requires |WithoutKey(es, k)| == |es|
    ensures WithoutKey(es, k) == es
  {
    if es != [] {
      NoKeyLeft(es[1..], k);
      SameSizeMeansAbsent(es[1..], k);
    }
  }

  /** One append keeps memory a prefix of the file exactly when the remembered entries with
      the new entry's key, if any, are the oldest ones in memory. */
  lemma AppendKeepsPrefixExact(s: State, d: Dir, e: Entry, maxLines: int, large: bool)
    requires Inv(s) && maxLines >= MEMORY_MAX && Normalize(e) == e
    ensures Inv(Append(s, d, e, maxLines, large)) <==> (s.memDir == Some(d) ==> OnlyAtEnd(s.mem, EntryKey(e)))
  {
    var mem := if s.memDir == Some(d) then s.mem else [];
    var t := Append(s, d, e, maxLines, large);
    AppendedReading(s, d, e, maxLines, large);
    PrependFits(mem, e, ReadAll(s.Lines(d)));
    TakeIsPrefix(t.mem, [e] + ReadAll(s.Lines(d)), maxLines);
  }

  lemma {:induction false} KeptIsClean(lines: seq<Line>, account: string, task: string, createdAt: string)
    requires Clean(lines)
    ensures Clean(KeptLines(lines, account, task, createdAt))
  {
    if lines != [] { KeptIsClean(lines[..|lines| - 1], account, task, createdAt); }
  }

  lemma {:induction false} ReadRecords(es: seq<Entry>)
    requires forall i :: 0 <= i < |es| ==> Normalize(es[i]) == es[i]
    ensures Clean(Records(es)) && ReadAll(Records(es)) == Reverse(es)
  {
    if es != [] {
      var n := |es| - 1;
      ReadRecords(es[..n]);
      assert Records(es)[..n] == Records(es[..n]);
    }
  }

  ghost predicate Normal(es: seq<Entry>) { forall i :: 0 <= i < |es| ==> Normalize(es[i]) == es[i] }

  lemma {:induction false} InsertKeepsNormal(e: Entry, es: seq<Entry>)
    requires Normal(es) && Normalize(e) == e
    ensures Normal(InsertByTime(e, es))
  {
    if !(es == [] || TimeLeq(e.time, es[0].time)) { InsertKeepsNormal(e, es[1..]); }
  }

  lemma {:induction false} SortKeepsNormal(es: seq<Entry>)
    requires Normal(es)
    ensures Normal(SortByTime(es))
  {
    if es != [] {
      SortKeepsNormal(es[1..]);
      InsertKeepsNormal(es[0], SortByTime(es[1..]));
    }
  }

  /** A rebuild starts memory and file from the same entries. */
  lemma RebuildKeepsInv(s: State, d: Dir, disk: Disk, maxLines: int)
    requires Inv(s)
    ensures Inv(Rebuild(s, d, disk, maxLines))
  {
    if disk.dirExists {
      SortKeepsNormal(FromHistory(disk.found));
      var es := RebuiltEntries(disk, maxLines);
      assert Normal(es);
      ReadRecords(es);
      SyncIsPrefix(s.(files := s.files[d := Records(es)]), d, Reverse(es));
    }
  }

  lemma RemoveKeepsInv(s: State, d: Dir, account: string, task: string, createdAt: string)
    requires Inv(s)
    ensures Inv(Remove(s, d, account, task, createdAt))
  {
    if d in s.files { KeptIsClean(s.files[d], Strip(account), Strip(task), Strip(createdAt)); }
  }

  lemma ListKeepsInv(s: State, d: Dir, disk: Disk, q: Query, limit: int, preferMemory: bool)
    requires Inv(s)
    ensures Inv(ListRecent(s, d, disk, q, limit, preferMemory).0)
  {
    if d !in s.files { RebuildKeepsInv(s, d, disk, DEFAULT_MAX_LINES); }
    var t := EnsureIndex(s, d, disk);
    var items := Read(t.Lines(d), q.Trimmed(), AtLeast1(limit));
    if q.Unfiltered() {
      ReadUnfiltered(t.Lines(d), q.Trimmed(), AtLeast1(limit));
      TakeIsPrefix(ReadAll(t.Lines(d)), ReadAll(t.Lines(d)), AtLeast1(limit));
      SyncIsPrefix(t, d, items);
    }
    RebuildKeepsInv(t, d, disk, DEFAULT_MAX_LINES);
  }

  /** What a run may contain: appended entries come from build_index_entry, keep at least
      as many lines as memory does, and repeat a remembered key only at the end. */
  predicate Allowed(s: State, ev: Event) {
    ev.DoAppend? ==>
      && ev.maxLines >= MEMORY_MAX && Normalize(ev.e) == ev.e
      && (s.memDir == Some(ev.d) ==> OnlyAtEnd(s.mem, EntryKey(ev.e)))
  }

  predicate AllAllowed(evs: seq<Event>) {
    evs == [] || (AllAllowed(evs[..|evs| - 1]) && Allowed(After(evs[..|evs| - 1]), evs[|evs| - 1]))
  }

  lemma StepKeepsInv(s: State, ev: Event)
    requires Inv(s) && Allowed(s, ev)
    ensures Inv(Apply(s, ev))
  {
    match ev
    case DoAppend(d, e, maxLines, large) => AppendKeepsPrefixExact(s, d, e, maxLines, large);
    case DoRemove(d, account, task, createdAt) => RemoveKeepsInv(s, d, account, task, createdAt);
    case DoClear(d) => ForgettingKeepsInv(s.(files := s.files - {d}));
    case DoForget => ForgettingKeepsInv(s);
    case DoRebuild(d, disk, maxLines) => RebuildKeepsInv(s, d, disk, maxLines);
    case DoList(d, disk, q, limit, preferMemory) => ListKeepsInv(s, d, disk, q, limit, preferMemory);
  }

  lemma ForgettingKeepsInv(s: State)
    requires FilesClean(s)
    ensures Inv(s.ForgetMemory())
  {
  }

  /** After any allowed run memory is a prefix of its directory's file, newest first. */
  lemma {:induction false} MemoryStaysPrefix(evs: seq<Event>)
    requires AllAllowed(evs)
    ensures Inv(After(evs))
  {
    if evs != [] {
      MemoryStaysPrefix(evs[..|evs| - 1]);
      StepKeepsInv(After(evs[..|evs| - 1]), evs[|evs| - 1]);
    }
  }

  /** Entries with keys that the file does not hold yet may always be appended. */
  lemma FreshKeysAreAllowed(s: State, d: Dir, e: Entry, maxLines: int, large: bool)
    requires Inv(s) && maxLines >= MEMORY_MAX && Normalize(e) == e
    requires forall i :: 0 <= i < |ReadAll(s.Lines(d))| ==> EntryKey(ReadAll(s.Lines(d))[i]) != EntryKey(e)
    ensures Allowed(s, DoAppend(d, e, maxLines, large))
  {
  }

  lemma AfterSnoc(evs: seq<Event>, ev: Event)
    ensures After(evs + [ev]) == Apply(After(evs), ev)
  {
    assert (evs + [ev])[..|evs|] == evs;
  }

  /** One append on a small file, when memory has at most one entry of another key. */
  lemma AppendSmall(evs: seq<Event>, s: State, d: Dir, e: Entry, rest: seq<Entry>) returns (more: seq<Event>)
    requires After(evs) == s && s.memDir in {None, Some(d)} && |rest| < MEMORY_MAX
    requires WithoutKey(if s.memDir == Some(d) then s.mem else [], EntryKey(e)) == rest
    ensures more == evs + [DoAppend(d, e, DEFAULT_MAX_LINES, false)]
    ensures After(more) == State(s.files[d := s.Lines(d) + [Record(e)]], Some(d), [e] + rest)
  {
    more := evs + [DoAppend(d, e, DEFAULT_MAX_LINES, false)];
    AfterSnoc(evs, DoAppend(d, e, DEFAULT_MAX_LINES, false));
  }

  /** An entry, another one, and the other one again: memory holds the second once, the file
      twice, so memory is no prefix any more. */
  lemma RepeatedEntryBreaksPrefix(d: Dir, a: Entry, b: Entry) returns (evs: seq<Event>)
    requires Normalize(a) == a && Normalize(b) == b && EntryKey(a) != EntryKey(b)
    ensures var first, again := DoAppend(d, a, DEFAULT_MAX_LINES, false), DoAppend(d, b, DEFAULT_MAX_LINES, false);
      evs == [first, again, again]
    ensures After(evs).mem == [b, a] && ReadAll(After(evs).Lines(d)) == [b, b, a]
    ensures !MemoryIsPrefix(After(evs))
  {
    evs := AppendSmall([], INIT, d, a, []);
    WithoutAbsentKey([a], EntryKey(b));
    var one, two := [] + [Record(a)], [] + [Record(a)] + [Record(b)];
    evs := AppendSmall(evs, State(map[d := one], Some(d), [a]), d, b, [a]);
    assert [b] + [a] == [b, a] && [b, a][1..] == [a];
    evs := AppendSmall(evs, State(map[d := two], Some(d), [b, a]), d, b, [a]);
    ReadThree(a, b, one, two, two + [Record(b)]);
  }

  lemma ReadSnoc(lines: seq<Line>, e: Entry, es: seq<Entry>, longer: seq<Line>)
    requires ReadAll(lines) == es && Normalize(e) == e && longer == lines + [Record(e)]
    ensures ReadAll(longer) == [e] + es
  {
    ReadAllOfAppend(lines, e);
  }

  lemma ReadThree(a: Entry, b: Entry, one: seq<Line>, two: seq<Line>, three: seq<Line>)
    requires Normalize(a) == a && Normalize(b) == b
    requires one == [] + [Record(a)] && two == one + [Record(b)] && three == two + [Record(b)]
    ensures ReadAll(three) == [b, b, a]
  {
    ReadSnoc([], a, [], one);
    ReadSnoc(one, b, [a], two);
    ReadSnoc(two, b, [b, a], three);
  }

  lemma ReadIsPrefix(lines: seq<Line>, q: Query, limit: nat)
    requires q.Unfiltered()
    ensures Read(lines, q.Trimmed(), limit) == Take(ReadAll(lines), limit) <= ReadAll(lines)
    ensures |Read(lines, q.Trimmed(), limit)| <= limit
  {
    ReadUnfiltered(lines, q.Trimmed(), limit);
    TakeIsPrefix(ReadAll(lines), ReadAll(lines), limit);
  }

  /** Every unfiltered listing answers with a prefix of the file's newest-first reading, and
      a listing that does not use memory answers with exactly `limit` entries of it. */
  lemma ListingIsPrefixOfFile(evs: seq<Event>, d: Dir, disk: Disk, q: Query, limit: int, preferMemory: bool)
    requires AllAllowed(evs) && q.Unfiltered()
    ensures var (t, answer) := ListRecent(After(evs), d, disk, q, limit, preferMemory);
      && answer <= ReadAll(t.Lines(d)) && |answer| <= AtLeast1(limit)
      && (!preferMemory ==> answer == Take(ReadAll(t.Lines(d)), AtLeast1(limit)))
  {
    var s := After(evs);
    MemoryStaysPrefix(evs);
    ListKeepsInv(s, d, disk, q, limit, preferMemory);
    var t := EnsureIndex(s, d, disk);
    ReadIsPrefix(t.Lines(d), q, AtLeast1(limit));
    var u := Rebuild(t, d, disk, DEFAULT_MAX_LINES);
    ReadIsPrefix(u.Lines(d), q, AtLeast1(limit));
    TakeIsPrefix(s.mem, ReadAll(s.Lines(d)), AtLeast1(limit));
  }

  /** Only the prefix relation holds: from every run whose file has at least two entries, a
      listing of one entry on empty memory makes the next listing miss all the others. */
  lemma MemoryCanLagBehind(evs: seq<Event>, d: Dir, disk: Disk, limit: int) returns (more: seq<Event>)
    requires AllAllowed(evs) && d in After(evs).files && |ReadAll(After(evs).files[d])| >= 2
    ensures AllAllowed(more)
    ensures var (t, answer) := ListRecent(After(more), d, disk, Query("", ""), limit, true);
      |answer| == 1 && t.files == After(evs).files
  {
    var q, s := Query("", ""), After(evs);
    more := Snoc(evs, DoForget);
    more := Snoc(more, DoList(d, disk, q, 1, true));
    ListOneRemembersOne(s.ForgetMemory(), d, disk, q);
    ListFromMemory(After(more), d, disk, q, limit);
  }

  /** A listing of one entry on empty memory leaves that one in memory. */
  lemma ListOneRemembersOne(s: State, d: Dir, disk: Disk, q: Query)
    requires s.memDir.None? && d in s.files && |ReadAll(s.files[d])| >= 2 && q.Unfiltered()
    ensures var t := ListRecent(s, d, disk, q, 1, true).0;
      t.files == s.files && t.memDir == Some(d) && |t.mem| == 1
  {
    ReadUnfiltered(s.files[d], q.Trimmed(), 1);
  }

  lemma ListFromMemory(s: State, d: Dir, disk: Disk, q: Query, limit: int)
    requires s.memDir == Some(d) && |s.mem| == 1 && q.Unfiltered()
    ensures ListRecent(s, d, disk, q, limit, true) == (s, s.mem)
  {
  }

  lemma Snoc(evs: seq<Event>, ev: Event) returns (longer: seq<Event>)
    requires AllAllowed(evs) && Allowed(After(evs), ev)
    ensures longer == evs + [ev] && AllAllowed(longer) && After(longer) == Apply(After(evs), ev)
  {
    longer := evs + [ev];
    assert longer[..|evs|] == evs;
  }

  // ---------- Which entries, which lines, which order ----------

  /** The account and date that a query asks for. */
  function AskedAccount(q: Query): string { Strip(q.account) }
  function AskedDate(q: Query): string {
    var date := Strip(q.datePrefix);
    if |date| > 10 then date[..10] else date
  }

  /** `pos` lists positions of `lines` from the newest back. */
  predicate Backwards(pos: seq<nat>, lines: seq<Line>) {
    && (forall j :: 0 <= j < |pos| ==> pos[j] < |lines|)
    && (forall i, j :: 0 <= i < j < |pos| ==> pos[i] > pos[j])
  }

  /** The picked lines match and are what is read; any other one that matches is older, and
      left out for the limit. */
  ghost predicate Picked(pos: seq<nat>, lines: seq<Line>, q: Query, limit: nat, read: seq<Entry>) {
    && Backwards(pos, lines) && |pos| == |read| <= limit
    && AllPick(pos, lines, q, read)
    && (forall i: nat :: i < |lines| && Picks(lines[i], q) && i !in pos ==> Exhausted(pos, i, limit))
  }

  predicate AllPick(pos: seq<nat>, lines: seq<Line>, q: Query, read: seq<Entry>)
    requires Backwards(pos, lines) && |pos| == |read|
  {
    forall j :: 0 <= j < |pos| ==> Picks(lines[pos[j]], q) && read[j] == Normalize(lines[pos[j]].entry)
  }

  predicate Picks(line: Line, q: Query) { line.Record? && q.Selects(line.entry) }

  predicate Exhausted(pos: seq<nat>, i: nat, limit: nat) { |pos| == limit && forall j :: 0 <= j < |pos| ==> i < pos[j] }

  lemma PickOneMore(pos: seq<nat>, lines: seq<Line>, q: Query, read: seq<Entry>, line: Line)
    requires Backwards(pos, lines) && |pos| == |read| && AllPick(pos, lines, q, read) && Picks(line, q)
    ensures Backwards([|lines|] + pos, lines + [line])
    ensures AllPick([|lines|] + pos, lines + [line], q, [Normalize(line.entry)] + read)
  {
    BackwardsOneMore(pos, lines, line);
    var all, longer, more := [|lines|] + pos, lines + [line], [Normalize(line.entry)] + read;
    forall j | 0 <= j < |all| ensures Picks(longer[all[j]], q) && more[j] == Normalize(longer[all[j]].entry) {
      SameAt(pos, lines, read, line, Normalize(line.entry), j);
      if j > 0 { assert Picks(lines[pos[j - 1]], q); }
    }
  }

  lemma BackwardsOneMore(pos: seq<nat>, lines: seq<Line>, line: Line)
    requires Backwards(pos, lines)
    ensures Backwards([|lines|] + pos, lines + [line])
  {
  }

  lemma SameAt(pos: seq<nat>, lines: seq<Line>, read: seq<Entry>, line: Line, e: Entry, j: nat)
    requires Backwards(pos, lines) && |pos| == |read| && j <= |pos|
    ensures Backwards([|lines|] + pos, lines + [line])
    ensures (lines + [line])[([|lines|] + pos)[j]] == if j == 0 then line else lines[pos[j - 1]]
    ensures ([e] + read)[j] == if j == 0 then e else read[j - 1]
  {
  }

  lemma PickLast(pos: seq<nat>, lines: seq<Line>, q: Query, limit: nat, read: seq<Entry>, line: Line)
    requires Picked(pos, lines, q, limit, read) && Picks(line, q)
    ensures Picked([|lines|] + pos, lines + [line], q, limit + 1, [Normalize(line.entry)] + read)
  {
    var all, longer := [|lines|] + pos, lines + [line];
    PickOneMore(pos, lines, q, read, line);
    forall i: nat | i < |longer| && Picks(longer[i], q) && i !in all ensures Exhausted(all, i, limit + 1) {
      OlderIsExhausted(pos, |lines|, i, limit);
      assert i < |lines| ==> longer[i] == lines[i];
    }
  }

  lemma OlderIsExhausted(pos: seq<nat>, n: nat, i: nat, limit: nat)
    requires i <= n && i !in [n] + pos
    ensures i < n && i !in pos && (Exhausted(pos, i, limit) ==> Exhausted([n] + pos, i, limit + 1))
  {
    var all := [n] + pos;
    assert all[0] == n;
    assert forall j :: 0 <= j < |pos| ==> all[j + 1] == pos[j];
    assert forall x :: x in pos ==> x in all;
  }

  lemma SkipLast(pos: seq<nat>, lines: seq<Line>, q: Query, limit: nat, read: seq<Entry>, line: Line)
    requires Picked(pos, lines, q, limit, read) && !Picks(line, q)
    ensures Picked(pos, lines + [line], q, limit, read)
  {
    var longer := lines + [line];
    assert forall j :: 0 <= j < |pos| ==> longer[pos[j]] == lines[pos[j]];
    forall i: nat | i < |longer| && Picks(longer[i], q) && i !in pos ensures Exhausted(pos, i, limit) {
      assert i < |lines| && longer[i] == lines[i];
    }
  }

  lemma {:induction false} ReadPicks(lines: seq<Line>, q: Query, limit: nat) returns (pos: seq<nat>)
    ensures Picked(pos, lines, q, limit, Read(lines, q, limit))
  {
    pos := [];
    if lines != [] && limit > 0 {
      var n := |lines| - 1;
      assert lines == lines[..n] + [lines[n]];
      if Picks(lines[n], q) {
        var older := ReadPicks(lines[..n], q, limit - 1);
        PickLast(older, lines[..n], q, limit - 1, Read(lines[..n], q, limit - 1), lines[n]);
        pos := [n] + older;
      } else {
        pos := ReadPicks(lines[..n], q, limit);
        SkipLast(pos, lines[..n], q, limit, Read(lines[..n], q, limit), lines[n]);
      }
    }
  }

  /** A filtered listing, and any that bypasses memory, answers with exactly the newest
      matching entries of the file as it is afterwards, at most `limit`: they match the trimmed
      account and the date of ten characters, and a matching line is left out only when the
      limit is reached by newer ones. */
  lemma ListingExact(s: State, d: Dir, disk: Disk, q: Query, limit: int, preferMemory: bool) returns (pos: seq<nat>)
    requires q.account != "" || q.datePrefix != "" || !preferMemory
    ensures var (t, answer) := ListRecent(s, d, disk, q, limit, preferMemory);
      var lines := t.Lines(d);
      && Backwards(pos, lines) && |pos| == |answer| <= (if limit < 1 then 1 else limit)
      && (forall j :: 0 <= j < |pos| ==> lines[pos[j]].Record? && answer[j] == Normalize(lines[pos[j]].entry))
      && (forall i: nat :: i in pos ==> i < |lines| && Matches(lines[i], AskedAccount(q), AskedDate(q)))
      && (forall i: nat :: i < |lines| && Matches(lines[i], AskedAccount(q), AskedDate(q)) && i !in pos ==>
            Exhausted(pos, i, if limit < 1 then 1 else limit))
  {
    var (t, answer) := ListRecent(s, d, disk, q, limit, preferMemory);
    assert answer == Read(t.Lines(d), q.Trimmed(), AtLeast1(limit));
    pos := ReadPicks(t.Lines(d), q.Trimmed(), AtLeast1(limit));
    forall i: nat | i < |t.Lines(d)| ensures Matches(t.Lines(d)[i], AskedAccount(q), AskedDate(q)) <==> Picks(t.Lines(d)[i], q.Trimmed()) {
      MatchesIsSelects(t.Lines(d)[i], q);
    }
  }

  lemma MatchesIsSelects(line: Line, q: Query)
    ensures Matches(line, AskedAccount(q), AskedDate(q)) <==> Picks(line, q.Trimmed())
  {
  }

  /** A readable line of the account, where one is asked for, whose time begins with the date. */
  predicate Matches(line: Line, account: string, date: string) {
    && line.Record?
    && (account != "" ==> line.entry.account == account)
    && (date != "" ==> date <= (if line.entry.time != "" then line.entry.time else line.entry.createdAt))
  }

  /** Reading a stored entry changes neither its identity nor its category, and cuts its
      message at 500 characters. */
  lemma NormalizeKeeps(e: Entry)
    ensures var n := Normalize(e);
      && EntryKey(n) == EntryKey(e) && n.category == e.category && n.success == e.success
      && n.account == e.account && n.task == e.task
      && n.message <= e.message && |n.message| == (if |e.message| < 500 then |e.message| else 500)
  {
  }

  /** `pos` lists positions of `lines` in order. */
  predicate Forwards(pos: seq<nat>, lines: seq<Line>) {
    && (forall j :: 0 <= j < |pos| ==> pos[j] < |lines|)
    && (forall i, j :: 0 <= i < j < |pos| ==> pos[i] < pos[j])
  }

  lemma {:induction false} KeptPicks(lines: seq<Line>, account: string, task: string, createdAt: string) returns (pos: seq<nat>)
    ensures Forwards(pos, lines) && |pos| == |KeptLines(lines, account, task, createdAt)|
    ensures forall j :: 0 <= j < |pos| ==> KeptLines(lines, account, task, createdAt)[j] == lines[pos[j]]
    ensures forall i: nat :: i < |lines| ==> (i in pos <==> !Removes(lines[i], account, task, createdAt))
  {
    pos := [];
    if lines != [] {
      var n := |lines| - 1;
      var before := KeptPicks(lines[..n], account, task, createdAt);
      pos := before + if Removes(lines[n], account, task, createdAt) then [] else [n];
      assert forall i: nat :: i < n ==> lines[..n][i] == lines[i];
      assert forall i: nat :: i in pos <==> i in before || (i == n && !Removes(lines[n], account, task, createdAt));
    }
  }

  /** A readable line that agrees with every criterion given, and one is given. */
  predicate Condemned(line: Line, account: string, task: string, time: string) {
    && line.Record? && (account != "" || task != "" || time != "")
    && (account != "" ==> line.entry.account == account)
    && (task != "" ==> line.entry.task == task)
    && (time != "" ==> (if line.entry.time != "" then line.entry.time else line.entry.createdAt) == time)
  }

  lemma {:induction false} AllPicked(lines: seq<Line>, pos: seq<nat>)
    requires Forwards(pos, lines) && |pos| == |lines|
    ensures forall j :: 0 <= j < |pos| ==> pos[j] == j
  {
    if lines != [] {
      var n := |lines| - 1;
      LeastAt(lines, pos, n);
      AllPicked(lines[..n], pos[..n]);
      assert forall j :: 0 <= j < n ==> pos[..n][j] == pos[j];
    }
  }

  lemma {:induction false} LeastAt(lines: seq<Line>, pos: seq<nat>, j: nat)
    requires Forwards(pos, lines) && j < |pos|
    ensures pos[j] >= j
  {
    if j > 0 { LeastAt(lines, pos, j - 1); }
  }

  lemma RemovesIsCondemned(line: Line, account: string, task: string, time: string)
    requires account != "" || task != "" || time != ""
    ensures Removes(line, account, task, time) <==> Condemned(line, account, task, time)
  {
  }

  /** `kept` is what a removal leaves of `lines`: those at the increasing positions `pos`, which
      are all that do not have to go. */
  ghost predicate Spared(pos: seq<nat>, lines: seq<Line>, kept: seq<Line>, account: string, task: string, time: string) {
    && Forwards(pos, lines) && |pos| == |kept| <= |lines|
    && (forall j :: 0 <= j < |pos| ==> kept[j] == lines[pos[j]])
    && (forall i: nat :: i < |lines| ==> (i in pos <==> !Condemned(lines[i], account, task, time)))
  }

  lemma CondemnedGo(lines: seq<Line>, account: string, task: string, time: string) returns (pos: seq<nat>)
    requires account != "" || task != "" || time != ""
    ensures Spared(pos, lines, KeptLines(lines, account, task, time), account, task, time)
    ensures |pos| == |lines| ==> KeptLines(lines, account, task, time) == lines
  {
    pos := KeptPicks(lines, account, task, time);
    forall i: nat | i < |lines| ensures i in pos <==> !Condemned(lines[i], account, task, time) {
      RemovesIsCondemned(lines[i], account, task, time);
    }
    if pos != [] { LeastAt(lines, pos, |pos| - 1); }
    if |pos| == |lines| { AllPicked(lines, pos); }
  }

  /** A removal keeps exactly the other lines of the directory, in order, and touches no other
      directory; memory is forgotten if anything was removed, else nothing changes at all. */
  lemma RemoveExact(s: State, d: Dir, account: string, task: string, createdAt: string) returns (pos: seq<nat>)
    ensures var t, lines := Remove(s, d, account, task, createdAt), s.Lines(d);
      && Spared(pos, lines, t.Lines(d), Strip(account), Strip(task), Strip(createdAt))
      && (forall e :: e != d ==> t.Lines(e) == s.Lines(e))
      && (if |pos| < |lines| then t.memDir == None && t.mem == [] else t == s)
  {
    var a, n, c, lines := Strip(account), Strip(task), Strip(createdAt), s.Lines(d);
    if a == "" && n == "" && c == "" {
      pos := NothingGoes(lines);
    } else {
      pos := CondemnedGo(lines, a, n, c);
      RemovedState(s, d, a, n, c);
    }
  }

  lemma NothingGoes(lines: seq<Line>) returns (pos: seq<nat>)
    ensures Spared(pos, lines, lines, "", "", "") && |pos| == |lines|
  {
    pos := seq(|lines|, i requires 0 <= i < |lines| => i);
    assert forall i: nat :: i < |lines| ==> pos[i] == i;
  }

  lemma RemovedState(s: State, d: Dir, account: string, task: string, time: string)
    requires account != "" || task != "" || time != ""
    ensures var t, kept := RemoveTrimmed(s, d, account, task, time), KeptLines(s.Lines(d), account, task, time);
      && (forall e :: e != d ==> t.Lines(e) == s.Lines(e))
      && (if |kept| == |s.Lines(d)| then t == s else t.Lines(d) == kept && t.memDir == None && t.mem == [])
  {
  }

  /** The order of times is that of text: a prefix first, else by the first difference. */
  lemma {:induction false} TimeLeqExact(a: string, b: string)
    ensures TimeLeq(a, b) <==>
      a <= b || exists k :: 0 <= k < |a| && k < |b| && a[..k] == b[..k] && a[k] < b[k]
  {
    if a != "" && b != "" && a[0] == b[0] {
      TimeLeqExact(a[1..], b[1..]);
      SameHead(a, b);
    } else if a != "" && b != "" && a[0] < b[0] {
      assert a[..0] == b[..0];
    }
  }

  lemma SameHead(a: string, b: string)
    requires a != "" && b != "" && a[0] == b[0]
    ensures a <= b <==> a[1..] <= b[1..]
    ensures (exists k :: 0 <= k < |a| && k < |b| && a[..k] == b[..k] && a[k] < b[k])
       <==> (exists k :: 0 <= k < |a[1..]| && k < |b[1..]| && a[1..][..k] == b[1..][..k] && a[1..][k] < b[1..][k])
  {
    if a[1..] <= b[1..] { assert a == [a[0]] + a[1..] && b == [b[0]] + b[1..]; }
    if a <= b { assert b[1..][..|a| - 1] == b[..|a|][1..]; }
    forall k | 0 <= k < |a| && k < |b| && a[..k] == b[..k] && a[k] < b[k]
      ensures k > 0 && a[1..][..k - 1] == b[1..][..k - 1] && a[1..][k - 1] < b[1..][k - 1]
    {
      assert a[1..][..k - 1] == a[..k][1..] && b[1..][..k - 1] == b[..k][1..];
    }
    forall k | 0 <= k < |a[1..]| && k < |b[1..]| && a[1..][..k] == b[1..][..k] && a[1..][k] < b[1..][k]
      ensures a[..k + 1] == b[..k + 1] && a[k + 1] < b[k + 1]
    {
      assert a[..k + 1] == [a[0]] + a[1..][..k] && b[..k + 1] == [b[0]] + b[1..][..k];
    }
  }

  predicate InTimeOrder(es: seq<Entry>) {
    forall i, j :: 0 <= i < j < |es| ==> TimeLeq(es[i].time, es[j].time)
  }

  /** The entries of one time, in order. */
  function OfTime(es: seq<Entry>, time: string): seq<Entry> {
    if es == [] then [] else (if es[0].time == time then [es[0]] else []) + OfTime(es[1..], time)
  }

  lemma {:induction false} TimeLeqTotal(a: string, b: string, c: string)
    ensures TimeLeq(a, b) || TimeLeq(b, a)
    ensures TimeLeq(a, b) && TimeLeq(b, c) ==> TimeLeq(a, c)
    ensures TimeLeq(a, b) && TimeLeq(b, a) ==> a == b
  {
    if a != "" && b != "" && c != "" {
      TimeLeqTotal(a[1..], b[1..], c[1..]);
      assert a == [a[0]] + a[1..] && b == [b[0]] + b[1..];
    } else if a != "" && b != "" {
      TimeLeqTotal(a[1..], b[1..], "");
      assert a == [a[0]] + a[1..] && b == [b[0]] + b[1..];
    }
  }

  lemma {:induction false} InsertedIn(e: Entry, es: seq<Entry>)
    ensures multiset(InsertByTime(e, es)) == multiset([e] + es)
    ensures forall x :: x in InsertByTime(e, es) ==> x == e || x in es
  {
    if es != [] && !TimeLeq(e.time, es[0].time) {
      InsertedIn(e, es[1..]);
      assert es == [es[0]] + es[1..];
    }
  }

  lemma {:induction false} InsertKeepsOrder(e: Entry, es: seq<Entry>)
    requires InTimeOrder(es)
    ensures InTimeOrder(InsertByTime(e, es))
  {
    if es == [] || TimeLeq(e.time, es[0].time) {
      forall j | 0 <= j < |es| ensures TimeLeq(e.time, es[j].time) {
        if j > 0 { TimeLeqTotal(e.time, es[0].time, es[j].time); }
      }
    } else {
      var rest := InsertByTime(e, es[1..]);
      InsertKeepsOrder(e, es[1..]);
      InsertedIn(e, es[1..]);
      TimeLeqTotal(e.time, es[0].time, "");
      forall j | 0 <= j < |rest| ensures TimeLeq(es[0].time, rest[j].time) {
        assert rest[j] in rest;
        assert rest[j] == e || rest[j] in es[1..];
      }
    }
  }

  lemma OfTimeCons(e: Entry, es: seq<Entry>, time: string)
    ensures OfTime([e] + es, time) == (if e.time == time then [e] else []) + OfTime(es, time)
  {
    assert ([e] + es)[1..] == es;
  }

  /** The new entry comes before those of its own time. */
  lemma {:induction false} InsertIsStable(e: Entry, es: seq<Entry>, time: string)
    ensures OfTime(InsertByTime(e, es), time) == OfTime([e] + es, time)
  {
    if es != [] && !TimeLeq(e.time, es[0].time) {
      InsertIsStable(e, es[1..], time);
      InsertLater(e, es, InsertByTime(e, es[1..]), time);
    }
  }

  lemma InsertLater(e: Entry, es: seq<Entry>, rest: seq<Entry>, time: string)
    requires es != [] && !TimeLeq(e.time, es[0].time) && OfTime(rest, time) == OfTime([e] + es[1..], time)
    ensures OfTime([es[0]] + rest, time) == OfTime([e] + es, time)
  {
    OfTimeCons(es[0], rest, time);
    OfTimeCons(e, es[1..], time);
    OfTimeCons(e, es, time);
    TimeLeqTotal(e.time, e.time, "");
    if e.time == time {
      assert [] + OfTime(es[1..], time) == OfTime(es[1..], time);
    } else {
      assert [] + OfTime(es[1..], time) == OfTime(es[1..], time) && [] + OfTime(es, time) == OfTime(es, time);
    }
  }

  /** The sort puts the entries in order of time and keeps those of one time as they were. */
  lemma {:induction false} SortExact(es: seq<Entry>, time: string)
    ensures InTimeOrder(SortByTime(es)) && multiset(SortByTime(es)) == multiset(es)
    ensures OfTime(SortByTime(es), time) == OfTime(es, time)
  {
    if es != [] {
      SortExact(es[1..], time);
      InsertKeepsOrder(es[0], SortByTime(es[1..]));
      InsertedIn(es[0], SortByTime(es[1..]));
      InsertIsStable(es[0], SortByTime(es[1..]), time);
      OfTimeCons(es[0], SortByTime(es[1..]), time);
      assert es == [es[0]] + es[1..];
    }
  }

  /** An append adds the entry's line after the others, and cuts the file to its newest
      `maxLines` lines if and only if it is large and holds more; memory has the entry first. */
  lemma AppendExact(s: State, d: Dir, e: Entry, maxLines: nat, large: bool)
    requires maxLines >= 1
    ensures var t, all := Append(s, d, e, maxLines, large), s.Lines(d) + [Record(e)];
      && (!large || |all| <= maxLines ==> t.Lines(d) == all)
      && (large && |all| > maxLines ==> |t.Lines(d)| == maxLines && t.Lines(d) == all[|all| - maxLines..])
      && t.memDir == Some(d) && t.mem != [] && t.mem[0] == e
      && (forall other :: other != d ==> t.Lines(other) == s.Lines(other))
  {
  }

  /** Clearing a directory removes its index, forgets memory and leaves the other directories. */
  lemma ClearExact(s: State, d: Dir)
    ensures var t := ClearIndex(s, d);
      d !in t.files && t.memDir == None && t.mem == [] && forall e :: e != d ==> t.Lines(e) == s.Lines(e)
  {
  }

  /** An unfiltered listing that may use memory takes the newest entries of memory if that is
      the directory's and not empty; otherwise it takes those of the file, and remembers them
      unless there are none. */
  lemma UnfilteredExact(s: State, d: Dir, disk: Disk, limit: int)
    requires limit >= 1
    ensures var (t, answer) := ListRecent(s, d, disk, Query("", ""), limit, true);
      if s.memDir == Some(d) && s.mem != [] then
        t == s && answer == (if |s.mem| > limit then s.mem[..limit] else s.mem)
      else
        && answer == (if |ReadAll(t.Lines(d))| > limit then ReadAll(t.Lines(d))[..limit] else ReadAll(t.Lines(d)))
        && (answer != [] ==> t.memDir == Some(d) && t.mem != [] && t.mem[0] == answer[0])
  {
    var q := Query("", "");
    var t := EnsureIndex(s, d, disk);
    ReadIsPrefix(t.Lines(d), q, limit);
    ReadIsPrefix(Rebuild(t, d, disk, DEFAULT_MAX_LINES).Lines(d), q, limit);
    if disk.dirExists { RebuiltIsRemembered(t, d, disk); }
  }

  lemma RebuiltIsRemembered(s: State, d: Dir, disk: Disk)
    requires disk.dirExists
    ensures var t := Rebuild(s, d, disk, DEFAULT_MAX_LINES);
      ReadAll(t.Lines(d)) != [] ==> t.memDir == Some(d) && t.mem != [] && t.mem[0] == ReadAll(t.Lines(d))[0]
  {
    var es := RebuiltEntries(disk, DEFAULT_MAX_LINES);
    SortKeepsNormal(FromHistory(disk.found));
    ReadRecords(es);
  }

  /** An entry as `entry_from_history_item` makes it of a history item. */
  predicate FromItem(e: Entry, item: Entry) {
    && e.time == item.time == e.createdAt && e.account == item.account && e.task == item.task
    && e.success == item.success && e.category == item.category
    && e.message == (if |item.message| > 500 then item.message[..500] else item.message)
  }

  lemma {:induction false} ReversedAt<T>(s: seq<T>, k: nat)
    requires k < |s|
    ensures |Reverse(s)| == |s| && Reverse(s)[k] == s[|s| - 1 - k]
  {
    if |s| > 1 { ReversedAt(s[..|s| - 1], if k > 0 then k - 1 else 0); }
  }

  /** `sorted` holds the items in order of time, those of each one time as they were. */
  ghost predicate StablySorted(items: seq<Entry>, sorted: seq<Entry>) {
    && InTimeOrder(sorted) && multiset(sorted) == multiset(items)
    && (forall time :: OfTime(sorted, time) == OfTime(items, time))
  }

  lemma SortIsStable(items: seq<Entry>)
    ensures StablySorted(items, SortByTime(items))
  {
    SortExact(items, "");
    forall time ensures OfTime(SortByTime(items), time) == OfTime(items, time) { SortExact(items, time); }
  }

  /** The file's lines are the newest n entries, oldest first, and memory is the newest 200 of
      them, newest first. */
  predicate HoldsNewest(lines: seq<Line>, mem: seq<Entry>, sorted: seq<Entry>, n: nat)
    requires n <= |sorted|
  {
    && |lines| == n && (forall j :: 0 <= j < n ==> lines[j] == Record(sorted[|sorted| - n + j]))
    && |mem| == (if n < 200 then n else 200) && (forall j :: 0 <= j < |mem| ==> mem[j] == sorted[|sorted| - 1 - j])
  }

  /** A rebuild sorts what the history files hold by time, keeping items of one time as they
      were found, writes the newest `maxLines` of them in that order, and remembers the newest
      200 of those, newest first. */
  lemma RebuildExact(s: State, d: Dir, disk: Disk, maxLines: int) returns (items: seq<Entry>, sorted: seq<Entry>)
    requires disk.dirExists && maxLines >= 1
    ensures |items| == |disk.found| && forall i :: 0 <= i < |items| ==> FromItem(items[i], disk.found[i])
    ensures StablySorted(items, sorted)
    ensures var t := Rebuild(s, d, disk, maxLines);
      && HoldsNewest(t.Lines(d), t.mem, sorted, if |sorted| < maxLines then |sorted| else maxLines)
      && t.memDir == Some(d) && (forall e :: e != d ==> t.Lines(e) == s.Lines(e))
  {
    items, sorted := FromHistory(disk.found), SortByTime(FromHistory(disk.found));
    ItemsAre(disk.found);
    SortIsStable(items);
    WrittenAre(sorted, maxLines, RebuiltEntries(disk, maxLines));
  }

  /** A rebuild of a directory that does not exist drops its index and forgets memory. */
  lemma RebuildOfNothing(s: State, d: Dir, disk: Disk, maxLines: int)
    requires !disk.dirExists
    ensures var t := Rebuild(s, d, disk, maxLines);
      d !in t.files && t.memDir == None && t.mem == [] && forall e :: e != d ==> t.Lines(e) == s.Lines(e)
  {
  }

  lemma WrittenAre(sorted: seq<Entry>, maxLines: int, es: seq<Entry>)
    requires maxLines >= 1 && es == if |sorted| > maxLines then KeepLast(sorted, maxLines) else sorted
    ensures HoldsNewest(Records(es), Take(Reverse(es), MEMORY_MAX), sorted, if |sorted| < maxLines then |sorted| else maxLines)
  {
    NewestOf(sorted, maxLines, es);
    MemoryOf(es);
    NewestAgain(sorted, es, Records(es), Take(Reverse(es), MEMORY_MAX));
  }

  lemma NewestAgain(sorted: seq<Entry>, es: seq<Entry>, lines: seq<Line>, mem: seq<Entry>)
    requires |es| <= |sorted| && es == sorted[|sorted| - |es|..]
    requires |lines| == |es| && forall j :: 0 <= j < |es| ==> lines[j] == Record(es[j])
    requires |mem| == (if |es| < 200 then |es| else 200) && forall j :: 0 <= j < |mem| ==> mem[j] == es[|es| - 1 - j]
    ensures HoldsNewest(lines, mem, sorted, |es|)
  {
    forall j | 0 <= j < |mem| ensures mem[j] == sorted[|sorted| - 1 - j] { assert es[|es| - 1 - j] == sorted[|sorted| - 1 - j]; }
  }

  lemma ItemsAre(found: seq<Entry>)
    ensures |FromHistory(found)| == |found| && forall i :: 0 <= i < |found| ==> FromItem(FromHistory(found)[i], found[i])
  {
  }

  lemma NewestOf(sorted: seq<Entry>, maxLines: int, es: seq<Entry>)
    requires maxLines >= 1 && es == if |sorted| > maxLines then KeepLast(sorted, maxLines) else sorted
    ensures var n := if |sorted| < maxLines then |sorted| else maxLines;
      |es| == n && es == sorted[|sorted| - n..]
  {
  }

  lemma MemoryOf(es: seq<Entry>)
    ensures var mem := Take(Reverse(es), MEMORY_MAX);
      |mem| == (if |es| < 200 then |es| else 200) && forall j :: 0 <= j < |mem| ==> mem[j] == es[|es| - 1 - j]
  {
    if es != [] { ReversedAt(es, 0); }
    forall k | 0 <= k < |es| ensures Reverse(es)[k] == es[|es| - 1 - k] { ReversedAt(es, k); }
  }

  // ---------- The code itself ----------

  lemma {:induction false} WithoutKeyAppend(es: seq<Entry>, e: Entry, k: string)
    ensures WithoutKey(es + [e], k) == WithoutKey(es, k) + if EntryKey(e) == k then [] else [e]
  {
    if es != [] {
      WithoutKeyAppend(es[1..], e, k);
      assert (es + [e])[1..] == es[1..] + [e];
      Reassociate(if EntryKey(es[0]) == k then [] else [es[0]], WithoutKey(es[1..], k), if EntryKey(e) == k then [] else [e]);
    }
  }

  /** The part of the answer that is found before line i is reached. */
  predicate ReadDownTo(lines: seq<Line>, i: nat, q: Query, wanted: nat, collected: seq<Entry>) {
    && i <= |lines| && |collected| <= wanted
    && Read(lines, q, wanted) == collected + Read(lines[..i], q, wanted - |collected|)
  }

  lemma ReadStarts(lines: seq<Line>, q: Query, wanted: nat)
    ensures ReadDownTo(lines, |lines|, q, wanted, [])
  {
    assert lines[..|lines|] == lines;
  }

  lemma ReadOnward(lines: seq<Line>, i: nat, q: Query, wanted: nat, collected: seq<Entry>)
    requires ReadDownTo(lines, i + 1, q, wanted, collected) && |collected| < wanted
    ensures var more := if lines[i].Record? && q.Selects(lines[i].entry) then collected + [Normalize(lines[i].entry)] else collected;
      ReadDownTo(lines, i, q, wanted, more)
  {
    ReadStep(lines, i, q, wanted - |collected|);
    if lines[i].Record? {
      Reassociate(collected, [Normalize(lines[i].entry)], Read(lines[..i], q, wanted - |collected| - 1));
    }
  }

  lemma ReadEnds(lines: seq<Line>, i: nat, q: Query, wanted: nat, collected: seq<Entry>)
    requires ReadDownTo(lines, i, q, wanted, collected) && (i == 0 || |collected| == wanted)
    ensures collected == Read(lines, q, wanted)
  {
  }

  lemma ReadStep(lines: seq<Line>, i: nat, q: Query, limit: nat)
    requires i < |lines| && limit > 0
    ensures Read(lines[..i + 1], q, limit)
         == if lines[i].Record? && q.Selects(lines[i].entry) then [Normalize(lines[i].entry)] + Read(lines[..i], q, limit - 1)
            else Read(lines[..i], q, limit)
  {
    assert lines[..i + 1][..i] == lines[..i];
  }

  lemma Reassociate(a: seq<Entry>, b: seq<Entry>, c: seq<Entry>)
    ensures a + (b + c) == (a + b) + c
  {
  }

  class RecentIndex {
    var files: map<Dir, seq<Line>>
    var memDir: Option<Dir>
    var mem: seq<Entry>

    ghost function View(): State
      reads this
    {
      State(files, memDir, mem)
    }

    constructor ()
      ensures View() == INIT
    {
      files, memDir, mem := map[], None, [];
    }

    method ClearMemoryCache()
      modifies this
      ensures View() == old(View()).ForgetMemory()
    {
      mem := [];
      memDir := None;
    }

    method SyncFrom(d: Dir, newestFirst: seq<Entry>)
      modifies this
      ensures View() == SyncMemory(old(View()), d, newestFirst)
    {
      memDir := Some(d);
      mem := if |newestFirst| > MEMORY_MAX then newestFirst[..MEMORY_MAX] else newestFirst;
    }

    method Prepend(d: Dir, e: Entry)
      modifies this
      ensures View() == PrependMemory(old(View()), d, e)
    {
      if memDir != Some(d) {
        memDir := Some(d);
        mem := [];
      }
      var key, others, i := EntryKey(e), [], 0;
      while i < |mem|
        invariant 0 <= i <= |mem| && unchanged(`files)
        invariant memDir == Some(d) && mem == if old(memDir) == Some(d) then old(mem) else []
        invariant others == WithoutKey(mem[..i], key)
      {
        WithoutKeyAppend(mem[..i], mem[i], key);
        assert mem[..i] + [mem[i]] == mem[..i + 1];
        if EntryKey(mem[i]) != key {
          others := others + [mem[i]];
        }
        i := i + 1;
      }
      assert mem[..i] == mem;
      mem := [e] + others;
      if |mem| > MEMORY_MAX {
        mem := mem[..MEMORY_MAX];
      }
    }

    /** `append_index_entry`; `large` is the outcome of the file-size test. */
    method AppendEntry(d: Dir, e: Entry, maxLines: int, large: bool)
      modifies this
      ensures View() == Append(old(View()), d, e, maxLines, large)
    {
      files := files[d := (if d in files then files[d] else []) + [Record(e)]];
      Prepend(d, e);
      if large && |files[d]| > maxLines {
        files := files[d := KeepLast(files[d], maxLines)];
      }
    }

    /** `read_index_entries`. */
    method ReadEntries(d: Dir, q: Query, limit: int) returns (collected: seq<Entry>)
      ensures collected == Read(View().Lines(d), q.Trimmed(), AtLeast1(limit))
    {
      if d !in files {
        return [];
      }
      collected := ReadLines(files[d], q.Trimmed(), AtLeast1(limit));
    }

    /** Its loop, from the last line up, until the wanted number is found. */
    static method ReadLines(lines: seq<Line>, q: Query, wanted: nat) returns (collected: seq<Entry>)
      ensures collected == Read(lines, q, wanted)
    {
      collected := [];
      var i: nat := |lines|;
      ReadStarts(lines, q, wanted);
      while i > 0 && |collected| < wanted
        invariant ReadDownTo(lines, i, q, wanted, collected)
      {
        i := i - 1;
        ReadOnward(lines, i, q, wanted, collected);
        if lines[i].Record? && q.Selects(lines[i].entry) {
          collected := collected + [Normalize(lines[i].entry)];
        }
      }
      ReadEnds(lines, i, q, wanted, collected);
    }

    /** `remove_index_entries_matching`. */
    method RemoveMatching(d: Dir, account: string, task: string, createdAt: string) returns (removed: nat)
      modifies this
      ensures View() == Remove(old(View()), d, account, task, createdAt)
      ensures removed == |old(View()).Lines(d)| - |View().Lines(d)|
    {
      removed := 0;
      var acc, name, time := Strip(account), Strip(task), Strip(createdAt);
      if d !in files || (acc == "" && name == "" && time == "") {
        return;
      }
      var kept, i, lines := [], 0, files[d];
      while i < |lines|
        invariant 0 <= i <= |lines| && removed == i - |kept|
        invariant kept == KeptLines(lines[..i], acc, name, time)
      {
        assert lines[..i + 1][..i] == lines[..i];
        if Removes(lines[i], acc, name, time) {
          removed := removed + 1;
        } else {
          kept := kept + [lines[i]];
        }
        i := i + 1;
      }
      assert lines[..i] == lines;
      if removed == 0 {
        return;
      }
      if kept != [] {
        files := files[d := kept];
      } else {
        files := files - {d};
      }
      ClearMemoryCache();
    }

    /** `clear_index`. */
    method Clear(d: Dir)
      modifies this
      ensures View() == ClearIndex(old(View()), d)
    {
      files := files - {d};
      ClearMemoryCache();
    }

    /** `rebuild_index_from_history_files`. */
    method RebuildIndex(d: Dir, disk: Disk, maxLines: int)
      modifies this
      ensures View() == Rebuild(old(View()), d, disk, maxLines)
    {
      if !disk.dirExists {
        Clear(d);
        return;
      }
      var entries := SortByTime(FromHistory(disk.found));
      if |entries| > maxLines {
        entries := KeepLast(entries, maxLines);
      }
      files := files[d := Records(entries)];
      SyncFrom(d, Reverse(entries));
    }

    /** `list_recent_from_index`. */
    method List(d: Dir, disk: Disk, q: Query, limit: int, preferMemory: bool) returns (items: seq<Entry>)
      modifies this
      ensures (View(), items) == ListRecent(old(View()), d, disk, q, limit, preferMemory)
    {
      if preferMemory && q.account == "" && q.datePrefix == "" {
        if memDir == Some(d) && mem != [] {
          return if AtLeast1(limit) < |mem| then mem[..AtLeast1(limit)] else mem;
        }
      }
      if d !in files {
        RebuildIndex(d, disk, DEFAULT_MAX_LINES);
      }
      items := ReadEntries(d, q, limit);
      if items != [] {
        if q.account == "" && q.datePrefix == "" {
          SyncFrom(d, items);
        }
        return;
      }
      if disk.dirExists && disk.hasFiles {
        RebuildIndex(d, disk, DEFAULT_MAX_LINES);
        items := ReadEntries(d, q, limit);
      }
    }
  }
}
