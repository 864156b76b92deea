/**
 The logger of src/util/logger.c: oldest-first deletion when the disk runs low, cyclic mode when
 nothing is left to delete, and the write path that runs maintenance first.

 The file system is part of the model: free-space readings, directory listings and the success
 of each call are inputs.  The directory is stable, that is, only the logger removes files.
 */
module Logger {
  import opened Base
  import opened RingLog

  const MIN_FREE_PERCENT: nat := 20
  const MAINTENANCE_INTERVAL_MS: nat := 5000
  const PATH_MAX: nat := 4096
  const LOG_PREFIX := "simple_ws_"
  const NEWLINE: Byte := 10

  // ---------------------------------------------------------------- free space

  datatype Space = Space(available: nat, blocks: nat)

  function FreePercent(space: Space): nat {
    if space.blocks == 0 then 100 else space.available * 100 / space.blocks
  }

  lemma DivAtLeast(n: nat, b: nat, c: nat)
    requires b > 0
    ensures n / b >= c <==> n >= c * b
  {
    var q := n / b;
    assert q * b <= n < q * b + b;
    if q >= c {
      assert (q - c) * b >= 0;
    } else {
      assert (c - q - 1) * b >= 0;
    }
  }

  /** The percentage test is exact: integer division does not move the 20 percent border. */
  lemma EnoughIsOneFifth(space: Space)
    ensures FreePercent(space) >= MIN_FREE_PERCENT <==> space.blocks == 0 || 5 * space.available >= space.blocks
  {
    if space.blocks > 0 {
      DivAtLeast(space.available * 100, space.blocks, MIN_FREE_PERCENT);
    }
  }

  // ---------------------------------------------------------------- the directory

  datatype Mtime = Mtime(sec: int, nsec: int)

  /** `timespec_cmp`. */
  function TimespecCmp(a: Mtime, b: Mtime): int {
    if a.sec < b.sec then -1
    else if a.sec > b.sec then 1
    else if a.nsec < b.nsec then -1
    else if a.nsec > b.nsec then 1
    else 0
  }

  datatype FileInfo = FileInfo(mtime: Mtime, regular: bool)

  type Directory = map<string, FileInfo>

  function FullPath(logDir: string, name: string): string
    requires logDir != ""
  {
    logDir + (if logDir[|logDir| - 1] == '/' then "" else "/") + name
  }

  predicate IsLoggerFileName(name: string) { LOG_PREFIX <= name }

  /** The tests of `find_oldest_deletable_log` on one directory entry. */
  predicate Considered(dir: Directory, logDir: string, current: string, name: string)
    requires logDir != ""
  {
    && IsLoggerFileName(name)
    && |FullPath(logDir, name)| < PATH_MAX
    && FullPath(logDir, name) != current
    && name in dir && dir[name].regular
  }

  // ---------------------------------------------------------------- what may be deleted, and what first

  /**
   A log of an earlier session: a regular file named simple_ws_..., whose path is short enough and
   is not that of the current log.
   */
  predicate EarlierLog(dir: Directory, logDir: string, current: string, name: string)
    requires logDir != ""
  {
    && name in dir && dir[name].regular
    && |name| >= 10 && name[..10] == "simple_ws_"
    && var path := if logDir[|logDir| - 1] == '/' then logDir + name else logDir + "/" + name;
       |path| < 4096 && path != current
  }

  lemma ConsideredIsEarlier(dir: Directory, logDir: string, current: string, name: string)
    requires logDir != ""
    ensures Considered(dir, logDir, current, name) <==> EarlierLog(dir, logDir, current, name)
  {
    assert |LOG_PREFIX| == 10;
    assert logDir + "" + name == logDir + name;
  }

  /** Last modified no later: seconds first, then nanoseconds. */
  predicate NotNewer(a: Mtime, b: Mtime) {
    a.sec < b.sec || (a.sec == b.sec && a.nsec <= b.nsec)
  }

  /** The same on one scale, for time stamps as the system gives them. */
  lemma NotNewerInNanoseconds(a: Mtime, b: Mtime)
    requires 0 <= a.nsec < 1_000_000_000 && 0 <= b.nsec < 1_000_000_000
    ensures NotNewer(a, b) <==> a.sec * 1_000_000_000 + a.nsec <= b.sec * 1_000_000_000 + b.nsec
  {
  }

  ghost predicate IsOldest(dir: Directory, logDir: string, current: string, name: string)
    requires logDir != ""
  {
    && EarlierLog(dir, logDir, current, name)
    && forall other :: EarlierLog(dir, logDir, current, other) ==> NotNewer(dir[name].mtime, dir[other].mtime)
  }

  function EarlierLogs(dir: Directory, logDir: string, current: string): set<string>
    requires logDir != ""
  {
    set name | name in dir.Keys && EarlierLog(dir, logDir, current, name)
  }

  function Names(names: seq<string>): set<string> {
    set n | n in names
  }

  /** Among the first `k` names, the one at `i` is an earlier log, an oldest one, and the first of these. */
  ghost predicate FirstOldest(
    dir: Directory, listing: seq<string>, k: nat, logDir: string, current: string, i: int, name: string)
    requires logDir != "" && k <= |listing|
  {
    && 0 <= i < k && listing[i] == name && EarlierLog(dir, logDir, current, name)
    && (forall j :: 0 <= j < k && EarlierLog(dir, logDir, current, listing[j]) ==>
          NotNewer(dir[name].mtime, dir[listing[j]].mtime))
    && (forall j :: 0 <= j < i && EarlierLog(dir, logDir, current, listing[j]) ==>
          !NotNewer(dir[listing[j]].mtime, dir[name].mtime))
  }

  /** In a complete listing the log found is an oldest of the directory. */
  lemma FoundIsOldest(dir: Directory, listing: seq<string>, logDir: string, current: string, i: int, name: string)
    requires logDir != "" && FirstOldest(dir, listing, |listing|, logDir, current, i, name)
    requires forall other :: other in dir ==> other in listing
    ensures IsOldest(dir, logDir, current, name)
  {
  }

  lemma DeletionShrinks(dir: Directory, logDir: string, current: string, name: string)
    requires logDir != "" && EarlierLog(dir, logDir, current, name)
    ensures EarlierLogs(dir - {name}, logDir, current) < EarlierLogs(dir, logDir, current)
  {
    assert name in EarlierLogs(dir, logDir, current);
    assert name !in EarlierLogs(dir - {name}, logDir, current);
  }

  /** `find_oldest_deletable_log` over one directory listing, in the order `readdir` gives it. */
  method FindOldest(dir: Directory, listing: seq<string>, logDir: string, current: string)
    returns (oldest: Option<string>)
    requires logDir != ""
    ensures oldest.None? <==> forall i :: 0 <= i < |listing| ==> !EarlierLog(dir, logDir, current, listing[i])
    ensures oldest.Some? ==> exists i :: FirstOldest(dir, listing, |listing|, logDir, current, i, oldest.value)
  {
    oldest := None;
    var best := 0;
    for k := 0 to |listing|
      invariant oldest.None? <==> forall i :: 0 <= i < k ==> !EarlierLog(dir, logDir, current, listing[i])
      invariant oldest.Some? ==> FirstOldest(dir, listing, k, logDir, current, best, oldest.value)
    {
      var name := listing[k];
      ConsideredIsEarlier(dir, logDir, current, name);
      if Considered(dir, logDir, current, name)
         && (oldest.None? || TimespecCmp(dir[name].mtime, dir[oldest.value].mtime) < 0) {
        oldest, best := Some(name), k;
      }
    }
  }

  // ---------------------------------------------------------------- the logger

  /**
   What the system answers during one maintenance: the k-th free-space reading and directory scan
   (`None` when the call fails), whether the k-th unlink succeeds, and whether the file can be
   flushed and measured.
   */
  datatype Env = Env(
    space: nat -> Option<Space>, scan: nat -> Option<seq<string>>, unlinks: nat -> bool, prepares: bool)

  ghost predicate NoErrors(env: Env) {
    forall k: nat :: env.space(k).Some? && env.scan(k).Some? && env.unlinks(k)
  }

  /** The k-th scan, if it succeeds, lists at least the files of `dir`. */
  ghost predicate Lists(env: Env, k: nat, dir: Directory) {
    env.scan(k).Some? ==> forall name :: name in dir ==> name in env.scan(k).value
  }

  /** Every scan lists what the deletions before it left. */
  ghost predicate ListsAll(env: Env, dir: Directory, deleted: seq<string>) {
    forall k :: 0 <= k <= |deleted| ==> Lists(env, k, dir - Names(deleted[..k]))
  }

  /** Each name was an oldest earlier log of what the earlier deletions left. */
  ghost predicate OldestFirst(dir: Directory, logDir: string, current: string, deleted: seq<string>)
    requires logDir != ""
  {
    forall k :: 0 <= k < |deleted| ==> IsOldest(dir - Names(deleted[..k]), logDir, current, deleted[k])
  }

  lemma OldestFirstSnoc(dir: Directory, logDir: string, current: string, deleted: seq<string>, name: string)
    requires logDir != "" && OldestFirst(dir, logDir, current, deleted)
    requires IsOldest(dir - Names(deleted), logDir, current, name)
    ensures OldestFirst(dir, logDir, current, deleted + [name])
  {
    NamesSnoc(deleted, name);
  }

  /** What a longer list of deletions promises of the scans, it promised before the last one. */
  lemma ListsAllInit(env: Env, dir: Directory, deleted: seq<string>, name: string)
    requires ListsAll(env, dir, deleted + [name])
    ensures ListsAll(env, dir, deleted)
  {
    NamesSnoc(deleted, name);
  }

  function ReadingAt(env: Env, k: nat): nat {
    match env.space(k)
    case None => 0
    case Some(space) => FreePercent(space)
  }

  /** The first `n` readings were made, and each was below the limit. */
  ghost predicate Scarce(env: Env, n: nat) {
    forall k :: 0 <= k < n ==> env.space(k).Some? && ReadingAt(env, k) < 20
  }

  ghost predicate AllEarlier(dir: Directory, logDir: string, current: string, names: seq<string>)
    requires logDir != ""
  {
    forall k :: 0 <= k < |names| ==> EarlierLog(dir, logDir, current, names[k])
  }

  /** Why the deletion loop stopped. */
  datatype Verdict = EnoughSpace | NothingLeft | CallFailed

  ghost predicate ListsNoLog(dir: Directory, logDir: string, current: string, listing: seq<string>)
    requires logDir != ""
  {
    forall i :: 0 <= i < |listing| ==> !EarlierLog(dir, logDir, current, listing[i])
  }

  /** How the loop ends when `n` logs have been deleted and `dir` is left. */
  ghost function EndsAs(env: Env, n: nat, dir: Directory, logDir: string, current: string): Verdict
    requires logDir != ""
  {
    if env.space(n).None? then CallFailed
    else if ReadingAt(env, n) >= 20 then EnoughSpace
    else if env.scan(n).None? || !ListsNoLog(dir, logDir, current, env.scan(n).value) then CallFailed
    else NothingLeft
  }

  /** Scan for the k-th time and unlink an oldest log; `name` is `None` when none was unlinked. */
  method DeleteNext(dir: Directory, logDir: string, current: string, env: Env, k: nat)
    returns (name: Option<string>, failed: bool)
    requires logDir != ""
    ensures failed ==>
              && name.None?
              && (env.scan(k).None? || (!env.unlinks(k) && !ListsNoLog(dir, logDir, current, env.scan(k).value)))
    ensures name.None? && !failed ==> env.scan(k).Some? && ListsNoLog(dir, logDir, current, env.scan(k).value)
    ensures name.Some? ==>
              && EarlierLog(dir, logDir, current, name.value)
              && (Lists(env, k, dir) ==> IsOldest(dir, logDir, current, name.value))
    ensures name.None? && !failed && Lists(env, k, dir) ==> EarlierLogs(dir, logDir, current) == {}
  {
    var listing := env.scan(k);
    if listing.None? {
      return None, true;
    }
    name := FindOldest(dir, listing.value, logDir, current);
    if name.Some? && !env.unlinks(k) {
      return None, true;
    }
    failed := false;
    if name.Some? && Lists(env, k, dir) {
      ghost var i :| FirstOldest(dir, listing.value, |listing.value|, logDir, current, i, name.value);
      FoundIsOldest(dir, listing.value, logDir, current, i, name.value);
    }
  }

  /**
   The loop of `maybe_run_maintenance_locked`, entered after a first reading below the limit:
   scan, unlink an oldest log, read the free space again.
   */
  method DeleteOldestLogs(dir: Directory, logDir: string, current: string, env: Env)
    returns (deleted: seq<string>, left: Directory, verdict: Verdict)
    requires logDir != ""
    requires env.space(0).Some? && ReadingAt(env, 0) < MIN_FREE_PERCENT
    ensures left == dir - Names(deleted)
    // only logs of earlier sessions are deleted, each after a reading below the limit
    ensures AllEarlier(dir, logDir, current, deleted) && Scarce(env, |deleted|)
    // each deletion takes an oldest remaining log
    ensures ListsAll(env, dir, deleted) ==> OldestFirst(dir, logDir, current, deleted)
    // the loop stops with enough space, with nothing left to delete, or at a failed call
    ensures verdict == EndsAs(env, |deleted|, left, logDir, current)
    ensures NoErrors(env) ==> verdict != CallFailed
    ensures verdict == NothingLeft ==>
              (ListsAll(env, dir, deleted) ==> EarlierLogs(left, logDir, current) == {})
  {
    deleted, left, verdict := [], dir, CallFailed;
    assert left == dir - Names(deleted);
    while true
      invariant left == dir - Names(deleted) && verdict == CallFailed
      invariant AllEarlier(dir, logDir, current, deleted) && Scarce(env, |deleted| + 1)
      invariant ListsAll(env, dir, deleted) ==> OldestFirst(dir, logDir, current, deleted)
      decreases EarlierLogs(left, logDir, current)
    {
      assert deleted[..|deleted|] == deleted;
      var oldest, failed := DeleteNext(left, logDir, current, env, |deleted|);
      if oldest.None? {
        verdict := if failed then CallFailed else NothingLeft;
        return;
      }
      if ListsAll(env, dir, deleted + [oldest.value]) {
        ListsAllInit(env, dir, deleted, oldest.value);
        OldestFirstSnoc(dir, logDir, current, deleted, oldest.value);
      }
      NamesSnoc(deleted, oldest.value);
      DeletionShrinks(left, logDir, current, oldest.value);
      left := left - {oldest.value};
      deleted := deleted + [oldest.value];
      var reading := env.space(|deleted|);
      if reading.None? {
        return;
      }
      if FreePercent(reading.value) >= MIN_FREE_PERCENT {
        verdict := EnoughSpace;
        return;
      }
    }
  }

  lemma NamesSnoc(names: seq<string>, name: string)
    ensures Names(names + [name]) == Names(names) + {name}
    ensures (names + [name])[..|names|] == names
    ensures forall k :: 0 <= k <= |names| ==> (names + [name])[..k] == names[..k]
  {
  }

  /** One log record in cyclic mode. */
  function Record(header: seq<Byte>, payload: seq<Byte>, ios: (Io, Io, Io)): seq<Op> {
    [Chunk(header, ios.0), Chunk(payload, ios.1), Chunk([NEWLINE], ios.2)]
  }

  lemma RunRecord(entry: seq<Byte>, ops: seq<Op>, header: seq<Byte>, payload: seq<Byte>, ios: (Io, Io, Io))
    ensures Run(entry, ops + Record(header, payload, ios))
         == WriteChunk(WriteChunk(WriteChunk(Run(entry, ops), header, ios.0), payload, ios.1), [10], ios.2)
  {
    var c0, c1, c2 := Chunk(header, ios.0), Chunk(payload, ios.1), Chunk([NEWLINE], ios.2);
    RunSnoc(entry, ops, c0);
    RunSnoc(entry, ops + [c0], c1);
    RunSnoc(entry, ops + [c0] + [c1], c2);
    assert ops + Record(header, payload, ios) == ops + [c0] + [c1] + [c2];
  }

  /** How the I/O of one appended line goes: how much of each part reaches the stream. */
  datatype LineIo = EndNotFound | Stored(header: nat, payload: nat, newline: nat)

  predicate Complete(io: LineIo, header: seq<Byte>, payload: seq<Byte>) {
    io.Stored? && io.header >= |header| && io.payload >= |payload| && io.newline >= 1
  }

  /** One line in normal mode; whatever fails, what was in the file stays in front. */
  function AppendLine(file: seq<Byte>, header: seq<Byte>, payload: seq<Byte>, io: LineIo): (r: seq<Byte>)
    ensures file <= r && |r| <= |file| + |header| + |payload| + 1
    ensures Complete(io, header, payload) ==> r == file + header + payload + [10]
  {
    match io
    case EndNotFound => file
    case Stored(h, p, n) =>
      file + header[..Min(h, |header|)] + payload[..Min(p, |payload|)] + [NEWLINE][..Min(n, 1)]
  }

  class Logger {
    const enabled: bool
    const logDir: string
    const currentPath: string
    var nextMaintenanceMs: nat
    var cyclicMode: bool
    var file: seq<Byte>
    var offset: nat
    var capacity: nat
    var directory: Directory
    // The file when cyclic mode was last entered, and what was done to the ring since.
    ghost var entry: seq<Byte>
    ghost var ops: seq<Op>

    /** In cyclic mode the ring is the outcome of one episode; outside it is at rest. */
    ghost predicate Valid()
      reads this
    {
      && logDir != ""
      && (if cyclicMode then Ring() == Run(entry, ops) else Ring() == Enter(file))
    }

    constructor (enabled: bool, logDir: string, currentPath: string, directory: Directory)
      requires logDir != ""
      ensures Valid()
      ensures this.enabled == enabled && this.logDir == logDir && this.currentPath == currentPath
      ensures Ring() == Enter([]) && !cyclicMode && nextMaintenanceMs == 0 && this.directory == directory
    {
      this.enabled, this.logDir, this.currentPath := enabled, logDir, currentPath;
      this.directory := directory;
      nextMaintenanceMs, cyclicMode, file, offset, capacity := 0, false, [], 0, 0;
    }

    function Ring(): Ring
      reads this
    {
      RingLog.Ring(file, offset, capacity)
    }

    method PrepareCyclicMode()
      modifies `offset, `capacity
      ensures Ring() == Prepare(old(Ring()))
    {
      capacity := |file|;
      if capacity < MIN_CAPACITY {
        capacity := MIN_CAPACITY;
      }
      if offset >= capacity {
        offset := 0;
      }
    }

    method LeaveCyclicMode()
      modifies `cyclicMode, `offset, `capacity
      ensures !cyclicMode && Ring() == Enter(old(file))
    {
      cyclicMode, capacity, offset := false, 0, 0;
    }

    /** Cyclic mode begins or goes on, and the file is measured if that succeeds. */
    method EnterCyclicMode(prepares: bool)
      requires Valid()
      modifies `cyclicMode, `offset, `capacity, `entry, `ops
      ensures Valid() && cyclicMode && Ring() == if prepares then Prepare(old(Ring())) else old(Ring())
      ensures if old(cyclicMode) then entry == old(entry) && (ops == old(ops) || ops == old(ops) + [Reprepare(true)])
              else entry == old(file) && (ops == [] || ops == [Reprepare(true)])
    {
      if !cyclicMode {
        entry, ops := file, [];
      }
      cyclicMode := true;
      if prepares {
        PrepareCyclicMode();
        RunSnoc(entry, ops, Reprepare(true));
        ops := ops + [Reprepare(true)];
      }
    }

    /** `maybe_run_maintenance_locked`; `deleted` lists the unlinked names in order. */
    method MaybeRunMaintenance(nowMs: nat, env: Env) returns (deleted: seq<string>)
      requires Valid()
      modifies this
      ensures Valid() && file == old(file)
      ensures directory == old(directory) - Names(deleted)
      // throttled or disabled: nothing happens
      ensures !enabled || nowMs < old(nextMaintenanceMs) ==>
                deleted == [] && cyclicMode == old(cyclicMode) && Ring() == old(Ring())
                && nextMaintenanceMs == old(nextMaintenanceMs)
      ensures enabled && nowMs >= old(nextMaintenanceMs) ==>
                nextMaintenanceMs == nowMs + 5000
      // only logs of earlier sessions are deleted, oldest first, each after a reading below the limit
      ensures AllEarlier(old(directory), logDir, currentPath, deleted) && Scarce(env, |deleted|)
      ensures ListsAll(env, old(directory), deleted) ==>
                OldestFirst(old(directory), logDir, currentPath, deleted)
      // an episode begins with the file as it is, and goes on by at most one more preparation
      ensures cyclicMode ==>
                if old(cyclicMode) then entry == old(entry) && (ops == old(ops) || ops == old(ops) + [Reprepare(true)])
                else entry == old(file) && (ops == [] || ops == [Reprepare(true)])
      // enough space ends cyclic mode, nothing left to delete begins it, a failed call changes nothing
      ensures enabled && nowMs >= old(nextMaintenanceMs) ==>
                match EndsAs(env, |deleted|, directory, logDir, currentPath)
                case EnoughSpace => !cyclicMode && Ring() == Enter(old(file))
                case NothingLeft =>
                  cyclicMode && Ring() == (if env.prepares then Prepare(old(Ring())) else old(Ring()))
                case CallFailed => cyclicMode == old(cyclicMode) && Ring() == old(Ring())
      // without errors: enough space, or cyclic mode with nothing left to delete
      ensures enabled && nowMs >= old(nextMaintenanceMs) && NoErrors(env) ==>
                if ReadingAt(env, |deleted|) >= 20 then !cyclicMode
                else
                  && cyclicMode
                  && (ListsAll(env, old(directory), deleted) ==> EarlierLogs(directory, logDir, currentPath) == {})
    {
      deleted := [];
      assert directory == old(directory) - Names(deleted);
      if !enabled || nowMs < nextMaintenanceMs {
        return;
      }
      nextMaintenanceMs := nowMs + MAINTENANCE_INTERVAL_MS;
      var reading := env.space(0);
      if reading.None? {
        return;
      }
      if FreePercent(reading.value) >= MIN_FREE_PERCENT {
        LeaveCyclicMode();
        return;
      }
      var verdict;
      deleted, directory, verdict := DeleteOldestLogs(directory, logDir, currentPath, env);
      if verdict == EnoughSpace {
        LeaveCyclicMode();
      } else if verdict == NothingLeft {
        EnterCyclicMode(env.prepares);
      }
    }

    /** Capacity and offset are settled for a chunk of `len` bytes. */
    method PlaceChunk(len: nat)
      modifies `offset, `capacity
      ensures Ring() == Place(old(Ring()), len)
    {
      if capacity == 0 {
        PrepareCyclicMode();
      }
      if len > capacity {
        capacity := len;
      }
      if offset + len > capacity {
        offset := 0;
      }
    }

    /** `write_cyclic_bytes_locked`. */
    method WriteCyclicBytes(data: seq<Byte>, io: Io) returns (ok: bool)
      modifies `file, `offset, `capacity
      ensures Ring() == WriteChunk(old(Ring()), data, io)
      ensures ok <==> Succeeds(old(Ring()), data, io)
    {
      if data == [] {
        return true;
      }
      if capacity == 0 && io.PrepareFails? {
        return false;
      }
      PlaceChunk(|data|);
      if io.SeekFails? {
        return false;
      }
      if io.WriteFails? {
        file := Overwrite(file, offset, data[..Min(io.stored, |data|)]);
        return false;
      }
      file := Overwrite(file, offset, if io.FlushFails? then data[..Min(io.stored, |data|)] else data);
      offset := offset + |data|;
      if offset >= capacity {
        offset := 0;
      }
      return !io.FlushFails?;
    }

    /** The cyclic branch of `logger_write`: header, payload unless it is empty, newline. */
    method WriteRecord(header: seq<Byte>, payload: seq<Byte>, ios: (Io, Io, Io))
      modifies `file, `offset, `capacity
      ensures Ring() == WriteChunk(WriteChunk(WriteChunk(old(Ring()), header, ios.0), payload, ios.1),
                                   [NEWLINE], ios.2)
    {
      var _ := WriteCyclicBytes(header, ios.0);
      if payload != [] {
        var _ := WriteCyclicBytes(payload, ios.1);
      }
      var _ := WriteCyclicBytes([NEWLINE], ios.2);
    }

    /** The same, as three more operations of the episode. */
    method LogCyclic(header: seq<Byte>, payload: seq<Byte>, ios: (Io, Io, Io))
      requires Valid() && cyclicMode
      modifies `file, `offset, `capacity, `ops
      ensures Valid() && ops == old(ops) + Record(header, payload, ios)
    {
      WriteRecord(header, payload, ios);
      RunRecord(entry, ops, header, payload, ios);
      ops := ops + Record(header, payload, ios);
    }

    /** `write_normal_line_locked`: at the end of the file, header, payload unless it is empty, newline. */
    method AppendNormal(header: seq<Byte>, payload: seq<Byte>, line: LineIo)
      requires !cyclicMode && Ring() == Enter(file)
      modifies `file
      ensures file == AppendLine(old(file), header, payload, line) && Ring() == Enter(file)
    {
      if line.EndNotFound? {
        return;
      }
      file := file + header[..Min(line.header, |header|)];
      if payload != [] {
        file := file + payload[..Min(line.payload, |payload|)];
      }
      if line.newline > 0 {
        file := file + [NEWLINE];
      }
    }

    /**
     The ring theorems, of this file: in cyclic mode it obeys the size bound whatever the I/O did, and
     as long as no write failed half-way it reads as the end of the file at entry and all chunks.
     */
    lemma CyclicFileIsHistory()
      requires Valid() && cyclicMode
      ensures Bounded(Ring(), Max(Max(|entry|, 4096), Longest(ops)))
      ensures (forall i :: 0 <= i < |ops| ==> Clean(ops[i])) ==>
                var t := TracedRun(entry, ops);
                && offset <= |file| && t.lapEnd <= |file|
                && IsSuffix(ViewOf(file, offset, t.lapEnd), entry + Written(entry, ops))
                && (t.wrapped ==> |ViewOf(file, offset, t.lapEnd)| > capacity - Longest(ops))
                && (!t.wrapped ==> t.lapEnd == |entry| && offset == |Written(entry, ops)|)
    {
      FileStaysBounded(entry, ops);
      if forall i :: 0 <= i < |ops| ==> Clean(ops[i]) {
        RingRefinesHistory(entry, ops);
      }
    }

    /** `logger_write` and `logger_printf`: maintenance first, then one record. */
    method Write(
      header: seq<Byte>, payload: seq<Byte>, nowMs: nat, env: Env, line: LineIo, ios: (Io, Io, Io))
      returns (deleted: seq<string>)
      requires Valid()
      modifies this
      ensures Valid()
      ensures directory == old(directory) - Names(deleted)
      // deletions are those of the maintenance: earlier logs, oldest first, each after a scarce reading
      ensures AllEarlier(old(directory), logDir, currentPath, deleted) && Scarce(env, |deleted|)
      ensures ListsAll(env, old(directory), deleted) ==>
                OldestFirst(old(directory), logDir, currentPath, deleted)
      ensures nowMs < old(nextMaintenanceMs) ==> deleted == [] && cyclicMode == old(cyclicMode)
      ensures enabled && nowMs >= old(nextMaintenanceMs) ==>
                cyclicMode == match EndsAs(env, |deleted|, directory, logDir, currentPath)
                              case EnoughSpace => false
                              case NothingLeft => true
                              case CallFailed => old(cyclicMode)
      ensures enabled && nowMs >= old(nextMaintenanceMs) && NoErrors(env) ==>
                if ReadingAt(env, |deleted|) >= 20 then !cyclicMode
                else
                  && cyclicMode
                  && (ListsAll(env, old(directory), deleted) ==> EarlierLogs(directory, logDir, currentPath) == {})
      ensures !enabled ==> Ring() == old(Ring()) && cyclicMode == old(cyclicMode) && deleted == []
      ensures enabled && !cyclicMode ==> file == AppendLine(old(file), header, payload, line)
      ensures enabled && cyclicMode ==>
                if old(cyclicMode) then
                  && entry == old(entry)
                  && (|| ops == old(ops) + Record(header, payload, ios)
                      || ops == old(ops) + [Reprepare(true)] + Record(header, payload, ios))
                else
                  && entry == old(file)
                  && (ops == Record(header, payload, ios) || ops == [Reprepare(true)] + Record(header, payload, ios))
    {
      deleted := [];
      if !enabled {
        assert directory == old(directory) - Names(deleted);
        return;
      }
      deleted := MaybeRunMaintenance(nowMs, env);
      if !cyclicMode {
        AppendNormal(header, payload, line);
      } else {
        LogCyclic(header, payload, ios);
      }
    }
  }
}
