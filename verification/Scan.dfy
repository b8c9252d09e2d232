/**
 * Scans interleaved with file writes (`hash_one` and `hash_files` in src/hasher.rs): a cache entry that matches a
 * file's current stat holds the hashes of its current bytes.
 */
module ScanProtocol {
  import opened Base
  import opened CacheTable
  import opened Hashing

  // What `matches` compares.
  datatype Stat = Stat(size: u64, mtimeNs: i128, ctimeNs: i128, blksz: u32)

  datatype Inode = Inode(stat: Stat, bytes: seq<byte>)

  // One `hash_one` call, then its result waiting for the batch to be committed.
  datatype Task =
    | Free
    | Statted(key: FileKey, stat: Stat)
    | Missed
    | Reading(key: FileKey, stat: Stat, got: seq<byte>)
    | Hashed(key: FileKey, stat: Stat, fromCache: bool, hashes: seq<ChunkHash>)

  // `used` is history: every stat an inode ever had.
  datatype State = State(fs: map<FileKey, Inode>, used: set<(FileKey, Stat)>, cache: Table, tasks: seq<Task>)

  datatype Event =
    | Lstat(t: nat, key: FileKey)
    | Ask(t: nat)                      // cache lookup: hit, miss or corrupt record
    | OpenFstat(t: nat, key: FileKey)  // the path may lead to another inode by now
    | Read(t: nat, data: seq<byte>)    // any non-empty part of what follows
    | Eof(t: nat)                      // a read of no bytes ends the loop
    | Fail(t: nat)
    | Commit(ts: seq<nat>)             // one batch
    | Prune(seen: FileKey -> bool, fsids: set<u64>)
    | Restart                          // a new scan on the old cache
    | Write(key: FileKey, inode: Inode)
    | Remove(key: FileKey)

  ghost predicate MatchesStat(e: FileEntry, s: Stat) {
    e.Matches(s.size, s.mtimeNs, s.ctimeNs, s.blksz)
  }

  function EntryOf(s: Stat, hashes: seq<ChunkHash>): FileEntry {
    FileEntry(s.size, s.mtimeNs, s.ctimeNs, s.blksz, hashes)
  }

  /** The entries `put_many` is given: the results of this batch that were not cache hits. */
  function Batch(tasks: seq<Task>, ts: seq<nat>): (entries: seq<(FileKey, FileEntry)>)
    requires forall i :: 0 <= i < |ts| ==> ts[i] < |tasks| && tasks[ts[i]].Hashed?
  {
    if ts == [] then []
    else
      var n := |ts| - 1;
      var r := tasks[ts[n]];
      Batch(tasks, ts[..n]) + (if r.fromCache then [] else [(r.key, EntryOf(r.stat, r.hashes))])
  }

  function Freed(tasks: seq<Task>, ts: seq<nat>): (tasks': seq<Task>)
    requires forall i :: 0 <= i < |ts| ==> ts[i] < |tasks|
    ensures |tasks'| == |tasks|
    ensures forall t :: 0 <= t < |tasks| ==> tasks'[t] == tasks[t] || tasks'[t] == Free
  {
    if ts == [] then tasks else Freed(tasks, ts[..|ts| - 1])[ts[|ts| - 1] := Free]
  }

  function AllFree(n: nat): (tasks: seq<Task>)
    ensures |tasks| == n && forall t :: 0 <= t < n ==> tasks[t] == Free
  {
    if n == 0 then [] else AllFree(n - 1) + [Free]
  }

  function TaskAt(s: State, t: nat): Task {
    if t < |s.tasks| then s.tasks[t] else Free
  }

  function With(s: State, t: nat, task: Task): State {
    if t < |s.tasks| then s.(tasks := s.tasks[t := task]) else s
  }

  function Answer(s: State, task: Task): Task
    requires task.Statted?
  {
    match Lookup(s.cache, task.key)
    case Err(_) => Free
    case Ok(None) => Missed
    case Ok(Some(e)) =>
      if e.Matches(task.stat.size, task.stat.mtimeNs, task.stat.ctimeNs, task.stat.blksz)
      then Task.Hashed(task.key, task.stat, true, e.hashes) else Missed
  }

  /** The step a scanning thread takes, if it can take it now. */
  ghost function TaskStep(s: State, e: Event, xxh: Xxh): Option<Task> {
    match e
    case Lstat(t, key) => if TaskAt(s, t).Free? && key in s.fs then Some(Statted(key, s.fs[key].stat)) else None
    case Ask(t) => if TaskAt(s, t).Statted? then Some(Answer(s, TaskAt(s, t))) else None
    case OpenFstat(t, key) =>
      if TaskAt(s, t).Missed? && key in s.fs then Some(Reading(key, s.fs[key].stat, [])) else None
    case Read(t, data) =>
      if TaskAt(s, t).Reading? && data != [] && (TaskAt(s, t).key in s.fs ==> Follows(s, t, data))
      then Some(TaskAt(s, t).(got := TaskAt(s, t).got + data)) else None
    case Eof(t) =>
      if TaskAt(s, t).Reading? && (TaskAt(s, t).key in s.fs ==> |TaskAt(s, t).got| >= |s.fs[TaskAt(s, t).key].bytes|)
      then Some(Finished(TaskAt(s, t), xxh)) else None
    case Fail(t) => Some(Free)
    case _ => None
  }

  /** The data are the next bytes the file has at this moment. */
  ghost predicate Follows(s: State, t: nat, data: seq<byte>)
    requires TaskAt(s, t).Reading? && TaskAt(s, t).key in s.fs
  {
    var off, bytes := |TaskAt(s, t).got|, s.fs[TaskAt(s, t).key].bytes;
    off + |data| <= |bytes| && data == bytes[off..off + |data|]
  }

  ghost function Finished(r: Task, xxh: Xxh): Task
    requires r.Reading?
  {
    if r.stat.blksz == 0 then Free
    else Task.Hashed(r.key, r.stat, false, ChunkHashes(r.got, r.stat.blksz, xxh))
  }

  ghost function Next(s: State, e: Event, xxh: Xxh): Option<State> {
    match e
    case Commit(ts) =>
      if forall i :: 0 <= i < |ts| ==> ts[i] < |s.tasks| && s.tasks[ts[i]].Hashed?
      then Some(s.(cache := Put(s.cache, Batch(s.tasks, ts)), tasks := Freed(s.tasks, ts))) else None
    case Prune(seen, fsids) => Some(s.(cache := Pruned(s.cache, seen, fsids)))
    case Restart => Some(s.(tasks := AllFree(|s.tasks|)))
    case Write(key, inode) =>
      // a write leaves a stat the inode never had
      if (key, inode.stat) !in s.used && |inode.bytes| == inode.stat.size
      then Some(s.(fs := s.fs[key := inode], used := s.used + {(key, inode.stat)})) else None
    case Remove(key) => Some(s.(fs := s.fs - {key}))
    case _ =>
      match TaskStep(s, e, xxh)
      case None => None
      case Some(task) => Some(With(s, e.t, task))
  }

  ghost function After(s: State, trace: seq<Event>, xxh: Xxh): Option<State> {
    if trace == [] then Some(s)
    else
      match After(s, trace[..|trace| - 1], xxh)
      case None => None
      case Some(t) => Next(t, trace[|trace| - 1], xxh)
  }

  ghost predicate Initial(s: State) {
    && s.cache == map[] && (forall t :: 0 <= t < |s.tasks| ==> s.tasks[t] == Free)
    && (forall key :: key in s.fs ==> (key, s.fs[key].stat) in s.used)
  }

  // ---- the invariant ---------------------------------------------------------------

  /** If `stat` is the current stat of the file, the hashes are those of its current bytes. */
  ghost predicate TrueOf(s: State, key: FileKey, stat: Stat, hashes: seq<ChunkHash>, xxh: Xxh) {
    && (key, stat) in s.used && stat.blksz > 0
    && (key in s.fs && s.fs[key].stat == stat ==> hashes == ChunkHashes(s.fs[key].bytes, stat.blksz, xxh))
  }

  ghost predicate EntryTrue(s: State, key: FileKey, e: FileEntry, xxh: Xxh) {
    TrueOf(s, key, Stat(e.size, e.mtimeNs, e.ctimeNs, e.blksz), e.hashes, xxh)
  }

  ghost predicate AnswerTrue(s: State, key: FileKey, r: Result<Option<FileEntry>, nat>, xxh: Xxh) {
    r.Ok? && r.value.Some? ==> EntryTrue(s, key, r.value.value, xxh)
  }

  ghost predicate TaskTrue(s: State, task: Task, xxh: Xxh) {
    match task
    case Statted(key, stat) => (key, stat) in s.used
    case Reading(key, stat, got) =>
      && (key, stat) in s.used
      && (key in s.fs && s.fs[key].stat == stat ==> got <= s.fs[key].bytes)
    case Hashed(key, stat, _, hashes) => TrueOf(s, key, stat, hashes, xxh)
    case _ => true
  }

  ghost predicate FsUsed(s: State) {
    forall key :: key in s.fs ==> (key, s.fs[key].stat) in s.used
  }

  ghost predicate CacheTrue(s: State, xxh: Xxh) {
    forall key :: AnswerTrue(s, key, Lookup(s.cache, key), xxh)
  }

  ghost predicate TasksTrue(s: State, xxh: Xxh) {
    forall t :: 0 <= t < |s.tasks| ==> TaskTrue(s, s.tasks[t], xxh)
  }

  ghost predicate True(s: State, xxh: Xxh) {
    FsUsed(s) && CacheTrue(s, xxh) && TasksTrue(s, xxh)
  }

  // ---- preservation ------------------------------------------------------------------

  lemma AnswerStaysTrue(s: State, task: Task, xxh: Xxh)
    requires True(s, xxh) && task.Statted? && TaskTrue(s, task, xxh)
    ensures TaskTrue(s, Answer(s, task), xxh)
  {
  }

  lemma ReadStaysTrue(s: State, t: nat, data: seq<byte>, xxh: Xxh)
    requires t < |s.tasks| && TaskTrue(s, s.tasks[t], xxh) && TaskStep(s, Read(t, data), xxh).Some?
    ensures TaskTrue(s, TaskStep(s, Read(t, data), xxh).value, xxh)
  {
  }

  /** Everything was read, and nothing more, so the hashes are those of the bytes if the stat still holds. */
  lemma EofStaysTrue(s: State, t: nat, xxh: Xxh)
    requires t < |s.tasks| && TaskTrue(s, s.tasks[t], xxh) && TaskStep(s, Eof(t), xxh).Some?
    ensures TaskTrue(s, TaskStep(s, Eof(t), xxh).value, xxh)
  {
    var r := s.tasks[t];
    if r.key in s.fs && s.fs[r.key].stat == r.stat {
      assert r.got == s.fs[r.key].bytes;
    }
  }

  lemma TaskStepStaysTrue(s: State, e: Event, xxh: Xxh)
    requires True(s, xxh) && TaskStep(s, e, xxh).Some?
    ensures TaskTrue(s, TaskStep(s, e, xxh).value, xxh)
  {
    if e.t < |s.tasks| {
      assert TaskTrue(s, s.tasks[e.t], xxh);
      if e.Ask? {
        AnswerStaysTrue(s, s.tasks[e.t], xxh);
      } else if e.Read? {
        ReadStaysTrue(s, e.t, e.data, xxh);
      } else if e.Eof? {
        EofStaysTrue(s, e.t, xxh);
      }
    }
  }

  /** Whatever was true before a write with a new stat is true after it: what it said no longer applies. */
  lemma WriteStaysTrue(s: State, key: FileKey, inode: Inode, xxh: Xxh)
    requires True(s, xxh) && Next(s, Write(key, inode), xxh).Some?
    ensures True(Next(s, Write(key, inode), xxh).value, xxh)
  {
  }

  lemma RemoveStaysTrue(s: State, key: FileKey, xxh: Xxh)
    requires True(s, xxh)
    ensures True(s.(fs := s.fs - {key}), xxh)
  {
  }

  ghost predicate EntriesTrue(s: State, entries: seq<(FileKey, FileEntry)>, xxh: Xxh) {
    forall i :: 0 <= i < |entries| ==> EntryTrue(s, entries[i].0, entries[i].1, xxh)
  }

  lemma {:induction false} BatchIsTrue(s: State, ts: seq<nat>, xxh: Xxh)
    requires TasksTrue(s, xxh)
    requires forall i :: 0 <= i < |ts| ==> ts[i] < |s.tasks| && s.tasks[ts[i]].Hashed?
    ensures EntriesTrue(s, Batch(s.tasks, ts), xxh)
  {
    if ts == [] {
    } else {
      BatchIsTrue(s, ts[..|ts| - 1], xxh);
      assert TaskTrue(s, s.tasks[ts[|ts| - 1]], xxh);
    }
  }

  lemma PutStaysTrue(s: State, entries: seq<(FileKey, FileEntry)>, key: FileKey, xxh: Xxh)
    requires CacheTrue(s, xxh) && EntriesTrue(s, entries, xxh)
    ensures AnswerTrue(s, key, Lookup(Put(s.cache, entries), key), xxh)
  {
    var i := LastOf(entries, key);
    if i < |entries| {
      LookupAfterPut(s.cache, entries, i, key);
      assert EntryTrue(s, entries[i].0, entries[i].1, xxh);
    } else {
      LookupAfterPut(s.cache, entries, 0, key);
      assert AnswerTrue(s, key, Lookup(s.cache, key), xxh);
    }
  }

  /** The last position of `key`, or the length. */
  function LastOf(entries: seq<(FileKey, FileEntry)>, key: FileKey): (i: nat)
    ensures i <= |entries|
    ensures i < |entries| ==> entries[i].0 == key && forall j :: i < j < |entries| ==> entries[j].0 != key
    ensures i == |entries| ==> forall j :: 0 <= j < |entries| ==> entries[j].0 != key
  {
    if entries == [] then 0
    else if entries[|entries| - 1].0 == key then |entries| - 1
    else
      var i := LastOf(entries[..|entries| - 1], key);
      if i < |entries| - 1 then i else |entries|
  }

  lemma LastOfBatch(tasks: seq<Task>, ts: seq<nat>, cache: Table)
    requires ts != [] && forall j :: 0 <= j < |ts| ==> ts[j] < |tasks| && tasks[ts[j]].Hashed?
    ensures var r, before := tasks[ts[|ts| - 1]], Put(cache, Batch(tasks, ts[..|ts| - 1]));
            Put(cache, Batch(tasks, ts))
            == if r.fromCache then before else before[r.key := Encode(EntryOf(r.stat, r.hashes))]
  {
    var all, less := Batch(tasks, ts), Batch(tasks, ts[..|ts| - 1]);
    if tasks[ts[|ts| - 1]].fromCache {
      assert all == less;
    } else {
      assert all[..|all| - 1] == less;
    }
  }

  lemma {:induction false} BatchHoldsMisses(tasks: seq<Task>, ts: seq<nat>, cache: Table, i: nat)
    requires forall j :: 0 <= j < |ts| ==> ts[j] < |tasks| && tasks[ts[j]].Hashed?
    requires i < |ts| && !tasks[ts[i]].fromCache
    requires forall j :: i < j < |ts| && !tasks[ts[j]].fromCache ==> tasks[ts[j]].key != tasks[ts[i]].key
    ensures var r := tasks[ts[i]];
            Lookup(Put(cache, Batch(tasks, ts)), r.key) == Ok(Some(EntryOf(r.stat, r.hashes)))
  {
    var n, r := |ts| - 1, tasks[ts[|ts| - 1]];
    LastOfBatch(tasks, ts, cache);
    if i < n {
      BatchHoldsMisses(tasks, ts[..n], cache, i);
    }
    if !r.fromCache {
      LookupAfterInsert(Put(cache, Batch(tasks, ts[..n])), r.key, EntryOf(r.stat, r.hashes), tasks[ts[i]].key);
    }
  }

  /** What a batch hashed is on record after it is committed, so a file that stays as it is will be a hit. */
  lemma CommitIsHit(s: State, ts: seq<nat>, i: nat, xxh: Xxh)
    requires Next(s, Commit(ts), xxh).Some? && i < |ts| && !s.tasks[ts[i]].fromCache
    requires forall j :: i < j < |ts| && !s.tasks[ts[j]].fromCache ==> s.tasks[ts[j]].key != s.tasks[ts[i]].key
    ensures var r := s.tasks[ts[i]];
            Answer(Next(s, Commit(ts), xxh).value, Statted(r.key, r.stat))
            == Task.Hashed(r.key, r.stat, true, r.hashes)
  {
    BatchHoldsMisses(s.tasks, ts, s.cache, i);
  }

  lemma CommitStaysTrue(s: State, ts: seq<nat>, xxh: Xxh)
    requires True(s, xxh) && Next(s, Commit(ts), xxh).Some?
    ensures True(Next(s, Commit(ts), xxh).value, xxh)
  {
    var s' := Next(s, Commit(ts), xxh).value;
    BatchIsTrue(s, ts, xxh);
    forall key ensures AnswerTrue(s', key, Lookup(s'.cache, key), xxh) {
      PutStaysTrue(s, Batch(s.tasks, ts), key, xxh);
      assert AnswerTrue(s, key, Lookup(Put(s.cache, Batch(s.tasks, ts)), key), xxh);
    }
    forall t | 0 <= t < |s'.tasks| ensures TaskTrue(s', s'.tasks[t], xxh) {
      assert TaskTrue(s, s.tasks[t], xxh);
    }
  }

  lemma PruneStaysTrue(s: State, seen: FileKey -> bool, fsids: set<u64>, xxh: Xxh)
    requires True(s, xxh)
    ensures True(s.(cache := Pruned(s.cache, seen, fsids)), xxh)
  {
    var s' := s.(cache := Pruned(s.cache, seen, fsids));
    forall key ensures AnswerTrue(s', key, Lookup(s'.cache, key), xxh) {
      assert AnswerTrue(s, key, Lookup(s.cache, key), xxh);
    }
    forall t | 0 <= t < |s'.tasks| ensures TaskTrue(s', s'.tasks[t], xxh) {
      assert TaskTrue(s, s.tasks[t], xxh);
    }
  }

  lemma ThreadStaysTrue(s: State, t: nat, task: Task, xxh: Xxh)
    requires True(s, xxh) && TaskTrue(s, task, xxh)
    ensures True(With(s, t, task), xxh)
  {
  }

  lemma StepStaysTrue(s: State, e: Event, xxh: Xxh)
    requires True(s, xxh) && Next(s, e, xxh).Some?
    ensures True(Next(s, e, xxh).value, xxh)
  {
    match e
    case Commit(ts) => CommitStaysTrue(s, ts, xxh);
    case Prune(seen, fsids) => PruneStaysTrue(s, seen, fsids, xxh);
    case Write(key, inode) => WriteStaysTrue(s, key, inode, xxh);
    case Remove(key) => RemoveStaysTrue(s, key, xxh);
    case Restart =>
      forall key ensures AnswerTrue(Next(s, e, xxh).value, key, Lookup(s.cache, key), xxh) {
        assert AnswerTrue(s, key, Lookup(s.cache, key), xxh);
      }
    case _ =>
      TaskStepStaysTrue(s, e, xxh);
      ThreadStaysTrue(s, e.t, TaskStep(s, e, xxh).value, xxh);
  }

  lemma {:induction false} RunStaysTrue(s: State, trace: seq<Event>, xxh: Xxh)
    requires Initial(s) && After(s, trace, xxh).Some?
    ensures True(After(s, trace, xxh).value, xxh)
  {
    if trace == [] {
      forall key ensures AnswerTrue(s, key, Lookup(s.cache, key), xxh) {
      }
    } else {
      var n := |trace| - 1;
      RunStaysTrue(s, trace[..n], xxh);
      StepStaysTrue(After(s, trace[..n], xxh).value, trace[n], xxh);
    }
  }

  lemma OneMoreEvent(s: State, trace: seq<Event>, t: State, e: Event, xxh: Xxh)
    requires After(s, trace, xxh) == Some(t)
    ensures After(s, trace + [e], xxh) == Next(t, e, xxh)
  {
    assert (trace + [e])[..|trace|] == trace;
  }

  /** A file with a matching record is found by two calls, with the hashes on record. */
  lemma ScanHits(s: State, trace: seq<Event>, now: State, t: nat, key: FileKey, e: FileEntry, xxh: Xxh)
    requires After(s, trace, xxh) == Some(now) && t < |now.tasks| && now.tasks[t].Free? && key in now.fs
    requires Lookup(now.cache, key) == Ok(Some(e)) && MatchesStat(e, now.fs[key].stat)
    ensures var r := After(s, trace + [Lstat(t, key)] + [Ask(t)], xxh);
            r.Some? && TaskAt(r.value, t) == Task.Hashed(key, now.fs[key].stat, true, e.hashes)
  {
    OneMoreEvent(s, trace, now, Lstat(t, key), xxh);
    OneMoreEvent(s, trace + [Lstat(t, key)], Next(now, Lstat(t, key), xxh).value, Ask(t), xxh);
  }

  lemma MissIsOpened(s: State, trace: seq<Event>, now: State, t: nat, key: FileKey, xxh: Xxh)
    returns (longer: seq<Event>, end: State)
    requires After(s, trace, xxh) == Some(now) && t < |now.tasks| && now.tasks[t].Free? && key in now.fs
    requires var r := Lookup(now.cache, key);
             r.Ok? && (r.value.Some? ==> !MatchesStat(r.value.value, now.fs[key].stat))
    ensures trace <= longer && After(s, longer, xxh) == Some(end)
    ensures end.fs == now.fs && t < |end.tasks| && end.tasks[t] == Reading(key, now.fs[key].stat, [])
  {
    longer, end := trace + [Lstat(t, key)], Next(now, Lstat(t, key), xxh).value;
    OneMoreEvent(s, trace, now, Lstat(t, key), xxh);
    OneMoreEvent(s, longer, end, Ask(t), xxh);
    longer, end := longer + [Ask(t)], Next(end, Ask(t), xxh).value;
    OneMoreEvent(s, longer, end, OpenFstat(t, key), xxh);
    longer, end := longer + [OpenFstat(t, key)], Next(end, OpenFstat(t, key), xxh).value;
  }

  lemma WholeIsRead(s: State, trace: seq<Event>, now: State, t: nat, xxh: Xxh)
    returns (longer: seq<Event>, end: State)
    requires After(s, trace, xxh) == Some(now) && t < |now.tasks| && now.tasks[t].Reading?
    requires now.tasks[t].got == [] && now.tasks[t].key in now.fs
    ensures trace <= longer && After(s, longer, xxh) == Some(end) && end.fs == now.fs && t < |end.tasks|
    ensures end.tasks[t] == now.tasks[t].(got := now.fs[now.tasks[t].key].bytes)
  {
    var bytes := now.fs[now.tasks[t].key].bytes;
    if bytes == [] {
      longer, end := trace, now;
    } else {
      assert bytes[0..|bytes|] == bytes && [] + bytes == bytes;
      OneMoreEvent(s, trace, now, Read(t, bytes), xxh);
      longer, end := trace + [Read(t, bytes)], Next(now, Read(t, bytes), xxh).value;
    }
  }

  /** A file without one can always be opened and read to its end, and is then hashed. */
  lemma ScanHashes(s: State, trace: seq<Event>, now: State, t: nat, key: FileKey, xxh: Xxh)
    returns (longer: seq<Event>)
    requires After(s, trace, xxh) == Some(now) && t < |now.tasks| && now.tasks[t].Free? && key in now.fs
    requires now.fs[key].stat.blksz > 0
    requires var r := Lookup(now.cache, key);
             r.Ok? && (r.value.Some? ==> !MatchesStat(r.value.value, now.fs[key].stat))
    ensures trace <= longer && After(s, longer, xxh).Some?
    ensures var file := now.fs[key];
            TaskAt(After(s, longer, xxh).value, t)
            == Task.Hashed(key, file.stat, false, ChunkHashes(file.bytes, file.stat.blksz, xxh))
  {
    var at, done;
    longer, at := MissIsOpened(s, trace, now, t, key, xxh);
    longer, done := WholeIsRead(s, longer, at, t, xxh);
    OneMoreEvent(s, longer, done, Eof(t), xxh);
    longer := longer + [Eof(t)];
  }

  /**
   * In every reachable state of scans interleaved with writes, also writes between the fstat and the last read: an
   * entry that matches the file's current stat holds exactly the chunk hashes of its current bytes.
   */
  lemma CacheAgreesWithRehash(s: State, trace: seq<Event>, xxh: Xxh, key: FileKey, e: FileEntry)
    requires Initial(s) && After(s, trace, xxh).Some?
    requires var t := After(s, trace, xxh).value;
             key in t.fs && Lookup(t.cache, key) == Ok(Some(e)) && MatchesStat(e, t.fs[key].stat)
    ensures e.blksz > 0 && e.hashes == ChunkHashes(After(s, trace, xxh).value.fs[key].bytes, e.blksz, xxh)
  {
    var t := After(s, trace, xxh).value;
    RunStaysTrue(s, trace, xxh);
    assert AnswerTrue(t, key, Lookup(t.cache, key), xxh);
  }

  /** The result of any `hash_one`, hit or miss, whose stat is still the file's is what a rehash would give now. */
  lemma ResultEqualsRehash(s: State, trace: seq<Event>, xxh: Xxh, t: nat)
    requires Initial(s) && After(s, trace, xxh).Some?
    requires TaskAt(After(s, trace, xxh).value, t).Hashed?
    requires var now := After(s, trace, xxh).value;
             TaskAt(now, t).key in now.fs && now.fs[TaskAt(now, t).key].stat == TaskAt(now, t).stat
    ensures var now := After(s, trace, xxh).value;
            var r := TaskAt(now, t);
            r.stat.blksz > 0 && r.hashes == ChunkHashes(now.fs[r.key].bytes, r.stat.blksz, xxh)
  {
    var now := After(s, trace, xxh).value;
    RunStaysTrue(s, trace, xxh);
    assert TaskTrue(now, now.tasks[t], xxh);
  }
}
