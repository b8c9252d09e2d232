/** One scan (`run` in src/main.rs): per dataset hash, record what was seen, prune, dedup. */
module ScanRun {
  import opened Base
  import opened BloomFilter
  import opened CacheTable
  import opened Hashing
  import opened DupIndex
  import opened BlockStore
  import opened DedupSteps
  import opened Accounting
  import opened SystemCalls
  import opened DedupWorker
  import ScanProtocol

  // ---- hash_files --------------------------------------------------------------------

  // What `hash_one` found for a file.
  datatype Done = Done(key: FileKey, stat: ScanProtocol.Stat, fromCache: bool, hashes: seq<ChunkHash>) {
    function Result(): Hashed {
      Hashed(key.0, key.1, stat.size, stat.blksz, fromCache)
    }
  }

  type Probe = Result<Done, IoErr>

  const BATCH: nat := 100_000

  /** The entries to store: every result that was no cache hit. */
  function Misses(ps: seq<Probe>): seq<(FileKey, FileEntry)> {
    if ps == [] then []
    else
      var p := ps[|ps| - 1];
      Misses(ps[..|ps| - 1])
      + (if p.Err? || p.value.fromCache then []
         else [(p.value.key, ScanProtocol.EntryOf(p.value.stat, p.value.hashes))])
  }

  function Results(ps: seq<Probe>): (rs: seq<Result<Hashed, IoErr>>)
    ensures |rs| == |ps|
  {
    if ps == [] then []
    else
      var p := ps[|ps| - 1];
      Results(ps[..|ps| - 1]) + [if p.Ok? then Ok(p.value.Result()) else Err(p.error)]
  }

  /** In order, each result says what was found, without the hashes. */
  ghost predicate Told(ps: seq<Probe>, rs: seq<Result<Hashed, IoErr>>) {
    |rs| == |ps| && forall i :: 0 <= i < |ps| ==>
      match ps[i]
      case Err(e) => rs[i] == Err(e)
      case Ok(Done(key, stat, fromCache, _)) => rs[i] == Ok(Hashed(key.0, key.1, stat.size, stat.blksz, fromCache))
  }

  lemma {:induction false} ResultsTell(ps: seq<Probe>)
    ensures Told(ps, Results(ps))
  {
    if ps == [] {
    } else {
      var n := |ps| - 1;
      ResultsTell(ps[..n]);
      forall i | 0 <= i < n ensures Results(ps)[i] == Results(ps[..n])[i] && ps[i] == ps[..n][i] {
      }
    }
  }

  // ---- what is stored

  /** The table answers for the file with the stat and the hashes that were found. */
  ghost predicate Answers(table: Table, d: Done) {
    match Lookup(table, d.key)
    case Ok(Some(e)) =>
      && e.size == d.stat.size && e.mtimeNs == d.stat.mtimeNs && e.ctimeNs == d.stat.ctimeNs
      && e.blksz == d.stat.blksz && e.hashes == d.hashes
    case _ => false
  }

  predicate MissOf(p: Probe, k: FileKey) {
    p.Ok? && !p.value.fromCache && p.value.key == k
  }

  ghost predicate LastMiss(ps: seq<Probe>, i: nat) {
    && i < |ps| && ps[i].Ok? && !ps[i].value.fromCache
    && forall j :: i < j < |ps| ==> !MissOf(ps[j], ps[i].value.key)
  }

  ghost predicate NoMiss(ps: seq<Probe>, k: FileKey) {
    forall j :: 0 <= j < |ps| ==> !MissOf(ps[j], k)
  }

  /** A file that had to be hashed answers with what was found for it last, every other file as before. */
  ghost predicate Stores(before: Table, after: Table, ps: seq<Probe>) {
    && (forall i: nat :: LastMiss(ps, i) ==> Answers(after, ps[i].value))
    && (forall k: FileKey :: NoMiss(ps, k) ==> Lookup(after, k) == Lookup(before, k))
  }

  lemma HitIsDropped(ps: seq<Probe>)
    requires ps != [] && (ps[|ps| - 1].Err? || ps[|ps| - 1].value.fromCache)
    ensures Misses(ps) == Misses(ps[..|ps| - 1])
    ensures forall k :: NoMiss(ps, k) <==> NoMiss(ps[..|ps| - 1], k)
    ensures forall i: nat :: LastMiss(ps, i) ==> i < |ps| - 1 && LastMiss(ps[..|ps| - 1], i)
  {
    var n := |ps| - 1;
    assert ps == ps[..n] + [ps[n]];
    forall i: nat | LastMiss(ps, i) ensures i < n && LastMiss(ps[..n], i) {
      assert i != n;
    }
  }

  lemma MissIsPut(table: Table, ps: seq<Probe>)
    requires ps != [] && ps[|ps| - 1].Ok? && !ps[|ps| - 1].value.fromCache
    ensures var d := ps[|ps| - 1].value;
            Put(table, Misses(ps))
            == Put(table, Misses(ps[..|ps| - 1]))[d.key := Encode(ScanProtocol.EntryOf(d.stat, d.hashes))]
  {
    var all, less := Misses(ps), Misses(ps[..|ps| - 1]);
    assert all[..|all| - 1] == less;
  }

  /** Storing exactly the misses does that. */
  lemma {:induction false} MissesAreStored(table: Table, ps: seq<Probe>)
    ensures Stores(table, Put(table, Misses(ps)), ps)
  {
    if ps == [] {
    } else {
      var n := |ps| - 1;
      MissesAreStored(table, ps[..n]);
      if ps[n].Err? || ps[n].value.fromCache {
        HitIsDropped(ps);
      } else {
        MissIsPut(table, ps);
        StoredOneMore(table, Put(table, Misses(ps[..n])), ps);
      }
    }
  }

  lemma StoredOneMore(table: Table, before: Table, ps: seq<Probe>)
    requires ps != [] && ps[|ps| - 1].Ok? && !ps[|ps| - 1].value.fromCache && Stores(table, before, ps[..|ps| - 1])
    ensures var d := ps[|ps| - 1].value;
            Stores(table, before[d.key := Encode(ScanProtocol.EntryOf(d.stat, d.hashes))], ps)
  {
    var n, d := |ps| - 1, ps[|ps| - 1].value;
    var e := ScanProtocol.EntryOf(d.stat, d.hashes);
    var after := before[d.key := Encode(e)];
    LookupAfterInsert(before, d.key, e, d.key);
    forall i: nat | LastMiss(ps, i) ensures Answers(after, ps[i].value) {
      if i < n {
        assert !MissOf(ps[n], ps[i].value.key);
        assert LastMiss(ps[..n], i);
        LookupAfterInsert(before, d.key, e, ps[i].value.key);
      }
    }
    forall k: FileKey | NoMiss(ps, k) ensures Lookup(after, k) == Lookup(table, k) {
      assert !MissOf(ps[n], k) && NoMiss(ps[..n], k);
      LookupAfterInsert(before, d.key, e, k);
    }
  }

  lemma {:induction false} Concats(a: seq<Probe>, b: seq<Probe>)
    ensures Misses(a + b) == Misses(a) + Misses(b) && Results(a + b) == Results(a) + Results(b)
  {
    if b == [] {
      assert a + b == a;
    } else {
      assert (a + b)[..|a + b| - 1] == a + b[..|b| - 1];
      Concats(a, b[..|b| - 1]);
    }
  }

  lemma {:induction false} PutConcat(table: Table, a: seq<(FileKey, FileEntry)>, b: seq<(FileKey, FileEntry)>)
    ensures Put(table, a + b) == Put(Put(table, a), b)
  {
    if b == [] {
      assert a + b == a;
    } else {
      assert (a + b)[..|a + b| - 1] == a + b[..|b| - 1];
      PutConcat(table, a, b[..|b| - 1]);
    }
  }

  // What the system calls on one path answer: `lstat`; and if the file is opened, `fstat`, and its bytes or the
  // error that a read of it gives.
  datatype Path = Path(lstat: Result<(FileKey, ScanProtocol.Stat), IoErr>,
                       open: Result<(FileKey, ScanProtocol.Stat, Result<seq<byte>, IoErr>), IoErr>)

  /** Without a matching record the file that was opened is hashed whole, under its own stat, unless a call fails. */
  ghost predicate HashedAfresh(p: Path, xxh: Xxh, probe: Probe) {
    match p.open
    case Err(e) => probe == Err(e)
    case Ok((key, stat, content)) =>
      if stat.blksz == 0 then probe == Err(Other)
      else
        match content
        case Err(e) => probe == Err(e)
        case Ok(bytes) => probe == Ok(Done(key, stat, false, ChunkHashes(bytes, stat.blksz, xxh)))
  }

  /** A record that matches the lstat is the result; a corrupt one is an error. */
  ghost predicate HashedAs(get: Get, p: Path, xxh: Xxh, probe: Probe) {
    match p.lstat
    case Err(e) => probe == Err(e)
    case Ok((key, stat)) =>
      match get(key)
      case Err(_) => probe == Err(Other)
      case Ok(Some(e)) =>
        if ScanProtocol.MatchesStat(e, stat) then probe == Ok(Done(key, stat, true, e.hashes))
        else HashedAfresh(p, xxh, probe)
      case Ok(None) => HashedAfresh(p, xxh, probe)
  }

  method HashAfresh(p: Path, xxh: Xxh) returns (probe: Probe)
    ensures HashedAfresh(p, xxh, probe)
  {
    if p.open.Err? {
      return Err(p.open.error);
    }
    var (key, stat, content) := p.open.value;
    var bytes: seq<byte> := *;
    var f;
    match content {
      case Ok(all) => f := new Reader(all, None);
      case Err(e) => f := new Reader(bytes, Some(e));
    }
    var hashes := HashFd(f, stat.blksz, xxh);
    match hashes {
      case Ok(hs) => probe := Ok(Done(key, stat, false, hs));
      case Err(ZeroBlockSize) => probe := Err(Other);
      case Err(ReadFailed(e)) => probe := Err(e);
    }
  }

  method HashOne(cache: Cache, p: Path, xxh: Xxh) returns (probe: Probe)
    ensures HashedAs(Snapshot(cache.table), p, xxh, probe)
  {
    if p.lstat.Err? {
      return Err(p.lstat.error);
    }
    var (key, stat) := p.lstat.value;
    var get := cache.Reader();
    match get(key) {
      case Err(_) =>
        return Err(Other);
      case Ok(Some(e)) =>
        if e.Matches(stat.size, stat.mtimeNs, stat.ctimeNs, stat.blksz) {
          return Ok(Done(key, stat, true, e.hashes)); // one system call instead of three
        }
      case Ok(None) =>
    }
    probe := HashAfresh(p, xxh);
  }

  /** The first file of the batch that file `i` is in. */
  function BatchStart(i: nat): (start: nat)
    ensures start == i - i % 100_000 && start <= i < start + BATCH
  {
    i / BATCH * BATCH
  }

  ghost predicate HashedAt(table: Table, files: seq<Path>, xxh: Xxh, probes: seq<Probe>, i: nat)
    requires i < |files| && i < |probes|
  {
    HashedAs(Snapshot(Put(table, Misses(probes[..BatchStart(i)]))), files[i], xxh, probes[i])
  }

  /** Every file is hashed against the table with all earlier batches in it. */
  ghost predicate HashedAll(table: Table, files: seq<Path>, xxh: Xxh, probes: seq<Probe>) {
    |probes| == |files| && forall i: nat :: i < |files| ==> HashedAt(table, files, xxh, probes, i)
  }

  method HashBatch(cache: Cache, files: seq<Path>, i: nat, j: nat, xxh: Xxh) returns (batch: seq<Probe>)
    requires i <= j <= |files|
    ensures |batch| == j - i
    ensures forall t :: 0 <= t < j - i ==> HashedAs(Snapshot(cache.table), files[i + t], xxh, batch[t])
  {
    batch := [];
    var t := i;
    while t < j
      invariant i <= t <= j && |batch| == t - i
      invariant forall u :: 0 <= u < t - i ==> HashedAs(Snapshot(cache.table), files[i + u], xxh, batch[u])
    {
      var probe := HashOne(cache, files[t], xxh);
      batch := batch + [probe];
      t := t + 1;
    }
  }

  lemma BatchHashed(table: Table, files: seq<Path>, xxh: Xxh, done: seq<Probe>, batch: seq<Probe>, i: nat)
    requires i % BATCH == 0 && |done| == i && |batch| <= BATCH && i + |batch| <= |files|
    requires forall k: nat :: k < i ==> HashedAt(table, files, xxh, done, k)
    requires forall t :: 0 <= t < |batch| ==>
               HashedAs(Snapshot(Put(table, Misses(done))), files[i + t], xxh, batch[t])
    ensures forall k: nat :: k < i + |batch| ==> HashedAt(table, files, xxh, done + batch, k)
  {
    forall k: nat | k < i + |batch| ensures HashedAt(table, files, xxh, done + batch, k) {
      assert (done + batch)[..BatchStart(k)] == done[..BatchStart(k)];
      if k < i {
        assert HashedAt(table, files, xxh, done, k);
      } else {
        assert BatchStart(k) == i && done[..i] == done;
        assert files[k] == files[i + (k - i)];
      }
    }
  }

  /** No other file that hashed has its key. */
  ghost predicate Alone(ps: seq<Probe>, i: nat) {
    && i < |ps| && ps[i].Ok?
    && forall j :: 0 <= j < |ps| && j != i && ps[j].Ok? ==> ps[j].value.key != ps[i].value.key
  }

  lemma HitAnswers(get: Get, p: Path, xxh: Xxh, probe: Probe)
    requires HashedAs(get, p, xxh, probe) && probe.Ok? && probe.value.fromCache
    ensures var r := get(probe.value.key);
            r.Ok? && r.value.Some? && ScanProtocol.MatchesStat(r.value.value, probe.value.stat)
            && r.value.value.hashes == probe.value.hashes
  {
  }

  /** A hit was on record before this scan. */
  lemma HitWasOnRecord(table: Table, files: seq<Path>, xxh: Xxh, ps: seq<Probe>, i: nat)
    requires HashedAll(table, files, xxh, ps) && Alone(ps, i) && ps[i].value.fromCache
    ensures var r := Lookup(table, ps[i].value.key);
            r.Ok? && r.value.Some? && ScanProtocol.MatchesStat(r.value.value, ps[i].value.stat)
            && r.value.value.hashes == ps[i].value.hashes
  {
    var before := ps[..BatchStart(i)];
    MissesAreStored(table, before);
    assert HashedAt(table, files, xxh, ps, i);
    HitAnswers(Snapshot(Put(table, Misses(before))), files[i], xxh, ps[i]);
    assert NoMiss(before, ps[i].value.key);
  }

  /** What was found for a file, by a hit or by hashing it, is what the table answers afterwards. */
  lemma FoundIsAnswered(table: Table, files: seq<Path>, xxh: Xxh, ps: seq<Probe>, i: nat)
    requires HashedAll(table, files, xxh, ps) && Alone(ps, i)
    ensures Answers(Put(table, Misses(ps)), ps[i].value)
  {
    var d := ps[i].value;
    MissesAreStored(table, ps);
    if d.fromCache {
      HitWasOnRecord(table, files, xxh, ps, i);
      assert NoMiss(ps, d.key);
    } else {
      assert LastMiss(ps, i);
    }
  }

  lemma AllIsAnswered(table: Table, files: seq<Path>, xxh: Xxh, ps: seq<Probe>)
    requires HashedAll(table, files, xxh, ps)
    ensures Stores(table, Put(table, Misses(ps)), ps) && Told(ps, Results(ps))
    ensures forall i: nat :: Alone(ps, i) ==> Answers(Put(table, Misses(ps)), ps[i].value)
  {
    MissesAreStored(table, ps);
    ResultsTell(ps);
    forall i: nat | Alone(ps, i) ensures Answers(Put(table, Misses(ps)), ps[i].value) {
      FoundIsAnswered(table, files, xxh, ps, i);
    }
  }

  lemma BatchStored(table: Table, done: seq<Probe>, batch: seq<Probe>)
    ensures Put(Put(table, Misses(done)), Misses(batch)) == Put(table, Misses(done + batch))
    ensures Results(done) + Results(batch) == Results(done + batch)
  {
    Concats(done, batch);
    PutConcat(table, Misses(done), Misses(batch));
  }

  // Batch by batch, so hashes are short-lived.
  method HashFiles(cache: Cache, files: seq<Path>, xxh: Xxh)
    returns (results: seq<Result<Hashed, IoErr>>, ghost probes: seq<Probe>)
    modifies cache
    ensures HashedAll(old(cache.table), files, xxh, probes)
    ensures cache.table == Put(old(cache.table), Misses(probes)) && Stores(old(cache.table), cache.table, probes)
    ensures forall i: nat :: Alone(probes, i) ==> Answers(cache.table, probes[i].value)
    ensures results == Results(probes) && Told(probes, results)
  {
    results, probes := [], [];
    var i := 0;
    while i < |files|
      invariant 0 <= i <= |files| && |probes| == i && (i < |files| ==> i % BATCH == 0)
      invariant forall k: nat :: k < i ==> HashedAt(old(cache.table), files, xxh, probes, k)
      invariant cache.table == Put(old(cache.table), Misses(probes)) && results == Results(probes)
    {
      var j := if |files| - i < BATCH then |files| else i + BATCH;
      var batch := HashBatch(cache, files, i, j, xxh);
      BatchHashed(old(cache.table), files, xxh, probes, batch, i);
      cache.PutMany(Misses(batch));
      results := results + Results(batch);
      BatchStored(old(cache.table), probes, batch);
      probes := probes + batch;
      i := j;
    }
    AllIsAnswered(old(cache.table), files, xxh, probes);
  }

  // ---- prune_key ---------------------------------------------------------------------

  function RotateLeft32(x: u64): u64 {
    (x % 0x1_0000_0000) * 0x1_0000_0000 + x / 0x1_0000_0000
  }

  function PruneKey(fsid: u64, ino: u64): u64 {
    var k0 := Xor64(RotateLeft32(fsid), ino);
    var k1 := WrappingMul(Xor64(k0, Shr(k0, 30)), 0xbf58_476d_1ce4_e5b9);
    var k2 := WrappingMul(Xor64(k1, Shr(k1, 27)), 0x94d0_49bb_1331_11eb);
    Xor64(k2, Shr(k2, 31))
  }

  lemma MixIsInjective(x: u64, y: u64, shift: nat, odd: u64)
    requires shift > 0 && odd % 2 == 1
    requires WrappingMul(Xor64(x, Shr(x, shift)), odd) == WrappingMul(Xor64(y, Shr(y, shift)), odd)
    ensures x == y
  {
    Pow2Of64();
    var a, b := Xor64(x, Shr(x, shift)), Xor64(y, Shr(y, shift));
    OddFactorCancels(Min(a, b), a + b - Min(a, b), odd, 64);
    XorShiftCancels(x, y, shift, 64);
  }

  /** On one dataset distinct inodes have distinct keys. */
  lemma PruneKeyIsInjective(fsid: u64, ino: u64, ino': u64)
    requires PruneKey(fsid, ino) == PruneKey(fsid, ino')
    ensures ino == ino'
  {
    Pow2Of64();
    var k0, k0' := Xor64(RotateLeft32(fsid), ino), Xor64(RotateLeft32(fsid), ino');
    var k1 := WrappingMul(Xor64(k0, Shr(k0, 30)), 0xbf58_476d_1ce4_e5b9);
    var k1' := WrappingMul(Xor64(k0', Shr(k0', 30)), 0xbf58_476d_1ce4_e5b9);
    var k2 := WrappingMul(Xor64(k1, Shr(k1, 27)), 0x94d0_49bb_1331_11eb);
    var k2' := WrappingMul(Xor64(k1', Shr(k1', 27)), 0x94d0_49bb_1331_11eb);
    XorShiftCancels(k2, k2', 31, 64);
    MixIsInjective(k1, k1', 27, 0x94d0_49bb_1331_11eb);
    MixIsInjective(k0, k0', 30, 0xbf58_476d_1ce4_e5b9);
    XorCancels(RotateLeft32(fsid), ino, ino', 64);
  }

  // ---- record, prune -------------------------------------------------------------------

  /** The files that hashed, in order. */
  function Survivors(rs: seq<Result<Hashed, IoErr>>): (hs: seq<Hashed>)
    ensures |hs| <= |rs|
    ensures forall h :: h in hs <==> Ok(h) in rs
  {
    if rs == [] then []
    else
      var r := rs[|rs| - 1];
      assert rs == rs[..|rs| - 1] + [r];
      Survivors(rs[..|rs| - 1]) + (if r.Ok? then [r.value] else [])
  }

  function Failures(rs: seq<Result<Hashed, IoErr>>, e: IoErr): (n: nat) {
    if rs == [] then 0
    else Failures(rs[..|rs| - 1], e) + (if rs[|rs| - 1] == Result<Hashed, IoErr>.Err(e) then 1 else 0)
  }

  /** `hs` are the files that hashed, in order: the `f`-th was the `at[f]`-th result. */
  ghost predicate InOrder(rs: seq<Result<Hashed, IoErr>>, hs: seq<Hashed>, at: seq<nat>) {
    && |at| == |hs| && (forall f :: 0 <= f < |at| ==> at[f] < |rs| && rs[at[f]] == Ok(hs[f]))
    && (forall f, g :: 0 <= f < g < |at| ==> at[f] < at[g])
    && (forall i: nat :: i < |rs| && rs[i].Ok? ==> i in at)
  }

  lemma OneMoreInOrder(rs: seq<Result<Hashed, IoErr>>, hs: seq<Hashed>, at: seq<nat>, h: Hashed)
    requires InOrder(rs, hs, at)
    ensures InOrder(rs + [Ok(h)], hs + [h], at + [|rs|])
  {
    forall i: nat | i < |rs + [Ok(h)]| && (rs + [Ok(h)])[i].Ok? ensures i in at + [|rs|] {
      if i < |rs| {
        assert rs[i].Ok? && i in at;
      }
    }
  }

  lemma {:induction false} SurvivorsInOrder(rs: seq<Result<Hashed, IoErr>>) returns (at: seq<nat>)
    ensures InOrder(rs, Survivors(rs), at)
  {
    if rs == [] {
      at := [];
    } else {
      var n := |rs| - 1;
      at := SurvivorsInOrder(rs[..n]);
      assert rs == rs[..n] + [rs[n]];
      if rs[n].Ok? {
        OneMoreInOrder(rs[..n], Survivors(rs[..n]), at, rs[n].value);
        at := at + [n];
      }
    }
  }

  predicate FailedWith(r: Result<Hashed, IoErr>, e: IoErr) {
    r.Err? && r.error == e
  }

  ghost function FailedAt(rs: seq<Result<Hashed, IoErr>>, e: IoErr): set<nat> {
    set i: nat | i < |rs| && FailedWith(rs[i], e)
  }

  lemma OneMoreFailedAt(rs: seq<Result<Hashed, IoErr>>, r: Result<Hashed, IoErr>, e: IoErr)
    ensures FailedAt(rs + [r], e) == FailedAt(rs, e) + (if FailedWith(r, e) then {|rs|} else {})
  {
    forall i: nat | i < |rs| ensures (rs + [r])[i] == rs[i] {
    }
  }

  /** That is how many results failed with `e`. */
  lemma {:induction false} FailuresAreCounted(rs: seq<Result<Hashed, IoErr>>, e: IoErr)
    ensures Failures(rs, e) == |FailedAt(rs, e)|
  {
    if rs == [] {
    } else {
      var n := |rs| - 1;
      FailuresAreCounted(rs[..n], e);
      OneMoreFailedAt(rs[..n], rs[n], e);
      assert rs == rs[..n] + [rs[n]];
    }
  }

  ghost predicate Recorded(hashed: seq<Hashed>, keys: set<u64>) {
    forall h :: h in hashed ==> PruneKey(h.fsid, h.ino) in keys
  }

  /** Some hashed file has a probe at `pos`. */
  ghost predicate HitBy(hashed: seq<Hashed>, mask: u64, pos: nat) {
    exists h :: h in hashed && Probed(PruneKey(h.fsid, h.ino), K, mask, pos)
  }

  /** The filter's one bits are the probes of the hashed files, no others. */
  ghost predicate Filled(words: seq<Word>, mask: u64, hashed: seq<Hashed>) {
    forall pos: nat :: SetAt(words, pos) <==> HitBy(hashed, mask, pos)
  }

  /** All probes of `k` are probes of hashed files: the filter cannot tell `k` from one of them. */
  ghost predicate Covered(k: FileKey, hashed: seq<Hashed>, mask: u64) {
    forall i: nat :: i < K ==> HitBy(hashed, mask, Pos(PruneKey(k.0, k.1), i, mask))
  }

  lemma FillOne(before: seq<Word>, after: seq<Word>, mask: u64, hashed: seq<Hashed>, h: Hashed)
    requires Filled(before, mask, hashed) && Marked(before, after, PruneKey(h.fsid, h.ino), K, mask)
    ensures Filled(after, mask, hashed + [h])
  {
    forall pos: nat ensures SetAt(after, pos) <==> HitBy(hashed + [h], mask, pos) {
      assert SetAt(before, pos) <==> HitBy(hashed, mask, pos);
      if HitBy(hashed + [h], mask, pos) {
        var g :| g in hashed + [h] && Probed(PruneKey(g.fsid, g.ino), K, mask, pos);
        assert g in hashed || g == h;
      }
      if HitBy(hashed, mask, pos) {
        var g :| g in hashed && Probed(PruneKey(g.fsid, g.ino), K, mask, pos);
        assert g in hashed + [h];
      }
      assert h in hashed + [h];
    }
  }

  lemma OneMore(rs: seq<Result<Hashed, IoErr>>, i: nat)
    requires i < |rs|
    ensures Survivors(rs[..i + 1]) == Survivors(rs[..i]) + (if rs[i].Ok? then [rs[i].value] else [])
    ensures forall e :: Failures(rs[..i + 1], e)
                        == Failures(rs[..i], e) + (if rs[i] == Result<Hashed, IoErr>.Err(e) then 1 else 0)
  {
    assert rs[..i + 1][..i] == rs[..i];
  }

  method RecordOne(seen: Bloom, ghost hashed: seq<Hashed>, h: Hashed)
    requires seen.Valid() && Recorded(hashed, seen.keys) && Filled(seen.bits[..], seen.mask, hashed)
    modifies seen, seen.bits
    ensures seen.Valid() && Recorded(hashed + [h], seen.keys) && Filled(seen.bits[..], seen.mask, hashed + [h])
  {
    ghost var before := seen.bits[..];
    seen.Insert(PruneKey(h.fsid, h.ino));
    FillOne(before, seen.bits[..], seen.mask, hashed, h);
  }

  // The filtering pass over the results: files that hashed go into the filter.
  method Record(rs: seq<Result<Hashed, IoErr>>) returns (hashed: seq<Hashed>, seen: Bloom, busy: nat, errors: nat)
    requires 10 * |rs| <= TWO_64 / 2
    ensures hashed == Survivors(rs) && busy == Failures(rs, InUse) && errors == Failures(rs, Other)
    ensures exists at :: InOrder(rs, hashed, at)
    ensures fresh(seen) && fresh(seen.bits) && seen.Valid() && SizedFor(seen.mask, |rs|)
    ensures Recorded(hashed, seen.keys) && Filled(seen.bits[..], seen.mask, hashed)
  {
    seen := new Bloom(|rs|);
    hashed, busy, errors := [], 0, 0;
    var i := 0;
    while i < |rs|
      invariant 0 <= i <= |rs| && seen.Valid() && fresh(seen) && fresh(seen.bits)
      invariant hashed == Survivors(rs[..i]) && busy == Failures(rs[..i], InUse) && errors == Failures(rs[..i], Other)
      invariant Recorded(hashed, seen.keys) && Filled(seen.bits[..], seen.mask, hashed)
    {
      OneMore(rs, i);
      match rs[i] {
        case Ok(h) =>
          RecordOne(seen, hashed, h);
          hashed := hashed + [h];
        case Err(NotFound) => // gone by the time it was hashed
        case Err(InUse) => busy := busy + 1;
        case Err(Other) => errors := errors + 1;
      }
      i := i + 1;
    }
    assert rs[..|rs|] == rs;
    ghost var at := SurvivorsInOrder(rs);
  }

  /** Nothing of another dataset, and no record of a file that hashed, is lost; nothing is added. */
  ghost predicate PrunedSafely(before: Table, after: Table, fsid: u64, hashed: seq<Hashed>) {
    && (forall k :: k in after ==> k in before && after[k] == before[k])
    && (forall k :: k in before && k.0 != fsid ==> k in after)
    && (forall h :: h in hashed && h.Key() in before ==> h.Key() in after)
  }

  /** A record of the dataset stays exactly if the filter cannot tell it from a hashed file. */
  ghost predicate PrunedExactly(before: Table, after: Table, fsid: u64, hashed: seq<Hashed>, mask: u64) {
    forall k: FileKey :: k in after <==> k in before && (k.0 != fsid || Covered(k, hashed, mask))
  }

  // `seen` may answer yes too often.
  method PruneUnseen(cache: Cache, seen: Bloom, fsid: u64, ghost hashed: seq<Hashed>) returns (removed: nat)
    requires seen.Valid() && Recorded(hashed, seen.keys) && Filled(seen.bits[..], seen.mask, hashed)
    modifies cache
    ensures PrunedSafely(old(cache.table), cache.table, fsid, hashed)
    ensures removed == |old(cache.table)| - |cache.table|
    ensures PrunedExactly(old(cache.table), cache.table, fsid, hashed, seen.mask)
  {
    var bits, mask := seen.bits[..], seen.mask;
    var answer: FileKey -> bool := (k: FileKey) => Holds(bits, mask, PruneKey(k.0, k.1));
    forall h | h in hashed ensures answer(h.Key()) {
      assert seen.Contains(PruneKey(h.fsid, h.ino));
    }
    removed := cache.Prune(answer, {fsid});
    forall k: FileKey ensures answer(k) <==> Covered(k, hashed, mask) {
      assert answer(k) <==> Holds(bits, mask, PruneKey(k.0, k.1));
    }
  }

  // ---- the index after pruning is the index before ---------------------------------------

  ghost predicate SameAnswers(files: seq<Hashed>, a: Get, b: Get) {
    forall h :: h in files ==> a(h.Key()) == b(h.Key())
  }

  lemma {:induction false} StreamDependsOnFiles(files: seq<Hashed>, a: Get, b: Get, n: nat)
    requires n <= |files| && SameAnswers(files, a, b)
    ensures Stream(files, a, n) == Stream(files, b, n)
  {
    if n == 0 {
    } else {
      StreamDependsOnFiles(files, a, b, n - 1);
      assert files[n - 1] in files;
    }
  }

  lemma IndexDependsOnFiles(files: seq<Hashed>, a: Get, b: Get)
    requires SameAnswers(files, a, b)
    ensures NaiveIndex(files, a) == NaiveIndex(files, b) && (Readable(files, a) <==> Readable(files, b))
  {
    StreamDependsOnFiles(files, a, b, |files|);
  }

  /** Pruning between hashing and dedup changes no answer about a file that hashed, so not the index either. */
  lemma PruneKeepsIndex(before: Table, after: Table, fsid: u64, hashed: seq<Hashed>)
    requires PrunedSafely(before, after, fsid, hashed)
    ensures NaiveIndex(hashed, Snapshot(after)) == NaiveIndex(hashed, Snapshot(before))
    ensures Readable(hashed, Snapshot(after)) <==> Readable(hashed, Snapshot(before))
  {
    forall h | h in hashed ensures Snapshot(after)(h.Key()) == Snapshot(before)(h.Key()) {
    }
    IndexDependsOnFiles(hashed, Snapshot(after), Snapshot(before));
  }

  // ---- one dataset ---------------------------------------------------------------------

  // The roots scanned on one dataset, and the files found there.
  datatype Group = Group(fsid: u64, roots: seq<seq<byte>>, files: seq<Path>)

  function ChunksOf(stat: ScanProtocol.Stat): nat {
    stat.size / (if stat.blksz > 1 then stat.blksz else 1) + 1
  }

  /** At most how many chunks the index may see of a file, whichever stat is used. */
  function PathSlots(p: Path): nat {
    (if p.lstat.Ok? then ChunksOf(p.lstat.value.1) else 0) + (if p.open.Ok? then ChunksOf(p.open.value.1) else 0)
  }

  function AllSlots(files: seq<Path>): nat {
    if files == [] then 0 else AllSlots(files[..|files| - 1]) + PathSlots(files[|files| - 1])
  }

  ghost predicate PathOk(p: Path, fsid: u64) {
    && (p.lstat.Ok? ==> p.lstat.value.0.0 == fsid)
    && (p.open.Ok? ==> p.open.value.0.0 == fsid)
    && (p.open.Ok? && p.open.value.1.blksz > 0 && p.open.value.2.Ok? ==>
          NumChunks(|p.open.value.2.value|, p.open.value.1.blksz) <= U32_MAX)
  }

  /** The files are the dataset's, their chunk numbers fit 32 bits, and the filters have a size. */
  ghost predicate GroupOk(g: Group) {
    && 10 * AllSlots(g.files) <= TWO_64 / 2 && |g.files| <= U32_MAX && forall p :: p in g.files ==> PathOk(p, g.fsid)
  }

  ghost predicate SmallAnswer(r: Result<Option<FileEntry>, nat>) {
    r.Ok? && r.value.Some? ==> |r.value.value.hashes| <= U32_MAX
  }

  ghost predicate AllSmall(table: Table) {
    forall k :: SmallAnswer(Lookup(table, k))
  }

  predicate ProbeOk(p: Probe, fsid: u64) {
    p.Ok? ==> p.value.key.0 == fsid && |p.value.hashes| <= U32_MAX
  }

  ghost predicate ProbesOk(ps: seq<Probe>, fsid: u64) {
    forall i :: 0 <= i < |ps| ==> ProbeOk(ps[i], fsid)
  }

  lemma {:induction false} MissesAreOwn(ps: seq<Probe>, fsid: u64)
    requires ProbesOk(ps, fsid)
    ensures forall e :: e in Misses(ps) ==> e.0.0 == fsid && |e.1.hashes| <= U32_MAX
  {
    if ps == [] {
    } else {
      MissesAreOwn(ps[..|ps| - 1], fsid);
      assert ProbeOk(ps[|ps| - 1], fsid);
    }
  }

  lemma PutIsSmall(table: Table, entries: seq<(FileKey, FileEntry)>, k: FileKey)
    requires AllSmall(table) && forall e :: e in entries ==> |e.1.hashes| <= U32_MAX
    ensures SmallAnswer(Lookup(Put(table, entries), k))
  {
    var i := ScanProtocol.LastOf(entries, k);
    assert SmallAnswer(Lookup(table, k));
    if i < |entries| {
      LookupAfterPut(table, entries, i, k);
      assert entries[i] in entries;
    } else {
      LookupAfterPut(table, entries, 0, k);
    }
  }

  lemma MissesKeepSmall(table: Table, ps: seq<Probe>, fsid: u64)
    requires AllSmall(table) && ProbesOk(ps, fsid)
    ensures AllSmall(Put(table, Misses(ps)))
  {
    MissesAreOwn(ps, fsid);
    forall k ensures SmallAnswer(Lookup(Put(table, Misses(ps)), k)) {
      PutIsSmall(table, Misses(ps), k);
    }
  }

  lemma HashedIsOk(table: Table, p: Path, xxh: Xxh, probe: Probe, fsid: u64)
    requires AllSmall(table) && PathOk(p, fsid) && HashedAs(Snapshot(table), p, xxh, probe)
    ensures ProbeOk(probe, fsid)
  {
    if p.lstat.Ok? {
      assert SmallAnswer(Lookup(table, p.lstat.value.0));
    }
  }

  /** What hashing the dataset's files gives belongs to the dataset and fits the index. */
  lemma {:induction false} ProbesAreOk(g: Group, table: Table, xxh: Xxh, probes: seq<Probe>, n: nat)
    requires GroupOk(g) && AllSmall(table) && HashedAll(table, g.files, xxh, probes) && n <= |probes|
    ensures ProbesOk(probes[..n], g.fsid)
  {
    if n == 0 {
    } else {
      var i := n - 1;
      ProbesAreOk(g, table, xxh, probes, i);
      assert HashedAt(table, g.files, xxh, probes, i) && g.files[i] in g.files;
      var before := probes[..BatchStart(i)];
      assert forall k :: 0 <= k < |before| ==> before[k] == probes[..i][k];
      assert ProbesOk(before, g.fsid);
      MissesKeepSmall(table, before, g.fsid);
      HashedIsOk(Put(table, Misses(before)), g.files[i], xxh, probes[i], g.fsid);
      assert forall k :: 0 <= k < i ==> probes[..n][k] == probes[..i][k];
    }
  }

  // ---- the size of the filters -----------------------------------------------------------

  lemma {:induction false} BoundSnoc(hs: seq<Hashing.Hashed>, h: Hashing.Hashed)
    ensures ChunkBound(hs + [h]) == ChunkBound(hs) + ChunkBound([h])
  {
    if hs == [] {
      assert hs + [h] == [h];
      assert ChunkBound([]) == 0;
    } else {
      BoundSnoc(hs[1..], h);
      assert (hs + [h])[1..] == hs[1..] + [h] && (hs + [h])[0] == hs[0];
    }
  }

  lemma HashedSlots(get: Get, p: Path, xxh: Xxh, probe: Probe)
    requires HashedAs(get, p, xxh, probe) && probe.Ok?
    ensures ChunkBound([probe.value.Result()]) <= PathSlots(p)
  {
    assert ChunkBound([probe.value.Result()][1..]) == 0;
    assert ChunkBound([probe.value.Result()]) == ChunksOf(probe.value.stat);
  }

  lemma OneMoreProbe(probes: seq<Probe>, i: nat)
    requires i < |probes|
    ensures Survivors(Results(probes[..i + 1]))
            == Survivors(Results(probes[..i])) + (if probes[i].Ok? then [probes[i].value.Result()] else [])
  {
    assert probes[..i + 1][..i] == probes[..i];
    assert Results(probes[..i + 1])[..i] == Results(probes[..i]);
  }

  lemma OneMorePath(files: seq<Path>, i: nat)
    requires i < |files|
    ensures AllSlots(files[..i + 1]) == AllSlots(files[..i]) + PathSlots(files[i])
  {
    assert files[..i + 1][..i] == files[..i];
  }

  lemma BoundStep(get: Get, files: seq<Path>, xxh: Xxh, probes: seq<Probe>, i: nat)
    requires i < |files| && i < |probes| && HashedAs(get, files[i], xxh, probes[i])
    requires ChunkBound(Survivors(Results(probes[..i]))) <= AllSlots(files[..i])
    ensures ChunkBound(Survivors(Results(probes[..i + 1]))) <= AllSlots(files[..i + 1])
  {
    OneMoreProbe(probes, i);
    OneMorePath(files, i);
    var before := Survivors(Results(probes[..i]));
    if probes[i].Ok? {
      var h := probes[i].value.Result();
      HashedSlots(get, files[i], xxh, probes[i]);
      BoundSnoc(before, h);
      assert Survivors(Results(probes[..i + 1])) == before + [h];
    } else {
      assert before + [] == before;
    }
  }

  lemma {:induction false} BoundFits(table: Table, files: seq<Path>, xxh: Xxh, probes: seq<Probe>, n: nat)
    requires HashedAll(table, files, xxh, probes) && n <= |files|
    ensures ChunkBound(Survivors(Results(probes[..n]))) <= AllSlots(files[..n])
  {
    if n == 0 {
    } else {
      BoundFits(table, files, xxh, probes, n - 1);
      assert HashedAt(table, files, xxh, probes, n - 1);
      BoundStep(Snapshot(Put(table, Misses(probes[..BatchStart(n - 1)]))), files, xxh, probes, n - 1);
    }
  }

  // ---- other datasets ------------------------------------------------------------------

  /** Other datasets' records stay as they are. */
  ghost predicate SameElsewhere(before: Table, after: Table, fsid: u64) {
    forall k: FileKey :: k.0 != fsid ==> (k in before <==> k in after) && (k in before ==> before[k] == after[k])
  }

  lemma {:induction false} PutElsewhere(table: Table, entries: seq<(FileKey, FileEntry)>, fsid: u64)
    requires forall e :: e in entries ==> e.0.0 == fsid
    ensures SameElsewhere(table, Put(table, entries), fsid)
  {
    if entries == [] {
    } else {
      PutElsewhere(table, entries[..|entries| - 1], fsid);
      assert entries[|entries| - 1] in entries;
    }
  }

  lemma PrunedIsSmall(before: Table, after: Table, fsid: u64, hashed: seq<Hashing.Hashed>)
    requires PrunedSafely(before, after, fsid, hashed) && AllSmall(before)
    ensures AllSmall(after)
  {
    forall k ensures SmallAnswer(Lookup(after, k)) {
      assert SmallAnswer(Lookup(before, k));
    }
  }

  lemma SmallIsIndexable(files: seq<Hashing.Hashed>, table: Table)
    requires AllSmall(table) && |files| <= U32_MAX
    ensures Indexable(files, Snapshot(table))
  {
    forall h | h in files ensures |HashesOf(Snapshot(table), h)| <= U32_MAX {
      assert SmallAnswer(Lookup(table, h.Key()));
    }
  }

  method AllMounted(roots: seq<seq<byte>>, mounts: set<seq<byte>>) returns (all: bool)
    ensures all <==> forall d :: d in roots ==> d in mounts
  {
    var i := 0;
    while i < |roots|
      invariant 0 <= i <= |roots| && forall j :: 0 <= j < i ==> roots[j] in mounts
    {
      if roots[i] !in mounts {
        return false;
      }
      i := i + 1;
    }
    all := true;
  }

  /** Every scanned root is where its dataset is mounted, so all of the dataset was scanned. */
  ghost predicate InFull(g: Group, mounts: set<seq<byte>>) {
    forall d :: d in g.roots ==> d in mounts
  }

  /**
   * What is left of `before`: what was found is stored, and if the dataset was scanned in full, the records that the
   * filter of its size cannot tell from a hashed file's are kept, and the other datasets' records.
   */
  ghost predicate Left(before: Table, g: Group, probes: seq<Probe>, mounts: set<seq<byte>>, after: Table) {
    var full := Put(before, Misses(probes));
    && Stores(before, full, probes) && (forall i: nat :: Alone(probes, i) ==> Answers(full, probes[i].value))
    && if InFull(g, mounts) then PrunedFor(full, after, g, Survivors(Results(probes))) else after == full
  }

  ghost predicate PrunedFor(full: Table, after: Table, g: Group, hashed: seq<Hashing.Hashed>) {
    && PrunedSafely(full, after, g.fsid, hashed)
    && exists mask :: SizedFor(mask, |g.files|) && PrunedExactly(full, after, g.fsid, hashed, mask)
  }

  /** A file that stays as it was found is a hit on what its dataset's scan left, pruned or not. */
  lemma RescanHits(before: Table, g: Group, probes: seq<Probe>, mounts: set<seq<byte>>, after: Table, i: nat, p: Path,
                   xxh: Xxh, probe: Probe)
    requires Left(before, g, probes, mounts, after) && Alone(probes, i)
    requires p.lstat == Ok((probes[i].value.key, probes[i].value.stat))
    requires HashedAs(Snapshot(after), p, xxh, probe)
    ensures probe == Ok(probes[i].value.(fromCache := true))
  {
    var d := probes[i].value;
    ResultsTell(probes);
    assert Results(probes)[i] == Ok(d.Result());
    assert d.Result() in Survivors(Results(probes));
    assert Answers(Put(before, Misses(probes)), d);
    assert Lookup(after, d.key) == Lookup(Put(before, Misses(probes)), d.key) by {
      assert d.Result().Key() == d.key;
    }
  }

  // Hash, record, prune if the dataset was scanned in full.
  method Refresh(g: Group, cache: Cache, mounts: set<seq<byte>>, xxh: Xxh)
    returns (hashed: seq<Hashing.Hashed>, busy: nat, errors: nat, ghost probes: seq<Probe>)
    requires GroupOk(g) && AllSmall(cache.table) && 10 * |g.files| <= TWO_64 / 2
    modifies cache
    ensures HashedAll(old(cache.table), g.files, xxh, probes) && hashed == Survivors(Results(probes))
    ensures busy == Failures(Results(probes), InUse) && errors == Failures(Results(probes), Other)
    ensures AllSmall(cache.table) && Left(old(cache.table), g, probes, mounts, cache.table)
  {
    var results;
    results, probes := HashFiles(cache, g.files, xxh);
    ghost var full := cache.table;
    ProbesAreOk(g, old(cache.table), xxh, probes, |probes|);
    assert probes[..|probes|] == probes;
    MissesKeepSmall(old(cache.table), probes, g.fsid);
    var seen;
    hashed, seen, busy, errors := Record(results);
    var all := AllMounted(g.roots, mounts);
    if all {
      var removed := PruneUnseen(cache, seen, g.fsid, hashed);
      PrunedIsSmall(full, cache.table, g.fsid, hashed);
    }
  }

  function TotalSize(hs: seq<Hashing.Hashed>): nat {
    if hs == [] then 0 else TotalSize(hs[..|hs| - 1]) + hs[|hs| - 1].size
  }

  lemma {:induction false} TotalSizeAdds(a: seq<Hashing.Hashed>, b: seq<Hashing.Hashed>)
    ensures TotalSize(a + b) == TotalSize(a) + TotalSize(b)
    ensures forall h :: TotalSize([h]) == h.size
  {
    forall h: Hashing.Hashed ensures TotalSize([h]) == h.size {
      assert [h][..0] == [];
    }
    if b == [] {
      assert a + b == a;
    } else {
      assert (a + b)[..|a + b| - 1] == a + b[..|b| - 1];
      TotalSizeAdds(a, b[..|b| - 1]);
    }
  }

  method SumSizes(hashed: seq<Hashing.Hashed>) returns (total: nat)
    ensures total == TotalSize(hashed)
  {
    total := 0;
    var i := 0;
    while i < |hashed|
      invariant 0 <= i <= |hashed| && total == TotalSize(hashed[..i])
    {
      assert hashed[..i + 1][..i] == hashed[..i];
      total := total + hashed[i].size;
      i := i + 1;
    }
    assert hashed[..|hashed|] == hashed;
  }

  // What one dataset's scan found and did.
  datatype Report = Report(probes: seq<Probe>, history: History) {
    function Hashed(): seq<Hashing.Hashed> {
      Survivors(Results(probes))
    }
  }

  /** The answers about the dataset's files with everything just hashed stored, and nothing pruned. */
  function Full(table: Table, rep: Report): Get {
    Snapshot(Put(table, Misses(rep.probes)))
  }

  /** The index sees of every file exactly the hashes that were just found for it. */
  ghost predicate FoundIndexed(table: Table, rep: Report) {
    forall i: nat :: Alone(rep.probes, i) ==>
      HashesOf(Full(table, rep), rep.probes[i].value.Result()) == rep.probes[i].value.hashes
  }

  lemma FoundIsIndexed(table: Table, files: seq<Path>, xxh: Xxh, rep: Report)
    requires HashedAll(table, files, xxh, rep.probes)
    ensures FoundIndexed(table, rep)
  {
    forall i: nat | Alone(rep.probes, i)
      ensures HashesOf(Full(table, rep), rep.probes[i].value.Result()) == rep.probes[i].value.hashes
    {
      FoundIsAnswered(table, files, xxh, rep.probes, i);
    }
  }

  /**
   * One dataset: other datasets' records stand, and the plan that was carried out, by `n` workers among other
   * processes, is the one for everything that hashed, as if nothing had been pruned.
   */
  method ScanGroup(g: Group, cache: Cache, mounts: set<seq<byte>>, opts: Opts, disk: Disk, n: nat, xxh: Xxh)
    returns (r: Result<Stats, nat>, busy: nat, errors: nat, total: nat, ghost rep: Report)
    requires Wf(disk.store) && GroupOk(g) && AllSmall(cache.table) && 10 * |g.files| <= TWO_64 / 2 && n > 0
    modifies cache, disk
    ensures Wf(disk.store) && AllSmall(cache.table) && SameElsewhere(old(cache.table), cache.table, g.fsid)
    ensures HashedAll(old(cache.table), g.files, xxh, rep.probes)
    ensures Left(old(cache.table), g, rep.probes, mounts, cache.table)
    ensures busy == Failures(Results(rep.probes), InUse) && errors == Failures(Results(rep.probes), Other)
    ensures total == TotalSize(rep.Hashed())
    ensures FoundIndexed(old(cache.table), rep)
    ensures r.Err? <==> !Readable(rep.Hashed(), Full(old(cache.table), rep))
    ensures r.Err? ==> disk.store == old(disk.store)
    ensures r.Ok? ==> CarriesOut(rep.history, old(disk.store), disk.store, r.value, rep.Hashed(),
                                 Full(old(cache.table), rep), opts)
  {
    ghost var probes, history;
    var hashed;
    hashed, busy, errors, probes := Refresh(g, cache, mounts, xxh);
    total := SumSizes(hashed);
    ghost var full := Put(old(cache.table), Misses(probes));
    ProbesAreOk(g, old(cache.table), xxh, probes, |probes|);
    assert probes[..|probes|] == probes;
    MissesAreOwn(probes, g.fsid);
    PutElsewhere(old(cache.table), Misses(probes), g.fsid);
    PruneKeepsIndex(full, cache.table, g.fsid, hashed);
    SmallIsIndexable(hashed, cache.table);
    BoundFits(old(cache.table), g.files, xxh, probes, |g.files|);
    assert g.files[..|g.files|] == g.files;
    r, history := Dedup(hashed, cache, opts, disk, n);
    rep := Report(probes, history);
    FoundIsIndexed(old(cache.table), g.files, xxh, rep);
  }

  // ---- all datasets ----------------------------------------------------------------------

  /** How the slots of one dataset were settled. */
  ghost function LogOf(rep: Report): SlotLog {
    var h := rep.history;
    if Wf(h.start.store) && After(h.cfg, h.start, h.trace).Some? then EndOf(h).log else map[]
  }

  ghost function SumLogs(opts: Opts, reps: seq<Report>, c: Counter): nat {
    if reps == [] then 0 else SumLogs(opts, reps[..|reps| - 1], c) + SumLog(opts, LogOf(reps[|reps| - 1]), c)
  }

  /** Files that could not be hashed for `e`. */
  function Unhashed(reps: seq<Report>, e: IoErr): nat {
    if reps == [] then 0 else Unhashed(reps[..|reps| - 1], e) + Failures(Results(reps[|reps| - 1].probes), e)
  }

  function TotalSizes(reps: seq<Report>): nat {
    if reps == [] then 0 else TotalSizes(reps[..|reps| - 1]) + TotalSize(reps[|reps| - 1].Hashed())
  }

  lemma {:induction false} SumLogsAdds(opts: Opts, a: seq<Report>, b: seq<Report>, c: Counter)
    ensures SumLogs(opts, a + b, c) == SumLogs(opts, a, c) + SumLogs(opts, b, c)
  {
    if b == [] {
      assert a + b == a;
    } else {
      assert (a + b)[..|a + b| - 1] == a + b[..|b| - 1];
      SumLogsAdds(opts, a, b[..|b| - 1], c);
    }
  }

  lemma {:induction false} UnhashedAdds(a: seq<Report>, b: seq<Report>, e: IoErr)
    ensures Unhashed(a + b, e) == Unhashed(a, e) + Unhashed(b, e)
  {
    if b == [] {
      assert a + b == a;
    } else {
      assert (a + b)[..|a + b| - 1] == a + b[..|b| - 1];
      UnhashedAdds(a, b[..|b| - 1], e);
    }
  }

  lemma {:induction false} TotalSizesAdds(a: seq<Report>, b: seq<Report>)
    ensures TotalSizes(a + b) == TotalSizes(a) + TotalSizes(b)
  {
    if b == [] {
      assert a + b == a;
    } else {
      assert (a + b)[..|a + b| - 1] == a + b[..|b| - 1];
      TotalSizesAdds(a, b[..|b| - 1]);
    }
  }

  lemma SumsOfOne(opts: Opts, rep: Report, c: Counter, e: IoErr)
    ensures SumLogs(opts, [rep], c) == SumLog(opts, LogOf(rep), c)
    ensures Unhashed([rep], e) == |FailedAt(Results(rep.probes), e)|
    ensures TotalSizes([rep]) == TotalSize(rep.Hashed())
  {
    assert [rep][..0] == [];
    FailuresAreCounted(Results(rep.probes), e);
  }

  /** The sums over datasets are sums: of two lists those of both, and of one dataset its own. */
  lemma SumsAdd(opts: Opts, a: seq<Report>, b: seq<Report>, rep: Report, c: Counter, e: IoErr)
    ensures SumLogs(opts, a + b, c) == SumLogs(opts, a, c) + SumLogs(opts, b, c)
    ensures Unhashed(a + b, e) == Unhashed(a, e) + Unhashed(b, e)
    ensures TotalSizes(a + b) == TotalSizes(a) + TotalSizes(b)
    ensures SumLogs(opts, [rep], c) == SumLog(opts, LogOf(rep), c)
    ensures Unhashed([rep], e) == |FailedAt(Results(rep.probes), e)|
    ensures TotalSizes([rep]) == TotalSize(rep.Hashed())
  {
    SumLogsAdds(opts, a, b, c);
    UnhashedAdds(a, b, e);
    TotalSizesAdds(a, b);
    SumsOfOne(opts, rep, c, e);
  }

  // What the loop adds up: counters, bytes hashed, files that failed to hash.
  datatype Totals = Totals(stats: Stats, bytes: nat, hashErrors: nat)

  ghost predicate Reduced(opts: Opts, t: Totals, reps: seq<Report>) {
    && (forall c: Counter ::
          Of(t.stats, c) == SumLogs(opts, reps, c) + (if c.Busy? then Unhashed(reps, InUse) else 0))
    && t.bytes == TotalSizes(reps) && t.hashErrors == Unhashed(reps, Other)
  }

  function Plus(t: Totals, busy: nat, part: Stats, bytes: nat, errors: nat): Totals {
    Totals(Add(t.stats.(busy := t.stats.busy + busy), part), t.bytes + bytes, t.hashErrors + errors)
  }

  lemma ReducedStep(opts: Opts, t: Totals, reps: seq<Report>, rep: Report, busy: nat, part: Stats, bytes: nat,
                    errors: nat)
    requires Reduced(opts, t, reps) && busy == Failures(Results(rep.probes), InUse)
    requires errors == Failures(Results(rep.probes), Other) && bytes == TotalSize(rep.Hashed())
    requires forall c: Counter :: Of(part, c) == SumLog(opts, LogOf(rep), c)
    ensures Reduced(opts, Plus(t, busy, part, bytes, errors), reps + [rep])
  {
    assert (reps + [rep])[..|reps|] == reps;
    forall c: Counter
      ensures Of(Add(t.stats.(busy := t.stats.busy + busy), part), c)
              == SumLogs(opts, reps + [rep], c) + (if c.Busy? then Unhashed(reps + [rep], InUse) else 0)
    {
      OfAdd(t.stats.(busy := t.stats.busy + busy), part, c);
      assert Of(t.stats.(busy := t.stats.busy + busy), c) == Of(t.stats, c) + (if c.Busy? then busy else 0);
    }
  }

  ghost predicate Elsewhere(before: Table, after: Table, gs: seq<Group>) {
    forall k: FileKey :: (forall g :: g in gs ==> g.fsid != k.0) ==>
      (k in before <==> k in after) && (k in before ==> before[k] == after[k])
  }

  lemma ElsewhereStep(t0: Table, t1: Table, t2: Table, gs: seq<Group>, g: Group)
    requires Elsewhere(t0, t1, gs) && SameElsewhere(t1, t2, g.fsid) && g in gs
    ensures Elsewhere(t0, t2, gs)
  {
  }

  ghost predicate GroupFits(g: Group) {
    GroupOk(g) && 10 * |g.files| <= TWO_64 / 2
  }

  /** The group was hashed against `table`, and the one plan for what it gave took the store from `start` to `end`. */
  ghost predicate CarriedOut(table: Table, g: Group, rep: Report, start: Store, end: Store, opts: Opts, xxh: Xxh) {
    && HashedAll(table, g.files, xxh, rep.probes) && Readable(rep.Hashed(), Full(table, rep))
    && exists total :: CarriesOut(rep.history, start, end, total, rep.Hashed(), Full(table, rep), opts)
  }

  /** The group was hashed against `table`, and among the files that hashed is one with a corrupt record. */
  ghost predicate GaveUp(table: Table, g: Group, rep: Report, start: Store, end: Store, xxh: Xxh) {
    HashedAll(table, g.files, xxh, rep.probes) && !Readable(rep.Hashed(), Full(table, rep)) && end == start
  }

  /** The group was carried out, or given up, and left `after`. */
  ghost predicate TookTurn(before: Table, g: Group, rep: Report, after: Table, start: Store, end: Store,
                           mounts: set<seq<byte>>, opts: Opts, xxh: Xxh, ok: bool) {
    && Left(before, g, rep.probes, mounts, after)
    && if ok then CarriedOut(before, g, rep, start, end, opts, xxh) else GaveUp(before, g, rep, start, end, xxh)
  }

  /**
   * Each group in turn found the table as the group before left it. All were carried out, but the last if not `ok`;
   * the stores of groups still to come are as they were.
   */
  ghost predicate Reported(tables: seq<Table>, groups: seq<Group>, reps: seq<Report>, stores: seq<Store>,
                           ends: seq<Store>, mounts: set<seq<byte>>, opts: Opts, xxh: Xxh, ok: bool) {
    && |tables| == |reps| + 1 && |reps| <= |groups| == |stores| == |ends| && (!ok ==> reps != [])
    && (forall i :: 0 <= i < |reps| ==>
          TookTurn(tables[i], groups[i], reps[i], tables[i + 1], stores[i], ends[i], mounts, opts, xxh,
                   ok || i < |reps| - 1))
    && forall i :: |reps| <= i < |ends| ==> ends[i] == stores[i]
  }

  lemma ReportedStep(tables: seq<Table>, groups: seq<Group>, reps: seq<Report>, stores: seq<Store>, ends: seq<Store>,
                     table: Table, rep: Report, end: Store, mounts: set<seq<byte>>, opts: Opts, xxh: Xxh, ok: bool)
    requires Reported(tables, groups, reps, stores, ends, mounts, opts, xxh, true) && |reps| < |groups|
    requires TookTurn(tables[|reps|], groups[|reps|], rep, table, stores[|reps|], end, mounts, opts, xxh, ok)
    ensures Reported(tables + [table], groups, reps + [rep], stores, ends[|reps| := end], mounts, opts, xxh, ok)
  {
    var tables', reps', ends' := tables + [table], reps + [rep], ends[|reps| := end];
    forall i | 0 <= i < |reps'|
      ensures TookTurn(tables'[i], groups[i], reps'[i], tables'[i + 1], stores[i], ends'[i], mounts, opts, xxh,
                       ok || i < |reps'| - 1)
    {
      if i < |reps| {
        assert TookTurn(tables[i], groups[i], reps[i], tables[i + 1], stores[i], ends[i], mounts, opts, xxh, true);
        assert (ok || i < |reps'| - 1) == true;
      } else {
        assert (ok || i < |reps'| - 1) == ok;
      }
    }
  }

  predicate Apart(disks: seq<Disk>) {
    forall i, j :: 0 <= i < |disks| && 0 <= j < |disks| && i != j ==> disks[i] != disks[j]
  }

  /** The stores of the disks, all well-formed, each disk with its own. */
  ghost predicate Hold(disks: seq<Disk>, stores: seq<Store>)
    reads disks
  {
    && |stores| == |disks| && (forall i :: 0 <= i < |disks| ==> disks[i].store == stores[i])
    && (forall i :: 0 <= i < |stores| ==> Wf(stores[i])) && Apart(disks)
  }

  ghost predicate Counted(opts: Opts, rep: Report, busy: nat, part: Stats, bytes: nat, errors: nat) {
    && busy == Failures(Results(rep.probes), InUse) && errors == Failures(Results(rep.probes), Other)
    && bytes == TotalSize(rep.Hashed()) && forall c: Counter :: Of(part, c) == SumLog(opts, LogOf(rep), c)
  }

  lemma TurnTaken(before: Table, g: Group, rep: Report, after: Table, start: Store, end: Store,
                  mounts: set<seq<byte>>, opts: Opts, xxh: Xxh, r: Result<Stats, nat>)
    requires Left(before, g, rep.probes, mounts, after) && HashedAll(before, g.files, xxh, rep.probes)
    requires r.Err? <==> !Readable(rep.Hashed(), Full(before, rep))
    requires r.Err? ==> end == start
    requires r.Ok? ==> CarriesOut(rep.history, start, end, r.value, rep.Hashed(), Full(before, rep), opts)
    ensures TookTurn(before, g, rep, after, start, end, mounts, opts, xxh, r.Ok?)
    ensures r.Ok? ==> forall c: Counter :: Of(r.value, c) == SumLog(opts, LogOf(rep), c)
  {
    if r.Ok? {
      CarriedOutMeaning(rep.history, start, end, r.value, rep.Hashed(), Full(before, rep), opts);
    }
  }

  method ScanOne(g: Group, cache: Cache, mounts: set<seq<byte>>, opts: Opts, disk: Disk, n: nat, xxh: Xxh)
    returns (r: Result<Stats, nat>, busy: nat, errors: nat, bytes: nat, ghost rep: Report)
    requires Wf(disk.store) && AllSmall(cache.table) && GroupFits(g) && n > 0
    modifies cache, disk
    ensures Wf(disk.store) && AllSmall(cache.table) && SameElsewhere(old(cache.table), cache.table, g.fsid)
    ensures r.Ok? ==> Counted(opts, rep, busy, r.value, bytes, errors)
    ensures TookTurn(old(cache.table), g, rep, cache.table, old(disk.store), disk.store, mounts, opts, xxh, r.Ok?)
  {
    r, busy, errors, bytes, rep := ScanGroup(g, cache, mounts, opts, disk, n, xxh);
    TurnTaken(old(cache.table), g, rep, cache.table, old(disk.store), disk.store, mounts, opts, xxh, r);
  }

  method ScanNext(groups: seq<Group>, i: nat, cache: Cache, mounts: set<seq<byte>>, opts: Opts, disks: seq<Disk>,
                  n: nat, xxh: Xxh, ghost stores: seq<Store>)
    returns (r: Result<Stats, nat>, busy: nat, errors: nat, bytes: nat, ghost rep: Report)
    requires |disks| == |groups| && i < |groups| && Hold(disks, stores) && n > 0
    requires AllSmall(cache.table) && GroupFits(groups[i])
    modifies cache, disks
    ensures Hold(disks, stores[i := disks[i].store]) && AllSmall(cache.table)
    ensures SameElsewhere(old(cache.table), cache.table, groups[i].fsid)
    ensures r.Ok? ==> Counted(opts, rep, busy, r.value, bytes, errors)
    ensures TookTurn(old(cache.table), groups[i], rep, cache.table, stores[i], disks[i].store, mounts, opts, xxh, r.Ok?)
  {
    r, busy, errors, bytes, rep := ScanOne(groups[i], cache, mounts, opts, disks[i], n, xxh);
    assert forall j :: 0 <= j < |disks| && j != i ==> disks[j] != disks[i] && disks[j].store == stores[j];
  }

  /** The loop so far: all groups were carried out. */
  ghost predicate SoFar(table: Table, groups: seq<Group>, tables: seq<Table>, reps: seq<Report>, stores: seq<Store>,
                        ends: seq<Store>, mounts: set<seq<byte>>, opts: Opts, xxh: Xxh, totals: Totals) {
    && Reported(tables, groups, reps, stores, ends, mounts, opts, xxh, true) && tables[0] == table
    && Elsewhere(table, tables[|reps|], groups) && Reduced(opts, totals, reps)
  }

  lemma OneMoreTurn(table: Table, groups: seq<Group>, tables: seq<Table>, reps: seq<Report>, stores: seq<Store>,
                    ends: seq<Store>, mounts: set<seq<byte>>, opts: Opts, xxh: Xxh, totals: Totals, rep: Report,
                    after: Table, end: Store, ok: bool, busy: nat, part: Stats, bytes: nat, errors: nat)
    requires SoFar(table, groups, tables, reps, stores, ends, mounts, opts, xxh, totals) && |reps| < |groups|
    requires SameElsewhere(tables[|reps|], after, groups[|reps|].fsid)
    requires TookTurn(tables[|reps|], groups[|reps|], rep, after, stores[|reps|], end, mounts, opts, xxh, ok)
    requires ok ==> Counted(opts, rep, busy, part, bytes, errors)
    ensures Reported(tables + [after], groups, reps + [rep], stores, ends[|reps| := end], mounts, opts, xxh, ok)
    ensures (tables + [after])[0] == table && Elsewhere(table, after, groups)
    ensures ok ==> SoFar(table, groups, tables + [after], reps + [rep], stores, ends[|reps| := end], mounts, opts, xxh,
                         Plus(totals, busy, part, bytes, errors))
  {
    assert groups[|reps|] in groups;
    ElsewhereStep(table, tables[|reps|], after, groups, groups[|reps|]);
    ReportedStep(tables, groups, reps, stores, ends, after, rep, end, mounts, opts, xxh, ok);
    if ok {
      ReducedStep(opts, totals, reps, rep, busy, part, bytes, errors);
    }
  }

  lemma NothingYet(table: Table, groups: seq<Group>, stores: seq<Store>, mounts: set<seq<byte>>, opts: Opts, xxh: Xxh)
    requires |stores| == |groups|
    ensures SoFar(table, groups, [table], [], stores, stores, mounts, opts, xxh, Totals(ZERO, 0, 0))
  {
  }

  // The loop's body.
  method ScanTurn(groups: seq<Group>, i: nat, cache: Cache, mounts: set<seq<byte>>, opts: Opts, disks: seq<Disk>,
                  n: nat, xxh: Xxh, totals: Totals, ghost table: Table, ghost tables0: seq<Table>,
                  ghost reps0: seq<Report>, ghost stores: seq<Store>, ghost ends0: seq<Store>)
    returns (r: Result<Totals, nat>, ghost tables: seq<Table>, ghost reps: seq<Report>, ghost ends: seq<Store>)
    requires |disks| == |groups| && i < |groups| && Hold(disks, ends0) && n > 0
    requires AllSmall(cache.table) && GroupFits(groups[i])
    requires SoFar(table, groups, tables0, reps0, stores, ends0, mounts, opts, xxh, totals)
    requires |reps0| == i && tables0[i] == cache.table
    modifies cache, disks
    ensures Hold(disks, ends) && AllSmall(cache.table) && |reps| == i + 1
    ensures Reported(tables, groups, reps, stores, ends, mounts, opts, xxh, r.Ok?)
    ensures tables[0] == table && tables[|reps|] == cache.table && Elsewhere(table, cache.table, groups)
    ensures r.Ok? ==> SoFar(table, groups, tables, reps, stores, ends, mounts, opts, xxh, r.value)
  {
    var part, busy, errors, bytes, rep := ScanNext(groups, i, cache, mounts, opts, disks, n, xxh, ends0);
    ghost var stats := if part.Ok? then part.value else ZERO;
    OneMoreTurn(table, groups, tables0, reps0, stores, ends0, mounts, opts, xxh, totals, rep, cache.table,
                disks[i].store, part.Ok?, busy, stats, bytes, errors);
    tables, reps, ends := tables0 + [cache.table], reps0 + [rep], ends0[i := disks[i].store];
    r := if part.Ok? then Ok(Plus(totals, busy, part.value, bytes, errors)) else Err(part.error);
  }

  /**
   * One dataset after the other, each with its own store, the first on the cache as it is, each later one on what the
   * one before left of it. Records of datasets that were not scanned stand, stores change only by the runs that are
   * reported, and the totals are the settled slots of all datasets, the bytes of all hashed files, and the files that
   * were in use or failed when they should have been hashed.
   */
  method Scan(groups: seq<Group>, cache: Cache, mounts: set<seq<byte>>, opts: Opts, disks: seq<Disk>, n: nat, xxh: Xxh,
              ghost stores: seq<Store>)
    returns (r: Result<Totals, nat>, ghost tables: seq<Table>, ghost reps: seq<Report>, ghost ends: seq<Store>)
    requires |disks| == |groups| && Hold(disks, stores) && n > 0
    requires AllSmall(cache.table) && forall g :: g in groups ==> GroupFits(g)
    modifies cache, disks
    ensures Hold(disks, ends) && Elsewhere(old(cache.table), cache.table, groups)
    ensures Reported(tables, groups, reps, stores, ends, mounts, opts, xxh, r.Ok?)
    ensures tables[0] == old(cache.table) && tables[|reps|] == cache.table
    ensures r.Ok? ==> |reps| == |groups| && Reduced(opts, r.value, reps)
  {
    var totals := Totals(ZERO, 0, 0);
    tables, reps, ends := [cache.table], [], stores;
    NothingYet(cache.table, groups, stores, mounts, opts, xxh);
    var i := 0;
    while i < |groups|
      invariant 0 <= i <= |groups| && |reps| == i && Hold(disks, ends) && AllSmall(cache.table)
      invariant SoFar(old(cache.table), groups, tables, reps, stores, ends, mounts, opts, xxh, totals)
      invariant tables[i] == cache.table
    {
      assert groups[i] in groups;
      var more;
      more, tables, reps, ends := ScanTurn(groups, i, cache, mounts, opts, disks, n, xxh, totals, old(cache.table),
                                           tables, reps, stores, ends);
      if more.Err? {
        return more, tables, reps, ends;
      }
      totals := more.value;
      i := i + 1;
    }
    r := Ok(totals);
  }
}
