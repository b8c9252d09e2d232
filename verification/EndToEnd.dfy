/** The parts together: a scan that nothing overtook, then a dedup in which nothing failed. */
module EndToEnd {
  import opened Base
  import opened CacheTable
  import opened Hashing
  import opened DupIndex
  import opened RunPlanner
  import opened BlockStore
  import opened DedupSteps
  import opened Schedules
  import opened Sharing
  import opened Rescan
  import ScanProtocol
  import ScanRun

  /** File `f` of the list was scanned, and is as it was then; readers of the store see the same bytes. */
  ghost predicate AsScanned(cfg: Config, scan: ScanProtocol.State, view: map<nat, seq<byte>>, f: nat)
    requires f < |cfg.files|
  {
    var h := cfg.files[f];
    && h.Key() in scan.fs && f in view
    && view[f] == scan.fs[h.Key()].bytes && |view[f]| == h.size && h.blksz == scan.fs[h.Key()].stat.blksz
    && OnRecord(scan, h.Key())
  }

  ghost predicate OnRecord(scan: ScanProtocol.State, key: FileKey)
    requires key in scan.fs
  {
    var r := Lookup(scan.cache, key);
    r.Ok? && r.value.Some? && ScanProtocol.MatchesStat(r.value.value, scan.fs[key].stat)
  }

  /** The hashes the index is built from are those of the bytes, whatever went on while they were taken. */
  lemma ScanIsTruthful(cfg: Config, s0: ScanProtocol.State, events: seq<ScanProtocol.Event>, xxh: Xxh,
                       view: map<nat, seq<byte>>)
    requires ScanProtocol.Initial(s0) && ScanProtocol.After(s0, events, xxh).Some?
    requires forall f: nat :: f < |cfg.files| ==> AsScanned(cfg, ScanProtocol.After(s0, events, xxh).value, view, f)
    ensures Truthful(cfg, Snapshot(ScanProtocol.After(s0, events, xxh).value.cache), view, xxh)
  {
    var scan := ScanProtocol.After(s0, events, xxh).value;
    forall f: nat | f < |cfg.files| ensures TrueHashes(cfg, Snapshot(scan.cache), view, xxh, f) {
      assert AsScanned(cfg, scan, view, f);
      var key := cfg.files[f].Key();
      ScanProtocol.CacheAgreesWithRehash(s0, events, xxh, key, Lookup(scan.cache, key).value.value);
    }
  }

  /**
   * From any scan, interleaved with any writes, whose records match the files when the dedup starts: without hash
   * collisions a dedup in which nothing fails leaves any two equal non-zero chunks of one block size on one block,
   * under every schedule, and no reader can tell.
   */
  lemma ScanThenDedupShares(cfg: Config, s0: ScanProtocol.State, events: seq<ScanProtocol.Event>,
                            xxh: Xxh, s: State, trace: seq<Event>, a: Loc, b: Loc)
    requires ScanProtocol.Initial(s0) && ScanProtocol.After(s0, events, xxh).Some?
    requires Completes(cfg, NaiveIndex(cfg.files, Snapshot(ScanProtocol.After(s0, events, xxh).value.cache)), s, trace)
    requires !cfg.opts.dryRun && CollisionFree(cfg, View(s.store), xxh)
    requires forall f: nat :: f < |cfg.files| ==>
               AsScanned(cfg, ScanProtocol.After(s0, events, xxh).value, View(s.store), f)
    requires HasChunk(cfg, View(s.store), a) && HasChunk(cfg, View(s.store), b)
    requires cfg.files[a.file].blksz == cfg.files[b.file].blksz
    requires ChunkBytes(cfg, View(s.store), a) == ChunkBytes(cfg, View(s.store), b)
    requires !AllZero(ChunkBytes(cfg, View(s.store), a))
    ensures var idx := NaiveIndex(cfg.files, Snapshot(ScanProtocol.After(s0, events, xxh).value.cache));
            var t := End(cfg, idx, s, trace).store;
            BlockAt(t, a) == BlockAt(t, b) && Wf(t) && View(t) == View(s.store)
  {
    ScanIsTruthful(cfg, s0, events, xxh, View(s.store));
    EqualChunksShare(cfg, Snapshot(ScanProtocol.After(s0, events, xxh).value.cache), xxh, s, trace, a, b);
  }

  /**
   * Scan, dedup, scan again in any order, dedup again: if both scans' records match the files as their dedup starts,
   * the second dedup moves no block pointer.
   */
  lemma SecondRoundMovesNothing(cfg: Config, s0: ScanProtocol.State, events: seq<ScanProtocol.Event>, s: State,
                                trace: seq<Event>, cfg': Config, more: seq<ScanProtocol.Event>, s': State,
                                trace': seq<Event>, pos: seq<nat>, xxh: Xxh)
    requires ScanProtocol.Initial(s0) && ScanProtocol.After(s0, events, xxh).Some?
    requires ScanProtocol.After(s0, events + more, xxh).Some?
    requires var get := Snapshot(ScanProtocol.After(s0, events, xxh).value.cache);
             && Completes(cfg, NaiveIndex(cfg.files, get), s, trace) && !cfg.opts.dryRun
             && CollisionFree(cfg, View(s.store), xxh)
             && Relisted(cfg, End(cfg, NaiveIndex(cfg.files, get), s, trace).store, cfg', s'.store, pos)
    requires var get' := Snapshot(ScanProtocol.After(s0, events + more, xxh).value.cache);
             Completes(cfg', NaiveIndex(cfg'.files, get'), s', trace')
    requires forall f: nat :: f < |cfg.files| ==>
               AsScanned(cfg, ScanProtocol.After(s0, events, xxh).value, View(s.store), f)
    requires forall f: nat :: f < |cfg'.files| ==>
               AsScanned(cfg', ScanProtocol.After(s0, events + more, xxh).value, View(s'.store), f)
    ensures var get' := Snapshot(ScanProtocol.After(s0, events + more, xxh).value.cache);
            End(cfg', NaiveIndex(cfg'.files, get'), s', trace').store == s'.store
  {
    ScanIsTruthful(cfg, s0, events, xxh, View(s.store));
    ScanIsTruthful(cfg', s0, events + more, xxh, View(s'.store));
    var get := Snapshot(ScanProtocol.After(s0, events, xxh).value.cache);
    var get' := Snapshot(ScanProtocol.After(s0, events + more, xxh).value.cache);
    RelistedDedupChangesNothing(cfg, get, s, trace, cfg', get', s', trace', pos, xxh);
  }

  /** If there is a record that matches the stat, its hashes are those of the bytes. */
  ghost predicate RecordIsTrue(table: Table, key: FileKey, stat: ScanProtocol.Stat, bytes: seq<byte>, xxh: Xxh)
    requires stat.blksz > 0
  {
    forall e :: Lookup(table, key) == Ok(Some(e)) && ScanProtocol.MatchesStat(e, stat) ==>
      e.hashes == ChunkHashes(bytes, stat.blksz, xxh)
  }

  /** The file's bytes are what was read when it was hashed, or what was recorded before. */
  ghost predicate AsFound(table: Table, p: ScanRun.Path, d: ScanRun.Done, bytes: seq<byte>, xxh: Xxh) {
    && d.stat.blksz > 0 && |bytes| == d.stat.size
    && if d.fromCache then RecordIsTrue(table, d.key, d.stat, bytes, xxh) else p.open.Ok? && p.open.value.2 == Ok(bytes)
  }

  /** All files are still as they were found, none was found twice; file `f` of the list was the `at[f]`-th path. */
  ghost predicate AllAsFound(table: Table, g: ScanRun.Group, rep: ScanRun.Report, view: map<nat, seq<byte>>,
                             at: seq<nat>, xxh: Xxh) {
    && ScanRun.InOrder(ScanRun.Results(rep.probes), rep.Hashed(), at) && |g.files| == |rep.probes|
    && forall f: nat :: f < |at| ==>
         f in view && ScanRun.Alone(rep.probes, at[f])
         && AsFound(table, g.files[at[f]], rep.probes[at[f]].value, view[f], xxh)
  }

  lemma FoundIsTrue(table: Table, files: seq<ScanRun.Path>, xxh: Xxh, ps: seq<ScanRun.Probe>, i: nat, bytes: seq<byte>)
    requires ScanRun.HashedAll(table, files, xxh, ps) && ScanRun.Alone(ps, i)
    requires AsFound(table, files[i], ps[i].value, bytes, xxh)
    ensures ps[i].value.hashes == ChunkHashes(bytes, ps[i].value.stat.blksz, xxh)
  {
    if ps[i].value.fromCache {
      ScanRun.HitWasOnRecord(table, files, xxh, ps, i);
    } else {
      assert ScanRun.HashedAt(table, files, xxh, ps, i);
    }
  }

  /** What the loop hashed, from bytes or true records, gives the index truthful hashes. */
  lemma HashedIsTruthful(table: Table, g: ScanRun.Group, rep: ScanRun.Report, cfg: Config, view: map<nat, seq<byte>>,
                         at: seq<nat>, xxh: Xxh)
    requires ScanRun.HashedAll(table, g.files, xxh, rep.probes) && cfg.files == rep.Hashed()
    requires AllAsFound(table, g, rep, view, at, xxh)
    ensures Truthful(cfg, ScanRun.Full(table, rep), view, xxh)
  {
    ScanRun.FoundIsIndexed(table, g.files, xxh, rep);
    ScanRun.ResultsTell(rep.probes);
    forall f: nat | f < |cfg.files| ensures TrueHashes(cfg, ScanRun.Full(table, rep), view, xxh, f) {
      var i := at[f];
      assert ScanRun.Alone(rep.probes, i);
      FoundIsTrue(table, g.files, xxh, rep.probes, i, view[f]);
      assert cfg.files[f] == rep.probes[i].value.Result();
    }
  }

  /**
   * What `run` did for one dataset, if nothing failed, nobody wrote since the files were hashed, and the records that
   * were hit were true: any two equal non-zero chunks of one block size are on one block, whoever of the workers did
   * what when.
   */
  lemma CarriedOutShares(table: Table, g: ScanRun.Group, rep: ScanRun.Report, start: Store, end: Store, opts: Opts,
                         xxh: Xxh, at: seq<nat>, a: Loc, b: Loc)
    requires ScanRun.CarriedOut(table, g, rep, start, end, opts, xxh) && !opts.dryRun && Wf(start)
    requires var h := rep.history;
             && Tree(h.cfg, start) && h.start.store == start && CleanRun(h.cfg, h.start, h.trace)
             && AllAsFound(table, g, rep, View(start), at, xxh) && CollisionFree(h.cfg, View(start), xxh)
    requires HasChunk(rep.history.cfg, View(start), a) && HasChunk(rep.history.cfg, View(start), b)
    requires rep.history.cfg.files[a.file].blksz == rep.history.cfg.files[b.file].blksz
    requires ChunkBytes(rep.history.cfg, View(start), a) == ChunkBytes(rep.history.cfg, View(start), b)
    requires !AllZero(ChunkBytes(rep.history.cfg, View(start), a))
    ensures BlockAt(end, a) == BlockAt(end, b) && Wf(end) && View(end) == View(start)
  {
    var h, get := rep.history, ScanRun.Full(table, rep);
    HashedIsTruthful(table, g, rep, h.cfg, View(start), at, xxh);
    NaiveIndexIsGrouped(h.cfg.files, get);
    EqualChunksShare(h.cfg, get, xxh, h.start, h.trace, a, b);
  }
}
