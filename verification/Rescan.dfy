/** A second dedup of a deduplicated tree: rescanned, in the same order or another, it moves nothing. */
module Rescan {
  import opened Base
  import opened CacheTable
  import opened Hashing
  import opened DupIndex
  import opened Coalescing
  import opened RunPlanner
  import opened PlanFacts
  import opened BlockStore
  import opened DedupSteps
  import opened Schedules
  import opened Sharing

  // ---- the same files in the same order ------------------------------------------------

  predicate SameFile(a: Hashed, b: Hashed) {
    a.fsid == b.fsid && a.ino == b.ino && a.size == b.size && a.blksz == b.blksz
  }

  /** The same list, though other entries may have come from the cache. */
  ghost predicate SameList(a: seq<Hashed>, b: seq<Hashed>) {
    |a| == |b| && forall f :: 0 <= f < |a| ==> SameFile(a[f], b[f])
  }

  lemma {:induction false} SameStream(cfg: Config, cfg': Config, get: Get, get': Get, view: map<nat, seq<byte>>,
                                      xxh: Xxh, n: nat)
    requires SameList(cfg.files, cfg'.files) && n <= |cfg.files|
    requires Truthful(cfg, get, view, xxh) && Truthful(cfg', get', view, xxh)
    ensures Stream(cfg.files, get, n) == Stream(cfg'.files, get', n)
  {
    if n == 0 {
    } else {
      SameStream(cfg, cfg', get, get', view, xxh, n - 1);
      assert SameFile(cfg.files[n - 1], cfg'.files[n - 1]);
      assert TrueHashes(cfg, get, view, xxh, n - 1) && TrueHashes(cfg', get', view, xxh, n - 1);
    }
  }

  /** Truthful hashes of the same contents give the same index. */
  lemma SameIndex(cfg: Config, cfg': Config, get: Get, get': Get, view: map<nat, seq<byte>>, xxh: Xxh)
    requires SameList(cfg.files, cfg'.files)
    requires Truthful(cfg, get, view, xxh) && Truthful(cfg', get', view, xxh)
    ensures NaiveIndex(cfg.files, get) == NaiveIndex(cfg'.files, get')
  {
    SameStream(cfg, cfg', get, get', view, xxh, |cfg.files|);
  }

  lemma SamePlanned(idx: Index, files: seq<Hashed>, files': seq<Hashed>, p: Pair)
    requires SameList(files, files')
    ensures Planned(idx, files, p) <==> Planned(idx, files', p)
    ensures p.1.file < |files| ==> KeyOf(files, p) == KeyOf(files', p)
  {
    assert p.0.file < |files| ==> SameFile(files[p.0.file], files'[p.0.file]);
    assert p.1.file < |files| ==> SameFile(files[p.1.file], files'[p.1.file]);
    forall key ensures PlannedBy(idx, files, key, p) <==> PlannedBy(idx, files', key, p) {
    }
  }

  lemma SamePlan(idx: Index, files: seq<Hashed>, files': seq<Hashed>, plan: Pairs, plan': Pairs)
    requires SameList(files, files') && IsPlan(plan, idx, files) && IsPlan(plan', idx, files')
    ensures plan == plan'
  {
    forall p ensures Planned(idx, files, p) <==> Planned(idx, files', p)
      ensures p.1.file < |files| ==> KeyOf(files, p) == KeyOf(files', p)
    {
      SamePlanned(idx, files, files', p);
    }
    forall k | k in plan' ensures RunsOf(idx, files, k, plan'[k]) {
      assert RunsOf(idx, files', k, plan'[k]);
    }
    PlanIsUnique(plan, plan', idx, files);
  }

  lemma SameMatching(cfg: Config, cfg': Config, view: map<nat, seq<byte>>, k: PairKey, i: nat)
    requires SameList(cfg.files, cfg'.files) && cfg.plan == cfg'.plan
    ensures Matching(cfg, view, k, i) <==> Matching(cfg', view, k, i)
  {
    assert k.src < |cfg.files| ==> SameFile(cfg.files[k.src], cfg'.files[k.src]);
    assert k.dst < |cfg.files| ==> SameFile(cfg.files[k.dst], cfg'.files[k.dst]);
  }

  lemma SamePointers(a: Store, b: Store)
    requires a.data == b.data && a.files.Keys == b.files.Keys
    requires forall f :: f in a.files ==> SameButPointers(a.files[f], b.files[f])
    requires forall l: Loc :: BlockAt(a, l) == BlockAt(b, l)
    ensures a == b
  {
    forall f | f in a.files ensures a.files[f] == b.files[f] {
      SameBlocks(a, b, f);
    }
    assert a.files == b.files;
  }

  /** A second run of one plan moves nothing, in either mode, whether or not every run verifies. */
  lemma {:induction false} SecondDedupChangesNothing(cfg: Config, idx: Index, s: State, trace: seq<Event>,
                                                     cfg': Config, s': State, trace': seq<Event>)
    requires Completes(cfg, idx, s, trace) && Completes(cfg', idx, s', trace')
    requires SameList(cfg.files, cfg'.files) && (cfg.opts.dryRun ==> cfg'.opts.dryRun)
    requires s'.store == End(cfg, idx, s, trace).store
    ensures End(cfg', idx, s', trace').store == s'.store
  {
    var t, t' := s'.store, End(cfg', idx, s', trace').store;
    SamePlan(idx, cfg.files, cfg'.files, cfg.plan, cfg'.plan);
    EndIsComplete(cfg, idx, s, trace);
    EndIsComplete(cfg', idx, s', trace');
    forall l: Loc ensures BlockAt(t, l) == BlockAt(t', l) {
      if k, i: nat :| HasRun(cfg.plan, k, i) && Covers(cfg.plan[k][i], l) {
        SameMatching(cfg, cfg', View(s.store), k, i);
        FinalBlocks(cfg, idx, s, trace, k, i, l);
        FinalBlocks(cfg', idx, s', trace', k, i, l);
      } else {
        UncoveredBlocks(cfg', idx, s', trace', l);
      }
    }
    SamePointers(t, t');
  }

  /** After a dedup, a second scan with truthful hashes finds the same index and the same plan, and moves nothing. */
  lemma RescanChangesNothing(cfg: Config, get: Get, s: State, trace: seq<Event>,
                             cfg': Config, get': Get, s': State, trace': seq<Event>, xxh: Xxh)
    requires Completes(cfg, NaiveIndex(cfg.files, get), s, trace)
    requires Completes(cfg', NaiveIndex(cfg'.files, get'), s', trace')
    requires Truthful(cfg, get, View(s.store), xxh) && Truthful(cfg', get', View(s'.store), xxh)
    requires SameList(cfg.files, cfg'.files) && (cfg.opts.dryRun ==> cfg'.opts.dryRun)
    requires s'.store == End(cfg, NaiveIndex(cfg.files, get), s, trace).store
    ensures cfg'.plan == cfg.plan && End(cfg', NaiveIndex(cfg'.files, get'), s', trace').store == s'.store
  {
    var idx := NaiveIndex(cfg.files, get);
    EndIsComplete(cfg, idx, s, trace);
    SameIndex(cfg, cfg', get, get', View(s.store), xxh);
    SamePlan(idx, cfg.files, cfg'.files, cfg.plan, cfg'.plan);
    SecondDedupChangesNothing(cfg, idx, s, trace, cfg', s', trace');
  }

  // ---- the files in any order --------------------------------------------------------------

  ghost predicate RelistedAt(cfg: Config, st: Store, cfg': Config, st': Store, f: nat, g: nat)
    requires f < |cfg'.files|
  {
    && g < |cfg.files| && f in st'.files && g in st.files && st'.files[f] == st.files[g]
    && cfg'.files[f].blksz == cfg.files[g].blksz && cfg'.files[f].size == cfg.files[g].size
  }

  /** File `f` of the second list is file `pos[f]` of the first, on the same blocks. */
  ghost predicate Relisted(cfg: Config, st: Store, cfg': Config, st': Store, pos: seq<nat>) {
    && |pos| == |cfg'.files| && st'.data == st.data
    && forall f: nat :: f < |pos| ==> RelistedAt(cfg, st, cfg', st', f, pos[f])
  }

  function Was(pos: seq<nat>, l: Loc): Loc
    requires l.file < |pos|
  {
    Loc(pos[l.file], l.chunk)
  }

  lemma SameChunkBytes(cfg: Config, st: Store, cfg': Config, st': Store, pos: seq<nat>, l: Loc)
    requires Wf(st) && Wf(st') && Relisted(cfg, st, cfg', st', pos) && HasChunk(cfg', View(st'), l)
    ensures l.file < |pos| && HasChunk(cfg, View(st), Was(pos, l))
    ensures ChunkBytes(cfg', View(st'), l) == ChunkBytes(cfg, View(st), Was(pos, l))
    ensures BlockAt(st', l) == BlockAt(st, Was(pos, l))
  {
    assert RelistedAt(cfg, st, cfg', st', l.file, pos[l.file]);
  }

  lemma RelistedCollisionFree(cfg: Config, st: Store, cfg': Config, st': Store, pos: seq<nat>, xxh: Xxh)
    requires Wf(st) && Wf(st') && Relisted(cfg, st, cfg', st', pos) && CollisionFree(cfg, View(st), xxh)
    ensures CollisionFree(cfg', View(st'), xxh)
  {
    forall a: Loc, b: Loc ensures NoCollision(cfg', View(st'), xxh, a, b) {
      if HasChunk(cfg', View(st'), a) && HasChunk(cfg', View(st'), b) {
        SameChunkBytes(cfg, st, cfg', st', pos, a);
        SameChunkBytes(cfg, st, cfg', st', pos, b);
        assert NoCollision(cfg, View(st), xxh, Was(pos, a), Was(pos, b));
      }
    }
  }

  /** Both sides of a planned pair are equal, non-zero chunks of one block size. */
  lemma PlannedPairAgrees(cfg: Config, get: Get, view: map<nat, seq<byte>>, xxh: Xxh, p: Pair)
    requires Good(cfg, NaiveIndex(cfg.files, get)) && Truthful(cfg, get, view, xxh) && CollisionFree(cfg, view, xxh)
    requires Planned(NaiveIndex(cfg.files, get), cfg.files, p)
    ensures HasChunk(cfg, view, p.0) && HasChunk(cfg, view, p.1)
    ensures cfg.files[p.0.file].blksz == cfg.files[p.1.file].blksz
    ensures ChunkBytes(cfg, view, p.0) == ChunkBytes(cfg, view, p.1) && !AllZero(ChunkBytes(cfg, view, p.0))
  {
    var idx := NaiveIndex(cfg.files, get);
    PlannedPairIsEqual(cfg, get, view, xxh, p);
    PlannedPairLens(idx, cfg.files, p);
    var key :| PlannedBy(idx, cfg.files, key, p);
    GroupMeaning(cfg.files, get, key);
    assert p.0 in idx[key];
    TrueKey(cfg, get, view, xxh, p.0);
  }

  /** A run of the second plan finds its two sides on the same blocks already. */
  lemma AlreadyShared(cfg: Config, get: Get, s: State, trace: seq<Event>, cfg': Config, get': Get, st': Store,
                      pos: seq<nat>, xxh: Xxh, p: Pair)
    requires Completes(cfg, NaiveIndex(cfg.files, get), s, trace) && !cfg.opts.dryRun
    requires Truthful(cfg, get, View(s.store), xxh) && CollisionFree(cfg, View(s.store), xxh)
    requires Wf(st') && Relisted(cfg, End(cfg, NaiveIndex(cfg.files, get), s, trace).store, cfg', st', pos)
    requires Good(cfg', NaiveIndex(cfg'.files, get')) && Truthful(cfg', get', View(st'), xxh)
    requires Planned(NaiveIndex(cfg'.files, get'), cfg'.files, p)
    ensures BlockAt(st', p.0) == BlockAt(st', p.1)
  {
    var t := End(cfg, NaiveIndex(cfg.files, get), s, trace).store;
    EndIsComplete(cfg, NaiveIndex(cfg.files, get), s, trace);
    RelistedCollisionFree(cfg, t, cfg', st', pos, xxh);
    PlannedPairAgrees(cfg', get', View(st'), xxh, p);
    SameChunkBytes(cfg, t, cfg', st', pos, p.0);
    SameChunkBytes(cfg, t, cfg', st', pos, p.1);
    assert RelistedAt(cfg, t, cfg', st', p.0.file, pos[p.0.file]);
    assert RelistedAt(cfg, t, cfg', st', p.1.file, pos[p.1.file]);
    EqualChunksShare(cfg, get, xxh, s, trace, Was(pos, p.0), Was(pos, p.1));
  }

  /** A run whose two sides are on the same blocks moves nothing. */
  lemma EqualSidesStay(cfg: Config, idx: Index, s: State, trace: seq<Event>, k: PairKey, i: nat, l: Loc)
    requires Completes(cfg, idx, s, trace) && HasRun(cfg.plan, k, i) && Covers(cfg.plan[k][i], l)
    requires BlockAt(s.store, SourceOf(cfg.plan[k][i], l)) == BlockAt(s.store, l)
    ensures BlockAt(End(cfg, idx, s, trace).store, l) == BlockAt(s.store, l)
  {
    FinalBlocks(cfg, idx, s, trace, k, i, l);
  }

  lemma CoveredPair(r: Run, l: Loc)
    requires Covers(r, l)
    ensures PairAt(r, l.chunk - r.dst.chunk) == (SourceOf(r, l), l)
  {
  }

  lemma PairIsPlanned(plan: Pairs, idx: Index, files: seq<Hashed>, k: PairKey, i: nat, j: nat, p: Pair)
    requires IsPlan(plan, idx, files) && HasRun(plan, k, i) && j < plan[k][i].chunks && p == PairAt(plan[k][i], j)
    ensures Planned(idx, files, p)
  {
    RunPairIsPlanned(plan, idx, files, k, i, j);
  }

  lemma CoveredIsPlanned(plan: Pairs, idx: Index, files: seq<Hashed>, k: PairKey, i: nat, l: Loc)
    requires IsPlan(plan, idx, files) && HasRun(plan, k, i) && Covers(plan[k][i], l)
    ensures Planned(idx, files, (SourceOf(plan[k][i], l), l))
  {
    CoveredPair(plan[k][i], l);
    PairIsPlanned(plan, idx, files, k, i, l.chunk - plan[k][i].dst.chunk, (SourceOf(plan[k][i], l), l));
  }

  lemma CoveredStays(cfg: Config, get: Get, s: State, trace: seq<Event>, cfg': Config, get': Get,
                     s': State, trace': seq<Event>, pos: seq<nat>, xxh: Xxh, k: PairKey, i: nat, l: Loc)
    requires Completes(cfg, NaiveIndex(cfg.files, get), s, trace) && !cfg.opts.dryRun
    requires Completes(cfg', NaiveIndex(cfg'.files, get'), s', trace')
    requires Truthful(cfg, get, View(s.store), xxh) && CollisionFree(cfg, View(s.store), xxh)
    requires Truthful(cfg', get', View(s'.store), xxh)
    requires Relisted(cfg, End(cfg, NaiveIndex(cfg.files, get), s, trace).store, cfg', s'.store, pos)
    requires HasRun(cfg'.plan, k, i) && Covers(cfg'.plan[k][i], l)
    ensures BlockAt(s'.store, l) == BlockAt(End(cfg', NaiveIndex(cfg'.files, get'), s', trace').store, l)
  {
    var idx' := NaiveIndex(cfg'.files, get');
    CoveredIsPlanned(cfg'.plan, idx', cfg'.files, k, i, l);
    AlreadyShared(cfg, get, s, trace, cfg', get', s'.store, pos, xxh, (SourceOf(cfg'.plan[k][i], l), l));
    EqualSidesStay(cfg', idx', s', trace', k, i, l);
  }

  /**
   * After a dedup from truthful hashes without collisions, a second scan that lists the files in any order, so with
   * other canonical chunks and another plan, still moves nothing.
   */
  lemma RelistedDedupChangesNothing(cfg: Config, get: Get, s: State, trace: seq<Event>, cfg': Config, get': Get,
                                    s': State, trace': seq<Event>, pos: seq<nat>, xxh: Xxh)
    requires Completes(cfg, NaiveIndex(cfg.files, get), s, trace) && !cfg.opts.dryRun
    requires Completes(cfg', NaiveIndex(cfg'.files, get'), s', trace')
    requires Truthful(cfg, get, View(s.store), xxh) && CollisionFree(cfg, View(s.store), xxh)
    requires Truthful(cfg', get', View(s'.store), xxh)
    requires Relisted(cfg, End(cfg, NaiveIndex(cfg.files, get), s, trace).store, cfg', s'.store, pos)
    ensures End(cfg', NaiveIndex(cfg'.files, get'), s', trace').store == s'.store
  {
    var idx' := NaiveIndex(cfg'.files, get');
    var t' := End(cfg', idx', s', trace').store;
    EndIsComplete(cfg', idx', s', trace');
    forall l: Loc ensures BlockAt(s'.store, l) == BlockAt(t', l) {
      if k, i: nat :| HasRun(cfg'.plan, k, i) && Covers(cfg'.plan[k][i], l) {
        CoveredStays(cfg, get, s, trace, cfg', get', s', trace', pos, xxh, k, i, l);
      } else {
        UncoveredBlocks(cfg', idx', s', trace', l);
      }
    }
    SamePointers(s'.store, t');
  }
}
