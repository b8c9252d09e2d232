/** What a complete dedup achieves: one block per duplicate class, and nothing left for a second dedup. */
module Sharing {
  import opened Base
  import opened CacheTable
  import opened Hashing
  import opened DupIndex
  import opened Coalescing
  import opened RunPlanner
  import opened PlanFacts
  import opened BlockStore
  import opened DedupSteps
  import opened Schedules

  ghost predicate AllMatch(cfg: Config, view: map<nat, seq<byte>>) {
    forall k, i: nat :: HasRun(cfg.plan, k, i) ==> Matching(cfg, view, k, i)
  }

  /** If every run verifies, a group member of the canonical's non-zero length points at the canonical's block. */
  lemma ClassPointsAtCanonical(cfg: Config, idx: Index, s: State, trace: seq<Event>, key: ChunkKey, m: Loc)
    requires Completes(cfg, idx, s, trace) && !cfg.opts.dryRun && AllMatch(cfg, View(s.store))
    requires key in idx && m in idx[key]
    requires idx[key][0].file < |cfg.files| && m.file < |cfg.files|
    requires LenOf(cfg.files, m, key.blksz) == LenOf(cfg.files, idx[key][0], key.blksz) != 0
    ensures BlockAt(End(cfg, idx, s, trace).store, m) == BlockAt(s.store, idx[key][0])
    ensures BlockAt(End(cfg, idx, s, trace).store, idx[key][0]) == BlockAt(s.store, idx[key][0])
  {
    var locs := idx[key];
    if m != locs[0] {
      PlannedMemberMoves(cfg, idx, s, trace, key, m);
    } else {
      CanonicalStays(cfg, idx, s, trace, key);
    }
  }

  lemma PlannedMemberMoves(cfg: Config, idx: Index, s: State, trace: seq<Event>, key: ChunkKey, m: Loc)
    requires Completes(cfg, idx, s, trace) && !cfg.opts.dryRun && AllMatch(cfg, View(s.store))
    requires key in idx && m in idx[key] && m != idx[key][0]
    requires idx[key][0].file < |cfg.files| && m.file < |cfg.files|
    requires LenOf(cfg.files, m, key.blksz) == LenOf(cfg.files, idx[key][0], key.blksz) != 0
    ensures BlockAt(End(cfg, idx, s, trace).store, m) == BlockAt(s.store, idx[key][0])
    ensures BlockAt(End(cfg, idx, s, trace).store, idx[key][0]) == BlockAt(s.store, idx[key][0])
  {
    var p := (idx[key][0], m);
    assert PlannedBy(idx, cfg.files, key, p);
    var k := KeyOf(cfg.files, p);
    var i, j := PlannedIsRun(cfg.plan, idx, cfg.files, p);
    assert Covers(cfg.plan[k][i], m) && SourceOf(cfg.plan[k][i], m) == idx[key][0];
    FinalBlocks(cfg, idx, s, trace, k, i, m);
  }

  /** The canonical chunk of a group is the destination of no run. */
  lemma CanonicalStays(cfg: Config, idx: Index, s: State, trace: seq<Event>, key: ChunkKey)
    requires Completes(cfg, idx, s, trace) && key in idx
    ensures BlockAt(End(cfg, idx, s, trace).store, idx[key][0]) == BlockAt(s.store, idx[key][0])
  {
    var l := idx[key][0];
    forall k, i: nat | HasRun(cfg.plan, k, i) ensures !Covers(cfg.plan[k][i], l) {
      if Covers(cfg.plan[k][i], l) {
        var j := l.chunk - cfg.plan[k][i].dst.chunk;
        RunPairIsPlanned(cfg.plan, idx, cfg.files, k, i, j);
        CanonicalIsNoDestination(idx, cfg.files, key, PairAt(cfg.plan[k][i], j));
      }
    }
    UncoveredBlocks(cfg, idx, s, trace, l);
  }

  // ---- with truthful hashes: equal chunks share ------------------------------------------

  ghost predicate HasChunk(cfg: Config, view: map<nat, seq<byte>>, l: Loc) {
    && l.file < |cfg.files| && l.file in view && cfg.files[l.file].blksz > 0
    && |view[l.file]| == cfg.files[l.file].size
    && l.chunk < NumChunks(|view[l.file]|, cfg.files[l.file].blksz)
  }

  ghost function ChunkBytes(cfg: Config, view: map<nat, seq<byte>>, l: Loc): (bytes: seq<byte>)
    requires HasChunk(cfg, view, l)
    ensures |bytes| == ChunkLen(cfg.files[l.file].size, l.chunk, cfg.files[l.file].blksz) > 0
  {
    ChunkSize(view[l.file], l.chunk, cfg.files[l.file].blksz);
    ChunkOf(view[l.file], l.chunk, cfg.files[l.file].blksz)
  }

  ghost predicate TrueHashes(cfg: Config, get: Get, view: map<nat, seq<byte>>, xxh: Xxh, f: nat)
    requires f < |cfg.files|
  {
    && f in view && cfg.files[f].blksz > 0 && |view[f]| == cfg.files[f].size
    && HashesOf(get, cfg.files[f]) == ChunkHashes(view[f], cfg.files[f].blksz, xxh)
  }

  /** The cache holds the hashes of the current contents. */
  ghost predicate Truthful(cfg: Config, get: Get, view: map<nat, seq<byte>>, xxh: Xxh) {
    forall f: nat :: f < |cfg.files| ==> TrueHashes(cfg, get, view, xxh, f)
  }

  ghost predicate NoCollision(cfg: Config, view: map<nat, seq<byte>>, xxh: Xxh, a: Loc, b: Loc) {
    HasChunk(cfg, view, a) && HasChunk(cfg, view, b)
    && !AllZero(ChunkBytes(cfg, view, a)) && !AllZero(ChunkBytes(cfg, view, b))
    ==> xxh(ChunkBytes(cfg, view, a)) != ZERO_HASH
        && (xxh(ChunkBytes(cfg, view, a)) == xxh(ChunkBytes(cfg, view, b)) ==>
          ChunkBytes(cfg, view, a) == ChunkBytes(cfg, view, b))
  }

  /** Among the chunks present the hash is injective, and misses the sentinel. */
  ghost predicate CollisionFree(cfg: Config, view: map<nat, seq<byte>>, xxh: Xxh) {
    forall a: Loc, b: Loc :: NoCollision(cfg, view, xxh, a, b)
  }

  /** Keys are the hashes of the non-zero chunks. */
  lemma TrueKey(cfg: Config, get: Get, view: map<nat, seq<byte>>, xxh: Xxh, l: Loc)
    requires Truthful(cfg, get, view, xxh) && CollisionFree(cfg, view, xxh)
    ensures KeyAt(cfg.files, get, l).Some? <==> HasChunk(cfg, view, l) && !AllZero(ChunkBytes(cfg, view, l))
    ensures KeyAt(cfg.files, get, l).Some? ==>
              KeyAt(cfg.files, get, l).value == ChunkKey(cfg.files[l.file].blksz, xxh(ChunkBytes(cfg, view, l)))
  {
    if l.file < |cfg.files| {
      assert TrueHashes(cfg, get, view, xxh, l.file);
      var blksz := cfg.files[l.file].blksz;
      if l.chunk < NumChunks(|view[l.file]|, blksz) {
        ChunkInBounds(|view[l.file]|, l.chunk, blksz);
        assert HasChunk(cfg, view, l) && NoCollision(cfg, view, xxh, l, l);
        assert HashesOf(get, cfg.files[l.file])[l.chunk] == HashOf(ChunkBytes(cfg, view, l), xxh);
      }
    }
  }

  lemma SameKeySameBytes(cfg: Config, get: Get, view: map<nat, seq<byte>>, xxh: Xxh, a: Loc, b: Loc)
    requires Truthful(cfg, get, view, xxh) && CollisionFree(cfg, view, xxh)
    requires KeyAt(cfg.files, get, a).Some? && KeyAt(cfg.files, get, a) == KeyAt(cfg.files, get, b)
    ensures HasChunk(cfg, view, a) && HasChunk(cfg, view, b)
    ensures ChunkBytes(cfg, view, a) == ChunkBytes(cfg, view, b)
  {
    TrueKey(cfg, get, view, xxh, a);
    TrueKey(cfg, get, view, xxh, b);
    assert NoCollision(cfg, view, xxh, a, b);
  }

  ghost predicate SameChunk(a: seq<byte>, s: nat, b: seq<byte>, d: nat, k: nat, j: nat) {
    && (s + j) * k <= |a| && (d + j) * k <= |b|
    && ChunkOf(a, s + j, k) == ChunkOf(b, d + j, k) != []
  }

  lemma SliceSplit(a: seq<byte>, off: nat, m: nat, n: nat)
    requires off + m + n <= |a|
    ensures a[off..off + m + n] == a[off..off + m] + a[off + m..off + m + n]
  {
  }

  /** A range of `n` chunks is its first `n - 1` whole chunks and its last one. */
  lemma RangeSplit(a: seq<byte>, s: nat, n: nat, k: nat)
    requires k > 0 && n > 0 && (s + n - 1) * k <= |a| && ChunkOf(a, s + n - 1, k) != []
    ensures s * k + RunLen(|a|, s, n, k) <= |a|
    ensures n > 1 ==> s * k + RunLen(|a|, s, n - 1, k) <= |a|
    ensures a[s * k..s * k + RunLen(|a|, s, n, k)]
            == (if n > 1 then a[s * k..s * k + RunLen(|a|, s, n - 1, k)] else []) + ChunkOf(a, s + n - 1, k)
  {
    var last := s + n - 1;
    var m, len := (n - 1) * k, ChunkLen(|a|, last, k);
    assert last * k == s * k + m;
    assert n * k == m + k;
    RunLenIsSum(|a|, s, n, k);
    SliceSplit(a, s * k, m, len);
  }

  /** The `n`-chunk ranges at chunks `s` of `a` and `d` of `b`, clipped by their ends, are equal. */
  ghost predicate SameRange(a: seq<byte>, s: nat, b: seq<byte>, d: nat, n: nat, k: nat) {
    && s * k + RunLen(|a|, s, n, k) <= |a| && d * k + RunLen(|b|, d, n, k) <= |b|
    && a[s * k..s * k + RunLen(|a|, s, n, k)] == b[d * k..d * k + RunLen(|b|, d, n, k)]
  }

  /** Ranges whose chunks are pairwise equal are equal. */
  lemma {:induction false} ChunkwiseEqual(a: seq<byte>, s: nat, b: seq<byte>, d: nat, n: nat, k: nat)
    requires k > 0 && n > 0 && forall j: nat :: j < n ==> SameChunk(a, s, b, d, k, j)
    ensures SameRange(a, s, b, d, n, k)
  {
    assert SameChunk(a, s, b, d, k, n - 1);
    RangeSplit(a, s, n, k);
    RangeSplit(b, d, n, k);
    if n <= 1 {
    } else {
      ChunkwiseEqual(a, s, b, d, n - 1, k);
    }
  }

  /** The two chunks of a planned pair hold the same bytes. */
  lemma PlannedPairIsEqual(cfg: Config, get: Get, view: map<nat, seq<byte>>, xxh: Xxh, p: Pair)
    requires Truthful(cfg, get, view, xxh) && CollisionFree(cfg, view, xxh)
    requires Planned(NaiveIndex(cfg.files, get), cfg.files, p)
    ensures HasChunk(cfg, view, p.0) && HasChunk(cfg, view, p.1)
    ensures ChunkBytes(cfg, view, p.0) == ChunkBytes(cfg, view, p.1)
  {
    var idx := NaiveIndex(cfg.files, get);
    var key :| PlannedBy(idx, cfg.files, key, p);
    GroupMeaning(cfg.files, get, key);
    assert p.0 in idx[key] && p.1 in idx[key];
    SameKeySameBytes(cfg, get, view, xxh, p.0, p.1);
  }

  lemma EqualBytesSameChunk(cfg: Config, view: map<nat, seq<byte>>, p: Pair, s: nat, d: nat, k: nat, j: nat)
    requires HasChunk(cfg, view, p.0) && HasChunk(cfg, view, p.1)
    requires ChunkBytes(cfg, view, p.0) == ChunkBytes(cfg, view, p.1)
    requires p.0.chunk == s + j && p.1.chunk == d + j
    requires cfg.files[p.0.file].blksz == k == cfg.files[p.1.file].blksz
    ensures SameChunk(view[p.0.file], s, view[p.1.file], d, k, j)
  {
  }

  lemma RunPairIsEqual(cfg: Config, get: Get, view: map<nat, seq<byte>>, xxh: Xxh, k: PairKey, i: nat, j: nat)
    requires Good(cfg, NaiveIndex(cfg.files, get)) && Truthful(cfg, get, view, xxh) && CollisionFree(cfg, view, xxh)
    requires HasRun(cfg.plan, k, i) && j < cfg.plan[k][i].chunks
    ensures k.src in view && k.dst in view && k.blksz > 0
    ensures SameChunk(view[k.src], cfg.plan[k][i].src.chunk, view[k.dst], cfg.plan[k][i].dst.chunk, k.blksz, j)
  {
    var r := cfg.plan[k][i];
    var p := PairAt(r, j);
    RunPairIsPlanned(cfg.plan, NaiveIndex(cfg.files, get), cfg.files, k, i, j);
    PlannedLens(cfg.plan, NaiveIndex(cfg.files, get), cfg.files, k, i, j);
    PlannedPairIsEqual(cfg, get, view, xxh, p);
    EqualBytesSameChunk(cfg, view, p, r.src.chunk, r.dst.chunk, k.blksz, j);
  }

  lemma EqualRangesMatch(cfg: Config, view: map<nat, seq<byte>>, k: PairKey, i: nat)
    requires Current(cfg, Begin(k, i)) && k.src in view && k.dst in view
    requires |view[k.src]| == cfg.files[k.src].size && |view[k.dst]| == cfg.files[k.dst].size
    requires LenOn(cfg, Begin(k, i), true) == LenOn(cfg, Begin(k, i), false)
    requires var r := cfg.plan[k][i];
             SameRange(view[k.src], r.src.chunk, view[k.dst], r.dst.chunk, r.chunks, k.blksz)
    ensures Matching(cfg, view, k, i)
  {
  }

  /** With truthful, collision-free hashes every run verifies. */
  lemma TruthfulRunsMatch(cfg: Config, get: Get, view: map<nat, seq<byte>>, xxh: Xxh, k: PairKey, i: nat)
    requires Good(cfg, NaiveIndex(cfg.files, get)) && Truthful(cfg, get, view, xxh) && CollisionFree(cfg, view, xxh)
    requires HasRun(cfg.plan, k, i)
    ensures Matching(cfg, view, k, i)
  {
    RunLensAgree(cfg.plan, NaiveIndex(cfg.files, get), cfg.files, k, i);
    assert TrueHashes(cfg, get, view, xxh, k.src) && TrueHashes(cfg, get, view, xxh, k.dst);
    RunRangesEqual(cfg, get, view, xxh, k, i);
    EqualRangesMatch(cfg, view, k, i);
  }

  lemma RunRangesEqual(cfg: Config, get: Get, view: map<nat, seq<byte>>, xxh: Xxh, k: PairKey, i: nat)
    requires Good(cfg, NaiveIndex(cfg.files, get)) && Truthful(cfg, get, view, xxh) && CollisionFree(cfg, view, xxh)
    requires HasRun(cfg.plan, k, i) && cfg.plan[k][i].chunks > 0
    ensures k.src in view && k.dst in view
    ensures var r := cfg.plan[k][i];
            SameRange(view[k.src], r.src.chunk, view[k.dst], r.dst.chunk, r.chunks, k.blksz)
  {
    var r := cfg.plan[k][i];
    RunPairIsEqual(cfg, get, view, xxh, k, i, 0);
    forall j: nat | j < r.chunks ensures SameChunk(view[k.src], r.src.chunk, view[k.dst], r.dst.chunk, k.blksz, j) {
      RunPairIsEqual(cfg, get, view, xxh, k, i, j);
    }
    ChunkwiseEqual(view[k.src], r.src.chunk, view[k.dst], r.dst.chunk, r.chunks, k.blksz);
  }

  /** A chunk whose key is in the index ends up on the block of that group's canonical chunk. */
  lemma IndexedChunkMoves(cfg: Config, get: Get, xxh: Xxh, s: State, trace: seq<Event>, l: Loc)
    requires Completes(cfg, NaiveIndex(cfg.files, get), s, trace) && !cfg.opts.dryRun
    requires Truthful(cfg, get, View(s.store), xxh) && CollisionFree(cfg, View(s.store), xxh)
    requires KeyAt(cfg.files, get, l).Some? && KeyAt(cfg.files, get, l).value in NaiveIndex(cfg.files, get)
    ensures BlockAt(End(cfg, NaiveIndex(cfg.files, get), s, trace).store, l)
            == BlockAt(s.store, NaiveIndex(cfg.files, get)[KeyAt(cfg.files, get, l).value][0])
  {
    var idx, key := NaiveIndex(cfg.files, get), KeyAt(cfg.files, get, l).value;
    GroupMeaning(cfg.files, get, key);
    var canonical := idx[key][0];
    assert canonical in idx[key] && l in idx[key];
    SameKeySameBytes(cfg, get, View(s.store), xxh, canonical, l);
    forall k, i: nat | HasRun(cfg.plan, k, i) ensures Matching(cfg, View(s.store), k, i) {
      TruthfulRunsMatch(cfg, get, View(s.store), xxh, k, i);
    }
    ClassPointsAtCanonical(cfg, idx, s, trace, key, l);
  }

  /**
   * From a truthful cache and without hash collisions, a complete run leaves any two equal non-zero chunks of one
   * block size on one block, and no reader can tell.
   */
  lemma EqualChunksShare(cfg: Config, get: Get, xxh: Xxh, s: State, trace: seq<Event>, a: Loc, b: Loc)
    requires Completes(cfg, NaiveIndex(cfg.files, get), s, trace) && !cfg.opts.dryRun
    requires Truthful(cfg, get, View(s.store), xxh) && CollisionFree(cfg, View(s.store), xxh)
    requires HasChunk(cfg, View(s.store), a) && HasChunk(cfg, View(s.store), b)
    requires cfg.files[a.file].blksz == cfg.files[b.file].blksz
    requires ChunkBytes(cfg, View(s.store), a) == ChunkBytes(cfg, View(s.store), b)
    requires !AllZero(ChunkBytes(cfg, View(s.store), a))
    ensures var t := End(cfg, NaiveIndex(cfg.files, get), s, trace).store;
            BlockAt(t, a) == BlockAt(t, b) && Wf(t) && View(t) == View(s.store)
  {
    var idx := NaiveIndex(cfg.files, get);
    EndIsComplete(cfg, idx, s, trace);
    TrueKey(cfg, get, View(s.store), xxh, a);
    TrueKey(cfg, get, View(s.store), xxh, b);
    if a != b {
      RepeatedIsIndexed(cfg.files, get, a, b);
      IndexedChunkMoves(cfg, get, xxh, s, trace, a);
      IndexedChunkMoves(cfg, get, xxh, s, trace, b);
    }
  }
}
