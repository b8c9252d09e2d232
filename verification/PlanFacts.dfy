/** What every plan guarantees: disjoint runs, equal lengths on both sides, and requests the kernel accepts. */
module PlanFacts {
  import opened Base
  import opened Hashing
  import opened DupIndex
  import opened Coalescing
  import opened RunPlanner

  // ---- runs and the pairs they expand to -----------------------------------------

  function Offset(rs: seq<Run>, i: nat): nat
    requires i <= |rs|
  {
    |ExpandAll(rs[..i])|
  }

  function PairAt(r: Run, j: nat): Pair {
    (At(r.src, j), At(r.dst, j))
  }

  lemma OffsetStep(rs: seq<Run>, i: nat)
    requires i < |rs|
    ensures Offset(rs, i + 1) == Offset(rs, i) + rs[i].chunks
  {
    assert rs[..i + 1][..i] == rs[..i];
  }

  lemma {:induction false} PositionOf(rs: seq<Run>, i: nat, j: nat)
    requires i < |rs| && j < rs[i].chunks
    ensures Offset(rs, i) + j < |ExpandAll(rs)|
    ensures ExpandAll(rs)[Offset(rs, i) + j] == PairAt(rs[i], j)
  {
    var n := |rs| - 1;
    if i == n {
      assert rs[..n] == rs[..i];
    } else {
      PositionOf(rs[..n], i, j);
      assert rs[..n][..i] == rs[..i];
    }
  }

  lemma {:induction false} OffsetsGrow(rs: seq<Run>, i: nat, i': nat)
    requires i < i' <= |rs|
    ensures Offset(rs, i) + rs[i].chunks <= Offset(rs, i')
  {
    OffsetStep(rs, i' - 1);
    if i + 1 < i' {
      OffsetsGrow(rs, i, i' - 1);
    }
  }

  lemma PairIsInARun(rs: seq<Run>, p: Pair) returns (i: nat, j: nat)
    requires p in ExpandAll(rs)
    ensures i < |rs| && j < rs[i].chunks && PairAt(rs[i], j) == p
  {
    i, j := RunWith(rs, p);
  }

  // ---- disjointness --------------------------------------------------------------

  predicate HasRun(plan: Pairs, k: PairKey, i: nat) {
    k in plan && i < |plan[k]|
  }

  lemma RunPairIsPlanned(plan: Pairs, idx: Index, files: seq<Hashed>, k: PairKey, i: nat, j: nat)
    requires IsPlan(plan, idx, files) && HasRun(plan, k, i) && j < plan[k][i].chunks
    ensures Planned(idx, files, PairAt(plan[k][i], j)) && KeyOf(files, PairAt(plan[k][i], j)) == k
  {
    PositionOf(plan[k], i, j);
    assert RunsOf(idx, files, k, plan[k]);
    assert PairAt(plan[k][i], j) in ExpandAll(plan[k]);
  }

  /** A destination chunk has one source and one block size. */
  lemma SourceIsUnique(idx: Index, files: seq<Hashed>, p: Pair, q: Pair)
    requires Grouped(idx, files) && Planned(idx, files, p) && Planned(idx, files, q) && p.1 == q.1
    ensures p == q
  {
  }

  /** No chunk is a source and a destination. */
  lemma SourceIsNoDestination(idx: Index, files: seq<Hashed>, p: Pair, q: Pair)
    requires Grouped(idx, files) && Planned(idx, files, p) && Planned(idx, files, q)
    ensures p.0 != q.1
  {
    var kp :| PlannedBy(idx, files, kp, p);
    var kq :| PlannedBy(idx, files, kq, q);
    var locs := idx[kq];
    var i :| 0 <= i < |locs[1..]| && locs[1..][i] == q.1;
    assert Before(locs[0], locs[i + 1]);
    assert p.0 in idx[kp] && q.1 in idx[kq];
  }

  /** The first chunk of a group is the destination of no pair. */
  lemma CanonicalIsNoDestination(idx: Index, files: seq<Hashed>, key: ChunkKey, q: Pair)
    requires Grouped(idx, files) && key in idx && Planned(idx, files, q)
    ensures q.1 != idx[key][0]
  {
  }

  /** Over all runs of all file pairs, no chunk is the destination of two. */
  lemma DestinationsAreDisjoint(plan: Pairs, idx: Index, files: seq<Hashed>,
                                k: PairKey, i: nat, j: nat, k': PairKey, i': nat, j': nat)
    requires Grouped(idx, files) && IsPlan(plan, idx, files)
    requires HasRun(plan, k, i) && j < plan[k][i].chunks
    requires HasRun(plan, k', i') && j' < plan[k'][i'].chunks
    requires At(plan[k][i].dst, j) == At(plan[k'][i'].dst, j')
    ensures k == k' && i == i' && j == j'
  {
    RunPairIsPlanned(plan, idx, files, k, i, j);
    RunPairIsPlanned(plan, idx, files, k', i', j');
    SourceIsUnique(idx, files, PairAt(plan[k][i], j), PairAt(plan[k'][i'], j'));
    var rs := plan[k];
    assert RunsOf(idx, files, k, rs);
    PositionOf(rs, i, j);
    PositionOf(rs, i', j');
    if i < i' {
      OffsetsGrow(rs, i, i');
    } else if i' < i {
      OffsetsGrow(rs, i', i);
    }
  }

  /** Over all runs of all file pairs, no chunk is both a source and a destination. */
  lemma SourcesAreNotWritten(plan: Pairs, idx: Index, files: seq<Hashed>,
                             k: PairKey, i: nat, j: nat, k': PairKey, i': nat, j': nat)
    requires Grouped(idx, files) && IsPlan(plan, idx, files)
    requires HasRun(plan, k, i) && j < plan[k][i].chunks
    requires HasRun(plan, k', i') && j' < plan[k'][i'].chunks
    ensures At(plan[k][i].src, j) != At(plan[k'][i'].dst, j')
  {
    RunPairIsPlanned(plan, idx, files, k, i, j);
    RunPairIsPlanned(plan, idx, files, k', i', j');
    SourceIsNoDestination(idx, files, PairAt(plan[k][i], j), PairAt(plan[k'][i'], j'));
  }

  /** Every member of a group whose length is the canonical's, not zero, is the destination of a run. */
  lemma PlannedIsRun(plan: Pairs, idx: Index, files: seq<Hashed>, p: Pair) returns (i: nat, j: nat)
    requires IsPlan(plan, idx, files) && Planned(idx, files, p)
    ensures HasRun(plan, KeyOf(files, p), i)
    ensures j < plan[KeyOf(files, p)][i].chunks && PairAt(plan[KeyOf(files, p)][i], j) == p
  {
    var k := KeyOf(files, p);
    assert RunsOf(idx, files, k, plan[k]);
    i, j := PairIsInARun(plan[k], p);
  }

  // ---- lengths -------------------------------------------------------------------

  /** Bytes of `chunks` chunks from `first`, clipped by the file size. */
  function RunLen(size: nat, first: nat, chunks: nat, blksz: nat): nat {
    Min(SatSub(size, first * blksz), chunks * blksz)
  }

  function SumLens(size: nat, first: nat, chunks: nat, blksz: nat): nat {
    if chunks == 0 then 0
    else SumLens(size, first, chunks - 1, blksz) + ChunkLen(size, first + chunks - 1, blksz)
  }

  /** If the last chunk is not past the end, all before it are full and the run is the sum of its chunks. */
  lemma {:induction false} RunLenIsSum(size: nat, first: nat, chunks: nat, blksz: nat)
    requires chunks > 0 && ChunkLen(size, first + chunks - 1, blksz) > 0
    ensures RunLen(size, first, chunks, blksz) == SumLens(size, first, chunks, blksz)
    ensures RunLen(size, first, chunks, blksz)
            == (chunks - 1) * blksz + ChunkLen(size, first + chunks - 1, blksz)
    ensures forall c :: first <= c < first + chunks - 1 ==> ChunkLen(size, c, blksz) == blksz
  {
    var last := first + chunks - 1;
    assert last * blksz == first * blksz + (chunks - 1) * blksz;
    assert chunks * blksz == (chunks - 1) * blksz + blksz;
    if chunks == 1 {
    } else {
      assert last * blksz == (last - 1) * blksz + blksz;
      RunLenIsSum(size, first, chunks - 1, blksz);
    }
  }

  predicate SameLen(size: nat, size': nat, first: nat, first': nat, blksz: nat, j: nat) {
    ChunkLen(size, first + j, blksz) == ChunkLen(size', first' + j, blksz)
  }

  lemma {:induction false} SameLens(size: nat, size': nat, first: nat, first': nat, chunks: nat, blksz: nat)
    requires forall j: nat :: j < chunks ==> SameLen(size, size', first, first', blksz, j)
    ensures SumLens(size, first, chunks, blksz) == SumLens(size', first', chunks, blksz)
  {
    if chunks == 0 {
    } else {
      SameLens(size, size', first, first', chunks - 1, blksz);
      assert SameLen(size, size', first, first', blksz, chunks - 1);
    }
  }

  lemma PlannedPairLens(idx: Index, files: seq<Hashed>, p: Pair)
    requires Grouped(idx, files) && Planned(idx, files, p)
    ensures p.0.file < |files| && p.1.file < |files|
    ensures var k := KeyOf(files, p).blksz;
            files[p.0.file].blksz == k && LenOf(files, p.0, k) == LenOf(files, p.1, k) > 0
  {
  }

  /** Chunks `j` steps into two runs have one non-zero length if they are a planned pair. */
  predicate StepLens(files: seq<Hashed>, s: Loc, d: Loc, blksz: nat, j: nat) {
    && s.file < |files| && d.file < |files| && files[s.file].blksz == blksz == files[d.file].blksz
    && ChunkLen(files[s.file].size, s.chunk + j, blksz) == ChunkLen(files[d.file].size, d.chunk + j, blksz) > 0
  }

  lemma PlannedStepLens(idx: Index, files: seq<Hashed>, r: Run, k: PairKey, j: nat)
    requires Grouped(idx, files) && Planned(idx, files, PairAt(r, j)) && KeyOf(files, PairAt(r, j)) == k
    ensures StepLens(files, r.src, r.dst, k.blksz, j)
  {
    PlannedPairLens(idx, files, PairAt(r, j));
  }

  lemma RunFiles(plan: Pairs, idx: Index, files: seq<Hashed>, k: PairKey, i: nat, j: nat)
    requires IsPlan(plan, idx, files) && HasRun(plan, k, i) && j < plan[k][i].chunks
    ensures Planned(idx, files, PairAt(plan[k][i], j)) && KeyOf(files, PairAt(plan[k][i], j)) == k
    ensures plan[k][i].src.file == k.src && plan[k][i].dst.file == k.dst < |files| && files[k.dst].blksz == k.blksz
  {
    RunPairIsPlanned(plan, idx, files, k, i, j);
  }

  lemma PlannedLens(plan: Pairs, idx: Index, files: seq<Hashed>, k: PairKey, i: nat, j: nat)
    requires Grouped(idx, files) && IsPlan(plan, idx, files) && HasRun(plan, k, i) && j < plan[k][i].chunks
    ensures plan[k][i].src.file == k.src && plan[k][i].dst.file == k.dst
    ensures StepLens(files, plan[k][i].src, plan[k][i].dst, k.blksz, j)
  {
    RunFiles(plan, idx, files, k, i, j);
    PlannedStepLens(idx, files, plan[k][i], k, j);
  }

  lemma RunIsCapped(plan: Pairs, idx: Index, files: seq<Hashed>, k: PairKey, i: nat)
    requires IsPlan(plan, idx, files) && HasRun(plan, k, i)
    ensures Capped(plan[k][i], k.blksz)
  {
  }

  lemma EqualLens(size: nat, size': nat, first: nat, first': nat, chunks: nat, blksz: nat)
    requires chunks > 0 && ChunkLen(size, first + chunks - 1, blksz) > 0
    requires forall j: nat :: j < chunks ==> SameLen(size, size', first, first', blksz, j)
    ensures RunLen(size, first, chunks, blksz) == RunLen(size', first', chunks, blksz) > 0
    ensures RunLen(size, first, chunks, blksz) == SumLens(size, first, chunks, blksz)
    ensures RunLen(size', first', chunks, blksz) == SumLens(size', first', chunks, blksz)
  {
    assert SameLen(size, size', first, first', blksz, chunks - 1);
    RunLenIsSum(size, first, chunks, blksz);
    RunLenIsSum(size', first', chunks, blksz);
    SameLens(size, size', first, first', chunks, blksz);
  }

  /** The shrink check never rejects a planned run; its length is the sum of its chunks on either side. */
  lemma RunLensAgree(plan: Pairs, idx: Index, files: seq<Hashed>, k: PairKey, i: nat)
    requires Grouped(idx, files) && IsPlan(plan, idx, files) && HasRun(plan, k, i)
    ensures plan[k][i].chunks > 0 && k.src < |files| && k.dst < |files|
    ensures var r := plan[k][i];
            var len := RunLen(files[k.src].size, r.src.chunk, r.chunks, k.blksz);
            && len == RunLen(files[k.dst].size, r.dst.chunk, r.chunks, k.blksz) > 0
            && len == SumLens(files[k.src].size, r.src.chunk, r.chunks, k.blksz)
            && len == SumLens(files[k.dst].size, r.dst.chunk, r.chunks, k.blksz)
  {
    var r := plan[k][i];
    RunIsCapped(plan, idx, files, k, i);
    PlannedLens(plan, idx, files, k, i, r.chunks - 1);
    forall j: nat | j < r.chunks
      ensures SameLen(files[k.src].size, files[k.dst].size, r.src.chunk, r.dst.chunk, k.blksz, j)
    {
      PlannedLens(plan, idx, files, k, i, j);
    }
    EqualLens(files[k.src].size, files[k.dst].size, r.src.chunk, r.dst.chunk, r.chunks, k.blksz);
  }
}
