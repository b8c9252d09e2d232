/** Every clone or dedupe request of a plan meets the kernel's contract. */
module Requests {
  import opened Base
  import opened Hashing
  import opened DupIndex
  import opened RunPlanner
  import opened PlanFacts
  import opened BlockStore

  lemma MultipleOf(k: nat, c: nat)
    requires k > 0
    ensures (c * k) % k == 0
  {
    DivMod(k, c, 0);
    assert k * c + 0 == c * k;
  }

  /** A run of non-empty chunks lies inside its file, and is whole chunks or ends the file. */
  lemma RunInside(size: nat, first: nat, chunks: nat, blksz: nat)
    requires blksz > 0 && chunks > 0 && ChunkLen(size, first + chunks - 1, blksz) > 0
    ensures var len := RunLen(size, first, chunks, blksz);
            && first * blksz + len <= size && len <= chunks * blksz
            && (if ChunkLen(size, first + chunks - 1, blksz) == blksz then len == chunks * blksz
                else first * blksz + len == size)
  {
  }

  /** Within one file the source and the destination of a run never overlap. */
  lemma SameFileIsDisjoint(plan: Pairs, idx: Index, files: seq<Hashed>, k: PairKey, i: nat)
    requires Grouped(idx, files) && IsPlan(plan, idx, files) && HasRun(plan, k, i) && k.src == k.dst
    ensures var r := plan[k][i]; r.src.chunk + r.chunks <= r.dst.chunk || r.dst.chunk + r.chunks <= r.src.chunk
  {
    var r := plan[k][i];
    RunIsCapped(plan, idx, files, k, i);
    PlannedLens(plan, idx, files, k, i, 0);
    var s, d, n := r.src.chunk, r.dst.chunk, r.chunks;
    if s <= d < s + n {
      SourcesAreNotWritten(plan, idx, files, k, i, d - s, k, i, 0);
    } else if d <= s < d + n {
      SourcesAreNotWritten(plan, idx, files, k, i, 0, k, i, s - d);
    }
  }

  /** The two files as the kernel sees them are the two files of the list. */
  ghost predicate SeenAs(f: FileData, h: Hashed) {
    f.blksz == h.blksz && f.size == h.size
  }

  lemma Apart(s: nat, d: nat, n: nat, k: nat)
    requires s + n <= d || d + n <= s
    ensures s * k + n * k <= d * k || d * k + n * k <= s * k
  {
  }

  /** Two non-empty ranges of `n` chunks whose last chunks have one length. */
  lemma RangesAccepted(src: FileData, s: nat, dst: FileData, d: nat, n: nat, len: nat, sameFile: bool)
    requires dst.blksz > 0 && src.blksz == dst.blksz && n > 0
    requires ChunkLen(src.size, s + n - 1, dst.blksz) == ChunkLen(dst.size, d + n - 1, dst.blksz) > 0
    requires len == RunLen(src.size, s, n, dst.blksz) == RunLen(dst.size, d, n, dst.blksz)
    requires sameFile ==> s + n <= d || d + n <= s
    ensures Accepts(src, s * dst.blksz, dst, d * dst.blksz, len, sameFile)
  {
    var k := dst.blksz;
    RunInside(src.size, s, n, k);
    RunInside(dst.size, d, n, k);
    MultipleOf(k, s);
    MultipleOf(k, d);
    MultipleOf(k, n);
    if sameFile {
      Apart(s, d, n, k);
    }
  }

  ghost predicate BothFit(src: FileData, s: nat, dst: FileData, d: nat, n: nat, sameFile: bool) {
    && dst.blksz > 0 && src.blksz == dst.blksz && n > 0
    && ChunkLen(src.size, s + n - 1, dst.blksz) == ChunkLen(dst.size, d + n - 1, dst.blksz) > 0
    && RunLen(src.size, s, n, dst.blksz) == RunLen(dst.size, d, n, dst.blksz)
    && (sameFile ==> s + n <= d || d + n <= s)
  }

  lemma RunFits(plan: Pairs, idx: Index, files: seq<Hashed>, k: PairKey, i: nat, src: FileData, dst: FileData)
    requires Grouped(idx, files) && IsPlan(plan, idx, files) && HasRun(plan, k, i)
    requires k.src < |files| && k.dst < |files| && SeenAs(src, files[k.src]) && SeenAs(dst, files[k.dst])
    ensures dst.blksz == k.blksz
    ensures BothFit(src, plan[k][i].src.chunk, dst, plan[k][i].dst.chunk, plan[k][i].chunks, k.src == k.dst)
  {
    RunLensAgree(plan, idx, files, k, i);
    PlannedLens(plan, idx, files, k, i, plan[k][i].chunks - 1);
    if k.src == k.dst {
      SameFileIsDisjoint(plan, idx, files, k, i);
    }
  }

  /** What the kernel asks of a request for `n` chunks, and that its 64-bit sums do not overflow. */
  ghost predicate GoodRequest(src: FileData, s: nat, dst: FileData, d: nat, n: nat, sameFile: bool) {
    var k := dst.blksz;
    var len := RunLen(src.size, s, n, k);
    && Accepts(src, s * k, dst, d * k, len, sameFile)
    && s * k + len < TWO_64 && d * k + len < TWO_64
  }

  lemma FitIsGood(src: FileData, s: nat, dst: FileData, d: nat, n: nat, sameFile: bool)
    requires BothFit(src, s, dst, d, n, sameFile) && src.size < TWO_64 && dst.size < TWO_64
    ensures GoodRequest(src, s, dst, d, n, sameFile)
  {
    RangesAccepted(src, s, dst, d, n, RunLen(src.size, s, n, dst.blksz), sameFile);
  }

  /**
   * The request of every run is accepted: one block size, aligned offsets, an aligned length or two ends of file,
   * no overlap inside one file; and none of its 64-bit products overflows.
   */
  lemma RequestIsAccepted(plan: Pairs, idx: Index, files: seq<Hashed>, k: PairKey, i: nat, src: FileData, dst: FileData)
    requires Grouped(idx, files) && IsPlan(plan, idx, files) && HasRun(plan, k, i)
    requires k.src < |files| && k.dst < |files| && SeenAs(src, files[k.src]) && SeenAs(dst, files[k.dst])
    ensures dst.blksz == k.blksz
    ensures GoodRequest(src, plan[k][i].src.chunk, dst, plan[k][i].dst.chunk, plan[k][i].chunks, k.src == k.dst)
  {
    RunFits(plan, idx, files, k, i, src, dst);
    FitIsGood(src, plan[k][i].src.chunk, dst, plan[k][i].dst.chunk, plan[k][i].chunks, k.src == k.dst);
  }
}
