/** From duplicate groups to per-file-pair runs (`build_runs` in src/dedup.rs), and what every plan guarantees. */
module RunPlanner {
  import opened Base
  import opened CacheTable
  import opened Hashing
  import opened DupIndex
  import opened Coalescing

  // (block size, source file, destination file)
  datatype PairKey = PairKey(blksz: u32, src: nat, dst: nat)

  type Pairs = map<PairKey, seq<Run>>

  // ---- what build_runs is given --------------------------------------------------

  /** Groups as the index has them: ordered, of one block size, and no chunk in two of them. */
  ghost predicate Grouped(idx: Index, files: seq<Hashed>) {
    && (forall key :: key in idx ==> |idx[key]| > 1 && Increasing(idx[key]))
    && (forall key, loc :: key in idx && loc in idx[key] ==> loc.file < |files| && files[loc.file].blksz == key.blksz)
    && (forall k1, k2, loc :: k1 in idx && k2 in idx && loc in idx[k1] && loc in idx[k2] ==> k1 == k2)
  }

  lemma NaiveIndexIsGrouped(files: seq<Hashed>, get: Get)
    ensures Grouped(NaiveIndex(files, get), files)
  {
    var idx := NaiveIndex(files, get);
    forall key | key in idx
      ensures |idx[key]| > 1 && Increasing(idx[key])
      ensures forall loc :: loc in idx[key] ==> KeyAt(files, get, loc) == Some(key)
    {
      GroupMeaning(files, get, key);
    }
  }

  // ---- specification -------------------------------------------------------------

  function LenOf(files: seq<Hashed>, loc: Loc, blksz: nat): nat
    requires loc.file < |files|
  {
    ChunkLen(files[loc.file].size, loc.chunk, blksz)
  }

  /** `p` pairs the canonical chunk of group `key` with another member of the same non-zero length. */
  ghost predicate PlannedBy(idx: Index, files: seq<Hashed>, key: ChunkKey, p: Pair) {
    && key in idx && idx[key] != [] && p.0 == idx[key][0] && p.1 in idx[key][1..]
    && p.0.file < |files| && p.1.file < |files|
    && LenOf(files, p.1, key.blksz) == LenOf(files, p.0, key.blksz) != 0
  }

  ghost predicate Planned(idx: Index, files: seq<Hashed>, p: Pair) {
    exists key :: PlannedBy(idx, files, key, p)
  }

  function KeyOf(files: seq<Hashed>, p: Pair): PairKey
    requires p.1.file < |files|
  {
    PairKey(files[p.1.file].blksz, p.0.file, p.1.file)
  }

  /** The runs of one file pair: the greedy merge of exactly its planned chunk pairs. */
  ghost predicate RunsOf(idx: Index, files: seq<Hashed>, k: PairKey, runs: seq<Run>) {
    var ps := ExpandAll(runs);
    && ps != [] && SortedByDst(ps) && runs == Greedy(ps, k.blksz) && AllCapped(runs, k.blksz)
    && forall p :: p in ps <==> Planned(idx, files, p) && KeyOf(files, p) == k
  }

  ghost predicate IsPlan(plan: Pairs, idx: Index, files: seq<Hashed>) {
    && (forall k :: k in plan ==> RunsOf(idx, files, k, plan[k]))
    && (forall p :: Planned(idx, files, p) ==> KeyOf(files, p) in plan)
  }

  /** There is one plan, whatever order the index was iterated in. */
  lemma PlanIsUnique(a: Pairs, b: Pairs, idx: Index, files: seq<Hashed>)
    requires IsPlan(a, idx, files) && IsPlan(b, idx, files)
    ensures a == b
  {
    assert forall k :: k in a ==> k in b by {
      forall k | k in a ensures k in b {
        assert ExpandAll(a[k])[0] in ExpandAll(a[k]);
      }
    }
    assert forall k :: k in b ==> k in a by {
      forall k | k in b ensures k in a {
        assert ExpandAll(b[k])[0] in ExpandAll(b[k]);
      }
    }
    forall k | k in a ensures a[k] == b[k] {
      SortedIsUnique(ExpandAll(a[k]), ExpandAll(b[k]));
    }
  }

  // ---- build_runs ----------------------------------------------------------------

  type Buckets = map<PairKey, seq<Pair>>

  function Select(ps: seq<Pair>, files: seq<Hashed>, k: PairKey): seq<Pair>
    requires forall p :: p in ps ==> p.1.file < |files|
  {
    if ps == [] then []
    else
      var n := |ps| - 1;
      Select(ps[..n], files, k) + (if KeyOf(files, ps[n]) == k then [ps[n]] else [])
  }

  ghost predicate InFiles(ps: seq<Pair>, files: seq<Hashed>) {
    forall p :: p in ps ==> p.1.file < |files|
  }

  ghost predicate Bucketed(acc: Buckets, ps: seq<Pair>, files: seq<Hashed>)
    requires InFiles(ps, files)
  {
    forall k :: if k in acc then acc[k] == Select(ps, files, k) != [] else Select(ps, files, k) == []
  }

  lemma BucketOne(acc: Buckets, ps: seq<Pair>, files: seq<Hashed>, p: Pair)
    requires InFiles(ps, files) && Bucketed(acc, ps, files) && p.1.file < |files|
    ensures InFiles(ps + [p], files)
    ensures var k := KeyOf(files, p);
            Bucketed(acc[k := (if k in acc then acc[k] else []) + [p]], ps + [p], files)
  {
  }

  ghost predicate DistinctLocs(ps: seq<Pair>) {
    forall i, j :: 0 <= i < j < |ps| ==> ps[i].1 != ps[j].1
  }

  lemma {:induction false} SelectMeaning(ps: seq<Pair>, files: seq<Hashed>, k: PairKey)
    requires InFiles(ps, files) && DistinctLocs(ps)
    ensures forall p :: p in Select(ps, files, k) <==> p in ps && KeyOf(files, p) == k
    ensures DistinctLocs(Select(ps, files, k))
  {
    if ps == [] {
    } else {
      var n := |ps| - 1;
      SelectMeaning(ps[..n], files, k);
      assert forall p :: p in ps <==> p in ps[..n] || p == ps[n];
      var rest := Select(ps[..n], files, k);
      forall i | 0 <= i < |rest| ensures rest[i].1 != ps[n].1 {
        assert rest[i] in ps[..n];
      }
    }
  }

  /** The pairs of a group's first `n` members. */
  ghost function GroupPairs(locs: seq<Loc>, files: seq<Hashed>, blksz: nat, n: nat): (ps: seq<Pair>)
    requires n <= |locs| && forall loc :: loc in locs ==> loc.file < |files|
  {
    if n <= 1 then []
    else
      GroupPairs(locs, files, blksz, n - 1)
      + (if LenOf(files, locs[n - 1], blksz) == LenOf(files, locs[0], blksz) != 0 then [(locs[0], locs[n - 1])] else [])
  }

  lemma {:induction false} GroupPairsMeaning(locs: seq<Loc>, files: seq<Hashed>, blksz: nat, n: nat)
    requires n <= |locs| && Increasing(locs) && forall loc :: loc in locs ==> loc.file < |files|
    ensures var ps := GroupPairs(locs, files, blksz, n);
            && (forall p :: p in ps <==> n > 1 && p.0 == locs[0] && p.1 in locs[1..n]
                                         && LenOf(files, p.1, blksz) == LenOf(files, p.0, blksz) != 0)
            && DistinctLocs(ps)
  {
    if n <= 1 {
    } else {
      GroupPairsMeaning(locs, files, blksz, n - 1);
      assert locs[1..n] == locs[1..n - 1] + [locs[n - 1]];
      var before := GroupPairs(locs, files, blksz, n - 1);
      forall i | 0 <= i < |before| ensures before[i].1 != locs[n - 1] {
        assert before[i] in before;
        assert before[i].1 in locs[1..n - 1];
      }
    }
  }

  ghost predicate FannedOut(idx: Index, files: seq<Hashed>, done: set<ChunkKey>, ps: seq<Pair>) {
    && InFiles(ps, files) && DistinctLocs(ps)
    && forall p :: p in ps <==> exists key :: key in done && PlannedBy(idx, files, key, p)
  }

  lemma {:induction false} FanOutOne(idx: Index, files: seq<Hashed>, done: set<ChunkKey>, ps: seq<Pair>, key: ChunkKey)
    requires Grouped(idx, files) && key in idx && key !in done && done <= idx.Keys
    requires FannedOut(idx, files, done, ps)
    ensures forall loc :: loc in idx[key] ==> loc.file < |files|
    ensures FannedOut(idx, files, done + {key}, ps + GroupPairs(idx[key], files, key.blksz, |idx[key]|))
  {
    var locs := idx[key];
    var more := GroupPairs(locs, files, key.blksz, |locs|);
    GroupPairsMeaning(locs, files, key.blksz, |locs|);
    assert locs[1..|locs|] == locs[1..];
    forall p ensures p in more <==> PlannedBy(idx, files, key, p) {
    }
    forall p ensures p in ps + more <==> exists k :: k in done + {key} && PlannedBy(idx, files, k, p) {
      assert p in ps + more <==> p in ps || p in more;
    }
    forall i, j | 0 <= i < |ps| && 0 <= j < |more| ensures ps[i].1 != more[j].1 {
      assert ps[i] in ps && more[j] in more;
      var k :| k in done && PlannedBy(idx, files, k, ps[i]);
      assert ps[i].1 in idx[k] && more[j].1 in idx[key];
    }
  }

  method FanOut(idx: Index, files: seq<Hashed>) returns (acc: Buckets, ghost ps: seq<Pair>)
    requires Grouped(idx, files)
    ensures FannedOut(idx, files, idx.Keys, ps) && Bucketed(acc, ps, files)
  {
    acc, ps := map[], [];
    var todo := idx.Keys;
    while todo != {}
      invariant todo <= idx.Keys
      invariant FannedOut(idx, files, idx.Keys - todo, ps) && Bucketed(acc, ps, files)
      decreases |todo|
    {
      var key :| key in todo; // in no particular order
      var locs := idx[key];
      FanOutOne(idx, files, idx.Keys - todo, ps, key);
      acc := FanOutGroup(acc, locs, files, key.blksz, ps);
      ps := ps + GroupPairs(locs, files, key.blksz, |locs|);
      assert idx.Keys - (todo - {key}) == (idx.Keys - todo) + {key};
      todo := todo - {key};
    }
    assert idx.Keys - todo == idx.Keys;
  }

  lemma GroupGrows(ps: seq<Pair>, locs: seq<Loc>, files: seq<Hashed>, blksz: nat, j: nat)
    requires 1 <= j < |locs| && forall loc :: loc in locs ==> loc.file < |files|
    ensures ps + GroupPairs(locs, files, blksz, j + 1)
            == if LenOf(files, locs[j], blksz) == LenOf(files, locs[0], blksz) != 0
               then ps + GroupPairs(locs, files, blksz, j) + [(locs[0], locs[j])]
               else ps + GroupPairs(locs, files, blksz, j)
  {
    Associate(ps, GroupPairs(locs, files, blksz, j), [(locs[0], locs[j])]);
  }

  method AddPair(acc0: Buckets, p: Pair, blksz: u32, ghost files: seq<Hashed>, ghost ps: seq<Pair>)
    returns (acc: Buckets)
    requires InFiles(ps, files) && Bucketed(acc0, ps, files)
    requires p.1.file < |files| && files[p.1.file].blksz == blksz
    ensures InFiles(ps + [p], files) && Bucketed(acc, ps + [p], files)
  {
    BucketOne(acc0, ps, files, p);
    var k := PairKey(blksz, p.0.file, p.1.file);
    acc := acc0[k := (if k in acc0 then acc0[k] else []) + [p]];
  }

  method FanOutGroup(acc0: Buckets, locs: seq<Loc>, files: seq<Hashed>, blksz: u32, ghost ps: seq<Pair>)
    returns (acc: Buckets)
    requires |locs| > 1 && forall loc :: loc in locs ==> loc.file < |files| && files[loc.file].blksz == blksz
    requires InFiles(ps, files) && Bucketed(acc0, ps, files)
    ensures InFiles(ps + GroupPairs(locs, files, blksz, |locs|), files)
    ensures Bucketed(acc, ps + GroupPairs(locs, files, blksz, |locs|), files)
  {
    acc := acc0;
    var src := locs[0];
    var srcLen := LenOf(files, src, blksz);
    ghost var all := ps;
    assert ps + [] == ps;
    if srcLen == 0 {
      NothingPastEof(locs, files, blksz, |locs|);
      return; // the chunk lies beyond the recorded size
    }
    var j := 1;
    while j < |locs|
      invariant 1 <= j <= |locs|
      invariant all == ps + GroupPairs(locs, files, blksz, j)
      invariant InFiles(all, files) && Bucketed(acc, all, files)
    {
      var dst := locs[j];
      GroupGrows(ps, locs, files, blksz, j);
      if LenOf(files, dst, blksz) == srcLen {
        acc := AddPair(acc, (src, dst), blksz, files, all);
        all := all + [(src, dst)];
      }
      j := j + 1;
    }
  }

  lemma {:induction false} NothingPastEof(locs: seq<Loc>, files: seq<Hashed>, blksz: nat, n: nat)
    requires 0 < |locs| && n <= |locs| && forall loc :: loc in locs ==> loc.file < |files|
    requires LenOf(files, locs[0], blksz) == 0
    ensures GroupPairs(locs, files, blksz, n) == []
  {
    if n <= 1 {
    } else {
      NothingPastEof(locs, files, blksz, n - 1);
    }
  }

  ghost predicate Narrow(idx: Index) {
    forall key, loc :: key in idx && loc in idx[key] ==> loc.chunk < U32_MAX
  }

  /** The pairs of one bucket are what `coalesce` expects. */
  lemma BucketIsFit(idx: Index, files: seq<Hashed>, ps: seq<Pair>, k: PairKey)
    requires Narrow(idx) && FannedOut(idx, files, idx.Keys, ps)
    ensures var b := Select(ps, files, k); Between(b, k.src, k.dst) && DistinctDst(b) && Below32(b)
    ensures forall p :: p in Select(ps, files, k) <==> Planned(idx, files, p) && KeyOf(files, p) == k
  {
    SelectMeaning(ps, files, k);
    var b := Select(ps, files, k);
    forall i | 0 <= i < |b|
      ensures b[i].0.file == k.src && b[i].1.file == k.dst && b[i].0.chunk < U32_MAX && b[i].1.chunk < U32_MAX
    {
      assert b[i] in ps;
      var key :| key in idx.Keys && PlannedBy(idx, files, key, b[i]);
      assert b[i].0 in idx[key] && b[i].1 in idx[key];
    }
    forall i, j | 0 <= i < j < |b| ensures b[i].1.chunk != b[j].1.chunk {
      assert b[i].1 != b[j].1 && b[i].1.file == b[j].1.file;
    }
    forall p ensures p in ps <==> Planned(idx, files, p) {
    }
  }

  lemma SameElements(a: seq<Pair>, b: seq<Pair>)
    requires multiset(a) == multiset(b)
    ensures forall p :: p in a <==> p in b
    ensures a == [] <==> b == []
  {
    forall p ensures p in a <==> p in b {
      assert p in multiset(a) <==> p in multiset(b);
    }
    assert |multiset(a)| == |a| && |multiset(b)| == |b|;
  }

  /** What `coalesce` is given for one file pair. */
  ghost predicate Fit(idx: Index, files: seq<Hashed>, k: PairKey, b: seq<Pair>) {
    && b != [] && Between(b, k.src, k.dst) && DistinctDst(b) && Below32(b)
    && forall p :: p in b <==> Planned(idx, files, p) && KeyOf(files, p) == k
  }

  ghost predicate AllFit(idx: Index, files: seq<Hashed>, acc: Buckets) {
    && (forall k :: k in acc ==> Fit(idx, files, k, acc[k]))
    && (forall p :: Planned(idx, files, p) ==> KeyOf(files, p) in acc)
  }

  lemma BucketsAreFit(idx: Index, files: seq<Hashed>, acc: Buckets, ps: seq<Pair>)
    requires Narrow(idx) && FannedOut(idx, files, idx.Keys, ps) && Bucketed(acc, ps, files)
    ensures AllFit(idx, files, acc)
  {
    forall k | k in acc ensures Fit(idx, files, k, acc[k]) {
      BucketIsFit(idx, files, ps, k);
    }
    forall p | Planned(idx, files, p) ensures KeyOf(files, p) in acc {
      PlannedIsBucketed(idx, files, acc, ps, p);
    }
  }

  /** A planned pair is in a bucket. */
  lemma PlannedIsBucketed(idx: Index, files: seq<Hashed>, acc: Buckets, ps: seq<Pair>, p: Pair)
    requires Narrow(idx) && FannedOut(idx, files, idx.Keys, ps) && Bucketed(acc, ps, files)
    requires Planned(idx, files, p)
    ensures KeyOf(files, p) in acc
  {
    BucketIsFit(idx, files, ps, KeyOf(files, p));
    assert p in Select(ps, files, KeyOf(files, p));
  }

  method CoalesceBucket(idx: Index, files: seq<Hashed>, k: PairKey, bucket: seq<Pair>) returns (runs: seq<Run>)
    requires Fit(idx, files, k, bucket)
    ensures RunsOf(idx, files, k, runs)
  {
    runs := Coalesce(bucket, k.blksz, k.src, k.dst);
    SameElements(ExpandAll(runs), bucket);
  }

  method CoalesceAll(idx: Index, files: seq<Hashed>, acc: Buckets) returns (pairs: Pairs)
    requires AllFit(idx, files, acc)
    ensures IsPlan(pairs, idx, files)
  {
    pairs := map[];
    var todo := acc.Keys;
    while todo != {}
      invariant todo <= acc.Keys && pairs.Keys == acc.Keys - todo
      invariant forall k :: k in pairs ==> RunsOf(idx, files, k, pairs[k])
      decreases |todo|
    {
      var k :| k in todo; // in no particular order
      var runs := CoalesceBucket(idx, files, k, acc[k]);
      pairs := pairs[k := runs];
      todo := todo - {k};
    }
  }

  method BuildRuns(idx: Index, files: seq<Hashed>) returns (pairs: Pairs)
    requires Grouped(idx, files) && Narrow(idx)
    ensures IsPlan(pairs, idx, files)
  {
    var acc, ps := FanOut(idx, files);
    BucketsAreFit(idx, files, acc, ps);
    pairs := CoalesceAll(idx, files, acc);
  }
}
