/** Runs of consecutive duplicate chunks (`coalesce` in src/dedup.rs): exact, capped and as few as possible. */
module Coalescing {
  import opened Base
  import opened DupIndex

  // `chunks` consecutive chunks of one file that duplicate as many of another.
  datatype Run = Run(src: Loc, dst: Loc, chunks: nat)

  // One (source chunk, destination chunk).
  type Pair = (Loc, Loc)

  const MAX_RUN_BYTES: nat := 0x100_0000 // 16 << 20

  function At(l: Loc, j: nat): Loc {
    Loc(l.file, l.chunk + j)
  }

  /** The chunk pairs of `n` consecutive chunks on both sides. */
  function Steps(src: Loc, dst: Loc, n: nat): (ps: seq<Pair>)
    ensures |ps| == n
    ensures forall j :: 0 <= j < n ==> ps[j] == (At(src, j), At(dst, j))
  {
    if n == 0 then [] else Steps(src, dst, n - 1) + [(At(src, n - 1), At(dst, n - 1))]
  }

  /** The chunk pairs a run stands for. */
  function Expand(r: Run): seq<Pair> {
    Steps(r.src, r.dst, r.chunks)
  }

  function ExpandAll(rs: seq<Run>): seq<Pair> {
    if rs == [] then [] else ExpandAll(rs[..|rs| - 1]) + Expand(rs[|rs| - 1])
  }

  predicate Capped(r: Run, blksz: nat) {
    r.chunks > 0 && (r.chunks > 1 ==> r.chunks * blksz <= MAX_RUN_BYTES)
  }

  predicate AllCapped(rs: seq<Run>, blksz: nat) {
    forall i :: 0 <= i < |rs| ==> Capped(rs[i], blksz)
  }

  /** All sources are in file `s`, all destinations in file `d`. */
  ghost predicate Between(ps: seq<Pair>, s: nat, d: nat) {
    forall i :: 0 <= i < |ps| ==> ps[i].0.file == s && ps[i].1.file == d
  }

  predicate SortedByDst(ps: seq<Pair>) {
    forall i, j :: 0 <= i < j < |ps| ==> ps[i].1.chunk < ps[j].1.chunk
  }

  // ---- the greedy merge, as a function of the sorted pairs -----------------------

  predicate Continues(last: Run, p: Pair, blksz: nat) {
    && p.0.chunk == last.src.chunk + last.chunks
    && p.1.chunk == last.dst.chunk + last.chunks
    && (last.chunks + 1) * blksz <= MAX_RUN_BYTES
  }

  function Extend(runs: seq<Run>, p: Pair, blksz: nat): seq<Run> {
    var n := |runs|;
    if n > 0 && Continues(runs[n - 1], p, blksz) then
      runs[..n - 1] + [runs[n - 1].(chunks := runs[n - 1].chunks + 1)]
    else
      runs + [Run(p.0, p.1, 1)]
  }

  function Greedy(ps: seq<Pair>, blksz: nat): seq<Run> {
    if ps == [] then [] else Extend(Greedy(ps[..|ps| - 1], blksz), ps[|ps| - 1], blksz)
  }

  lemma ExpandGrown(r: Run)
    ensures Expand(r.(chunks := r.chunks + 1)) == Expand(r) + [(At(r.src, r.chunks), At(r.dst, r.chunks))]
  {
  }

  lemma ExpandAllSnoc(rs: seq<Run>, r: Run)
    ensures ExpandAll(rs + [r]) == ExpandAll(rs) + Expand(r)
  {
  }

  /** The last run of an exact cover ends in the last pair. */
  lemma LastPair(rs: seq<Run>, ps: seq<Pair>)
    requires ExpandAll(rs) == ps && rs != [] && rs[|rs| - 1].chunks > 0
    ensures var last := rs[|rs| - 1];
            ps != [] && ps[|ps| - 1] == (At(last.src, last.chunks - 1), At(last.dst, last.chunks - 1))
  {
  }

  lemma {:induction false} ExtendIsExact(runs: seq<Run>, p: Pair, blksz: nat)
    requires AllCapped(runs, blksz)
    requires runs != [] ==> p.0.file == runs[|runs| - 1].src.file && p.1.file == runs[|runs| - 1].dst.file
    ensures ExpandAll(Extend(runs, p, blksz)) == ExpandAll(runs) + [p] && AllCapped(Extend(runs, p, blksz), blksz)
  {
  }

  /** Expanding the runs gives back the pairs; every run is capped. */
  lemma {:induction false} GreedyIsExact(ps: seq<Pair>, blksz: nat, s: nat, d: nat)
    requires Between(ps, s, d)
    ensures ExpandAll(Greedy(ps, blksz)) == ps && AllCapped(Greedy(ps, blksz), blksz)
  {
    if ps == [] {
    } else {
      var n := |ps| - 1;
      GreedyIsExact(ps[..n], blksz, s, d);
      assert ps == ps[..n] + [ps[n]];
      var runs := Greedy(ps[..n], blksz);
      if runs != [] {
        assert Capped(runs[|runs| - 1], blksz);
        LastPair(runs, ps[..n]);
      }
      ExtendIsExact(runs, ps[n], blksz);
    }
  }

  /** Consecutive chunks become one run exactly if there is one, or they are at most 16 MiB. */
  lemma {:induction false} ConsecutiveIsOneRun(src: Loc, dst: Loc, n: nat, blksz: nat)
    requires n > 0
    ensures Greedy(Steps(src, dst, n), blksz) == [Run(src, dst, n)] <==> n == 1 || n * blksz <= 16_777_216
  {
    var ps := Steps(src, dst, n);
    if n == 1 || n * blksz <= 16_777_216 {
      assert ps[..n - 1] == Steps(src, dst, n - 1);
      if n == 1 {
        assert Steps(src, dst, 0) == [];
        assert ps[0] == (src, dst);
      } else {
        MulMonotone(blksz, n - 1, n);
        ConsecutiveIsOneRun(src, dst, n - 1, blksz);
        assert ps[n - 1] == (At(src, n - 1), At(dst, n - 1));
      }
    } else {
      GreedyIsExact(ps, blksz, src.file, dst.file);
      assert !Capped(Run(src, dst, n), blksz);
      assert [Run(src, dst, n)][0] == Run(src, dst, n) && !AllCapped([Run(src, dst, n)], blksz);
    }
  }

  /** Dropping the last pair from a capped exact cover. */
  function Shrink(rs: seq<Run>): seq<Run>
    requires rs != [] && rs[|rs| - 1].chunks > 0
  {
    var last := rs[|rs| - 1];
    if last.chunks == 1 then rs[..|rs| - 1] else rs[..|rs| - 1] + [last.(chunks := last.chunks - 1)]
  }

  lemma {:induction false} ShrinkCovers(rs: seq<Run>, blksz: nat)
    requires rs != [] && AllCapped(rs, blksz)
    ensures AllCapped(Shrink(rs), blksz) && ExpandAll(rs) != []
    ensures ExpandAll(Shrink(rs)) == ExpandAll(rs)[..|ExpandAll(rs)| - 1]
  {
    var n := |rs| - 1;
    var last := rs[n];
    assert Capped(last, blksz);
    LastPair(rs, ExpandAll(rs));
    if last.chunks > 1 {
      var less := last.(chunks := last.chunks - 1);
      ExpandGrown(less);
      ExpandAllSnoc(rs[..n], less);
      assert last.chunks * blksz == less.chunks * blksz + blksz;
    }
  }

  ghost predicate NoWorse(a: seq<Run>, b: seq<Run>) {
    |a| < |b| || (|a| == |b| && (a == [] || a[|a| - 1].chunks <= b[|b| - 1].chunks))
  }

  /** If the pair grows a run of the other cover, it continues the last greedy run, unless that would be too long. */
  lemma {:induction false} GreedyKeepsUp(g: seq<Run>, rs: seq<Run>, ps: seq<Pair>, p: Pair, blksz: nat)
    requires ExpandAll(g) == ps && AllCapped(g, blksz)
    requires ExpandAll(rs) == ps + [p] && AllCapped(rs, blksz) && rs != [] && rs[|rs| - 1].chunks > 1
    ensures g != [] && (g[|g| - 1].chunks < rs[|rs| - 1].chunks ==> Continues(g[|g| - 1], p, blksz))
  {
    var last := rs[|rs| - 1];
    assert Capped(last, blksz);
    LastPair(rs, ps + [p]);
    ShrinkCovers(rs, blksz);
    assert (ps + [p])[..|ps|] == ps;
    LastPair(Shrink(rs), ps);
    assert g != [];
    var gl := g[|g| - 1];
    assert Capped(gl, blksz);
    LastPair(g, ps);
    assert p.0.chunk == gl.src.chunk + gl.chunks && p.1.chunk == gl.dst.chunk + gl.chunks;
    if gl.chunks < last.chunks {
      MulMonotone(blksz, gl.chunks + 1, last.chunks);
    }
  }

  /** If greedy is no worse before a pair, it is no worse after it, however the other cover takes the pair. */
  lemma {:induction false} ExtendIsNoWorse(g: seq<Run>, rs: seq<Run>, ps: seq<Pair>, p: Pair, blksz: nat)
    requires ExpandAll(g) == ps && AllCapped(g, blksz)
    requires ExpandAll(rs) == ps + [p] && AllCapped(rs, blksz) && rs != [] && rs[|rs| - 1].chunks > 0
    requires NoWorse(g, Shrink(rs))
    ensures NoWorse(Extend(g, p, blksz), rs)
  {
    if rs[|rs| - 1].chunks > 1 {
      GreedyKeepsUp(g, rs, ps, p, blksz);
    }
  }

  lemma {:induction false} ShorterCover(ps: seq<Pair>, rs: seq<Run>, blksz: nat)
    requires ExpandAll(rs) == ps && AllCapped(rs, blksz) && rs != []
    ensures ps != [] && rs[|rs| - 1].chunks > 0
    ensures ExpandAll(Shrink(rs)) == ps[..|ps| - 1] && AllCapped(Shrink(rs), blksz)
  {
    assert Capped(rs[|rs| - 1], blksz);
    ShrinkCovers(rs, blksz);
  }

  /** Among all capped exact covers the greedy one has the fewest runs, and then the shortest last run. */
  lemma {:induction false} GreedyIsOptimal(ps: seq<Pair>, rs: seq<Run>, blksz: nat, s: nat, d: nat)
    requires Between(ps, s, d) && ExpandAll(rs) == ps && AllCapped(rs, blksz)
    ensures NoWorse(Greedy(ps, blksz), rs)
    ensures |Greedy(ps, blksz)| <= |rs|
    decreases |ps|
  {
    if rs == [] {
    } else {
      ShorterCover(ps, rs, blksz);
      var n := |ps| - 1;
      var before := ps[..n];
      GreedyIsOptimal(before, Shrink(rs), blksz, s, d);
      GreedyIsExact(before, blksz, s, d);
      assert ps == before + [ps[n]];
      ExtendIsNoWorse(Greedy(before, blksz), rs, before, ps[n], blksz);
    }
  }

  // ---- covers listed in any order --------------------------------------------------

  lemma Regroup(a: seq<Pair>, b: seq<Pair>, c: seq<Pair>)
    ensures a + b + c == a + (b + c)
  {
  }

  lemma {:induction false} ExpandAllConcat(a: seq<Run>, b: seq<Run>)
    ensures ExpandAll(a + b) == ExpandAll(a) + ExpandAll(b)
  {
    if b == [] {
      assert a + b == a;
    } else {
      var less := b[..|b| - 1];
      ExpandAllConcat(a, less);
      assert (a + b)[..|a + b| - 1] == a + less;
      Regroup(ExpandAll(a), ExpandAll(less), Expand(b[|b| - 1]));
    }
  }

  lemma MiddleOut(a: seq<Pair>, m: seq<Pair>, b: seq<Pair>)
    ensures multiset(a + m + b) == multiset(a + b) + multiset(m)
  {
  }

  lemma OneRun(r: Run)
    ensures ExpandAll([r]) == Expand(r)
  {
    assert [r][..0] == [];
  }

  lemma AroundRun(a: seq<Run>, r: Run, b: seq<Run>)
    ensures ExpandAll(a + ([r] + b)) == ExpandAll(a) + Expand(r) + ExpandAll(b)
  {
    ExpandAllConcat(a, [r] + b);
    ExpandAllConcat([r], b);
    OneRun(r);
    Regroup(ExpandAll(a), Expand(r), ExpandAll(b));
  }

  lemma MiddleRunOut(rs: seq<Run>, a: seq<Run>, r: Run, b: seq<Run>)
    requires rs == a + ([r] + b)
    ensures multiset(ExpandAll(rs)) == multiset(ExpandAll(a + b)) + multiset(Expand(r))
  {
    AroundRun(a, r, b);
    ExpandAllConcat(a, b);
    MiddleOut(ExpandAll(a), Expand(r), ExpandAll(b));
  }

  lemma {:induction false} RunWith(rs: seq<Run>, p: Pair) returns (x: nat, j: nat)
    requires p in ExpandAll(rs)
    ensures x < |rs| && j < rs[x].chunks && Expand(rs[x])[j] == p
  {
    var n := |rs| - 1;
    if p in Expand(rs[n]) {
      x := n;
      j :| 0 <= j < |Expand(rs[n])| && Expand(rs[n])[j] == p;
    } else {
      assert p in ExpandAll(rs[..n]);
      x, j := RunWith(rs[..n], p);
    }
  }

  lemma {:induction false} RunPairsIn(rs: seq<Run>, x: nat, j: nat)
    requires x < |rs| && j < rs[x].chunks
    ensures Expand(rs[x])[j] in ExpandAll(rs)
  {
    if x == |rs| - 1 {
    } else {
      RunPairsIn(rs[..|rs| - 1], x, j);
    }
  }

  predicate InPairs(ps: seq<Pair>, r: Run, j: nat)
    requires j < r.chunks
  {
    Expand(r)[j] in ps
  }

  lemma NextInOrder(ps: seq<Pair>, x: nat, y: nat)
    requires SortedByDst(ps) && x < |ps| && y < |ps| && ps[y].1.chunk == ps[x].1.chunk + 1
    ensures x + 1 == y
  {
    assert x < y;
    var between := ps[x + 1];
  }

  /** In sorted pairs, a run whose last pair is the last ends them. */
  lemma {:induction false} RunIsTail(ps: seq<Pair>, r: Run, t: nat)
    requires SortedByDst(ps) && ps != [] && t < r.chunks && Expand(r)[r.chunks - 1] == ps[|ps| - 1]
    requires forall j: nat :: j < r.chunks ==> InPairs(ps, r, j)
    ensures t < |ps| && ps[|ps| - 1 - t] == Expand(r)[r.chunks - 1 - t]
  {
    if t == 0 {
    } else {
      RunIsTail(ps, r, t - 1);
      var m := r.chunks - 1 - t;
      assert InPairs(ps, r, m);
      var x :| 0 <= x < |ps| && ps[x] == Expand(r)[m];
      NextInOrder(ps, x, |ps| - t);
    }
  }

  /** The run that holds the last of the sorted pairs ends with it. */
  lemma EndsInLast(ps: seq<Pair>, r: Run, j: nat)
    requires SortedByDst(ps) && ps != [] && j < r.chunks && Expand(r)[j] == ps[|ps| - 1]
    requires InPairs(ps, r, r.chunks - 1)
    ensures j == r.chunks - 1
  {
    var x :| 0 <= x < |ps| && ps[x] == Expand(r)[r.chunks - 1];
  }

  lemma TailIsRun(ps: seq<Pair>, r: Run, j: nat)
    requires SortedByDst(ps) && ps != [] && j < r.chunks && Expand(r)[j] == ps[|ps| - 1]
    requires forall j: nat :: j < r.chunks ==> InPairs(ps, r, j)
    ensures r.chunks <= |ps| && ps == ps[..|ps| - r.chunks] + Expand(r)
  {
    assert InPairs(ps, r, r.chunks - 1);
    EndsInLast(ps, r, j);
    RunIsTail(ps, r, r.chunks - 1);
    var tail := ps[|ps| - r.chunks..];
    forall i | 0 <= i < r.chunks ensures tail[i] == Expand(r)[i] {
      RunIsTail(ps, r, r.chunks - 1 - i);
    }
    assert tail == Expand(r);
  }

  lemma SameMembers(a: seq<Pair>, b: seq<Pair>, p: Pair)
    requires multiset(a) == multiset(b) && p in a
    ensures p in b
  {
    assert p in multiset(a);
  }

  lemma TakeBack(all: seq<Pair>, rest: seq<Pair>, before: seq<Pair>, tail: seq<Pair>)
    requires multiset(all) == multiset(rest) + multiset(tail) && multiset(all) == multiset(before + tail)
    ensures multiset(rest) == multiset(before)
  {
    assert multiset(before + tail) == multiset(before) + multiset(tail);
    assert multiset(rest) == multiset(all) - multiset(tail) && multiset(before) == multiset(all) - multiset(tail);
  }

  lemma RunInPairs(rs: seq<Run>, ps: seq<Pair>, x: nat)
    requires x < |rs| && multiset(ExpandAll(rs)) == multiset(ps)
    ensures forall i: nat :: i < rs[x].chunks ==> InPairs(ps, rs[x], i)
  {
    forall i: nat | i < rs[x].chunks ensures InPairs(ps, rs[x], i) {
      RunPairsIn(rs, x, i);
      SameMembers(ExpandAll(rs), ps, Expand(rs[x])[i]);
    }
  }

  /** The run of the last pair ends the pairs. */
  lemma LastRun(rs: seq<Run>, ps: seq<Pair>) returns (x: nat)
    requires SortedByDst(ps) && ps != [] && multiset(ExpandAll(rs)) == multiset(ps)
    ensures x < |rs| && rs[x].chunks <= |ps| && ps == ps[..|ps| - rs[x].chunks] + Expand(rs[x])
  {
    SameMembers(ps, ExpandAll(rs), ps[|ps| - 1]);
    var j: nat;
    x, j := RunWith(rs, ps[|ps| - 1]);
    RunInPairs(rs, ps, x);
    TailIsRun(ps, rs[x], j);
  }

  lemma Around(rs: seq<Run>, x: nat) returns (a: seq<Run>, b: seq<Run>)
    requires x < |rs|
    ensures rs == a + ([rs[x]] + b)
  {
    a, b := rs[..x], rs[x + 1..];
  }

  lemma NoPairsNoRuns(rs: seq<Run>)
    requires rs != [] ==> rs[0].chunks > 0
    requires multiset(ExpandAll(rs)) == multiset([])
    ensures rs == []
  {
    assert |ExpandAll(rs)| == |multiset(ExpandAll(rs))| == 0;
    if rs != [] {
      RunPairsIn(rs, 0, 0);
    }
  }

  ghost predicate HoldsExactly(rs: seq<Run>, ps: seq<Pair>, blksz: nat) {
    AllCapped(rs, blksz) && multiset(ExpandAll(rs)) == multiset(ps)
  }

  ghost predicate ListsExactly(rs: seq<Run>, ps: seq<Pair>, blksz: nat) {
    AllCapped(rs, blksz) && ExpandAll(rs) == ps
  }

  lemma CappedAround(a: seq<Run>, r: Run, b: seq<Run>, blksz: nat)
    requires AllCapped(a + ([r] + b), blksz)
    ensures AllCapped(a + b, blksz) && Capped(r, blksz)
  {
    var rs := a + ([r] + b);
    assert rs[|a|] == r;
    forall i | 0 <= i < |a + b| ensures Capped((a + b)[i], blksz) {
      assert (a + b)[i] == rs[if i < |a| then i else i + 1];
    }
  }

  lemma ListMore(rs: seq<Run>, r: Run, before: seq<Pair>, blksz: nat)
    requires ListsExactly(rs, before, blksz) && Capped(r, blksz)
    ensures ListsExactly(rs + [r], before + Expand(r), blksz)
  {
    ExpandAllSnoc(rs, r);
  }

  lemma HoldsLess(rs: seq<Run>, ps: seq<Pair>, a: seq<Run>, r: Run, b: seq<Run>, before: seq<Pair>, blksz: nat)
    requires HoldsExactly(rs, ps, blksz) && rs == a + ([r] + b) && ps == before + Expand(r)
    ensures HoldsExactly(a + b, before, blksz) && Capped(r, blksz)
  {
    CappedAround(a, r, b, blksz);
    MiddleRunOut(rs, a, r, b);
    TakeBack(ExpandAll(rs), ExpandAll(a + b), before, Expand(r));
  }

  /** Capped runs that hold exactly the sorted pairs can be listed in destination order. */
  lemma {:induction false} InOrder(rs: seq<Run>, ps: seq<Pair>, blksz: nat) returns (sorted: seq<Run>)
    requires SortedByDst(ps) && HoldsExactly(rs, ps, blksz)
    ensures ListsExactly(sorted, ps, blksz) && |sorted| == |rs|
    decreases |rs|
  {
    assert rs != [] ==> Capped(rs[0], blksz);
    if ps == [] {
      NoPairsNoRuns(rs);
      sorted := [];
    } else {
      var x := LastRun(rs, ps);
      var r := rs[x];
      var a, b := Around(rs, x);
      var before := ps[..|ps| - r.chunks];
      HoldsLess(rs, ps, a, r, b, before, blksz);
      sorted := InOrder(a + b, before, blksz);
      ListMore(sorted, r, before, blksz);
      sorted := sorted + [r];
    }
  }

  /** No capped runs that hold exactly the sorted pairs, in whatever order they are listed, are fewer. */
  lemma GreedyIsFewest(ps: seq<Pair>, rs: seq<Run>, blksz: nat, s: nat, d: nat)
    requires Between(ps, s, d) && SortedByDst(ps) && HoldsExactly(rs, ps, blksz)
    ensures |Greedy(ps, blksz)| <= |rs|
  {
    var sorted := InOrder(rs, ps, blksz);
    GreedyIsOptimal(ps, sorted, blksz, s, d);
  }

  // ---- the loop ------------------------------------------------------------------

  function Insert(p: Pair, ps: seq<Pair>): (r: seq<Pair>)
    ensures multiset(r) == multiset(ps) + multiset{p}
  {
    if ps == [] || p.1.chunk <= ps[0].1.chunk then [p] + ps
    else
      assert ps == [ps[0]] + ps[1..];
      [ps[0]] + Insert(p, ps[1..])
  }

  /** `sort_unstable_by_key` on the destination chunk. */
  function SortByDst(ps: seq<Pair>): (r: seq<Pair>)
    ensures multiset(r) == multiset(ps)
  {
    if ps == [] then []
    else
      assert ps == ps[..|ps| - 1] + [ps[|ps| - 1]];
      Insert(ps[|ps| - 1], SortByDst(ps[..|ps| - 1]))
  }

  lemma {:induction false} InsertSorted(p: Pair, ps: seq<Pair>)
    requires SortedByDst(ps) && forall q :: q in ps ==> q.1.chunk != p.1.chunk
    ensures SortedByDst(Insert(p, ps))
  {
    if ps != [] && p.1.chunk > ps[0].1.chunk {
      InsertSorted(p, ps[1..]);
      var r := Insert(p, ps[1..]);
      forall i | 0 <= i < |r| ensures ps[0].1.chunk < r[i].1.chunk {
        assert r[i] in multiset(r);
        assert r[i] == p || r[i] in ps[1..];
      }
    }
  }

  ghost predicate DistinctDst(ps: seq<Pair>) {
    forall i, j :: 0 <= i < j < |ps| ==> ps[i].1.chunk != ps[j].1.chunk
  }

  lemma {:induction false} SortSorts(ps: seq<Pair>)
    requires DistinctDst(ps)
    ensures SortedByDst(SortByDst(ps))
    ensures forall p :: p in SortByDst(ps) <==> p in ps
  {
    if ps == [] {
    } else {
      var n := |ps| - 1;
      SortSorts(ps[..n]);
      InsertSorted(ps[n], SortByDst(ps[..n]));
    }
    forall p ensures p in SortByDst(ps) <==> p in ps {
      assert p in multiset(SortByDst(ps)) <==> p in multiset(ps);
    }
  }

  /** A strictly sorted sequence is determined by its elements. */
  lemma {:induction false} SortedIsUnique(a: seq<Pair>, b: seq<Pair>)
    requires SortedByDst(a) && SortedByDst(b) && forall p :: p in a <==> p in b
    ensures a == b
  {
    if |b| > 0 {
      assert b[0] in a;
    }
    if a == [] {
    } else {
      assert a[|a| - 1] in b;
      var n, m := |a| - 1, |b| - 1;
      assert b[m] in a;
      assert a[n] == b[m];
      forall p ensures p in a[..n] <==> p in b[..m] {
        assert p in a <==> p in a[..n] || p == a[n];
        assert p in b <==> p in b[..m] || p == b[m];
      }
      SortedIsUnique(a[..n], b[..m]);
    }
  }

  /** `a + b` on 32 bits. */
  function Add32(a: nat, b: nat): nat {
    (a + b) % 0x1_0000_0000
  }

  ghost predicate Below32(ps: seq<Pair>) {
    forall i :: 0 <= i < |ps| ==> ps[i].0.chunk < U32_MAX && ps[i].1.chunk < U32_MAX
  }

  /** The test of the loop, with the 32-bit sums. */
  predicate Continues32(last: Run, p: Pair, blksz: nat) {
    && p.0.chunk == Add32(last.src.chunk, last.chunks)
    && p.1.chunk == Add32(last.dst.chunk, last.chunks)
    && (last.chunks + 1) * blksz <= MAX_RUN_BYTES
  }

  /** Below U32_MAX the 32-bit sum of a run's start and length does not wrap. */
  lemma {:induction false} NoWrap(ps: seq<Pair>, blksz: nat, p: Pair)
    requires Below32(ps) && Greedy(ps, blksz) != []
    ensures var runs := Greedy(ps, blksz);
            Continues32(runs[|runs| - 1], p, blksz) <==> Continues(runs[|runs| - 1], p, blksz)
  {
  }

  lemma MergeStep(ps: seq<Pair>, i: nat, blksz: nat)
    requires Below32(ps) && i < |ps|
    ensures var runs, n := Greedy(ps[..i], blksz), |Greedy(ps[..i], blksz)|;
            Greedy(ps[..i + 1], blksz)
            == if n > 0 && Continues32(runs[n - 1], ps[i], blksz)
               then runs[..n - 1] + [runs[n - 1].(chunks := runs[n - 1].chunks + 1)]
               else runs + [Run(ps[i].0, ps[i].1, 1)]
  {
    assert ps[..i + 1][..i] == ps[..i];
    if Greedy(ps[..i], blksz) != [] {
      NoWrap(ps[..i], blksz, ps[i]);
    }
  }

  method MergeSorted(sorted: seq<Pair>, blksz: u32) returns (runs: seq<Run>)
    requires Below32(sorted)
    ensures runs == Greedy(sorted, blksz)
  {
    runs := [];
    var i := 0;
    while i < |sorted|
      invariant 0 <= i <= |sorted|
      invariant runs == Greedy(sorted[..i], blksz)
    {
      var (src, dst) := sorted[i];
      var n := |runs|;
      MergeStep(sorted, i, blksz);
      if n > 0 && Continues32(runs[n - 1], sorted[i], blksz) {
        runs := runs[..n - 1] + [runs[n - 1].(chunks := runs[n - 1].chunks + 1)];
      } else {
        runs := runs + [Run(src, dst, 1)];
      }
      i := i + 1;
    }
    assert sorted[..|sorted|] == sorted;
  }

  // `chunk` and `chunks` are 32 bits wide: below U32_MAX one past a run still fits.
  method Coalesce(locs: seq<Pair>, blksz: u32, ghost s: nat, ghost d: nat) returns (runs: seq<Run>)
    requires Between(locs, s, d) && DistinctDst(locs) && Below32(locs)
    ensures SortedByDst(ExpandAll(runs)) && multiset(ExpandAll(runs)) == multiset(locs)
    ensures runs == Greedy(ExpandAll(runs), blksz) && AllCapped(runs, blksz)
  {
    var sorted := SortByDst(locs);
    SortSorts(locs);
    SortKeeps(locs, s, d);
    runs := MergeSorted(sorted, blksz);
    GreedyIsExact(sorted, blksz, s, d);
  }

  lemma SortKeeps(locs: seq<Pair>, s: nat, d: nat)
    requires Between(locs, s, d) && Below32(locs) && forall p :: p in SortByDst(locs) <==> p in locs
    ensures Between(SortByDst(locs), s, d) && Below32(SortByDst(locs))
  {
    forall i | 0 <= i < |SortByDst(locs)| ensures SortByDst(locs)[i] in locs {
    }
  }
}
