/** The duplicate index of src/dedup.rs: a Bloom-filtered two-pass group-by over the cached hashes. */
module DupIndex {
  import opened Base
  import opened BloomFilter
  import opened CacheTable
  import opened Hashing

  // One chunk of one file of the file list; both numbers are 32 bits wide in the index (see Indexable).
  datatype Loc = Loc(file: nat, chunk: nat)

  datatype ChunkKey = ChunkKey(blksz: u32, hash: ChunkHash)

  type Index = map<ChunkKey, seq<Loc>>

  ghost predicate Before(a: Loc, b: Loc) {
    a.file < b.file || (a.file == b.file && a.chunk < b.chunk)
  }

  ghost predicate Increasing(locs: seq<Loc>) {
    forall i, j :: 0 <= i < j < |locs| ==> Before(locs[i], locs[j])
  }

  // ---- specification: one pass over all non-zero chunks --------------------------

  datatype Occ = Occ(loc: Loc, key: ChunkKey)

  function HashesOf(get: Get, h: Hashed): (hashes: seq<ChunkHash>) {
    match get(h.Key())
    case Ok(Some(e)) => e.hashes
    case _ => []
  }

  ghost predicate Readable(files: seq<Hashed>, get: Get) {
    forall h :: h in files ==> get(h.Key()).Ok?
  }

  /** The numbers the index stores fit in 32 bits, with room for one past the last chunk. */
  ghost predicate Indexable(files: seq<Hashed>, get: Get) {
    |files| <= U32_MAX && forall h :: h in files ==> |HashesOf(get, h)| <= U32_MAX
  }

  /** The non-zero chunks among the first `n` hashes of file `fi`. */
  ghost function FileOccs(fi: nat, blksz: u32, hashes: seq<ChunkHash>, n: nat): (s: seq<Occ>)
    requires n <= |hashes|
  {
    if n == 0 then []
    else
      FileOccs(fi, blksz, hashes, n - 1)
      + (if hashes[n - 1] == ZERO_HASH then [] else [Occ(Loc(fi, n - 1), ChunkKey(blksz, hashes[n - 1]))])
  }

  /** All non-zero chunks of the first `n` files, in (file, chunk) order. */
  ghost function Stream(files: seq<Hashed>, get: Get, n: nat): (s: seq<Occ>)
    requires n <= |files|
  {
    if n == 0 then []
    else
      var h := files[n - 1];
      Stream(files, get, n - 1) + FileOccs(n - 1, h.blksz, HashesOf(get, h), |HashesOf(get, h)|)
  }

  lemma StreamStep(files: seq<Hashed>, get: Get, n: nat)
    requires n < |files|
    ensures Stream(files, get, n + 1)
            == Stream(files, get, n)
               + FileOccs(n, files[n].blksz, HashesOf(get, files[n]), |HashesOf(get, files[n])|)
  {
  }

  ghost function Locs(s: seq<Occ>, key: ChunkKey): (locs: seq<Loc>) {
    if s == [] then []
    else
      var n := |s| - 1;
      Locs(s[..n], key) + (if s[n].key == key then [s[n].loc] else [])
  }

  ghost function Keys(s: seq<Occ>): set<ChunkKey> {
    set o | o in s :: o.key
  }

  /** Group by key, drop the singletons. */
  ghost function NaiveIndex(files: seq<Hashed>, get: Get): Index
  {
    var s := Stream(files, get, |files|);
    map key | key in Keys(s) && |Locs(s, key)| > 1 :: Locs(s, key)
  }

  // ---- meaning of the specification ----------------------------------------------

  /** The key of a chunk, from the cached hashes alone; none for a zero chunk. */
  ghost function KeyAt(files: seq<Hashed>, get: Get, loc: Loc): Option<ChunkKey> {
    if loc.file >= |files| then None
    else
      var hashes := HashesOf(get, files[loc.file]);
      if loc.chunk >= |hashes| || hashes[loc.chunk] == ZERO_HASH then None
      else Some(ChunkKey(files[loc.file].blksz, hashes[loc.chunk]))
  }

  lemma LocsAppend(s: seq<Occ>, o: Occ, key: ChunkKey)
    ensures Locs(s + [o], key) == Locs(s, key) + (if o.key == key then [o.loc] else [])
  {
  }

  ghost predicate Ordered(s: seq<Occ>) {
    forall i, j :: 0 <= i < j < |s| ==> Before(s[i].loc, s[j].loc)
  }

  lemma FileOccsBefore(fi: nat, blksz: u32, hashes: seq<ChunkHash>, n: nat)
    requires n <= |hashes|
    ensures forall o :: o in FileOccs(fi, blksz, hashes, n) ==> Before(o.loc, Loc(fi, n))
  {
    FileOccsMeaning(fi, blksz, hashes, n);
  }

  lemma {:induction false} FileOccsOrdered(fi: nat, blksz: u32, hashes: seq<ChunkHash>, n: nat)
    requires n <= |hashes|
    ensures Ordered(FileOccs(fi, blksz, hashes, n))
  {
    if n == 0 {
    } else {
      var less := FileOccs(fi, blksz, hashes, n - 1);
      FileOccsBefore(fi, blksz, hashes, n - 1);
      FileOccsOrdered(fi, blksz, hashes, n - 1);
      OrderedSnoc(less, Occ(Loc(fi, n - 1), ChunkKey(blksz, hashes[n - 1])));
      assert less + [] == less;
    }
  }

  lemma OrderedSnoc(s: seq<Occ>, x: Occ)
    requires Ordered(s) && forall y :: y in s ==> Before(y.loc, x.loc)
    ensures Ordered(s + [x])
  {
  }

  lemma {:induction false} FileOccsMeaning(fi: nat, blksz: u32, hashes: seq<ChunkHash>, n: nat)
    requires n <= |hashes|
    ensures forall o :: o in FileOccs(fi, blksz, hashes, n) <==>
              && o.loc.file == fi && o.loc.chunk < n && hashes[o.loc.chunk] != ZERO_HASH
              && o.key == ChunkKey(blksz, hashes[o.loc.chunk])
  {
    if n == 0 {
    } else {
      FileOccsMeaning(fi, blksz, hashes, n - 1);
    }
  }

  lemma LastFileMeaning(files: seq<Hashed>, get: Get, n: nat, o: Occ)
    requires 0 < n <= |files|
    ensures o in FileOccs(n - 1, files[n - 1].blksz, HashesOf(get, files[n - 1]), |HashesOf(get, files[n - 1])|) <==>
              o.loc.file == n - 1 && KeyAt(files, get, o.loc) == Some(o.key)
  {
    var h := files[n - 1];
    FileOccsMeaning(n - 1, h.blksz, HashesOf(get, h), |HashesOf(get, h)|);
  }

  lemma OrderedConcat(a: seq<Occ>, b: seq<Occ>)
    requires Ordered(a) && Ordered(b)
    requires forall x, y :: x in a && y in b ==> Before(x.loc, y.loc)
    ensures Ordered(a + b)
  {
  }

  lemma {:induction false} StreamMember(files: seq<Hashed>, get: Get, n: nat, o: Occ)
    requires n <= |files|
    ensures o in Stream(files, get, n) <==> o.loc.file < n && KeyAt(files, get, o.loc) == Some(o.key)
  {
    if n == 0 {
    } else {
      StreamMember(files, get, n - 1, o);
      LastFileMeaning(files, get, n, o);
    }
  }

  lemma StreamsApart(files: seq<Hashed>, get: Get, n: nat, x: Occ, y: Occ)
    requires n < |files| && x in Stream(files, get, n)
    requires y in FileOccs(n, files[n].blksz, HashesOf(get, files[n]), |HashesOf(get, files[n])|)
    ensures Before(x.loc, y.loc)
  {
    StreamMember(files, get, n, x);
    FileOccsMeaning(n, files[n].blksz, HashesOf(get, files[n]), |HashesOf(get, files[n])|);
  }

  /** The occurrences of one more file come after all before them. */
  lemma StreamGrows(files: seq<Hashed>, get: Get, n: nat)
    requires n < |files| && Ordered(Stream(files, get, n))
    ensures Ordered(Stream(files, get, n + 1))
  {
    var before, h := Stream(files, get, n), files[n];
    var occs := FileOccs(n, h.blksz, HashesOf(get, h), |HashesOf(get, h)|);
    FileOccsOrdered(n, h.blksz, HashesOf(get, h), |HashesOf(get, h)|);
    forall x, y | x in before && y in occs ensures Before(x.loc, y.loc) {
      StreamsApart(files, get, n, x, y);
    }
    OrderedConcat(before, occs);
  }

  lemma {:induction false} StreamOrdered(files: seq<Hashed>, get: Get, n: nat)
    requires n <= |files|
    ensures Ordered(Stream(files, get, n))
  {
    if n == 0 {
    } else {
      StreamOrdered(files, get, n - 1);
      StreamGrows(files, get, n - 1);
    }
  }

  lemma {:induction false} LocsMeaning(s: seq<Occ>, key: ChunkKey)
    requires Ordered(s)
    ensures Increasing(Locs(s, key))
    ensures forall loc :: loc in Locs(s, key) <==> Occ(loc, key) in s
  {
    if s == [] {
    } else {
      var n := |s| - 1;
      LocsMeaning(s[..n], key);
      assert forall o :: o in s <==> o in s[..n] || o == s[n];
      forall i | 0 <= i < |Locs(s[..n], key)| && s[n].key == key
        ensures Before(Locs(s[..n], key)[i], s[n].loc)
      {
        assert Occ(Locs(s[..n], key)[i], key) in s[..n];
      }
    }
  }

  lemma KeyMeaning(files: seq<Hashed>, get: Get, key: ChunkKey)
    ensures var locs := Locs(Stream(files, get, |files|), key);
            Increasing(locs) && forall loc :: loc in locs <==> KeyAt(files, get, loc) == Some(key)
  {
    var s := Stream(files, get, |files|);
    StreamOrdered(files, get, |files|);
    LocsMeaning(s, key);
    forall loc ensures loc in Locs(s, key) <==> KeyAt(files, get, loc) == Some(key) {
      StreamMember(files, get, |files|, Occ(loc, key));
    }
  }

  /** A group of the index: all chunks with that key, in (file, chunk) order, and at least two of them. */
  lemma GroupMeaning(files: seq<Hashed>, get: Get, key: ChunkKey)
    requires key in NaiveIndex(files, get)
    ensures var locs := NaiveIndex(files, get)[key];
            |locs| > 1 && Increasing(locs) && forall loc :: loc in locs <==> KeyAt(files, get, loc) == Some(key)
  {
    KeyMeaning(files, get, key);
  }

  /** Two chunks with one key put that key into the index. */
  lemma RepeatedIsIndexed(files: seq<Hashed>, get: Get, a: Loc, b: Loc)
    requires a != b
    requires KeyAt(files, get, a).Some? && KeyAt(files, get, a) == KeyAt(files, get, b)
    ensures KeyAt(files, get, a).value in NaiveIndex(files, get)
  {
    var key := KeyAt(files, get, a).value;
    var s := Stream(files, get, |files|);
    KeyMeaning(files, get, key);
    var locs := Locs(s, key);
    var i :| 0 <= i < |locs| && locs[i] == a;
    var j :| 0 <= j < |locs| && locs[j] == b;
    assert |locs| > 1;
    NoLocs(s, key);
  }

  lemma {:induction false} NoLocs(s: seq<Occ>, key: ChunkKey)
    ensures key in Keys(s) <==> Locs(s, key) != []
  {
    if s == [] {
    } else {
      NoLocs(s[..|s| - 1], key);
      assert s == s[..|s| - 1] + [s[|s| - 1]];
      assert Keys(s) == Keys(s[..|s| - 1]) + {s[|s| - 1].key};
    }
  }

  // ---- the two passes ------------------------------------------------------------

  // How keys are truncated for the pre-filter. The index is the same for every truncation.
  type Truncation = ChunkKey -> u64

  /** Truncated key of the pre-filter: the last 8 hash bytes mixed with the block size. */
  function DupKey(key: ChunkKey): u64 {
    Widths();
    Xor64(FromLe(key.hash[8..16]), WrappingMul(key.blksz, 0x9e37_79b9_7f4a_7c15))
  }

  function ChunkBound(files: seq<Hashed>): nat {
    if files == [] then 0
    else files[0].size / (if files[0].blksz > 1 then files[0].blksz else 1) + 1 + ChunkBound(files[1..])
  }

  /** After the occurrences `s`: `seen` has every key, `dup` every repeated one. */
  ghost predicate Sifted(seen: set<u64>, dup: set<u64>, s: seq<Occ>, trunc: Truncation) {
    forall key :: (|Locs(s, key)| > 0 ==> trunc(key) in seen) && (|Locs(s, key)| > 1 ==> trunc(key) in dup)
  }

  lemma SiftOne(seen: set<u64>, dup: set<u64>, dup': set<u64>, s: seq<Occ>, o: Occ, trunc: Truncation)
    requires Sifted(seen, dup, s, trunc) && dup <= dup'
    requires trunc(o.key) in seen ==> trunc(o.key) in dup'
    ensures Sifted(seen + {trunc(o.key)}, dup', s + [o], trunc)
  {
  }

  method FileChunks(fi: nat, blksz: u32, hashes: seq<ChunkHash>) returns (calls: seq<Occ>)
    ensures calls == FileOccs(fi, blksz, hashes, |hashes|)
  {
    calls := [];
    var ci := 0;
    while ci < |hashes|
      invariant 0 <= ci <= |hashes|
      invariant calls == FileOccs(fi, blksz, hashes, ci)
    {
      if hashes[ci] != ZERO_HASH {
        calls := calls + [Occ(Loc(fi, ci), ChunkKey(blksz, hashes[ci]))];
      }
      ci := ci + 1;
    }
  }

  // The visits of one file; none when it has no cache entry.
  method VisitFile(fi: nat, h: Hashed, get: Get) returns (r: Result<seq<Occ>, nat>)
    ensures r.Err? <==> get(h.Key()).Err?
    ensures r.Ok? ==> var hashes := HashesOf(get, h); r.value == FileOccs(fi, h.blksz, hashes, |hashes|)
  {
    match get(h.Key()) {
      case Err(n) =>
        r := Err(n);
      case Ok(None) =>
        r := Ok([]);
      case Ok(Some(e)) =>
        var calls := FileChunks(fi, h.blksz, e.hashes);
        r := Ok(calls);
    }
  }

  // The calls `each_chunk` makes to its visitor, in order.
  method EachChunk(files: seq<Hashed>, get: Get) returns (r: Result<seq<Occ>, nat>)
    ensures r.Err? <==> !Readable(files, get)
    ensures r.Ok? ==> r.value == Stream(files, get, |files|)
  {
    var calls: seq<Occ> := [];
    var fi := 0;
    while fi < |files|
      invariant 0 <= fi <= |files|
      invariant forall i :: 0 <= i < fi ==> get(files[i].Key()).Ok?
      invariant calls == Stream(files, get, fi)
    {
      StreamStep(files, get, fi);
      var visits := VisitFile(fi, files[fi], get);
      if visits.Err? {
        assert files[fi] in files;
        return Err(visits.error);
      }
      calls := calls + visits.value;
      fi := fi + 1;
    }
    r := Ok(calls);
  }

  method PreFilter(calls: seq<Occ>, bound: nat, trunc: Truncation) returns (dup: set<u64>)
    requires 10 * bound <= TWO_64 / 2
    ensures forall key :: |Locs(calls, key)| > 1 ==> trunc(key) in dup
  {
    var seen := new Bloom(bound);
    dup := {};
    var i := 0;
    while i < |calls|
      invariant 0 <= i <= |calls| && seen.Valid() && fresh(seen) && fresh(seen.bits)
      invariant Sifted(seen.keys, dup, calls[..i], trunc)
    {
      var k := trunc(calls[i].key);
      ghost var keys, dup0 := seen.keys, dup;
      var present := seen.CheckInsert(k);
      if present {
        dup := dup + {k};
      }
      SiftOne(keys, dup0, dup, calls[..i], calls[i], trunc);
      assert calls[..i + 1] == calls[..i] + [calls[i]];
      i := i + 1;
    }
    assert calls[..|calls|] == calls;
  }

  ghost predicate GroupOf(idx: Index, s: seq<Occ>, dup: set<u64>, trunc: Truncation, key: ChunkKey) {
    var locs := Locs(s, key);
    if trunc(key) in dup && locs != [] then key in idx && idx[key] == locs else key !in idx
  }

  /** The groups of the keys whose truncation is in `dup`. */
  ghost predicate Collected(idx: Index, s: seq<Occ>, dup: set<u64>, trunc: Truncation) {
    forall key :: GroupOf(idx, s, dup, trunc, key)
  }

  lemma CollectOne(idx: Index, s: seq<Occ>, o: Occ, dup: set<u64>, trunc: Truncation)
    requires Collected(idx, s, dup, trunc)
    ensures trunc(o.key) !in dup ==> Collected(idx, s + [o], dup, trunc)
    ensures trunc(o.key) in dup ==>
              Collected(idx[o.key := (if o.key in idx then idx[o.key] else []) + [o.loc]], s + [o], dup, trunc)
  {
    var idx' := if trunc(o.key) in dup then idx[o.key := (if o.key in idx then idx[o.key] else []) + [o.loc]] else idx;
    forall key ensures GroupOf(idx', s + [o], dup, trunc, key) {
      assert GroupOf(idx, s, dup, trunc, key);
      LocsAppend(s, o, key);
    }
  }

  method Collect(calls: seq<Occ>, dup: set<u64>, trunc: Truncation) returns (idx: Index)
    ensures Collected(idx, calls, dup, trunc)
  {
    idx := map[];
    var i := 0;
    assert Collected(idx, calls[..0], dup, trunc) by {
      forall key ensures GroupOf(idx, calls[..0], dup, trunc, key) {
      }
    }
    while i < |calls|
      invariant 0 <= i <= |calls|
      invariant Collected(idx, calls[..i], dup, trunc)
    {
      var Occ(loc, key) := calls[i];
      CollectOne(idx, calls[..i], calls[i], dup, trunc);
      assert calls[..i + 1] == calls[..i] + [calls[i]];
      if trunc(key) in dup {
        idx := idx[key := (if key in idx then idx[key] else []) + [loc]];
      }
      i := i + 1;
    }
    assert calls[..|calls|] == calls;
  }

  /** Dropping the one-element groups of a sound pre-filter leaves the one-pass index. */
  lemma RetainIsNaive(files: seq<Hashed>, get: Get, idx: Index, dup: set<u64>, trunc: Truncation)
    requires Collected(idx, Stream(files, get, |files|), dup, trunc)
    requires forall key :: |Locs(Stream(files, get, |files|), key)| > 1 ==> trunc(key) in dup
    ensures (map key | key in idx && |idx[key]| > 1 :: idx[key]) == NaiveIndex(files, get)
  {
    var s := Stream(files, get, |files|);
    forall key ensures key in Keys(s) <==> Locs(s, key) != [] {
      NoLocs(s, key);
    }
    var kept := map key | key in idx && |idx[key]| > 1 :: idx[key];
    forall key ensures key in kept <==> key in NaiveIndex(files, get) {
      assert GroupOf(idx, s, dup, trunc, key);
    }
    forall key | key in kept ensures kept[key] == NaiveIndex(files, get)[key] {
      assert GroupOf(idx, s, dup, trunc, key);
    }
  }

  method BuildIndex(files: seq<Hashed>, cache: Cache) returns (r: Result<Index, nat>)
    requires Indexable(files, Snapshot(cache.table)) && 10 * ChunkBound(files) <= TWO_64 / 2
    ensures r.Err? <==> !Readable(files, Snapshot(cache.table))
    ensures r.Ok? ==> r.value == NaiveIndex(files, Snapshot(cache.table))
  {
    var trunc: Truncation := key => DupKey(key);
    var get := cache.Reader();
    var calls := EachChunk(files, get);
    if calls.Err? {
      return Err(calls.error);
    }
    var dup := PreFilter(calls.value, ChunkBound(files), trunc);
    get := cache.Reader();
    calls := EachChunk(files, get);
    var idx := Collect(calls.value, dup, trunc);
    RetainIsNaive(files, get, idx, dup, trunc);
    r := Ok(map key | key in idx && |idx[key]| > 1 :: idx[key]);
  }
}
