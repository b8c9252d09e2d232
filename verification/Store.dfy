/** The block store under the tool: files point at blocks, clones share blocks, blocks are written once. */
module BlockStore {
  import opened Base
  import opened Hashing

  // Block `c` of a file holds bytes [c * blksz, (c + 1) * blksz); the last one is cut off by `size`.
  datatype FileData = FileData(blksz: nat, size: nat, blocks: seq<nat>)

  // Block ids are positions in the append-only log `data`: a written block never changes.
  type Log = seq<seq<byte>>
  datatype Store = Store(files: map<nat, FileData>, data: Log)

  predicate WfFile(f: FileData, data: Log) {
    && f.blksz > 0 && f.size <= f.blksz * |f.blocks| < f.size + f.blksz
    && forall c :: 0 <= c < |f.blocks| ==> f.blocks[c] < |data| && |data[f.blocks[c]]| == f.blksz
  }

  ghost predicate Wf(st: Store) {
    forall f :: f in st.files ==> WfFile(st.files[f], st.data)
  }

  /** The bytes of a list of blocks, end to end. */
  function Cat(blocks: seq<nat>, data: Log): seq<byte>
    requires forall c :: 0 <= c < |blocks| ==> blocks[c] < |data|
  {
    if blocks == [] then [] else Cat(blocks[..|blocks| - 1], data) + data[blocks[|blocks| - 1]]
  }

  ghost predicate Sized(blocks: seq<nat>, data: Log, k: nat) {
    forall c :: 0 <= c < |blocks| ==> blocks[c] < |data| && |data[blocks[c]]| == k
  }

  lemma {:induction false} CatLen(blocks: seq<nat>, data: Log, k: nat)
    requires Sized(blocks, data, k)
    ensures |Cat(blocks, data)| == k * |blocks|
  {
    if blocks == [] {
    } else {
      var n := |blocks| - 1;
      CatLen(blocks[..n], data, k);
      assert k * (n + 1) == k * n + k;
    }
  }

  lemma {:induction false} CatConcat(a: seq<nat>, b: seq<nat>, data: Log)
    requires forall c :: 0 <= c < |a| ==> a[c] < |data|
    requires forall c :: 0 <= c < |b| ==> b[c] < |data|
    ensures Cat(a + b, data) == Cat(a, data) + Cat(b, data)
  {
    if b == [] {
      assert a + b == a;
    } else {
      var n := |b| - 1;
      CatConcat(a, b[..n], data);
      assert (a + b)[..|a + b| - 1] == a + b[..n];
    }
  }

  lemma {:induction false} CatGrowth(blocks: seq<nat>, data: Log, added: Log)
    requires forall c :: 0 <= c < |blocks| ==> blocks[c] < |data|
    ensures Cat(blocks, data + added) == Cat(blocks, data)
  {
    if blocks == [] {
    } else {
      CatGrowth(blocks[..|blocks| - 1], data, added);
    }
  }

  /** The least number of blocks that hold `len` bytes. */
  lemma EnoughBlocks(len: nat, k: nat)
    requires k > 0
    ensures len <= k * NumChunks(len, k) < len + k
    ensures len % k == 0 ==> k * NumChunks(len, k) == len
  {
    var n := NumChunks(len, k);
    assert len + k - 1 == k * n + (len + k - 1) % k;
    if len % k == 0 {
      assert len == k * (len / k);
      QuotientIsUnique(k, len + k - 1, len / k, k - 1);
    }
  }

  function Contents(f: FileData, data: Log): (bytes: seq<byte>)
    requires WfFile(f, data)
    ensures |bytes| == f.size
  {
    CatLen(f.blocks, data, f.blksz);
    Cat(f.blocks, data)[..f.size]
  }

  /** What every reader sees. */
  function View(st: Store): map<nat, seq<byte>>
    requires Wf(st)
  {
    map f | f in st.files :: Contents(st.files[f], st.data)
  }

  // ---- the kernel's side ---------------------------------------------------------

  /** The clone contract: one block size, aligned offsets, aligned length unless both ranges end their files. */
  predicate Accepts(src: FileData, so: nat, dst: FileData, dof: nat, len: nat, sameFile: bool) {
    var k := dst.blksz;
    && src.blksz == k > 0 && so % k == 0 && dof % k == 0
    && so + len <= src.size && dof + len <= dst.size
    && (len % k == 0 || (so + len == src.size && dof + len == dst.size))
    && (sameFile ==> so + len <= dof || dof + len <= so)
  }

  /** An aligned range inside a file covers blocks the file has. */
  lemma BlocksOfRange(off: nat, len: nat, f: FileData, data: Log)
    requires WfFile(f, data) && off % f.blksz == 0 && off + len <= f.size
    ensures off / f.blksz + NumChunks(len, f.blksz) <= |f.blocks|
    ensures off == f.blksz * (off / f.blksz)
  {
    var k, c, n, q := f.blksz, off / f.blksz, NumChunks(len, f.blksz), |f.blocks|;
    assert off == k * c;
    EnoughBlocks(len, k);
    assert k * (c + n) == k * c + k * n && k * (q + 1) == k * q + k;
    if q + 1 <= c + n {
      MulMonotone(k, q + 1, c + n);
    }
  }

  /** `dst` with the blocks of the source range in place of its own. */
  function Cloned(src: FileData, so: nat, dst: FileData, dof: nat, len: nat): FileData
    requires dst.blksz > 0
    requires so / dst.blksz + NumChunks(len, dst.blksz) <= |src.blocks|
    requires dof / dst.blksz + NumChunks(len, dst.blksz) <= |dst.blocks|
  {
    var k := dst.blksz;
    dst.(blocks := Spliced(src.blocks, so / k, dst.blocks, dof / k, NumChunks(len, k)))
  }

  function Spliced(src: seq<nat>, s: nat, dst: seq<nat>, d: nat, n: nat): seq<nat>
    requires s + n <= |src| && d + n <= |dst|
  {
    dst[..d] + src[s..s + n] + dst[d + n..]
  }

  lemma CloneFits(src: FileData, so: nat, dst: FileData, dof: nat, len: nat, sameFile: bool, data: Log)
    requires WfFile(src, data) && WfFile(dst, data) && Accepts(src, so, dst, dof, len, sameFile)
    ensures so / dst.blksz + NumChunks(len, dst.blksz) <= |src.blocks|
    ensures dof / dst.blksz + NumChunks(len, dst.blksz) <= |dst.blocks|
    ensures WfFile(Cloned(src, so, dst, dof, len), data)
  {
    BlocksOfRange(so, len, src, data);
    BlocksOfRange(dof, len, dst, data);
  }

  lemma CatThree(a: seq<nat>, m: seq<nat>, c: seq<nat>, data: Log)
    requires forall i :: 0 <= i < |a| ==> a[i] < |data|
    requires forall i :: 0 <= i < |m| ==> m[i] < |data|
    requires forall i :: 0 <= i < |c| ==> c[i] < |data|
    ensures Cat(a + m + c, data) == Cat(a, data) + Cat(m, data) + Cat(c, data)
  {
    CatConcat(a + m, c, data);
    CatConcat(a, m, data);
  }

  /** The bytes of a block list, cut at blocks `b` and `b + n`. */
  lemma {:induction false} CutAt(blocks: seq<nat>, data: Log, k: nat, b: nat, n: nat)
    requires Sized(blocks, data, k) && b + n <= |blocks|
    ensures |Cat(blocks[..b], data)| == k * b && |Cat(blocks[b..b + n], data)| == k * n
    ensures Cat(blocks, data) == Cat(blocks[..b], data) + Cat(blocks[b..b + n], data) + Cat(blocks[b + n..], data)
    ensures |Cat(blocks, data)| == k * |blocks|
  {
    var pre, mid, post := blocks[..b], blocks[b..b + n], blocks[b + n..];
    assert Sized(pre, data, k) && Sized(mid, data, k) && Sized(post, data, k);
    CatThree(pre, mid, post, data);
    assert blocks == pre + mid + post;
    CatLen(pre, data, k);
    CatLen(mid, data, k);
    CatLen(blocks, data, k);
  }

  lemma SeenSplice(pre: seq<byte>, mid: seq<byte>, post: seq<byte>, pre2: seq<byte>, mid2: seq<byte>, post2: seq<byte>,
                   len: nat, size: nat, size2: nat)
    requires |mid| == |mid2| >= len
    requires |pre| + len <= size <= |pre + mid + post| && |pre2| + len <= size2 <= |pre2 + mid2 + post2|
    requires len == |mid| || |pre| + len == size
    ensures (pre + mid2 + post)[..size]
            == (pre + mid + post)[..size][..|pre|] + (pre2 + mid2 + post2)[..size2][|pre2|..|pre2| + len]
               + (pre + mid + post)[..size][|pre| + len..]
  {
  }

  lemma {:induction false} SplicedParts(src: seq<nat>, s: nat, dst: seq<nat>, d: nat, n: nat, data: Log, k: nat)
    requires Sized(src, data, k) && Sized(dst, data, k) && s + n <= |src| && d + n <= |dst|
    ensures Sized(Spliced(src, s, dst, d, n), data, k)
    ensures Cat(Spliced(src, s, dst, d, n), data)
            == Cat(dst[..d], data) + Cat(src[s..s + n], data) + Cat(dst[d + n..], data)
  {
    CatThree(dst[..d], src[s..s + n], dst[d + n..], data);
  }

  /** The same for whole contents `was`, `now` and `from`, given where they are cut. */
  lemma SpliceSeen(was: seq<byte>, now: seq<byte>, from: seq<byte>, pre: seq<byte>, mid: seq<byte>, post: seq<byte>,
                   pre2: seq<byte>, mid2: seq<byte>, post2: seq<byte>, len: nat, size: nat, size2: nat)
    requires was == pre + mid + post && from == pre2 + mid2 + post2 && now == pre + mid2 + post
    requires |mid| == |mid2| >= len && (len == |mid| || |pre| + len == size)
    requires |pre| + len <= size <= |was| && |pre2| + len <= size2 <= |from|
    ensures |now| == |was|
    ensures now[..size] == was[..size][..|pre|] + from[..size2][|pre2|..|pre2| + len] + was[..size][|pre| + len..]
  {
    SeenSplice(pre, mid, post, pre2, mid2, post2, len, size, size2);
  }

  lemma {:induction false} SplicedCat(src: seq<nat>, s: nat, so: nat, dst: seq<nat>, d: nat, dof: nat, n: nat,
                                      data: Log, k: nat, len: nat, size: nat, size2: nat)
    requires Sized(src, data, k) && Sized(dst, data, k) && s + n <= |src| && d + n <= |dst|
    requires so == k * s && dof == k * d
    requires so + len <= size2 <= k * |src| && dof + len <= size <= k * |dst|
    requires len == k * n || (dof + len == size && len <= k * n)
    ensures Sized(Spliced(src, s, dst, d, n), data, k)
    ensures |Cat(Spliced(src, s, dst, d, n), data)| == |Cat(dst, data)| >= size && |Cat(src, data)| >= size2
    ensures Cat(Spliced(src, s, dst, d, n), data)[..size]
            == Cat(dst, data)[..size][..dof] + Cat(src, data)[..size2][so..so + len]
               + Cat(dst, data)[..size][dof + len..]
  {
    CutAt(src, data, k, s, n);
    CutAt(dst, data, k, d, n);
    SplicedParts(src, s, dst, d, n, data, k);
    SpliceSeen(Cat(dst, data), Cat(Spliced(src, s, dst, d, n), data), Cat(src, data),
               Cat(dst[..d], data), Cat(dst[d..d + n], data), Cat(dst[d + n..], data),
               Cat(src[..s], data), Cat(src[s..s + n], data), Cat(src[s + n..], data), len, size, size2);
  }

  /** A clone of whole blocks, in block numbers. */
  lemma SplicedContents(src: FileData, s: nat, so: nat, dst: FileData, d: nat, dof: nat, n: nat, data: Log, len: nat)
    requires WfFile(src, data) && WfFile(dst, data) && s + n <= |src.blocks| && d + n <= |dst.blocks|
    requires src.blksz == dst.blksz && so == src.blksz * s && dof == dst.blksz * d
    requires so + len <= src.size && dof + len <= dst.size
    requires len == dst.blksz * n || (dof + len == dst.size && len <= dst.blksz * n)
    ensures var dst' := dst.(blocks := Spliced(src.blocks, s, dst.blocks, d, n));
            && WfFile(dst', data)
            && Contents(dst', data)
               == Contents(dst, data)[..dof] + Contents(src, data)[so..so + len] + Contents(dst, data)[dof + len..]
  {
    SplicedCat(src.blocks, s, so, dst.blocks, d, dof, n, data, dst.blksz, len, dst.size, src.size);
    assert |Spliced(src.blocks, s, dst.blocks, d, n)| == |dst.blocks|;
  }

  lemma RangeInBlocks(f: FileData, off: nat, len: nat, data: Log)
    requires WfFile(f, data) && off % f.blksz == 0 && off + len <= f.size
    requires len % f.blksz == 0 || off + len == f.size
    ensures var k, n := f.blksz, NumChunks(len, f.blksz);
            off == k * (off / k) && (len == k * n || (off + len == f.size && len <= k * n))
  {
    assert off == f.blksz * (off / f.blksz);
    EnoughBlocks(len, f.blksz);
  }

  /** A clone overwrites exactly the destination range with the bytes of the source range. */
  lemma CloneContents(src: FileData, so: nat, dst: FileData, dof: nat, len: nat, sameFile: bool, data: Log)
    requires WfFile(src, data) && WfFile(dst, data) && Accepts(src, so, dst, dof, len, sameFile)
    requires so / dst.blksz + NumChunks(len, dst.blksz) <= |src.blocks|
    requires dof / dst.blksz + NumChunks(len, dst.blksz) <= |dst.blocks|
    ensures WfFile(Cloned(src, so, dst, dof, len), data)
    ensures Contents(Cloned(src, so, dst, dof, len), data)
            == Contents(dst, data)[..dof] + Contents(src, data)[so..so + len] + Contents(dst, data)[dof + len..]
  {
    RangeInBlocks(src, so, len, data);
    RangeInBlocks(dst, dof, len, data);
    SplicedContents(src, so / dst.blksz, so, dst, dof / dst.blksz, dof, NumChunks(len, dst.blksz), data, len);
  }

  function CloneRange(st: Store, s: nat, so: nat, d: nat, dof: nat, len: nat): Store
    requires s in st.files && d in st.files && st.files[d].blksz > 0
    requires so / st.files[d].blksz + NumChunks(len, st.files[d].blksz) <= |st.files[s].blocks|
    requires dof / st.files[d].blksz + NumChunks(len, st.files[d].blksz) <= |st.files[d].blocks|
  {
    st.(files := st.files[d := Cloned(st.files[s], so, st.files[d], dof, len)])
  }

  predicate CanClone(st: Store, s: nat, so: nat, d: nat, dof: nat, len: nat) {
    s in st.files && d in st.files && Accepts(st.files[s], so, st.files[d], dof, len, s == d)
  }

  lemma CanCloneFits(st: Store, s: nat, so: nat, d: nat, dof: nat, len: nat)
    requires Wf(st) && CanClone(st, s, so, d, dof, len)
    ensures st.files[d].blksz > 0
    ensures so / st.files[d].blksz + NumChunks(len, st.files[d].blksz) <= |st.files[s].blocks|
    ensures dof / st.files[d].blksz + NumChunks(len, st.files[d].blksz) <= |st.files[d].blocks|
    ensures Wf(CloneRange(st, s, so, d, dof, len))
  {
    CloneFits(st.files[s], so, st.files[d], dof, len, s == d, st.data);
  }

  /** The destination range points at the very blocks of the source range. */
  ghost predicate PointsAlike(st: Store, s: nat, so: nat, d: nat, dof: nat, len: nat) {
    && s in st.files && d in st.files && st.files[d].blksz > 0
    && var k, n := st.files[d].blksz, NumChunks(len, st.files[d].blksz);
    && so / k + n <= |st.files[s].blocks| && dof / k + n <= |st.files[d].blocks|
    && st.files[d].blocks[dof / k..dof / k + n] == st.files[s].blocks[so / k..so / k + n]
  }

  lemma SplicedSlices(src: seq<nat>, s: nat, dst: seq<nat>, d: nat, n: nat)
    requires s + n <= |src| && d + n <= |dst|
    ensures Spliced(src, s, dst, d, n)[d..d + n] == src[s..s + n]
    ensures src == dst && (s + n <= d || d + n <= s) ==> Spliced(src, s, dst, d, n)[s..s + n] == src[s..s + n]
  {
  }

  /** In block numbers: byte ranges that do not overlap cover blocks that do not. */
  lemma BlocksApart(k: nat, s: nat, d: nat, n: nat)
    requires k > 0 && (k * s + k * n <= k * d || k * d + k * n <= k * s)
    ensures s + n <= d || d + n <= s
  {
  }

  lemma DisjointBlocks(f: FileData, so: nat, dof: nat, len: nat, data: Log)
    requires WfFile(f, data) && Accepts(f, so, f, dof, len, true)
    ensures var k, n := f.blksz, NumChunks(len, f.blksz); so / k + n <= dof / k || dof / k + n <= so / k
  {
    RangeInBlocks(f, so, len, data);
    RangeInBlocks(f, dof, len, data);
    EnoughBlocks(len, f.blksz);
    BlocksApart(f.blksz, so / f.blksz, dof / f.blksz, NumChunks(len, f.blksz));
  }

  lemma CloneSharesBlocks(st: Store, s: nat, so: nat, d: nat, dof: nat, len: nat)
    requires Wf(st) && CanClone(st, s, so, d, dof, len)
    ensures st.files[d].blksz > 0
    ensures so / st.files[d].blksz + NumChunks(len, st.files[d].blksz) <= |st.files[s].blocks|
    ensures dof / st.files[d].blksz + NumChunks(len, st.files[d].blksz) <= |st.files[d].blocks|
    ensures PointsAlike(CloneRange(st, s, so, d, dof, len), s, so, d, dof, len)
  {
    CanCloneFits(st, s, so, d, dof, len);
    var k := st.files[d].blksz;
    var n := NumChunks(len, k);
    SplicedSlices(st.files[s].blocks, so / k, st.files[d].blocks, dof / k, n);
    if s == d {
      DisjointBlocks(st.files[d], so, dof, len, st.data);
    }
  }

  /** Cloning equal ranges changes what no reader sees. */
  lemma ClonePreservesView(st: Store, s: nat, so: nat, d: nat, dof: nat, len: nat)
    requires Wf(st) && CanClone(st, s, so, d, dof, len)
    requires View(st)[s][so..so + len] == View(st)[d][dof..dof + len]
    ensures st.files[d].blksz > 0
    ensures so / st.files[d].blksz + NumChunks(len, st.files[d].blksz) <= |st.files[s].blocks|
    ensures dof / st.files[d].blksz + NumChunks(len, st.files[d].blksz) <= |st.files[d].blocks|
    ensures Wf(CloneRange(st, s, so, d, dof, len)) && View(CloneRange(st, s, so, d, dof, len)) == View(st)
  {
    CanCloneFits(st, s, so, d, dof, len);
    CloneContents(st.files[s], so, st.files[d], dof, len, s == d, st.data);
    var b := View(st)[d];
    assert b[..dof] + b[dof..dof + len] + b[dof + len..] == b;
  }

  // ---- writers -------------------------------------------------------------------

  /** A write gives a file new pointers, to old blocks or to blocks appended to the log. */
  function Written(st: Store, f: nat, fd: FileData, added: Log): Store {
    Store(st.files[f := fd], st.data + added)
  }

  lemma LogGrowth(f: FileData, data: Log, added: Log)
    requires WfFile(f, data)
    ensures WfFile(f, data + added) && Contents(f, data + added) == Contents(f, data)
  {
    CatGrowth(f.blocks, data, added);
  }

  lemma WriteView(st: Store, f: nat, fd: FileData, added: Log)
    requires Wf(st) && WfFile(fd, st.data + added)
    ensures Wf(Written(st, f, fd, added))
    ensures View(Written(st, f, fd, added)) == View(st)[f := Contents(fd, st.data + added)]
  {
    forall g | g in st.files ensures WfFile(st.files[g], st.data + added)
      ensures Contents(st.files[g], st.data + added) == Contents(st.files[g], st.data)
    {
      LogGrowth(st.files[g], st.data, added);
    }
  }
}
