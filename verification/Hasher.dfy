/** Chunk hashing of src/hasher.rs, over readers that may return short reads or fail. */
module Hashing {
  import opened Base
  import opened CacheTable

  // XXH3-128; nothing is assumed about it.
  type Xxh = seq<byte> -> ChunkHash

  const ZERO_HASH: ChunkHash := [0, 0, 0, 0, 0, 0, 0, 0, 0, 0, 0, 0, 0, 0, 0, 0]

  // What the dedup phase keeps of a stat'ed and hashed file.
  datatype Hashed = Hashed(fsid: u64, ino: u64, size: u64, blksz: u32, fromCache: bool) {
    function Key(): FileKey { (fsid, ino) }
  }

  /** How long chunk number `chunk` of a file of `size` bytes is: full, a short tail, or nothing past the end. */
  function ChunkLen(size: nat, chunk: nat, blksz: nat): nat {
    Min(SatSub(size, chunk * blksz), blksz)
  }

  // ---- specification: which hashes a byte string has ---------------------------

  /** ceil(n / blksz). */
  function NumChunks(n: nat, blksz: nat): nat
    requires blksz > 0
  {
    (n + blksz - 1) / blksz
  }

  predicate AllZero(bytes: seq<byte>) {
    forall i :: 0 <= i < |bytes| ==> bytes[i] == 0
  }

  function HashOf(bytes: seq<byte>, xxh: Xxh): ChunkHash {
    if AllZero(bytes) then ZERO_HASH else xxh(bytes)
  }

  /** Bytes [c * blksz, min((c + 1) * blksz, n)) of an n-byte string. */
  function ChunkOf(bytes: seq<byte>, c: nat, blksz: nat): seq<byte>
    requires c * blksz <= |bytes|
  {
    bytes[c * blksz..c * blksz + ChunkLen(|bytes|, c, blksz)]
  }

  lemma CeilBounds(n: nat, c: nat, blksz: nat)
    requires blksz > 0
    ensures c < NumChunks(n, blksz) <==> c * blksz < n
    ensures NumChunks(n, blksz) <= n
  {
    var q := NumChunks(n, blksz);
    assert blksz * q <= n + blksz - 1 < blksz * q + blksz;
    if c < q {
      MulMonotone(blksz, c, q - 1);
      assert blksz * (q - 1) == blksz * q - blksz;
    } else {
      MulMonotone(blksz, q, c);
    }
    if q > n {
      MulMonotone(blksz, n + 1, q);
      assert blksz * (n + 1) == blksz * n + blksz;
      MulMonotone(n, 1, blksz);
    }
  }

  lemma LenBounds(n: nat, off: nat, blksz: nat)
    requires blksz > 0
    ensures Min(SatSub(n, off), blksz) > 0 <==> off < n
  {
  }

  lemma ChunkInBounds(n: nat, c: nat, blksz: nat)
    requires blksz > 0
    ensures c < NumChunks(n, blksz) <==> c * blksz < n
    ensures ChunkLen(n, c, blksz) > 0 <==> c < NumChunks(n, blksz)
    ensures NumChunks(n, blksz) <= n
  {
    CeilBounds(n, c, blksz);
    LenBounds(n, c * blksz, blksz);
  }

  /** One hash per chunk, in offset order. */
  function ChunkHashes(bytes: seq<byte>, blksz: nat, xxh: Xxh): (hashes: seq<ChunkHash>)
    requires blksz > 0
  {
    seq(NumChunks(|bytes|, blksz),
        c requires 0 <= c < NumChunks(|bytes|, blksz) =>
          ChunkInBounds(|bytes|, c, blksz); HashOf(ChunkOf(bytes, c, blksz), xxh))
  }

  /** There is a hash for every chunk that begins before the end: 16 zero bytes if it is all zero. */
  lemma ChunkHashesMeaning(bytes: seq<byte>, blksz: nat, xxh: Xxh, c: nat, chunk: seq<byte>)
    requires blksz > 0
    requires c * blksz < |bytes| ==>
               chunk == bytes[c * blksz..if c * blksz + blksz <= |bytes| then c * blksz + blksz else |bytes|]
    ensures c < |ChunkHashes(bytes, blksz, xxh)| <==> c * blksz < |bytes|
    ensures c * blksz < |bytes| && (forall i :: 0 <= i < |chunk| ==> chunk[i] == 0) ==>
              ChunkHashes(bytes, blksz, xxh)[c] == [0, 0, 0, 0, 0, 0, 0, 0, 0, 0, 0, 0, 0, 0, 0, 0]
    ensures c * blksz < |bytes| && (exists i :: 0 <= i < |chunk| && chunk[i] != 0) ==>
              ChunkHashes(bytes, blksz, xxh)[c] == xxh(chunk)
  {
    ChunkInBounds(|bytes|, c, blksz);
    if c * blksz < |bytes| {
      assert chunk == ChunkOf(bytes, c, blksz);
      assert ChunkHashes(bytes, blksz, xxh)[c] == HashOf(chunk, xxh);
    }
  }

  // ---- the loops ---------------------------------------------------------------

  // A file descriptor: the bytes after its position. Each read may be short. If there is a fault, some read before
  // the end is seen fails with it, sooner or later.
  class Reader<E> {
    var rest: seq<byte>
    const fault: Option<E>
    ghost var broken: bool // some read failed

    constructor (bytes: seq<byte>, fault: Option<E>)
      ensures rest == bytes && this.fault == fault && !broken
    {
      this.rest, this.fault := bytes, fault;
      broken := false;
    }

    method Read(room: nat) returns (r: Result<seq<byte>, E>)
      modifies this
      ensures r.Ok? ==> |r.value| <= room && old(rest) == r.value + rest
      ensures r.Ok? && r.value == [] ==> room == 0 || (rest == [] && fault.None?)
      ensures r.Err? ==> fault == Some(r.error)
      ensures broken == (old(broken) || r.Err?)
    {
      var fails: bool := *;
      if fault.Some? && (fails || rest == []) {
        broken := true;
        return Err(fault.value);
      }
      assert Min(room, |rest|) == 0 ==> room == 0 || rest == [];
      var n: nat :| n <= room && n <= |rest| && (n == 0 ==> room == 0 || rest == []);
      r := Ok(rest[..n]);
      rest := rest[n..];
    }
  }

  method ReadFull<E>(f: Reader<E>, buf: array<byte>) returns (r: Result<nat, E>)
    modifies f, buf
    ensures f.broken == (old(f.broken) || r.Err?)
    ensures r.Err? ==> f.fault == Some(r.error)
    ensures r.Ok? && r.value < buf.Length ==> f.fault.None?
    ensures r.Ok? ==> r.value == Min(buf.Length, |old(f.rest)|)
    ensures r.Ok? ==> buf[..r.value] == old(f.rest)[..r.value] && f.rest == old(f.rest)[r.value..]
  {
    var off: nat := 0;
    while off < buf.Length
      invariant off <= buf.Length && off <= |old(f.rest)| && f.broken == old(f.broken)
      invariant buf[..off] == old(f.rest)[..off] && f.rest == old(f.rest)[off..]
    {
      var got := f.Read(buf.Length - off);
      if got.Err? {
        return Err(got.error);
      }
      var n := |got.value|;
      if n == 0 {
        break;
      }
      assert old(f.rest)[off..off + n] == got.value;
      CopyInto(buf, off, got.value);
      off := off + n;
    }
    r := Ok(off);
  }

  // The static zero page slices are compared with.
  const ZEROS: nat := 0x2_0000

  method IsZero(buf: seq<byte>) returns (zero: bool)
    ensures zero <==> AllZero(buf)
  {
    var rest := buf;
    while rest != []
      invariant |rest| <= |buf| && rest == buf[|buf| - |rest|..]
      invariant AllZero(buf[..|buf| - |rest|])
      decreases |rest|
    {
      var n := Min(|rest|, ZEROS);
      if rest[..n] != seq(n, _ => 0) {
        assert exists i :: 0 <= i < n && rest[i] != 0 by {
          assert rest[..n] == seq(n, _ => 0) || exists i :: 0 <= i < n && rest[..n][i] != seq(n, _ => 0)[i];
        }
        return false;
      }
      assert forall i :: 0 <= i < n ==> rest[..n][i] == 0;
      assert buf[..|buf| - |rest| + n] == buf[..|buf| - |rest|] + rest[..n];
      rest := rest[n..];
    }
    zero := true;
  }

  /** What one full read at chunk `c` of `all` tells. */
  lemma NextChunk(all: seq<byte>, c: nat, blksz: nat, n: nat, xxh: Xxh)
    requires blksz > 0 && c * blksz <= |all| && c <= NumChunks(|all|, blksz)
    requires n == Min(blksz, |all| - c * blksz)
    ensures n == 0 <==> c == NumChunks(|all|, blksz)
    ensures n > 0 ==> all[c * blksz..c * blksz + n] == ChunkOf(all, c, blksz)
    ensures n > 0 ==> ChunkHashes(all, blksz, xxh)[..c + 1]
                      == ChunkHashes(all, blksz, xxh)[..c] + [HashOf(ChunkOf(all, c, blksz), xxh)]
    ensures 0 < n < blksz ==> c + 1 == NumChunks(|all|, blksz)
    ensures n == blksz ==> (c + 1) * blksz <= |all|
  {
    ChunkInBounds(|all|, c, blksz);
    ChunkInBounds(|all|, c + 1, blksz);
    assert (c + 1) * blksz == c * blksz + blksz;
  }

  datatype HashError<+E> = ZeroBlockSize | ReadFailed(error: E)

  method HashFd<E>(f: Reader<E>, blksz: u32, xxh: Xxh) returns (r: Result<seq<ChunkHash>, HashError<E>>)
    modifies f
    ensures r.Err? <==> blksz == 0 || f.fault.Some?
    ensures r.Err? ==> r.error == if blksz == 0 then ZeroBlockSize else ReadFailed(f.fault.value)
    ensures r.Ok? ==> r.value == ChunkHashes(old(f.rest), blksz, xxh)
  {
    if blksz == 0 {
      return Err(ZeroBlockSize); // "blksz must be > 0"
    }
    var buf := new byte[blksz](_ => 0);
    var hashes: seq<ChunkHash> := [];
    ghost var all := f.rest;
    ghost var want := ChunkHashes(all, blksz, xxh);
    while true
      invariant |hashes| * blksz <= |all| && f.rest == all[|hashes| * blksz..]
      invariant |hashes| <= |want| && hashes == want[..|hashes|]
      decreases |want| - |hashes|
    {
      ghost var c := |hashes|;
      var got := ReadFull(f, buf);
      if got.Err? {
        return Err(ReadFailed(got.error));
      }
      var n := got.value;
      NextChunk(all, c, blksz, n, xxh);
      if n == 0 {
        assert |hashes| == |want|;
        break;
      }
      var chunk := buf[..n];
      assert chunk == all[c * blksz..c * blksz + n];
      var zero := IsZero(chunk);
      hashes := hashes + [if zero then ZERO_HASH else xxh(chunk)];
      if n < buf.Length {
        assert |hashes| == |want|;
        break;
      }
      assert (c + 1) * blksz == c * blksz + blksz;
    }
    assert want[..|want|] == want;
    r := Ok(hashes);
  }

  /** The byte count of every hashed chunk is the planner's `ChunkLen` for a file of that size. */
  lemma ChunkSize(bytes: seq<byte>, c: nat, blksz: nat)
    requires blksz > 0 && c < NumChunks(|bytes|, blksz)
    ensures c * blksz <= |bytes|
    ensures |ChunkOf(bytes, c, blksz)| == ChunkLen(|bytes|, c, blksz) > 0
    ensures c + 1 < NumChunks(|bytes|, blksz) ==> |ChunkOf(bytes, c, blksz)| == blksz
  {
    ChunkInBounds(|bytes|, c, blksz);
    ChunkInBounds(|bytes|, c + 1, blksz);
    assert (c + 1) * blksz == c * blksz + blksz;
  }
}
