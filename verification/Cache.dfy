/** The cache entry encoding and the cache table of src/cache.rs. */
module CacheTable {
  import opened Base

  type ChunkHash = h: seq<byte> | |h| == 16 witness [0, 0, 0, 0, 0, 0, 0, 0, 0, 0, 0, 0, 0, 0, 0, 0]

  const TWO_127 := 0x8000_0000_0000_0000_0000_0000_0000_0000
  type i128 = n: int | -TWO_127 <= n < TWO_127

  datatype FileEntry = FileEntry(size: u64, mtimeNs: i128, ctimeNs: i128, blksz: u32, hashes: seq<ChunkHash>)
  {
    predicate Matches(size: u64, mtimeNs: i128, ctimeNs: i128, blksz: u32) {
      this.size == size && this.mtimeNs == mtimeNs && this.ctimeNs == ctimeNs && this.blksz == blksz
    }
  }

  // ---- little-endian numbers -------------------------------------------------

  function Pow256(k: nat): (p: nat)
    ensures p > 0
  {
    if k == 0 then 1 else 0x100 * Pow256(k - 1)
  }

  lemma Widths()
    ensures Pow256(4) == 0x1_0000_0000 && Pow256(8) == TWO_64 && Pow256(16) == 2 * TWO_127
  {
  }

  /** `n.to_le_bytes()` for a `k`-byte integer. */
  function LeBytes(n: nat, k: nat): (bs: seq<byte>)
    ensures |bs| == k
  {
    if k == 0 then [] else [n % 0x100] + LeBytes(n / 0x100, k - 1)
  }

  function FromLe(bs: seq<byte>): (n: nat)
    ensures n < Pow256(|bs|)
  {
    if bs == [] then 0 else bs[0] + 0x100 * FromLe(bs[1..])
  }

  lemma {:induction false} FromLeBytes(n: nat, k: nat)
    requires n < Pow256(k)
    ensures FromLe(LeBytes(n, k)) == n
  {
    if k == 0 {
    } else {
      FromLeBytes(n / 0x100, k - 1);
      assert LeBytes(n, k)[1..] == LeBytes(n / 0x100, k - 1);
    }
  }

  lemma {:induction false} LeBytesFrom(bs: seq<byte>)
    ensures LeBytes(FromLe(bs), |bs|) == bs
  {
    if bs == [] {
    } else {
      LeBytesFrom(bs[1..]);
      var rest := FromLe(bs[1..]);
      assert (bs[0] + 0x100 * rest) / 0x100 == rest && (bs[0] + 0x100 * rest) % 0x100 == bs[0];
      assert [bs[0]] + bs[1..] == bs;
    }
  }

  /** Two's complement of a signed 128-bit integer. */
  function ToTwos(n: i128): nat {
    if n < 0 then n + 2 * TWO_127 else n
  }

  function FromTwos(u: nat): i128
    requires u < 2 * TWO_127
  {
    if u < TWO_127 then u else u - 2 * TWO_127
  }

  // ---- the hash vector -------------------------------------------------------

  const HASH_LEN: nat := 16
  const HEADER: nat := 8 + 16 + 16 + 4

  function Flatten(hashes: seq<ChunkHash>): (bs: seq<byte>)
    ensures |bs| == |hashes| * HASH_LEN
  {
    if hashes == [] then [] else hashes[0] + Flatten(hashes[1..])
  }

  /** `chunks_exact(HASH_LEN)` of a buffer whose length is a multiple of it. */
  function Unflatten(bs: seq<byte>): (hashes: seq<ChunkHash>)
    requires |bs| % HASH_LEN == 0
    ensures |hashes| * HASH_LEN == |bs|
  {
    if bs == [] then [] else [bs[..HASH_LEN]] + Unflatten(bs[HASH_LEN..])
  }

  lemma {:induction false} UnflattenFlatten(hashes: seq<ChunkHash>)
    ensures Unflatten(Flatten(hashes)) == hashes
  {
    if hashes == [] {
    } else {
      UnflattenFlatten(hashes[1..]);
      var bs := Flatten(hashes);
      assert bs[..HASH_LEN] == hashes[0] && bs[HASH_LEN..] == Flatten(hashes[1..]);
    }
  }

  lemma {:induction false} FlattenUnflatten(bs: seq<byte>)
    requires |bs| % HASH_LEN == 0
    ensures Flatten(Unflatten(bs)) == bs
  {
    if bs == [] {
    } else {
      FlattenUnflatten(bs[HASH_LEN..]);
      assert bs[..HASH_LEN] + bs[HASH_LEN..] == bs;
      assert Unflatten(bs)[1..] == Unflatten(bs[HASH_LEN..]);
    }
  }

  lemma {:induction false} FlattenPrefix(hashes: seq<ChunkHash>, n: nat)
    requires n < |hashes|
    ensures Flatten(hashes[..n + 1]) == Flatten(hashes[..n]) + hashes[n]
  {
    if n == 0 {
      assert hashes[..1] == [hashes[0]] && hashes[..0] == [];
      assert Flatten([hashes[0]]) == hashes[0] + Flatten([]);
    } else {
      FlattenPrefix(hashes[1..], n - 1);
      assert hashes[..n + 1][1..] == hashes[1..][..n] && hashes[..n][1..] == hashes[1..][..n - 1];
    }
  }

  // ---- entries ---------------------------------------------------------------

  function Encode(e: FileEntry): (bs: seq<byte>)
    ensures |bs| == HEADER + |e.hashes| * HASH_LEN
  {
    LeBytes(e.size, 8) + LeBytes(ToTwos(e.mtimeNs), 16) + LeBytes(ToTwos(e.ctimeNs), 16) + LeBytes(e.blksz, 4)
    + Flatten(e.hashes)
  }

  function Decode(buf: seq<byte>): (r: Result<FileEntry, nat>)
    ensures r.Err? <==> |buf| < HEADER || (|buf| - HEADER) % HASH_LEN != 0
  {
    if |buf| < HEADER || (|buf| - HEADER) % HASH_LEN != 0 then
      Err(|buf|) // "corrupt cache entry"
    else
      Widths();
      Ok(FileEntry(
           FromLe(buf[0..8]),
           FromTwos(FromLe(buf[8..24])),
           FromTwos(FromLe(buf[24..40])),
           FromLe(buf[40..44]),
           Unflatten(buf[HEADER..])))
  }

  lemma EncodeSlices(e: FileEntry)
    ensures var bs := Encode(e);
            && bs[0..8] == LeBytes(e.size, 8)
            && bs[8..24] == LeBytes(ToTwos(e.mtimeNs), 16)
            && bs[24..40] == LeBytes(ToTwos(e.ctimeNs), 16)
            && bs[40..44] == LeBytes(e.blksz, 4)
            && bs[HEADER..] == Flatten(e.hashes)
  {
  }

  lemma {:induction false} LeByteAt(n: nat, k: nat, i: nat)
    requires i < k
    ensures LeBytes(n, k)[i] == n / Pow256(i) % 0x100
  {
    if i > 0 {
      LeByteAt(n / 0x100, k - 1, i - 1);
      DivDiv(n, 0x100, Pow256(i - 1));
    }
  }

  lemma {:induction false} HashAtOffset(hashes: seq<ChunkHash>, h: nat)
    requires h < |hashes|
    ensures Flatten(hashes)[16 * h..16 * h + 16] == hashes[h]
  {
    var rest := Flatten(hashes[1..]);
    assert Flatten(hashes) == hashes[0] + rest;
    if h > 0 {
      HashAtOffset(hashes[1..], h - 1);
      assert Flatten(hashes)[16 * h..16 * h + 16] == rest[16 * (h - 1)..16 * (h - 1) + 16];
    }
  }

  /** The layout: little-endian size, mtime, ctime and block size, the signed ones in two's complement; the hashes. */
  lemma EncodeLayout(e: FileEntry, i: nat, h: nat)
    ensures |Encode(e)| == 44 + 16 * |e.hashes|
    ensures i < 8 ==> Encode(e)[i] == e.size / Pow256(i) % 0x100
    ensures i < 16 ==> Encode(e)[8 + i] == ToTwos(e.mtimeNs) / Pow256(i) % 0x100
    ensures i < 16 ==> Encode(e)[24 + i] == ToTwos(e.ctimeNs) / Pow256(i) % 0x100
    ensures i < 4 ==> Encode(e)[40 + i] == e.blksz / Pow256(i) % 0x100
    ensures h < |e.hashes| ==> Encode(e)[44 + 16 * h..44 + 16 * h + 16] == e.hashes[h]
  {
    var bs := Encode(e);
    EncodeSlices(e);
    if i < 8 {
      LeByteAt(e.size, 8, i);
      assert bs[i] == bs[0..8][i];
    }
    if i < 16 {
      LeByteAt(ToTwos(e.mtimeNs), 16, i);
      LeByteAt(ToTwos(e.ctimeNs), 16, i);
      assert bs[8 + i] == bs[8..24][i] && bs[24 + i] == bs[24..40][i];
    }
    if i < 4 {
      LeByteAt(e.blksz, 4, i);
      assert bs[40 + i] == bs[40..44][i];
    }
    if h < |e.hashes| {
      HashAtOffset(e.hashes, h);
      assert bs[44 + 16 * h..44 + 16 * h + 16] == bs[HEADER..][16 * h..16 * h + 16];
    }
  }

  lemma HeaderBack(e: FileEntry)
    ensures FromLe(LeBytes(e.size, 8)) == e.size && FromLe(LeBytes(e.blksz, 4)) == e.blksz
    ensures FromLe(LeBytes(ToTwos(e.mtimeNs), 16)) == ToTwos(e.mtimeNs) < 2 * TWO_127
    ensures FromLe(LeBytes(ToTwos(e.ctimeNs), 16)) == ToTwos(e.ctimeNs) < 2 * TWO_127
  {
    Widths();
    FromLeBytes(e.size, 8);
    FromLeBytes(ToTwos(e.mtimeNs), 16);
    FromLeBytes(ToTwos(e.ctimeNs), 16);
    FromLeBytes(e.blksz, 4);
  }

  lemma DecodeEncode(e: FileEntry)
    ensures Decode(Encode(e)) == Ok(e)
  {
    EncodeSlices(e);
    HeaderBack(e);
    UnflattenFlatten(e.hashes);
  }

  lemma HeaderFields(buf: seq<byte>)
    requires |buf| >= HEADER
    ensures FromLe(buf[0..8]) < TWO_64 && FromLe(buf[8..24]) < 2 * TWO_127
    ensures FromLe(buf[24..40]) < 2 * TWO_127 && FromLe(buf[40..44]) < 0x1_0000_0000
    ensures LeBytes(FromLe(buf[0..8]), 8) == buf[0..8] && LeBytes(FromLe(buf[8..24]), 16) == buf[8..24]
    ensures LeBytes(FromLe(buf[24..40]), 16) == buf[24..40] && LeBytes(FromLe(buf[40..44]), 4) == buf[40..44]
    ensures buf == buf[0..8] + buf[8..24] + buf[24..40] + buf[40..44] + buf[HEADER..]
  {
    Widths();
    LeBytesFrom(buf[0..8]);
    LeBytesFrom(buf[8..24]);
    LeBytesFrom(buf[24..40]);
    LeBytesFrom(buf[40..44]);
  }

  lemma TwosRoundTrip(u: nat)
    requires u < 2 * TWO_127
    ensures ToTwos(FromTwos(u)) == u
  {
  }

  lemma EncodeDecode(buf: seq<byte>)
    requires Decode(buf).Ok?
    ensures Encode(Decode(buf).value) == buf
  {
    HeaderFields(buf);
    TwosRoundTrip(FromLe(buf[8..24]));
    TwosRoundTrip(FromLe(buf[24..40]));
    FlattenUnflatten(buf[HEADER..]);
  }

  /** The records that decode are exactly the encodings, each of one entry. */
  lemma DecodesExactlyEncodings(buf: seq<byte>)
    ensures Decode(buf).Ok? <==> exists e :: Encode(e) == buf
    ensures forall e, e' :: Encode(e) == Encode(e') ==> e == e'
  {
    if Decode(buf).Ok? {
      EncodeDecode(buf);
    }
    forall e ensures Decode(Encode(e)) == Ok(e) {
      DecodeEncode(e);
    }
  }

  lemma CopyStep(a: seq<byte>, src: seq<byte>, b: seq<byte>, i: nat)
    requires i < |src| && i < |b|
    ensures (a + src[..i] + b[i..])[|a| + i := src[i]] == a + src[..i + 1] + b[i + 1..]
  {
  }

  method CopyInto(buf: array<byte>, at: nat, src: seq<byte>)
    requires at + |src| <= buf.Length
    modifies buf
    ensures buf[..] == old(buf[..at]) + src + old(buf[at + |src|..])
  {
    ghost var a, b := buf[..at], buf[at..];
    assert buf[..] == a + src[..0] + b[0..];
    var i := 0;
    while i < |src|
      invariant 0 <= i <= |src|
      invariant buf[..] == a + src[..i] + b[i..]
    {
      ghost var before := buf[..];
      CopyStep(a, src, b, i);
      buf[at + i] := src[i];
      assert buf[..] == before[at + i := src[i]];
      i := i + 1;
    }
    assert src[..i] == src && b[i..] == old(buf[at + |src|..]);
  }

  function Header(e: FileEntry): (bs: seq<byte>)
    ensures |bs| == HEADER
  {
    LeBytes(e.size, 8) + LeBytes(ToTwos(e.mtimeNs), 16) + LeBytes(ToTwos(e.ctimeNs), 16) + LeBytes(e.blksz, 4)
  }

  method EncodeHeader(buf: array<byte>, e: FileEntry)
    requires buf.Length >= HEADER
    modifies buf
    ensures buf[..HEADER] == Header(e)
  {
    CopyInto(buf, 0, LeBytes(e.size, 8));
    CopyInto(buf, 8, LeBytes(ToTwos(e.mtimeNs), 16));
    CopyInto(buf, 24, LeBytes(ToTwos(e.ctimeNs), 16));
    CopyInto(buf, 40, LeBytes(e.blksz, 4));
  }

  // Writes straight into the page the table reserved for the entry.
  method EncodeInto(buf: array<byte>, e: FileEntry)
    requires buf.Length == HEADER + |e.hashes| * HASH_LEN
    modifies buf
    ensures buf[..] == Encode(e)
  {
    EncodeHeader(buf, e);
    var i := 0;
    while i < |e.hashes|
      invariant 0 <= i <= |e.hashes|
      invariant buf[..HEADER + i * HASH_LEN] == Header(e) + Flatten(e.hashes[..i])
    {
      CopyInto(buf, HEADER + i * HASH_LEN, e.hashes[i]);
      FlattenPrefix(e.hashes, i);
      assert buf[..HEADER + (i + 1) * HASH_LEN] == Header(e) + Flatten(e.hashes[..i]) + e.hashes[i];
      i := i + 1;
    }
    assert e.hashes[..|e.hashes|] == e.hashes;
    assert buf[..] == buf[..HEADER + |e.hashes| * HASH_LEN];
  }

  // ---- the table -------------------------------------------------------------

  // (fsid, inode number)
  type FileKey = (u64, u64)
  type Table = map<FileKey, seq<byte>>

  // What `Cache::get` answers for each file: absent, an entry, or a corrupt record.
  type Get = FileKey -> Result<Option<FileEntry>, nat>

  function Lookup(table: Table, k: FileKey): Result<Option<FileEntry>, nat> {
    if k !in table then Ok(None)
    else match Decode(table[k])
         case Ok(e) => Ok(Some(e))
         case Err(n) => Err(n)
  }

  function Snapshot(table: Table): Get {
    k => Lookup(table, k)
  }

  /** The table after one batch of `put_many`; later entries of one file win. */
  function Put(table: Table, entries: seq<(FileKey, FileEntry)>): Table {
    if entries == [] then table
    else
      var n := |entries| - 1;
      Put(table, entries[..n])[entries[n].0 := Encode(entries[n].1)]
  }

  lemma LookupAfterInsert(table: Table, k: FileKey, e: FileEntry, k': FileKey)
    ensures Lookup(table[k := Encode(e)], k') == if k' == k then Ok(Some(e)) else Lookup(table, k')
  {
    DecodeEncode(e);
  }

  /** A committed batch answers with exactly the last entry put for a file, and no other file moves. */
  lemma {:induction false} LookupAfterPut(table: Table, entries: seq<(FileKey, FileEntry)>, i: nat, k: FileKey)
    ensures i < |entries| && entries[i].0 == k && (forall j :: i < j < |entries| ==> entries[j].0 != k)
            ==> Lookup(Put(table, entries), k) == Ok(Some(entries[i].1))
    ensures (forall j :: 0 <= j < |entries| ==> entries[j].0 != k)
            ==> Lookup(Put(table, entries), k) == Lookup(table, k)
  {
    if entries == [] {
    } else {
      var n := |entries| - 1;
      LookupAfterPut(table, entries[..n], i, k);
      LookupAfterInsert(Put(table, entries[..n]), entries[n].0, entries[n].1, k);
    }
  }

  /** The table after dropping the unseen records of the scanned datasets. */
  function Pruned(table: Table, seen: FileKey -> bool, fsids: set<u64>): Table {
    map k | k in table && (k.0 !in fsids || seen(k)) :: table[k]
  }

  class Cache {
    var table: Table

    constructor (table: Table)
      ensures this.table == table
    {
      this.table := table;
    }

    // `get` against a snapshot of the table.
    method Reader() returns (get: Get)
      ensures get == Snapshot(table)
    {
      get := Snapshot(table);
    }

    // One transaction; every entry is encoded into the page reserved for it.
    method PutMany(entries: seq<(FileKey, FileEntry)>)
      modifies this
      ensures table == Put(old(table), entries)
    {
      var tx := table;
      var i := 0;
      while i < |entries|
        invariant 0 <= i <= |entries|
        invariant table == old(table) && tx == Put(table, entries[..i])
      {
        var (k, e) := entries[i];
        var page := new byte[HEADER + |e.hashes| * HASH_LEN](_ => 0);
        EncodeInto(page, e);
        tx := tx[k := page[..]];
        assert entries[..i + 1][..i] == entries[..i];
        i := i + 1;
      }
      assert entries[..|entries|] == entries;
      table := tx;
    }

    // Drops unseen records on the scanned datasets; `seen` may over-answer.
    method Prune(seen: FileKey -> bool, fsids: set<u64>) returns (removed: nat)
      modifies this
      ensures table == Pruned(old(table), seen, fsids)
      ensures removed == |old(table)| - |table|
    {
      var tx := table;
      var todo := table.Keys;
      removed := 0;
      while todo != {}
        invariant todo <= tx.Keys <= table.Keys && table == old(table)
        invariant forall k :: k in tx ==> tx[k] == table[k]
        invariant forall k :: k in table && k !in todo ==> (k in tx <==> k.0 !in fsids || seen(k))
        invariant removed == |table| - |tx|
        decreases |todo|
      {
        var k :| k in todo;
        var keep := k.0 !in fsids || seen(k);
        if !keep {
          ghost var before := tx;
          tx := tx - {k};
          assert before.Keys == tx.Keys + {k};
          assert |before.Keys| == |before| && |tx.Keys| == |tx|;
          removed := removed + 1;
        }
        todo := todo - {k};
      }
      table := tx;
    }
  }
}
