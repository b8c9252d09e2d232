/** The Bloom filter of src/bloom.rs: no false negatives, whatever the probe positions. */
module BloomFilter {
  import opened Base

  // Probes per key.
  const K: nat := 7

  // A 64-bit word of the filter, as the set of its one bits: `w |= 1 << b` adds `b`.
  type Word = w: set<nat> | forall b :: b in w ==> b < 64

  /** Exponent of the smallest power of two that is at least `n`, searching upwards from `from`. */
  function NextPowerOfTwo(n: nat, from: nat := 0): (e: nat)
    ensures n <= Pow2(e)
    ensures e == from || Pow2(e) < 2 * n
    decreases n - Pow2(from)
  {
    if n <= Pow2(from) then from else NextPowerOfTwo(n, from + 1)
  }

  lemma AtLeast64(e: nat)
    requires Pow2(e) >= 64
    ensures e >= 6 && Pow2(e) == 64 * Pow2(e - 6)
  {
    if e < 6 {
      assert Pow2(2) == 4 && Pow2(4) == 16 && Pow2(5) == 32;
      assert false;
    }
    assert Pow2(e) == 4 * Pow2(e - 2) == 16 * Pow2(e - 4) == 64 * Pow2(e - 6);
  }

  function Step(k: u64): (step: u64)
    ensures step % 2 == 1 && k / 0x1_0000_0000 <= step <= k / 0x1_0000_0000 + 1
  {
    var high := k / 0x1_0000_0000;
    if high % 2 == 0 then high + 1 else high // (k >> 32) | 1
  }

  /** Probe `i` of key `k` before the range mask: `k + i * step` in wrapping 64-bit arithmetic. */
  function HashAt(k: u64, i: nat): u64 {
    (k + (i * Step(k)) % TWO_64) % TWO_64
  }

  /** Probe position `i` of `k`; `mask + 1` is a power of two, so `& mask` is a remainder. */
  function Pos(k: u64, i: nat, mask: u64): (pos: nat)
    ensures pos <= mask
  {
    HashAt(k, i) % (mask + 1)
  }

  /** Without the wrap-around, which the mask makes invisible. */
  lemma PosIsLinear(k: u64, i: nat, mask: u64, e: nat)
    requires mask + 1 == Pow2(e)
    ensures Pos(k, i, mask) == (k + i * Step(k)) % (mask + 1)
  {
    Pow2Of64();
    PowersGrow(e, 64);
    var n := i * Step(k);
    ModOfMod(k + n % TWO_64, e, 64);
    var q := n / TWO_64;
    assert n == TWO_64 * q + n % TWO_64;
    ModOfMod(n, e, 64);
    SumOfMods(k, n % TWO_64, n, mask + 1);
  }

  /** The seven probes of a key are the key's low bits and six positions more, all different. */
  lemma ProbesAreDistinct(k: u64, mask: u64, e: nat, i: nat, j: nat)
    requires mask + 1 == Pow2(e) >= 64 && i < j < K
    ensures K == 7 && Pos(k, 0, mask) == k % (mask + 1) && Pos(k, i, mask) != Pos(k, j, mask)
  {
    PosIsLinear(k, 0, mask, e);
    PosIsLinear(k, i, mask, e);
    PosIsLinear(k, j, mask, e);
    OddStepsApart(k, Step(k), i, j, e);
  }

  lemma OddStepsApart(k: nat, step: nat, i: nat, j: nat, e: nat)
    requires step % 2 == 1 && i < j < i + Pow2(e)
    ensures (k + i * step) % Pow2(e) != (k + j * step) % Pow2(e)
  {
    MulMonotone(step, i, j);
    if (k + i * step) % Pow2(e) == (k + j * step) % Pow2(e) {
      DifferenceDivides(k + i * step, k + j * step, Pow2(e));
      assert (j - i) * step == j * step - i * step;
      OddFactor(j - i, step, e);
      QuotientIsUnique(Pow2(e), j - i, 0, j - i);
    }
  }

  predicate SetAt(words: seq<Word>, pos: nat) {
    pos / 64 < |words| && pos % 64 in words[pos / 64]
  }

  /** All `K` probes of `k` hit one bits. */
  predicate Holds(words: seq<Word>, mask: u64, k: u64) {
    forall i: nat :: i < K ==> SetAt(words, Pos(k, i, mask))
  }

  /** `pos` is one of the first `n` probes of `k`. */
  ghost predicate Probed(k: u64, n: nat, mask: u64, pos: nat) {
    exists i: nat :: i < n && Pos(k, i, mask) == pos
  }

  /** The one bits are those of before and the first `n` probes of `k`. */
  ghost predicate Marked(before: seq<Word>, after: seq<Word>, k: u64, n: nat, mask: u64) {
    forall pos: nat :: SetAt(after, pos) <==> SetAt(before, pos) || Probed(k, n, mask, pos)
  }

  lemma MarkOne(before: seq<Word>, words: seq<Word>, k: u64, n: nat, mask: u64)
    requires Marked(before, words, k, n, mask) && (mask as nat) / 64 < |words|
    ensures var pos := Pos(k, n, mask);
            pos / 64 < |words|
            && Marked(before, words[pos / 64 := words[pos / 64] + {pos % 64}], k, n + 1, mask)
  {
    var pos := Pos(k, n, mask);
    var words' := words[pos / 64 := words[pos / 64] + {pos % 64}];
    forall p: nat ensures SetAt(words', p) <==> SetAt(before, p) || Probed(k, n + 1, mask, p) {
      assert SetAt(words', p) <==> SetAt(words, p) || p == pos;
      assert Probed(k, n + 1, mask, p) <==> Probed(k, n, mask, p) || p == pos by {
        if Probed(k, n, mask, p) {
          var i: nat :| i < n && Pos(k, i, mask) == p;
          assert i < n + 1;
        }
      }
    }
  }

  /** No bit was cleared. */
  ghost predicate Grew(before: seq<Word>, after: seq<Word>) {
    |before| == |after| && forall j :: 0 <= j < |before| ==> before[j] <= after[j]
  }

  lemma GrowthKeepsKeys(before: seq<Word>, after: seq<Word>, mask: u64, keys: set<u64>)
    requires Grew(before, after) && forall k :: k in keys ==> Holds(before, mask, k)
    ensures forall k :: k in keys ==> Holds(after, mask, k)
  {
  }

  /** The filter has the least power of two of bits that is at least 64 and ten for each of `nKeys` keys. */
  ghost predicate SizedFor(mask: u64, nKeys: nat) {
    && (exists e: nat :: mask + 1 == Pow2(e)) && mask + 1 >= 64 && mask + 1 >= 10 * nKeys
    && (mask + 1 > 64 ==> (mask + 1) / 2 < 10 * nKeys)
  }

  /** That is one size. */
  lemma SizeIsUnique(mask: u64, mask': u64, nKeys: nat)
    requires SizedFor(mask, nKeys) && SizedFor(mask', nKeys)
    ensures mask == mask'
  {
    var e: nat :| mask + 1 == Pow2(e);
    var e': nat :| mask' + 1 == Pow2(e');
    if e < e' {
      PowQuotientOfHalf(e, e');
    } else if e' < e {
      PowQuotientOfHalf(e', e);
    }
  }

  lemma PowQuotientOfHalf(small: nat, large: nat)
    requires small < large
    ensures Pow2(small) <= Pow2(large) / 2
  {
    var c := PowQuotient(small, large - 1);
    if c > 0 {
      MulMonotone(Pow2(small), 1, c);
    }
  }

  class Bloom {
    const bits: array<Word>
    const mask: u64
    ghost const exponent: nat
    ghost var keys: set<u64> // every key ever inserted

    ghost predicate Valid()
      reads this, bits
    {
      && mask + 1 == Pow2(exponent) == 64 * bits.Length
      && forall k :: k in keys ==> Holds(bits[..], mask, k)
    }

    constructor (nKeys: nat)
      requires 10 * nKeys <= TWO_64 / 2
      ensures Valid() && keys == {} && fresh(bits) && forall pos: nat :: !SetAt(bits[..], pos)
      ensures SizedFor(mask, nKeys)
    {
      var e := NextPowerOfTwo(10 * nKeys);
      var n: nat := if Pow2(e) < 64 then 64 else Pow2(e);
      bits := new Word[n / 64](_ => {});
      mask := n - 1;
      exponent := if Pow2(e) < 64 then 6 else e;
      keys := {};
      new;
      assert Pow2(2) == 4 && Pow2(4) == 16 && Pow2(6) == 64;
      AtLeast64(exponent);
      assert mask + 1 == Pow2(exponent);
    }

    method Insert(k: u64)
      requires Valid()
      modifies this`keys, bits
      ensures Valid() && keys == old(keys) + {k}
      ensures Grew(old(bits[..]), bits[..]) && Marked(old(bits[..]), bits[..], k, K, mask)
    {
      var i: nat := 0;
      while i < K
        invariant i <= K && keys == old(keys) && Marked(old(bits[..]), bits[..], k, i, mask)
        invariant Grew(old(bits[..]), bits[..])
        invariant forall x: nat :: x < i ==> SetAt(bits[..], Pos(k, x, mask))
      {
        ghost var before := bits[..];
        var pos := Pos(k, i, mask);
        MarkOne(old(bits[..]), before, k, i, mask);
        bits[pos / 64] := bits[pos / 64] + {pos % 64};
        assert bits[..] == before[pos / 64 := before[pos / 64] + {pos % 64}];
        assert Grew(before, bits[..]);
        assert SetAt(bits[..], pos);
        i := i + 1;
      }
      GrowthKeepsKeys(old(bits[..]), bits[..], mask, keys);
      keys := keys + {k};
    }

    predicate Contains(k: u64)
      requires Valid()
      reads this, bits
      ensures k in keys ==> Contains(k)
    {
      Holds(bits[..], mask, k)
    }

    // Both at once; the answer is about the filter before the call.
    method CheckInsert(k: u64) returns (present: bool)
      requires Valid()
      modifies this`keys, bits
      ensures Valid() && keys == old(keys) + {k}
      ensures present == old(Contains(k))
      ensures k in old(keys) ==> present
      ensures Grew(old(bits[..]), bits[..]) && Marked(old(bits[..]), bits[..], k, K, mask)
    {
      present := Contains(k);
      Insert(k);
    }
  }

  /** Any sequence of insertions, each through `insert` or `check_insert`, into a fresh filter of any size. */
  method InsertAll(nKeys: nat, ks: seq<u64>, checked: seq<bool>) returns (b: Bloom, answers: seq<bool>)
    requires 10 * nKeys <= TWO_64 / 2 && |checked| == |ks|
    ensures b.Valid() && fresh(b) && b.keys == (set k | k in ks)
    ensures |answers| == |ks|
    ensures forall i :: 0 <= i < |ks| && checked[i] && ks[i] in ks[..i] ==> answers[i]
  {
    b := new Bloom(nKeys);
    answers := [];
    for i := 0 to |ks|
      invariant b.Valid() && fresh(b) && fresh(b.bits)
      invariant |answers| == i && b.keys == (set k | k in ks[..i])
      invariant forall j :: 0 <= j < i && checked[j] && ks[j] in ks[..j] ==> answers[j]
    {
      assert ks[..i + 1] == ks[..i] + [ks[i]];
      if checked[i] {
        var seen := b.CheckInsert(ks[i]);
        answers := answers + [seen];
      } else {
        b.Insert(ks[i]);
        answers := answers + [false];
      }
    }
    assert ks[..|ks|] == ks;
  }
}
