/** The split-block Bloom filter of Apache Parquet (BloomFilter.md, "Technical Approach").
    A 32-bit word is the set of its one bits; a block is eight words. */
module Bloom {
  import opened Common

  const SALT: seq<nat> := [0x47b6137b, 0x44974d91, 0x8824ad5b, 0xa2b7289d, 0x705495c7, 0x2df1424b, 0x9efc4947, 0x5c6bfb31]

  type Word = set<nat>

  /** The bit a key sets in word `i` of its block: the top five bits of key times salt. */
  function MaskBit(hash: nat, i: nat): (bit: nat)
    requires i < 8
    ensures bit < 32
  {
    Top5(hash % TWO32 * SALT[i] % TWO32)
  }

  function Top5(x: nat): (bit: nat)
    requires x < TWO32
    ensures bit < 32
  {
    x / 0x800_0000
  }

  /** The bits of any key, with the standard's salts by value. */
  lemma {:induction false} BitsByValue(hash: nat)
    ensures MaskBit(hash, 0) == hash % 0x1_0000_0000 * 0x47b6137b % 0x1_0000_0000 / 0x800_0000
    ensures MaskBit(hash, 1) == hash % 0x1_0000_0000 * 0x44974d91 % 0x1_0000_0000 / 0x800_0000
    ensures MaskBit(hash, 2) == hash % 0x1_0000_0000 * 0x8824ad5b % 0x1_0000_0000 / 0x800_0000
    ensures MaskBit(hash, 3) == hash % 0x1_0000_0000 * 0xa2b7289d % 0x1_0000_0000 / 0x800_0000
    ensures MaskBit(hash, 4) == hash % 0x1_0000_0000 * 0x705495c7 % 0x1_0000_0000 / 0x800_0000
    ensures MaskBit(hash, 5) == hash % 0x1_0000_0000 * 0x2df1424b % 0x1_0000_0000 / 0x800_0000
    ensures MaskBit(hash, 6) == hash % 0x1_0000_0000 * 0x9efc4947 % 0x1_0000_0000 / 0x800_0000
    ensures MaskBit(hash, 7) == hash % 0x1_0000_0000 * 0x5c6bfb31 % 0x1_0000_0000 / 0x800_0000
  {
  }

  /** Fastrange: the high half of the hash scaled to the number of blocks. */
  function BlockIndex(hash: nat, numBlocks: nat): (block: nat)
    requires hash < TWO64 && numBlocks > 0
    ensures block < numBlocks
  {
    ScaledBelow(hash / TWO32, numBlocks);
    hash / TWO32 * numBlocks / TWO32
  }

  lemma {:induction false} ScaledBelow(high: nat, n: nat)
    requires high < TWO32 && n > 0
    ensures high * n / TWO32 < n
  {
    var p := high * n;
    Product(high, TWO32 - 1, n);
    assert (TWO32 - 1) * n == TWO32 * n - n;
    assert p < TWO32 * n;
  }

  lemma {:induction false} Product(a: nat, b: nat, n: nat)
    requires a <= b
    ensures a * n <= b * n
  {
    assert b * n == a * n + (b - a) * n;
  }

  /** All eight bits of the key are set in its block. */
  predicate Contains(words: seq<Word>, numBlocks: nat, hash: nat)
    requires hash < TWO64 && numBlocks > 0 && |words| == 8 * numBlocks
  {
    HasBits(words, 8 * BlockIndex(hash, numBlocks), hash, 8)
  }

  /** The key's first `n` bits are set in the block at `base`. */
  predicate HasBits(words: seq<Word>, base: nat, hash: nat, n: nat)
    requires n <= 8 && base + 8 <= |words|
  {
    forall i :: 0 <= i < n ==> MaskBit(hash, i) in words[base + i]
  }

  ghost predicate Grows(was: seq<Word>, words: seq<Word>) {
    |words| == |was| && forall w :: 0 <= w < |words| ==> was[w] <= words[w]
  }

  /** Every set bit belongs to one of the keys. */
  ghost predicate OnlyFrom(words: seq<Word>, keys: set<nat>, numBlocks: nat) {
    forall w: nat, bit: nat {:trigger SetBySome(keys, numBlocks, w, bit)} ::
      w < |words| && bit in words[w] ==> SetBySome(keys, numBlocks, w, bit)
  }

  lemma {:induction false} ContainsGrows(was: seq<Word>, words: seq<Word>, numBlocks: nat, hash: nat)
    requires hash < TWO64 && numBlocks > 0 && |was| == 8 * numBlocks && Grows(was, words) && Contains(was, numBlocks, hash)
    ensures Contains(words, numBlocks, hash)
  {
    var base := 8 * BlockIndex(hash, numBlocks);
    forall i | 0 <= i < 8 ensures MaskBit(hash, i) in words[base + i] {
      assert MaskBit(hash, i) in was[base + i];
    }
  }

  lemma {:induction false} GrowsTwice(a: seq<Word>, b: seq<Word>, c: seq<Word>)
    requires Grows(a, b) && Grows(b, c)
    ensures Grows(a, c)
  {
  }

  /** Setting the key's next bit. */
  lemma {:induction false} BitSet(was: seq<Word>, words: seq<Word>, keys: set<nat>, numBlocks: nat, hash: nat, i: nat)
    requires hash < TWO64 && numBlocks > 0 && |was| == 8 * numBlocks && i < 8 && hash in keys && OnlyFrom(was, keys, numBlocks)
    requires var w := 8 * BlockIndex(hash, numBlocks) + i; words == was[w := was[w] + {MaskBit(hash, i)}]
    requires HasBits(was, 8 * BlockIndex(hash, numBlocks), hash, i)
    ensures Grows(was, words) && OnlyFrom(words, keys, numBlocks) && HasBits(words, 8 * BlockIndex(hash, numBlocks), hash, i + 1)
  {
    var base := 8 * BlockIndex(hash, numBlocks);
    assert Sets(hash, numBlocks, base + i, MaskBit(hash, i));
    forall w: nat, bit: nat | w < |words| && bit in words[w] ensures SetBySome(keys, numBlocks, w, bit) {
      if bit in was[w] {
        assert SetBySome(keys, numBlocks, w, bit);
      }
    }
  }

  lemma {:induction false} MoreKeys(words: seq<Word>, keys: set<nat>, numBlocks: nat, hash: nat)
    requires OnlyFrom(words, keys, numBlocks)
    ensures OnlyFrom(words, keys + {hash}, numBlocks)
  {
    forall w: nat, bit: nat | w < |words| && bit in words[w] ensures SetBySome(keys + {hash}, numBlocks, w, bit) {
      assert SetBySome(keys, numBlocks, w, bit);
    }
  }

  class BsbfBuilder {
    const numBlocks: nat
    var words: seq<Word>
    ghost var inserted: set<nat>

    /** Every inserted key is found, and every set bit belongs to an inserted key. */
    ghost predicate Valid()
      reads this
    {
      && numBlocks > 0 && |words| == 8 * numBlocks
      && (forall h {:trigger h in inserted} :: h in inserted ==> h < TWO64 && Contains(words, numBlocks, h))
      && OnlyFrom(words, inserted, numBlocks)
    }

    constructor (numBlocks: nat)
      requires numBlocks > 0
      ensures Valid() && inserted == {} && this.numBlocks == numBlocks
    {
      this.numBlocks := numBlocks;
      words := seq(8 * numBlocks, _ => {});
      inserted := {};
    }

    method Insert(hash: nat)
      requires Valid() && hash < TWO64
      modifies this
      ensures Valid() && inserted == old(inserted) + {hash}
      ensures Grows(old(words), words)
    {
      var block := BlockIndex(hash, numBlocks);
      ghost var keys := inserted + {hash};
      MoreKeys(words, inserted, numBlocks, hash);
      for i := 0 to 8
        invariant |words| == 8 * numBlocks && inserted == old(inserted) && Grows(old(words), words)
        invariant OnlyFrom(words, keys, numBlocks) && HasBits(words, 8 * block, hash, i)
      {
        ghost var was := words;
        words := words[8 * block + i := words[8 * block + i] + {MaskBit(hash, i)}];
        BitSet(was, words, keys, numBlocks, hash, i);
        GrowsTwice(old(words), was, words);
      }
      inserted := keys;
      forall h | h in keys ensures h < TWO64 && Contains(words, numBlocks, h) {
        if h != hash {
          ContainsGrows(old(words), words, numBlocks, h);
        }
      }
    }

    /** False only for keys that were never inserted. */
    method MaybeContains(hash: nat) returns (maybe: bool)
      requires Valid() && hash < TWO64
      ensures maybe <==> Contains(words, numBlocks, hash)
      ensures hash in inserted ==> maybe
    {
      var block := BlockIndex(hash, numBlocks);
      for i := 0 to 8
        invariant HasBits(words, 8 * block, hash, i)
      {
        if MaskBit(hash, i) !in words[8 * block + i] {
          return false;
        }
      }
      maybe := true;
    }
  }

  /** Key `h` sets this bit of this word. */
  ghost predicate Sets(h: nat, numBlocks: nat, w: nat, bit: nat) {
    && h < TWO64 && numBlocks > 0
    && exists i :: 0 <= i < 8 && w == 8 * BlockIndex(h, numBlocks) + i && bit == MaskBit(h, i)
  }

  ghost predicate SetBySome(keys: set<nat>, numBlocks: nat, w: nat, bit: nat) {
    exists h :: h in keys && Sets(h, numBlocks, w, bit)
  }
}
