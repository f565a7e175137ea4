/**
  The free-block bitmap of bitmap.c: one bit per block, set when the block is free.
 */
module BlockBitmap {
  import opened Util

  // ----- binary digits of a word

  /** w & (1 << k) */
  predicate Test(w: nat, k: nat) {
    if k == 0 then w % 2 == 1 else Test(w / 2, k - 1)
  }

  /** w | (1 << k) */
  function SetIn(w: nat, k: nat): nat {
    if k == 0 then w / 2 * 2 + 1 else 2 * SetIn(w / 2, k - 1) + w % 2
  }

  /** w & ~(1 << k) */
  function ClearIn(w: nat, k: nat): nat {
    if k == 0 then w / 2 * 2 else 2 * ClearIn(w / 2, k - 1) + w % 2
  }

  lemma {:induction false} TestUpdated(w: nat, k: nat, l: nat)
    ensures Test(SetIn(w, k), l) <==> k == l || Test(w, l)
    ensures Test(ClearIn(w, k), l) <==> k != l && Test(w, l)
  {
    if k > 0 && l > 0 {
      TestUpdated(w / 2, k - 1, l - 1);
      assert SetIn(w, k) / 2 == SetIn(w / 2, k - 1) && ClearIn(w, k) / 2 == ClearIn(w / 2, k - 1);
    }
  }

  /** A word of `n` ones. */
  function Ones(n: nat): nat {
    if n == 0 then 0 else 2 * Ones(n - 1) + 1
  }

  lemma {:induction false} OnesTest(n: nat, k: nat)
    requires k < n
    ensures Test(Ones(n), k)
  {
    if k > 0 {
      assert Ones(n) / 2 == Ones(n - 1);
      OnesTest(n - 1, k - 1);
    }
  }

  lemma AllOnes()
    ensures Ones(32) == 0xFFFF_FFFF
  {
    assert Ones(8) == 0xFF;
    assert Ones(16) == 0xFFFF;
    assert Ones(24) == 0xFF_FFFF;
  }

  // ----- the bits of an array of words

  predicate BitAt(words: seq<nat>, b: nat)
    requires b < 32 * |words|
  {
    Test(words[b / 32], b % 32)
  }

  /** The bits of the first `n` blocks. */
  function Bits(words: seq<nat>, n: nat): (s: seq<bool>)
    requires n <= 32 * |words|
    ensures |s| == n && forall b :: 0 <= b < n ==> s[b] == BitAt(words, b)
  {
    if n == 0 then [] else Bits(words, n - 1) + [BitAt(words, n - 1)]
  }

  function WithBitSet(words: seq<nat>, b: nat): seq<nat>
    requires b < 32 * |words|
  {
    words[b / 32 := SetIn(words[b / 32], b % 32)]
  }

  function WithBitClear(words: seq<nat>, b: nat): seq<nat>
    requires b < 32 * |words|
  {
    words[b / 32 := ClearIn(words[b / 32], b % 32)]
  }

  /** Updating one bit through its word changes that bit only. */
  lemma OneBitAt(words: seq<nat>, b: nat, c: nat)
    requires b < 32 * |words| && c < 32 * |words|
    ensures BitAt(WithBitSet(words, b), c) == (c == b || BitAt(words, c))
    ensures BitAt(WithBitClear(words, b), c) == (c != b && BitAt(words, c))
  {
    hide Test, SetIn, ClearIn;
    if c / 32 == b / 32 {
      TestUpdated(words[b / 32], b % 32, c % 32);
      assert c == 32 * (c / 32) + c % 32 && b == 32 * (b / 32) + b % 32;
    }
  }

  lemma OneBit(words: seq<nat>, n: nat, b: nat)
    requires b < n <= 32 * |words|
    ensures Bits(WithBitSet(words, b), n) == Bits(words, n)[b := true]
    ensures Bits(WithBitClear(words, b), n) == Bits(words, n)[b := false]
  {
    hide BitAt;
    forall c | 0 <= c < n
      ensures BitAt(WithBitSet(words, b), c) == (c == b || BitAt(words, c))
      ensures BitAt(WithBitClear(words, b), c) == (c != b && BitAt(words, c))
    {
      OneBitAt(words, b, c);
    }
  }

  // ----- counting

  function CountFree(free: seq<bool>): (n: nat)
    ensures n <= |free|
  {
    if free == [] then 0 else CountFree(free[..|free| - 1]) + if free[|free| - 1] then 1 else 0
  }

  /** Freeing a block in use raises the count by exactly one; taking a free one lowers it by one. */
  lemma {:induction false} CountChange(free: seq<bool>, b: nat, x: bool)
    requires b < |free| && free[b] != x
    ensures CountFree(free[b := x]) == CountFree(free) + if x then 1 else -1
    decreases |free|
  {
    var after := free[b := x];
    var n := |free| - 1;
    if b < n {
      assert after[..n] == free[..n][b := x];
      CountChange(free[..n], b, x);
    } else {
      assert after[..n] == free[..n];
    }
  }

  class FreeMap {
    const nblocks: nat             // super->s_nblocks
    const words: array<nat>

    /** The bitmap as memset(bitmap, 0xFF, ...) leaves it: every block free. */
    constructor (nblocks: nat)
      ensures this.nblocks == nblocks && fresh(words) && Valid()
      ensures forall b :: 0 <= b < nblocks ==> Free()[b]
    {
      this.nblocks := nblocks;
      words := new nat[(nblocks + 31) / 32](_ => 0xFFFF_FFFF);
      new;
      AllOnes();
      hide Test, Ones;
      forall b | 0 <= b < nblocks
        ensures Free()[b]
      {
        OnesTest(32, b % 32);
      }
    }

    ghost predicate Valid() { nblocks <= 32 * words.Length }

    ghost function Free(): (s: seq<bool>)
      requires Valid()
      reads words
      ensures |s| == nblocks
    {
      Bits(words[..], nblocks)
    }

    method BlockIsFree(b: nat) returns (r: bool)
      requires Valid()
      ensures r <==> b < nblocks && Free()[b]
    {
      hide Test;
      if b >= nblocks {
        return false;
      }
      return Test(words[b / 32], b % 32);
    }

    method FreeBlock(b: nat)
      requires Valid() && b < nblocks
      modifies words
      ensures Free() == if b == 0 then old(Free()) else old(Free())[b := true]
    {
      hide Test, SetIn, ClearIn;
      // 0 in a pointer slot means "no block"
      if b == 0 {
        return;
      }
      OneBit(words[..], nblocks, b);
      words[b / 32] := SetIn(words[b / 32], b % 32);
      assert words[..] == WithBitSet(old(words[..]), b);
    }

    /** Mark block `b` in use. */
    method ClearBlock(b: nat)
      requires Valid() && b < nblocks
      modifies words
      ensures Free() == old(Free())[b := false]
    {
      hide Test, SetIn, ClearIn;
      OneBit(words[..], nblocks, b);
      words[b / 32] := ClearIn(words[b / 32], b % 32);
      assert words[..] == WithBitClear(old(words[..]), b);
    }

    /** alloc_block: a free block, marked in use, or nothing when there is none (-ENOSPC). */
    method AllocBlock() returns (r: Option<nat>)
      requires Valid()
      modifies words
      ensures r.Some? ==> r.value < nblocks && old(Free())[r.value] && Free() == old(Free())[r.value := false]
      ensures r.None? ==> Free() == old(Free()) && forall b :: 0 <= b < nblocks ==> !Free()[b]
    {
      for b := 0 to nblocks
        invariant words[..] == old(words[..]) && forall c :: 0 <= c < b ==> !Free()[c]
      {
        var free := BlockIsFree(b);
        if free {
          ClearBlock(b);
          return Some(b);
        }
      }
      return None;
    }

    /** The f_bfree loop of fs_statfs. */
    method CountFreeBlocks() returns (n: nat)
      requires Valid()
      ensures n == CountFree(Free())
    {
      n := 0;
      for i := 0 to nblocks
        invariant n == CountFree(Free()[..i])
      {
        assert Free()[..i + 1][..i] == Free()[..i];
        var free := BlockIsFree(i);
        if free {
          n := n + 1;
        }
      }
      assert Free()[..nblocks] == Free();
    }
  }
}
