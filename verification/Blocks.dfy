/**
  Disk blocks of the CS202 file system as bytes, with the little-endian words and the packed
  structures of fs_types.h read and written inside them.
 */
module Blocks {
  import opened CInts
  import opened Util

  const BLKSIZE := 4096
  const N_DIRECT := 10
  const N_INDIRECT := 1024
  const N_DOUBLE := 1024 * 1024
  const MAXBLOCKS := N_DIRECT + N_INDIRECT + N_DOUBLE

  type Byte = b: nat | b < 256
  type Block = b: seq<Byte> | |b| == BLKSIZE witness ZeroBlock()

  function ZeroBlock(): (b: seq<Byte>)
    ensures |b| == BLKSIZE && forall i :: 0 <= i < BLKSIZE ==> b[i] == 0
  {
    Repeat(0, BLKSIZE)
  }

  // ----- words

  function Word(b: Block, off: nat): (w: nat)
    requires off + 4 <= BLKSIZE
    ensures w < TWO32
  {
    var b0: nat, b1: nat, b2: nat, b3: nat := b[off], b[off + 1], b[off + 2], b[off + 3];
    b0 + 0x100 * b1 + 0x1_0000 * b2 + 0x100_0000 * b3
  }

  function PutWord(b: Block, off: nat, w: nat): (r: Block)
    requires off + 4 <= BLKSIZE && w < TWO32
  {
    b[off := w % 0x100][off + 1 := w / 0x100 % 0x100][off + 2 := w / 0x1_0000 % 0x100][off + 3 := w / 0x100_0000]
  }

  lemma WordPut(b: Block, off: nat, w: nat)
    requires off + 4 <= BLKSIZE && w < TWO32
    ensures Word(PutWord(b, off, w), off) == w
    ensures forall o :: 0 <= o && o + 4 <= BLKSIZE && (o + 4 <= off || off + 4 <= o) ==>
              Word(PutWord(b, off, w), o) == Word(b, o)
    ensures forall i :: 0 <= i < BLKSIZE && (i < off || off + 4 <= i) ==> PutWord(b, off, w)[i] == b[i]
  {
    WordBytes(w);
  }

  lemma WordBytes(w: nat)
    ensures w % 0x100 + 0x100 * (w / 0x100 % 0x100) + 0x1_0000 * (w / 0x1_0000 % 0x100) +
              0x100_0000 * (w / 0x100_0000) == w
  {
    assert w / 0x1_0000 == w / 0x100 / 0x100;
    assert w / 0x100_0000 == w / 0x1_0000 / 0x100;
  }

  lemma ZeroWord(off: nat)
    requires off + 4 <= BLKSIZE
    ensures Word(ZeroBlock(), off) == 0
  {
  }

  // ----- byte ranges

  /** memmove of `bytes` to offset `at`. */
  function PutBytes(b: Block, at: nat, bytes: seq<Byte>): (r: Block)
    requires at + |bytes| <= BLKSIZE
    ensures forall i :: 0 <= i < BLKSIZE ==> r[i] == if at <= i < at + |bytes| then bytes[i - at] else b[i]
  {
    b[..at] + bytes + b[at + |bytes|..]
  }

  // ----- struct inode

  const MODE := 8
  const SIZE := 46
  const DIRECT := 50

  /** i_size. */
  function SizeOf(b: Block): nat { Word(b, SIZE) }

  /** i_mode. */
  function ModeOf(b: Block): nat { Word(b, MODE) }

  /** S_ISDIR(i_mode). */
  predicate IsDir(b: Block) { Word(b, MODE) / 0x1000 % 16 == 4 }

  /** The attributes in front of the block pointers. */
  function Attributes(b: Block): seq<Byte> { b[..DIRECT] }

  lemma AttributesDetermine(a: Block, b: Block)
    requires Attributes(a) == Attributes(b)
    ensures SizeOf(a) == SizeOf(b) && IsDir(a) == IsDir(b) && ModeOf(a) == ModeOf(b) && a[..SIZE] == b[..SIZE]
  {
    assert forall i :: 0 <= i < DIRECT ==> a[i] == Attributes(a)[i];
    assert forall i :: 0 <= i < DIRECT ==> b[i] == Attributes(b)[i];
  }

  // ----- struct dirent

  const DIRENT := 128
  const NAME_MAX := 124
  const BLKDIRENTS := 32

  type Name = seq<Byte>

  /** The C string starting at `bytes`: everything before the first NUL. */
  function CStr(bytes: seq<Byte>): (s: seq<Byte>)
    ensures |s| <= |bytes| && s == bytes[..|s|] && 0 !in s
    ensures |s| < |bytes| ==> bytes[|s|] == 0
  {
    if bytes == [] || bytes[0] == 0 then [] else [bytes[0]] + CStr(bytes[1..])
  }

  function DirentInum(b: Block, j: nat): nat
    requires j < BLKDIRENTS
  {
    Word(b, DIRENT * j)
  }

  function NameField(b: Block, j: nat): seq<Byte>
    requires j < BLKDIRENTS
  {
    b[DIRENT * j + 4..DIRENT * j + DIRENT]
  }

  function DirentName(b: Block, j: nat): Name
    requires j < BLKDIRENTS
  {
    CStr(NameField(b, j))
  }

  /** strcpy(d_name, name) and d_inum = inum. */
  function PutDirent(b: Block, j: nat, name: Name, inum: nat): Block
    requires j < BLKDIRENTS && |name| < NAME_MAX && inum < TWO32
  {
    PutWord(PutBytes(b, DIRENT * j + 4, name + [0]), DIRENT * j, inum)
  }

  /** A name that fits a directory entry. */
  predicate GoodName(name: Name) { 0 < |name| < NAME_MAX && 0 !in name }

  lemma {:induction false} CStrTerminated(name: Name, rest: seq<Byte>)
    requires 0 !in name
    ensures CStr(name + [0] + rest) == name
  {
    if name == [] {
      assert name + [0] + rest == [0] + rest;
    } else {
      assert (name + [0] + rest)[1..] == name[1..] + [0] + rest;
      CStrTerminated(name[1..], rest);
    }
  }

  /** Filling entry `j` changes that entry only. */
  lemma DirentPut(b: Block, j: nat, name: Name, inum: nat)
    requires j < BLKDIRENTS && GoodName(name) && inum < TWO32
    ensures DirentName(PutDirent(b, j, name, inum), j) == name && DirentInum(PutDirent(b, j, name, inum), j) == inum
    ensures forall k :: 0 <= k < BLKDIRENTS && k != j ==>
              DirentName(PutDirent(b, j, name, inum), k) == DirentName(b, k)
              && DirentInum(PutDirent(b, j, name, inum), k) == DirentInum(b, k)
  {
    hide PutWord, Word, CStr;
    var off := DIRENT * j;
    var named := PutBytes(b, off + 4, name + [0]);
    var r := PutDirent(b, j, name, inum);
    WordPut(named, off, inum);
    assert NameField(r, j) == name + [0] + NameField(b, j)[|name| + 1..];
    CStrTerminated(name, NameField(b, j)[|name| + 1..]);
    forall k | 0 <= k < BLKDIRENTS && k != j
      ensures NameField(r, k) == NameField(b, k) && DirentInum(r, k) == DirentInum(b, k)
    {
      OtherEntry(j, k);
      WordOfBytes(named, b, DIRENT * k);
    }
  }

  lemma OtherEntry(j: nat, k: nat)
    requires j != k
    ensures DIRENT * k + DIRENT <= DIRENT * j || DIRENT * j + DIRENT <= DIRENT * k
  {
  }

  lemma WordOfBytes(a: Block, b: Block, off: nat)
    requires off + 4 <= BLKSIZE
    ensures a[off] == b[off] && a[off + 1] == b[off + 1] && a[off + 2] == b[off + 2] && a[off + 3] == b[off + 3] ==>
              Word(a, off) == Word(b, off)
  {
  }
}
