/**
  Files as flat byte arrays: what reading, writing and growing mean, independently of where
  the blocks lie.
 */
module Files {
  import opened CInts
  import opened Blocks
  import opened Volume

  function FileByte(d: Disk, i: nat, x: nat): Byte
    requires x < TWO32
  {
    FileBlock(d, i, x / BLKSIZE)[x % BLKSIZE]
  }

  /** `len` bytes of the file from position `from` on; holes read as zeros. */
  function FileBytes(d: Disk, i: nat, from: nat, len: nat): (s: seq<Byte>)
    requires from + len <= TWO32
    ensures |s| == len && forall k :: 0 <= k < len ==> s[k] == FileByte(d, i, from + k)
  {
    if len == 0 then [] else FileBytes(d, i, from, len - 1) + [FileByte(d, i, from + len - 1)]
  }

  lemma FileBytesSplit(d: Disk, i: nat, from: nat, a: nat, b: nat)
    requires from + a + b <= TWO32
    ensures FileBytes(d, i, from, a + b) == FileBytes(d, i, from, a) + FileBytes(d, i, from + a, b)
  {
    hide FileByte;
  }

  /** Bytes within one block. */
  lemma FileBytesInBlock(d: Disk, i: nat, pos: nat, bn: nat)
    requires pos + bn <= TWO32 && pos % BLKSIZE + bn <= BLKSIZE && pos < TWO32
    ensures FileBytes(d, i, pos, bn) == FileBlock(d, i, pos / BLKSIZE)[pos % BLKSIZE..pos % BLKSIZE + bn]
  {
    hide FileBlock;
    forall k | 0 <= k < bn
      ensures FileBytes(d, i, pos, bn)[k] == FileBlock(d, i, pos / BLKSIZE)[pos % BLKSIZE + k]
    {
      SameBlock(pos, k);
    }
  }

  lemma SameBlock(pos: nat, k: nat)
    requires pos % BLKSIZE + k < BLKSIZE
    ensures (pos + k) / BLKSIZE == pos / BLKSIZE && (pos + k) % BLKSIZE == pos % BLKSIZE + k
  {
  }

  /** How many bytes inode_read delivers. */
  function Available(size: nat, offset: nat, count: nat): nat {
    if offset >= size then 0 else if count < size - offset then count else size - offset
  }

  // ----- allocation seen from outside

  /** Blocks may have been allocated, but no file looks different and no block has moved. */
  ghost predicate Grown(d: Disk, free: seq<bool>, roles: Roles, e: Disk, free': seq<bool>, roles': Roles) {
    && SameContent(d, e, roles) && |free| == |free'|
    && (forall i :: IsInode(roles, i) <==> IsInode(roles', i))
    && (forall b :: b in roles ==> b in roles' && roles'[b] == roles[b])
    && (forall b :: 0 <= b < |free'| && free'[b] ==> free[b])
    && (forall r :: InFile(r) && IsInode(roles, r.ino) && Home(d, r) != 0 ==> Home(e, r) == Home(d, r))
  }

  lemma GrownRefl(d: Disk, free: seq<bool>, roles: Roles)
    ensures Grown(d, free, roles, d, free, roles)
  {
  }

  lemma GrownTransitive(d: Disk, free: seq<bool>, roles: Roles, e: Disk, free': seq<bool>, roles': Roles, f: Disk,
        free'': seq<bool>, roles'': Roles)
    requires Grown(d, free, roles, e, free', roles') && Grown(e, free', roles', f, free'', roles'')
    ensures Grown(d, free, roles, f, free'', roles'')
  {
    hide SameContent, Home;
    SameContentTransitive(d, e, f, roles, roles');
  }

  /** Nothing is left to allocate. */
  ghost predicate Full(free: seq<bool>) { forall b :: 0 <= b < |free| ==> !free[b] }

  // ----- writing

  /** `e` is `d` with `bytes` written at `offset` of file `a`: every other file, every other byte
      and every attribute but the size is as before. */
  ghost predicate Written(d: Disk, e: Disk, roles: Roles, a: nat, offset: nat, bytes: seq<Byte>) {
    && |d| == |e| && a < |d|
    && (forall i: nat :: IsInode(roles, i) && i < |d| && i != a ==> Attributes(e[i]) == Attributes(d[i]))
    && (forall i: nat, n: nat ::
          IsInode(roles, i) && i != a && n < MAXBLOCKS ==> FileBlock(e, i, n) == FileBlock(d, i, n))
    && e[a][..SIZE] == d[a][..SIZE] && IsDir(e[a]) == IsDir(d[a])
    && (forall x: nat :: x < TWO32 ==>
          FileByte(e, a, x) == if offset <= x < offset + |bytes| then bytes[x - offset] else FileByte(d, a, x))
  }

  /** Reading back what was written. */
  lemma ReadAfterWrite(d: Disk, e: Disk, roles: Roles, a: nat, offset: nat, bytes: seq<Byte>)
    requires Written(d, e, roles, a, offset, bytes) && offset + |bytes| <= TWO32
    ensures FileBytes(e, a, offset, |bytes|) == bytes
  {
    hide FileByte;
  }

  /** A range that the write does not touch reads as before, in this file and in any other. */
  lemma ReadElsewhere(d: Disk, e: Disk, roles: Roles, a: nat, offset: nat, bytes: seq<Byte>, i: nat, from: nat,
        len: nat)
    requires Written(d, e, roles, a, offset, bytes) && from + len <= TWO32 && IsInode(roles, i)
    requires i != a || from + len <= offset || offset + |bytes| <= from
    ensures FileBytes(e, i, from, len) == FileBytes(d, i, from, len)
  {
    hide FileBlock;
    if i == a {
      hide FileByte;
      assert FileBytes(e, i, from, len) == FileBytes(d, i, from, len);
    } else {
      forall k | 0 <= k < len
        ensures FileBytes(e, i, from, len)[k] == FileBytes(d, i, from, len)[k]
      {
        assert FileBlock(e, i, (from + k) / BLKSIZE) == FileBlock(d, i, (from + k) / BLKSIZE);
      }
    }
  }

  lemma SameContentWritesNothing(d: Disk, e: Disk, roles: Roles, a: nat, offset: nat)
    requires SameContent(d, e, roles) && IsInode(roles, a) && a < |d|
    ensures Written(d, e, roles, a, offset, [])
  {
    hide FileBlock, Attributes;
    AttributesDetermine(d[a], e[a]);
    forall x: nat | x < TWO32
      ensures FileByte(e, a, x) == FileByte(d, a, x)
    {
      assert FileBlock(e, a, x / BLKSIZE) == FileBlock(d, a, x / BLKSIZE);
    }
  }

  /** Successive writes of adjacent ranges are one write. */
  lemma WrittenAppend(d: Disk, e: Disk, f: Disk, roles: Roles, a: nat, offset: nat, head: seq<Byte>, tail: seq<Byte>,
        whole: seq<Byte>)
    requires Written(d, e, roles, a, offset, head) && Written(e, f, roles, a, offset + |head|, tail)
    requires whole == head + tail
    ensures Written(d, f, roles, a, offset, whole)
  {
    hide FileBlock, FileByte, Attributes, IsDir;
  }

  /** Overwriting part of one block of the file. */
  lemma BlockWritten(d: Disk, free: seq<bool>, roles: Roles, a: nat, b: nat, pos: nat, bytes: seq<Byte>)
    requires Sound(d, free, roles) && IsInode(roles, a) && pos < TWO32 && pos % BLKSIZE + |bytes| <= BLKSIZE
    requires b in roles && roles[b] == Data(a, pos / BLKSIZE) && b < |d|
    ensures var e: Disk := d[b := PutBytes(d[b], pos % BLKSIZE, bytes)];
            Sound(e, free, roles) && Written(d, e, roles, a, pos, bytes)
  {
    hide Word, Home, Graph;
    var e: Disk := d[b := PutBytes(d[b], pos % BLKSIZE, bytes)];
    assert a < |d| by { InodeBelow(d, roles, a); }
    WriteDataKeepsSound(d, free, roles, b, e[b]);
    HeldBlock(d, roles, b);
    forall x: nat | x < TWO32
      ensures FileByte(e, a, x) == if pos <= x < pos + |bytes| then bytes[x - pos] else FileByte(d, a, x)
    {
      if pos <= x < pos + |bytes| { InBlock(pos, x, |bytes|); }
      if x / BLKSIZE == pos / BLKSIZE { SameBlockOffset(pos, x); }
    }
  }

  lemma InodeBelow(d: Disk, roles: Roles, a: nat)
    requires Graph(d, roles) && IsInode(roles, a)
    ensures 0 < a < |d|
  {
  }

  lemma HeldBlock(d: Disk, roles: Roles, b: nat)
    requires Graph(d, roles) && b in roles && roles[b].Data? && Held(d, roles, b) && b < |d|
    ensures roles[b].n < MAXBLOCKS && FileBlock(d, roles[b].ino, roles[b].n) == d[b]
  {
    hide Home;
    assert RoleOk(roles, b);
  }

  lemma SameBlockOffset(pos: nat, x: nat)
    requires x / BLKSIZE == pos / BLKSIZE
    ensures x - pos == x % BLKSIZE - pos % BLKSIZE
  {
    assert x == BLKSIZE * (x / BLKSIZE) + x % BLKSIZE && pos == BLKSIZE * (pos / BLKSIZE) + pos % BLKSIZE;
  }

  lemma InBlock(pos: nat, x: nat, len: nat)
    requires pos <= x < pos + len && pos % BLKSIZE + len <= BLKSIZE
    ensures x / BLKSIZE == pos / BLKSIZE
  {
    SameBlock(pos, x - pos);
  }

  /** Setting i_size. */
  lemma SizeWritten(d: Disk, free: seq<bool>, roles: Roles, a: nat, size: nat)
    requires Sound(d, free, roles) && IsInode(roles, a) && a < |d| && size < TWO32
    ensures var e: Disk := d[a := PutWord(d[a], SIZE, size)];
            Sound(e, free, roles) && Written(d, e, roles, a, 0, []) && SizeOf(e[a]) == size
  {
    hide Word, PutWord, Home, Graph;
    WordPut(d[a], SIZE, size);
    var e: Disk := d[a := PutWord(d[a], SIZE, size)];
    WriteAttributesKeepsSound(d, free, roles, a, e[a]);
    forall x: nat | x < TWO32
      ensures FileByte(e, a, x) == FileByte(d, a, x)
    {
      assert FileBlock(e, a, x / BLKSIZE) == FileBlock(d, a, x / BLKSIZE);
    }
  }
}
