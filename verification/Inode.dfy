/**
  inode.c over a disk and its bitmap. inode_block_walk, inode_get_block and alloc_block have no
  body in the repository; the contracts here are their comments, and the bodies one way to meet them.
 */
module InodeCode {
  import opened CInts
  import opened Util
  import opened Blocks
  import opened Volume
  import opened Files
  import opened BlockBitmap
  import opened Allocation

  datatype Status = Ok | ENOENT | ENOSPC | EINVAL | EEXIST | ENAMETOOLONG | Panicked

  class FileSystem {
    const bitmap: FreeMap
    const root: nat                // super->s_root
    var blocks: Disk
    ghost var roles: Roles

    /** A mapped disk image. */
    constructor (bitmap: FreeMap, root: nat, blocks: Disk, ghost roles: Roles)
      requires bitmap.Valid() && bitmap.nblocks == |blocks| && Sound(blocks, bitmap.Free(), roles)
      ensures Valid() && this.bitmap == bitmap && this.root == root && this.blocks == blocks && this.roles == roles
    {
      this.bitmap, this.root, this.blocks, this.roles := bitmap, root, blocks, roles;
    }

    ghost predicate Valid()
      reads this, bitmap.words
    {
      bitmap.Valid() && bitmap.nblocks == |blocks| && Sound(blocks, bitmap.Free(), roles)
    }

    ghost function Free(): seq<bool>
      requires bitmap.Valid()
      reads bitmap.words
    {
      bitmap.Free()
    }

    /** Since the call began, blocks may have been allocated and nothing else happened. */
    twostate predicate OnlyGrew()
      reads this, bitmap.words
    {
      && old(Valid()) && Valid()
      && Grown(old(blocks), old(Free()), old(roles), blocks, Free(), roles)
    }

    /** A pointer variable inside the disk: the slot for place `c`, in block `p` at byte offset `off`. */
    ghost predicate IsSlot(p: nat, off: nat, c: Role)
      reads this
    {
      Below(c) && p in roles && p < |blocks| && roles[p] == Parent(c) && off == SlotOff(Parent(c), Index(c))
    }

    /** Allocate a cleared block and enter it in an empty slot. */
    method AllocAt(p: nat, off: nat, ghost c: Role) returns (r: Status, b: nat)
      requires Valid() && Below(c) && IsSlot(p, off, c) && Home(blocks, c) == 0
      modifies this, bitmap.words
      ensures Valid() && OnlyGrew() && IsSlot(p, off, c)
      ensures r == Ok || (r == ENOSPC && Full(Free()))
      ensures Fills(old(Free()), old(roles), Free(), roles, {c}) && (r == ENOSPC ==> blocks == old(blocks))
      ensures r == Ok ==> b in roles && b != 0 && roles[b] == c && Home(blocks, c) == b
    {
      hide Sound, Home, Word, PutWord, Child, Slot, Grown, Fills, Parent, Index, SlotOff, Below;
      var got := bitmap.AllocBlock();
      if got.None? {
        GrownRefl(blocks, Free(), roles);
        FillsNothing(Free(), roles, {c});
        return ENOSPC, 0;
      }
      b := got.value;
      AllocatedAt(blocks, old(Free()), roles, p, off, c, b);
      blocks := blocks[b := ZeroBlock()];
      blocks := blocks[p := PutWord(blocks[p], off, b)];
      roles := roles[b := c];
      r := Ok;
    }

    /** The pointer block that a slot leads to, allocated if `alloc` is set. */
    method PointerBlock(p: nat, off: nat, ghost c: Role, alloc: bool) returns (r: Status, q: nat)
      requires Valid() && IsSlot(p, off, c)
      modifies this, bitmap.words
      ensures OnlyGrew() && IsSlot(p, off, c)
      ensures !alloc ==> unchanged(this) && unchanged(bitmap.words) && r != ENOSPC
      ensures old(Home(blocks, c)) != 0 ==> unchanged(this) && unchanged(bitmap.words) && r == Ok
      ensures r == ENOENT <==> !alloc && old(Home(blocks, c)) == 0
      ensures r == Ok || r == ENOENT || (r == ENOSPC && Full(Free()))
      ensures Fills(old(Free()), old(roles), Free(), roles, {c}) && (r == ENOSPC ==> Home(blocks, c) == 0)
      ensures r == Ok ==> q in roles && 0 < q < |blocks| && roles[q] == c && Home(blocks, c) == q
    {
      hide Sound, Home, Word, Child, Fills, Slot, Parent, Index, SlotOff, Below, Grown, Full;
      GrownRefl(blocks, Free(), roles);
      FillsNothing(Free(), roles, {c});
      SlotWord(blocks, Free(), roles, p, off, c);
      q := Word(blocks[p], off);
      if q != 0 {
        return Ok, q;
      } else if !alloc {
        return ENOENT, 0;
      }
      r, q := AllocAt(p, off, c);
      if r == Ok { SoundParts(blocks, Free(), roles, q); }
    }

    /** The k-th block of pointers below the doubly-indirect block. */
    method SecondLevelBlock(ino: nat, k: nat, alloc: bool) returns (r: Status, p: nat)
      requires Valid() && IsInode(roles, ino) && k < N_INDIRECT
      modifies this, bitmap.words
      ensures OnlyGrew()
      ensures !alloc ==> unchanged(this) && unchanged(bitmap.words) && r != ENOSPC
      ensures old(Home(blocks, DblInd(ino, k))) != 0 ==> unchanged(this) && unchanged(bitmap.words) && r == Ok
      ensures r == ENOENT <==> !alloc && old(Home(blocks, DblInd(ino, k))) == 0
      ensures r == Ok || r == ENOENT || (r == ENOSPC && Full(Free()))
      ensures Fills(old(Free()), old(roles), Free(), roles, {Dbl(ino), DblInd(ino, k)})
      ensures r == ENOSPC ==> Home(blocks, DblInd(ino, k)) == 0
      ensures r == Ok ==> p in roles && 0 < p < |blocks| && roles[p] == DblInd(ino, k)
    {
      hide Sound, Home, Word, Grown, Slot, Full, Fills;
      ghost var ways := {Dbl(ino), DblInd(ino, k)};
      SoundParts(blocks, Free(), roles, ino);
      MissingParent(blocks, DblInd(ino, k));
      r, p := PointerBlock(ino, DIRECT + 4 * (N_DIRECT + 1), Dbl(ino), alloc);
      FillsMore(old(Free()), old(roles), Free(), roles, {Dbl(ino)}, ways);
      MissingParent(blocks, DblInd(ino, k));
      if r != Ok {
        return;
      }
      ghost var d, free, ro := blocks, Free(), roles;
      r, p := PointerBlock(p, 4 * k, DblInd(ino, k), alloc);
      GrownTransitive(old(blocks), old(Free()), old(roles), d, free, ro, blocks, Free(), roles);
      FillsMore(free, ro, Free(), roles, {DblInd(ino, k)}, ways);
      FillsTransitive(old(Free()), old(roles), free, ro, Free(), roles, ways);
    }

    /** inode_block_walk: the slot for file block `n`, as block and byte offset. Nothing happens
        when the pointer blocks on the way exist, whether or not the slot is empty. */
    method BlockWalk(ino: nat, n: nat, alloc: bool) returns (r: Status, p: nat, off: nat)
      requires Valid() && IsInode(roles, ino)
      modifies this, bitmap.words
      ensures OnlyGrew()
      ensures !alloc ==> unchanged(this) && unchanged(bitmap.words)
      ensures old(PointerHome(blocks, ino, n)) != 0 ==> unchanged(this) && unchanged(bitmap.words) && r == Ok
      ensures r == EINVAL <==> n >= MAXBLOCKS
      ensures r == ENOENT <==> !alloc && n < MAXBLOCKS && old(PointerHome(blocks, ino, n)) == 0
      ensures r == Ok || r == EINVAL || r == ENOENT || (r == ENOSPC && Full(Free()))
      ensures r == ENOSPC ==> alloc
      ensures Fills(old(Free()), old(roles), Free(), roles, PointerWay(ino, n))
      ensures r == ENOSPC ==> PointerHome(blocks, ino, n) == 0
      ensures r == Ok ==> IsSlot(p, off, Data(ino, n))
    {
      hide Sound, Home, Word, Grown, Slot, Full, Fills;
      GrownRefl(blocks, Free(), roles);
      FillsNothing(Free(), roles, PointerWay(ino, n));
      SoundParts(blocks, Free(), roles, ino);
      if n < N_DIRECT {
        return Ok, ino, DIRECT + 4 * n;
      } else if n < N_DIRECT + N_INDIRECT {
        r, p := PointerBlock(ino, DIRECT + 4 * N_DIRECT, Ind(ino), alloc);
        return r, p, 4 * (n - N_DIRECT);
      } else if n < MAXBLOCKS {
        var m := n - N_DIRECT - N_INDIRECT;
        assert m / N_INDIRECT < N_INDIRECT;
        r, p := SecondLevelBlock(ino, m / N_INDIRECT, alloc);
        return r, p, 4 * (m % N_INDIRECT);
      }
      return EINVAL, 0, 0;
    }

    /** inode_get_block: the block that holds file block `n`, allocated (and cleared) if need be,
        which succeeds exactly when there are as many free blocks as are missing on the way. */
    method GetBlock(ino: nat, n: nat) returns (r: Status, b: nat)
      requires Valid() && IsInode(roles, ino)
      modifies this, bitmap.words
      ensures OnlyGrew()
      ensures n < MAXBLOCKS && old(Home(blocks, Data(ino, n))) != 0 ==>
                unchanged(this) && unchanged(bitmap.words) && r == Ok
      ensures r == EINVAL <==> n >= MAXBLOCKS
      ensures r == Ok || r == EINVAL || (r == ENOSPC && Full(Free()))
      ensures Fills(old(Free()), old(roles), Free(), roles, Way(ino, n))
      ensures r == ENOSPC ==> Home(blocks, Data(ino, n)) == 0
      ensures n < MAXBLOCKS ==> (r == Ok <==> |old(Lacking(blocks, Way(ino, n)))| <= old(CountFree(Free())))
      ensures r == Ok ==> b in roles && 0 < b < |blocks| && roles[b] == Data(ino, n) && Home(blocks, roles[b]) == b
    {
      hide Sound, Home, Word, Child, Grown, Slot, Full, Parent, Index, Fills, Way, PointerWay, CountFree, Lacking,
        PointerHome;
      WayIs(ino, n);
      PointerFirst(blocks, ino, n);
      var p, off;
      r, p, off := BlockWalk(ino, n, true);
      if r == EINVAL {
        NoWay(ino, n);
        return r, 0;
      }
      ghost var c, ways := Data(ino, n), Way(ino, n);
      FillsMore(old(Free()), old(roles), Free(), roles, PointerWay(ino, n), ways);
      PointerFirst(blocks, ino, n);
      WayCost(old(blocks), old(Free()), old(roles), blocks, Free(), roles, ino, n);
      if r != Ok {
        return r, 0;
      }
      SlotWord(blocks, Free(), roles, p, off, c);
      b := Word(blocks[p], off);
      if b != 0 {
        return Ok, b;
      }
      ghost var d, free, ro := blocks, Free(), roles;
      r, b := AllocAt(p, off, c);
      GrownTransitive(old(blocks), old(Free()), old(roles), d, free, ro, blocks, Free(), roles);
      FillsMore(free, ro, Free(), roles, {c}, ways);
      FillsTransitive(old(Free()), old(roles), free, ro, Free(), roles, ways);
      WayCost(old(blocks), old(Free()), old(roles), blocks, Free(), roles, ino, n);
      if r == Ok { SoundParts(blocks, Free(), roles, b); }
    }

    /** The bytes of one block; a block that is not allocated reads as zeros. */
    method ReadChunk(b: nat, at: nat, bn: nat) returns (chunk: seq<Byte>)
      requires b < |blocks| && at + bn <= BLKSIZE
      ensures chunk == ChunkOf(blocks, b, at, bn)
    {
      if b == 0 {
        chunk := Repeat(0, bn);
      } else {
        chunk := blocks[b][at..at + bn];
      }
    }

    /** inode_read: exactly the bytes available in the range, and nothing changes. */
    method Read(ino: nat, count0: nat, offset: nat) returns (r: Status, buf: seq<Byte>)
      requires Valid() && IsInode(roles, ino) && ino < |blocks| && offset < TWO32
      modifies this, bitmap.words
      ensures unchanged(this) && unchanged(bitmap.words)
      ensures r == Ok
      ensures |buf| == Available(SizeOf(blocks[ino]), offset, count0)
      ensures offset + |buf| <= TWO32 && buf == FileBytes(blocks, ino, offset, |buf|)
    {
      hide Sound, Home, Word, Child, Grown, Slot, Full, Parent, Index, SlotOff, FileByte, FileBlock, PointerHome,
        FileBytes, ChunkOf, Fills, PointerWay, IsDir, ChunkLen;
      NothingRead(blocks, ino, offset);
      buf := [];
      var size := SizeOf(blocks[ino]);
      if offset >= size {
        return Ok, [];
      }
      var count := if count0 < size - offset then count0 else size - offset;
      var pos := offset;
      while pos < offset + count
        invariant offset <= pos <= offset + count && unchanged(this) && unchanged(bitmap.words)
        invariant |buf| == pos - offset && buf == FileBytes(blocks, ino, offset, |buf|)
      {
        var p, off;
        r, p, off := BlockWalk(ino, pos / BLKSIZE, false);
        if r == EINVAL {
          return r, buf;
        }
        var bn := ChunkLen(pos, offset + count - pos);
        var b := if r == ENOENT then 0 else Word(blocks[p], off);
        WalkedHome(blocks, Free(), roles, ino, pos / BLKSIZE, r == Ok, p);
        var chunk := ReadChunk(b, pos % BLKSIZE, bn);
        ChunkRead(blocks, Free(), roles, ino, offset, buf, b, bn, chunk);
        buf := buf + chunk;
        pos := pos + bn;
      }
      return Ok, buf;
    }

    /** inode_set_size, growing. */
    method Grow(ino: nat, newsize: nat)
      requires Valid() && IsInode(roles, ino) && ino < |blocks| && SizeOf(blocks[ino]) <= newsize < TWO32
      modifies this`blocks
      ensures Valid() && Written(old(blocks), blocks, roles, ino, 0, []) && SizeOf(blocks[ino]) == newsize
    {
      hide Sound, Written, Word, PutWord;
      SizeWritten(blocks, Free(), roles, ino, newsize);
      blocks := blocks[ino := PutWord(blocks[ino], SIZE, newsize)];
    }

    /** inode_write. `done` bytes reached the file: all of them on success, and otherwise those in
        front of the first block that could not be had. Blocks are added only to this file, and only
        in the range written. */
    method Write(ino: nat, buf: seq<Byte>, offset: nat) returns (r: Status, ghost done: nat)
      requires Valid() && IsInode(roles, ino) && ino < |blocks| && offset + |buf| < TWO32
      modifies this, bitmap.words
      ensures Valid() && |blocks| == |old(blocks)| && (forall i :: IsInode(old(roles), i) <==> IsInode(roles, i))
      ensures forall b :: 0 <= b < |Free()| && Free()[b] ==> old(Free())[b]
      ensures done <= |buf| && Written(old(blocks), blocks, old(roles), ino, offset, buf[..done])
      ensures SizeOf(blocks[ino]) == NewSize(old(SizeOf(blocks[ino])), offset, |buf|)
      ensures Fills(old(Free()), old(roles), Free(), roles, WriteWays(ino, offset, |buf|))
      ensures r == Ok <==> |old(Lacking(blocks, WriteWays(ino, offset, |buf|)))| <= old(CountFree(Free()))
      ensures r == Ok ==> done == |buf|
      ensures r == ENOSPC ==> StoppedAt(blocks, ino, offset, |buf|, done)
      ensures r == Ok || (r == ENOSPC && Full(Free()))
    {
      hide Sound, Word, PutWord, Written, Home, FileBlock, Fills, WriteWays, Way, CountFree, Lacking, Full, Grown,
        WroteTo, StoppedAt, ChunkLen, Stored, AtBoundary;
      ghost var d0, free0, ro0 := blocks, Free(), roles;
      SelfWritten(blocks, roles, ino, offset);
      if offset + |buf| > SizeOf(blocks[ino]) {
        Grow(ino, offset + |buf|);
        WrittenEmpty(old(blocks), blocks, roles, ino, 0, offset);
      }
      ghost var size := NewSize(SizeOf(d0[ino]), offset, |buf|);
      assert SizeOf(blocks[ino]) == size && buf[..0] == [];
      WriteStarts(d0, free0, ro0, blocks, ino, offset, |buf|, size);
      NoneDone(offset, |buf|);
      var pos := offset;
      done := 0;
      while pos < offset + |buf|
        invariant offset <= pos <= offset + |buf| && done == pos - offset && Valid()
        invariant AtBoundary(done, pos, offset + |buf| - pos)
        invariant WroteTo(d0, free0, ro0, blocks, Free(), roles, ino, offset, |buf|, buf[..done], size)
      {
        ghost var d, free, ro := blocks, Free(), roles;
        var b;
        WroteInode(d0, free0, ro0, blocks, Free(), roles, ino, offset, |buf|, buf[..done], size);
        r, b := GetBlock(ino, pos / BLKSIZE);
        NextBoundary(done, pos, offset + |buf| - pos);
        WriteAllocates(d0, free0, ro0, d, free, ro, blocks, Free(), roles, ino, offset, |buf|, buf[..done], size);
        if r != Ok {
          WriteFell(d0, free0, ro0, blocks, Free(), roles, ino, offset, |buf|, buf[..done], size);
          return r, done;
        }
        var bn := ChunkLen(pos, offset + |buf| - pos);
        var chunk := buf[pos - offset..pos - offset + bn];
        WriteStores(d0, free0, ro0, blocks, Free(), roles, ino, offset, |buf|, buf[..done], size, b, chunk,
                    buf[..done + bn]);
        blocks := Stored(blocks, b, pos % BLKSIZE, chunk);
        pos := pos + bn;
        done := done + bn;
      }
      assert buf[..done] == buf;
      WriteSufficed(d0, free0, ro0, blocks, Free(), roles, ino, offset, |buf|, buf, size);
      return Ok, done;
    }

    /** inode_free_block: the block, if there is one, becomes free and reads as zeros. */
    method FreeFileBlock(ino: nat, n: nat) returns (r: Status)
      requires Valid() && IsInode(roles, ino) && ino < |blocks|
      modifies this, bitmap.words
      ensures Valid() && r == (if n < MAXBLOCKS then Ok else EINVAL)
      ensures BlockCleared(old(blocks), blocks, old(roles), ino, n)
      ensures BlockReleased(old(Free()), old(roles), Free(), roles, old(BlockNumber(blocks, ino, n)))
    {
      hide Sound, Home, Word, PutWord, Parent, Index, SlotOff, Grown, FileBlock, Fills, BlockCleared, BlockReleased,
        Below, PointerHome;
      NothingCleared(blocks, Free(), roles, ino, n);
      var p, off;
      r, p, off := BlockWalk(ino, n, false);
      if r == EINVAL {
        return r;
      }
      WalkedHome(blocks, Free(), roles, ino, n, r == Ok, p);
      if r == ENOENT {
        return Ok;
      }
      var b := Word(blocks[p], off);
      if b != 0 {
        BlockFreed(blocks, Free(), roles, ino, n, p, off, b);
        bitmap.FreeBlock(b);
        blocks := blocks[p := PutWord(blocks[p], off, 0)];
        roles := roles - {b};
      }
      return Ok;
    }
  }

  /** How much of a transfer at `pos` with `rest` bytes to go lies in the block of `pos`. */
  function ChunkLen(pos: nat, rest: nat): (bn: nat)
    requires rest > 0
    ensures 0 < bn <= rest && pos % BLKSIZE + bn <= BLKSIZE
  {
    if BLKSIZE - pos % BLKSIZE < rest then BLKSIZE - pos % BLKSIZE else rest
  }

  /** A transfer that has moved `done` bytes has reached the start of a block, or its end. */
  ghost predicate AtBoundary(done: nat, pos: nat, rest: nat) { done == 0 || rest == 0 || pos % BLKSIZE == 0 }

  lemma NoneDone(pos: nat, rest: nat)
    ensures AtBoundary(0, pos, rest)
  {
  }

  lemma NextBoundary(done: nat, pos: nat, rest: nat)
    requires rest > 0
    ensures AtBoundary(done + ChunkLen(pos, rest), pos + ChunkLen(pos, rest), rest - ChunkLen(pos, rest))
    ensures AtBoundary(done, pos, rest) ==> done == 0 || pos % BLKSIZE == 0
  {
  }

  /** The size after writing `len` bytes at `offset`. */
  function NewSize(size: nat, offset: nat, len: nat): nat { if offset + len > size then offset + len else size }

  // ----- the blocks a write needs

  /** The places that writing `len` bytes at `offset` uses. */
  function WriteWays(ino: nat, offset: nat, len: nat): set<Role> {
    if len == 0 then {} else Ways(ino, offset / BLKSIZE, (offset + len + BLKSIZE - 1) / BLKSIZE)
  }

  lemma WritePlaces(roles: Roles, ino: nat, offset: nat, len: nat)
    requires IsInode(roles, ino)
    ensures Places(roles, WriteWays(ino, offset, len))
  {
    hide Ways;
    WaysPlaces(roles, ino, offset / BLKSIZE, (offset + len + BLKSIZE - 1) / BLKSIZE);
  }

  lemma InWriteWays(ino: nat, offset: nat, len: nat, pos: nat)
    requires offset <= pos < offset + len
    ensures Way(ino, pos / BLKSIZE) <= WriteWays(ino, offset, len)
  {
    hide Ways, Way;
    WaysAre(ino, offset / BLKSIZE, (offset + len + BLKSIZE - 1) / BLKSIZE);
    assert offset / BLKSIZE <= pos / BLKSIZE < (offset + len + BLKSIZE - 1) / BLKSIZE;
  }

  /** The file blocks that [offset, pos) touches are allocated. */
  ghost predicate PlacedTo(roles: Roles, ino: nat, offset: nat, pos: nat) {
    offset < pos ==> forall n: nat :: offset / BLKSIZE <= n && BLKSIZE * n < pos ==> Placed(roles, Data(ino, n))
  }

  lemma NonePlaced(roles: Roles, ino: nat, offset: nat)
    ensures PlacedTo(roles, ino, offset, offset)
  {
  }

  lemma PlacedNext(roles: Roles, roles': Roles, ino: nat, offset: nat, pos: nat, bn: nat, b: nat)
    requires PlacedTo(roles, ino, offset, pos) && Extends(roles, roles') && pos % BLKSIZE + bn <= BLKSIZE
    requires offset <= pos
    requires b in roles' && roles'[b] == Data(ino, pos / BLKSIZE)
    ensures PlacedTo(roles', ino, offset, pos + bn)
  {
    forall n: nat | offset / BLKSIZE <= n && BLKSIZE * n < pos + bn
      ensures Placed(roles', Data(ino, n))
    {
      if BLKSIZE * n < pos && offset < pos {
        assert Placed(roles, Data(ino, n));
        var c :| c in roles && roles[c] == Data(ino, n);
        assert roles'[c] == Data(ino, n);
      } else {
        assert n == pos / BLKSIZE;
      }
    }
  }

  lemma FillsExtends(free: seq<bool>, roles: Roles, free': seq<bool>, roles': Roles, ways: set<Role>)
    requires Fills(free, roles, free', roles', ways)
    ensures Extends(roles, roles')
  {
  }

  // ----- the loop of inode_write

  /** What has happened since the write of `len` bytes at `offset` began on `d0`: `bytes` are
      written, the size is `size`, and blocks were taken only where the write needs them. */
  ghost predicate WroteTo(d0: Disk, free0: seq<bool>, ro0: Roles, d: Disk, free: seq<bool>, roles: Roles, ino: nat,
        offset: nat, len: nat, bytes: seq<Byte>, size: nat) {
    && |bytes| <= len && Written(d0, d, ro0, ino, offset, bytes) && SizeOf(d[ino]) == size
    && IsInode(ro0, ino) && (forall i :: IsInode(ro0, i) <==> IsInode(roles, i))
    && (forall b :: 0 <= b < |free| && free[b] ==> b < |free0| && free0[b])
    && Fills(free0, ro0, free, roles, WriteWays(ino, offset, len)) && PlacedTo(roles, ino, offset, offset + |bytes|)
  }

  /** A write of `len` bytes at `offset` that came to an end after `done` of them: it got every block
      in front of there, and could not get the next one. */
  ghost predicate StoppedAt(d: Disk, ino: nat, offset: nat, len: nat, done: nat) {
    && done < len && (done == 0 || (offset + done) % BLKSIZE == 0)
    && BlockNumber(d, ino, (offset + done) / BLKSIZE) == 0
    && forall n: nat :: offset / BLKSIZE <= n < (offset + done) / BLKSIZE ==> BlockNumber(d, ino, n) != 0
  }

  /** What the end of the write may rely on. */
  ghost predicate WriteDone(d0: Disk, free0: seq<bool>, ro0: Roles, d: Disk, free: seq<bool>, roles: Roles, ino: nat,
        offset: nat, len: nat, bytes: seq<Byte>, size: nat) {
    && |d| == |d0| && ino < |d| && Written(d0, d, ro0, ino, offset, bytes) && SizeOf(d[ino]) == size
    && (forall i :: IsInode(ro0, i) <==> IsInode(roles, i))
    && (forall b :: 0 <= b < |free| && free[b] ==> b < |free0| && free0[b])
    && Fills(free0, ro0, free, roles, WriteWays(ino, offset, len))
  }

  lemma WriteStarts(d0: Disk, free0: seq<bool>, ro0: Roles, d: Disk, ino: nat, offset: nat, len: nat, size: nat)
    requires Written(d0, d, ro0, ino, offset, []) && SizeOf(d[ino]) == size && IsInode(ro0, ino)
    ensures WroteTo(d0, free0, ro0, d, free0, ro0, ino, offset, len, [], size)
  {
    hide Written, Fills, WriteWays;
    FillsNothing(free0, ro0, WriteWays(ino, offset, len));
  }

  lemma WroteInode(d0: Disk, free0: seq<bool>, ro0: Roles, d: Disk, free: seq<bool>, roles: Roles, ino: nat,
        offset: nat, len: nat, bytes: seq<Byte>, size: nat)
    requires WroteTo(d0, free0, ro0, d, free, roles, ino, offset, len, bytes, size)
    ensures IsInode(roles, ino)
  {
  }

  /** Getting the next block keeps what was written. */
  lemma WriteAllocates(d0: Disk, free0: seq<bool>, ro0: Roles, d: Disk, free: seq<bool>, ro: Roles, e: Disk,
        free': seq<bool>, roles: Roles, ino: nat, offset: nat, len: nat, bytes: seq<Byte>, size: nat)
    requires WroteTo(d0, free0, ro0, d, free, ro, ino, offset, len, bytes, size) && Grown(d, free, ro, e, free', roles)
    requires Fills(free, ro, free', roles, Way(ino, (offset + |bytes|) / BLKSIZE)) && |bytes| < len
    ensures WroteTo(d0, free0, ro0, e, free', roles, ino, offset, len, bytes, size)
  {
    hide Written, Fills, WriteWays, Way, Home, SameContent, PlacedTo;
    var pos, ways := offset + |bytes|, WriteWays(ino, offset, len);
    InWriteWays(ino, offset, len, pos);
    FillsMore(free, ro, free', roles, Way(ino, pos / BLKSIZE), ways);
    FillsTransitive(free0, ro0, free, ro, free', roles, ways);
    FillsExtends(free, ro, free', roles, ways);
    PlacedKept(ro, roles, ino, offset, pos);
    GrownWritten(d, ro, e, roles, d0, ro0, ino, offset, bytes);
  }

  lemma PlacedKept(roles: Roles, roles': Roles, ino: nat, offset: nat, pos: nat)
    requires PlacedTo(roles, ino, offset, pos) && Extends(roles, roles')
    ensures PlacedTo(roles', ino, offset, pos)
  {
    forall n: nat | offset / BLKSIZE <= n && BLKSIZE * n < pos && offset < pos
      ensures Placed(roles', Data(ino, n))
    {
      assert Placed(roles, Data(ino, n));
      var c :| c in roles && roles[c] == Data(ino, n);
      assert roles'[c] == Data(ino, n);
    }
  }

  /** memmove into block `b`. */
  function Stored(d: Disk, b: nat, at: nat, chunk: seq<Byte>): (e: Disk)
    requires b < |d| && at + |chunk| <= BLKSIZE
    ensures |e| == |d|
  {
    d[b := PutBytes(d[b], at, chunk)]
  }

  /** Copying the next chunk into its block. */
  lemma WriteStores(d0: Disk, free0: seq<bool>, ro0: Roles, e: Disk, free: seq<bool>, roles: Roles, ino: nat,
        offset: nat, len: nat, bytes: seq<Byte>, size: nat, b: nat, chunk: seq<Byte>, more: seq<Byte>)
    requires WroteTo(d0, free0, ro0, e, free, roles, ino, offset, len, bytes, size) && Sound(e, free, roles)
    requires offset + len < TWO32 && |bytes| < len && |more| <= len && more == bytes + chunk
    requires (offset + |bytes|) % BLKSIZE + |chunk| <= BLKSIZE
    requires b in roles && b < |e| && roles[b] == Data(ino, (offset + |bytes|) / BLKSIZE)
    ensures var f := Stored(e, b, (offset + |bytes|) % BLKSIZE, chunk);
            Sound(f, free, roles) && WroteTo(d0, free0, ro0, f, free, roles, ino, offset, len, more, size)
  {
    hide Sound, Written, Fills, WriteWays, Home, PlacedTo, SizeOf, FileBlock;
    var pos := offset + |bytes|;
    assert ino < |e| by { SoundParts(e, free, roles, ino); }
    BlockWritten(e, free, roles, ino, b, pos, chunk);
    var f: Disk := e[b := PutBytes(e[b], pos % BLKSIZE, chunk)];
    DataWriteKeepsSizes(e, free, roles, ino, b, f[b]);
    WrittenNarrow(e, f, roles, ro0, ino, pos, chunk);
    WrittenAppend(d0, e, f, ro0, ino, offset, bytes, chunk, more);
    PlacedNext(roles, roles, ino, offset, pos, |chunk|, b);
  }

  /** A write that ended early lacked blocks. */
  lemma WriteFell(d0: Disk, free0: seq<bool>, ro0: Roles, e: Disk, free': seq<bool>, roles': Roles, ino: nat,
        offset: nat, len: nat, bytes: seq<Byte>, size: nat)
    requires WroteTo(d0, free0, ro0, e, free', roles', ino, offset, len, bytes, size) && Sound(d0, free0, ro0)
    requires Sound(e, free', roles') && |bytes| < len && Full(free') && (offset + |bytes|) / BLKSIZE < MAXBLOCKS
    requires Home(e, Data(ino, (offset + |bytes|) / BLKSIZE)) == 0
    requires |bytes| == 0 || (offset + |bytes|) % BLKSIZE == 0
    ensures StoppedAt(e, ino, offset, len, |bytes|)
    ensures |Lacking(d0, WriteWays(ino, offset, len))| > CountFree(free0)
    ensures WriteDone(d0, free0, ro0, e, free', roles', ino, offset, len, bytes, size)
  {
    hide Sound, Fills, Home, Full, CountFree, Lacking, WriteWays, Places, Way, PlacedTo, FileBlock, FileByte, IsDir;
    var c := Data(ino, (offset + |bytes|) / BLKSIZE);
    WritePlaces(ro0, ino, offset, len);
    WritePlaces(roles', ino, offset, len);
    InWriteWays(ino, offset, len, offset + |bytes|);
    WayIs(ino, c.n);
    FellShort(d0, free0, ro0, e, free', roles', WriteWays(ino, offset, len), c);
    PlacedHomes(e, free', roles', ino, offset, offset + |bytes|);
  }

  lemma PlacedHomes(d: Disk, free: seq<bool>, roles: Roles, ino: nat, offset: nat, pos: nat)
    requires Sound(d, free, roles) && IsInode(roles, ino) && PlacedTo(roles, ino, offset, pos) && offset <= pos
    requires pos / BLKSIZE <= MAXBLOCKS
    ensures forall n: nat :: offset / BLKSIZE <= n < pos / BLKSIZE ==> BlockNumber(d, ino, n) != 0
  {
    hide Sound, Home, Placed;
    forall n: nat | offset / BLKSIZE <= n < pos / BLKSIZE
      ensures BlockNumber(d, ino, n) != 0
    {
      assert BLKSIZE * n < pos;
      PlacedIsHome(d, free, roles, Data(ino, n));
    }
  }

  /** A write that ended had enough. */
  lemma WriteSufficed(d0: Disk, free0: seq<bool>, ro0: Roles, e: Disk, free': seq<bool>, roles': Roles, ino: nat,
        offset: nat, len: nat, bytes: seq<Byte>, size: nat)
    requires WroteTo(d0, free0, ro0, e, free', roles', ino, offset, len, bytes, size) && Sound(d0, free0, ro0)
    requires Sound(e, free', roles') && |bytes| == len && offset + len < TWO32
    ensures |Lacking(d0, WriteWays(ino, offset, len))| <= CountFree(free0)
    ensures WriteDone(d0, free0, ro0, e, free', roles', ino, offset, len, bytes, size)
  {
    hide Sound, Fills, Home, CountFree, Lacking, Places, Ways, Placed, FileBlock, FileByte, IsDir;
    WritePlaces(ro0, ino, offset, len);
    WritePlaces(roles', ino, offset, len);
    var from, end := offset / BLKSIZE, (offset + len + BLKSIZE - 1) / BLKSIZE;
    forall n: nat | from <= n < end && len > 0
      ensures Home(e, Data(ino, n)) != 0
    {
      assert BLKSIZE * n < offset + len && n < MAXBLOCKS;
      PlacedIsHome(e, free', roles', Data(ino, n));
    }
    if len > 0 { NoneLacking(e, ino, from, end); }
    EmptyLacking(e);
    Sufficed(d0, free0, ro0, e, free', roles', WriteWays(ino, offset, len));
  }

  lemma EmptyLacking(d: Disk)
    ensures Lacking(d, {}) == {}
  {
  }

  lemma NoWay(ino: nat, n: nat)
    requires n >= MAXBLOCKS
    ensures Way(ino, n) == PointerWay(ino, n) == {}
  {
  }

  /** What the outcome of one allocation on the way to a file block says about the free blocks. */
  lemma WayCost(d: Disk, free: seq<bool>, roles: Roles, e: Disk, free': seq<bool>, roles': Roles, ino: nat, n: nat)
    requires Sound(d, free, roles) && Sound(e, free', roles') && Fills(free, roles, free', roles', Way(ino, n))
    requires IsInode(roles, ino) && n < MAXBLOCKS
    ensures Home(e, Data(ino, n)) != 0 ==> |Lacking(d, Way(ino, n))| <= CountFree(free)
    ensures Home(e, Data(ino, n)) == 0 && Full(free') ==> |Lacking(d, Way(ino, n))| > CountFree(free)
  {
    hide Sound, Fills, Home, CountFree, Lacking, Places, Way, Full;
    WayIs(ino, n);
    FillsExtends(free, roles, free', roles', Way(ino, n));
    WayPlaces(roles, ino, n);
    WayPlaces(roles', ino, n);
    if Home(e, Data(ino, n)) != 0 {
      NoneOnWay(e, ino, n);
      Sufficed(d, free, roles, e, free', roles', Way(ino, n));
    } else if Full(free') {
      FellShort(d, free, roles, e, free', roles', Way(ino, n), Data(ino, n));
    }
  }

  lemma NoneOnWay(d: Disk, ino: nat, n: nat)
    requires n < MAXBLOCKS && Home(d, Data(ino, n)) != 0
    ensures Lacking(d, Way(ino, n)) == {}
  {
    hide Home, Way;
    NoneLackingOnWay(d, ino, n);
  }

  /** Allocation takes one place for one free block. */
  lemma AllocatedFills(d: Disk, free: seq<bool>, roles: Roles, p: nat, j: nat, b: nat, roles': Roles)
    requires Sound(d, free, roles) && p in roles && InFile(roles[p]) && j < Slots(roles[p])
    requires Slot(d, p, roles[p], j) == 0
    requires b < |d| && free[b] && roles' == roles[b := Child(roles[p], j)]
    ensures Fills(free, roles, free[b := false], roles', {Child(roles[p], j)})
  {
    hide Home, Word, Child, Slot, Graph, Fills, Placed;
    SlotHomeZero(d, free, roles, p, j);
    SoundParts(d, free, roles, p);
    ChildRole(roles[p], j);
    PlacedIsHome(d, free, roles, Child(roles[p], j));
    FillsOne(free, roles, b, Child(roles[p], j), roles');
  }

  /** File block `n` of `ino` reads as zeros; every other file block and all attributes are as before. */
  ghost predicate BlockCleared(d: Disk, e: Disk, roles: Roles, ino: nat, n: nat) {
    && |d| == |e|
    && (forall i: nat :: IsInode(roles, i) && i < |d| ==> Attributes(e[i]) == Attributes(d[i]))
    && (forall i: nat, m: nat :: IsInode(roles, i) && m < MAXBLOCKS ==>
          FileBlock(e, i, m) == if i == ino && m == n then ZeroBlock() else FileBlock(d, i, m))
  }

  /** Block `b`, if there is one, becomes free and loses its role; nothing else does. */
  ghost predicate BlockReleased(free: seq<bool>, roles: Roles, free': seq<bool>, roles': Roles, b: nat) {
    && (forall i: nat :: IsInode(roles, i) <==> IsInode(roles', i))
    && if b == 0 then free' == free && roles' == roles
       else b < |free| && free' == free[b := true] && roles' == roles - {b} && CountFree(free') == CountFree(free) + 1
  }

  lemma NothingCleared(d: Disk, free: seq<bool>, roles: Roles, ino: nat, n: nat)
    ensures BlockNumber(d, ino, n) == 0 ==>
              BlockCleared(d, d, roles, ino, n) && BlockReleased(free, roles, free, roles, 0)
  {
    hide ZeroBlock, Home;
  }

  /** Clearing the slot and freeing the block it held. */
  lemma BlockFreed(d: Disk, free: seq<bool>, roles: Roles, ino: nat, n: nat, p: nat, off: nat, b: nat)
    requires Sound(d, free, roles) && IsInode(roles, ino) && n < MAXBLOCKS && p in roles && p < |d|
    requires roles[p] == Parent(Data(ino, n)) && off == SlotOff(Parent(Data(ino, n)), Index(Data(ino, n)))
    requires b == Word(d[p], off) != 0
    ensures b == BlockNumber(d, ino, n) && b < |free|
    ensures var e: Disk := d[p := PutWord(d[p], off, 0)];
            && Sound(e, free[b := true], roles - {b}) && BlockCleared(d, e, roles, ino, n)
            && BlockReleased(free, roles, free[b := true], roles - {b}, b)
  {
    hide Home, Word, PutWord, Child, Slot, Graph, Parent, Index, SlotOff, FileBlock, Attributes, CountFree, Held;
    var c := Data(ino, n);
    ParentRole(c);
    SlotWord(d, free, roles, p, off, c);
    SlotIsWord(d, p, roles[p], Index(c));
    FreeKeepsSound(d, free, roles, p, Index(c), b, roles - {b});
    FreedFacts(d, free, roles, b, c);
    CountChange(free, b, true);
  }

  /** The slot found by a walk holds the home of the file block. */
  lemma WalkedSlot(d: Disk, free: seq<bool>, roles: Roles, p: nat, c: Role)
    requires Sound(d, free, roles) && Below(c) && p in roles && p < |d| && roles[p] == Parent(c)
    ensures Word(d[p], SlotOff(roles[p], Index(c))) == Slot(d, p, roles[p], Index(c)) == Home(d, c)
    ensures InFile(roles[p]) && Index(c) < Slots(roles[p]) && Child(roles[p], Index(c)) == c
  {
    hide Home, Word, Parent, Index, Child;
    ParentRole(c);
    SlotHome(d, roles, p, Index(c));
  }

  /** What a walk without allocation says about the block's home: the slot's word, or none. */
  lemma WalkedHome(d: Disk, free: seq<bool>, roles: Roles, i: nat, n: nat, found: bool, p: nat)
    requires Sound(d, free, roles) && IsInode(roles, i) && n < MAXBLOCKS
    requires if found then p in roles && p < |d| && roles[p] == Parent(Data(i, n)) else PointerHome(d, i, n) == 0
    ensures found ==> Index(Data(i, n)) < Slots(roles[p]) && p < |d|
    ensures Home(d, Data(i, n)) == if found then Word(d[p], SlotOff(roles[p], Index(Data(i, n)))) else 0
    ensures Home(d, Data(i, n)) < |d|
  {
    hide Home, Word, Parent, Index, Sound, PointerHome;
    if found { WalkedSlot(d, free, roles, p, Data(i, n)); } else { PointerFirst(d, i, n); }
    BlockOf(d, free, roles, i, n);
    InodePlace(d, free, roles, i);
  }

  lemma InodePlace(d: Disk, free: seq<bool>, roles: Roles, i: nat)
    requires Sound(d, free, roles) && IsInode(roles, i)
    ensures 0 < i < |d|
  {
    hide Home, Word;
  }

  lemma NothingRead(d: Disk, i: nat, offset: nat)
    requires offset <= TWO32
    ensures FileBytes(d, i, offset, 0) == []
  {
  }

  /** `bn` bytes of block `b`; zeros when there is no block. */
  function ChunkOf(d: Disk, b: nat, at: nat, bn: nat): (s: seq<Byte>)
    requires b < |d| && at + bn <= BLKSIZE
    ensures |s| == bn
  {
    if b == 0 then Repeat(0, bn) else d[b][at..at + bn]
  }

  lemma ZeroChunk(at: nat, bn: nat)
    requires at + bn <= BLKSIZE
    ensures Repeat(0, bn) == ZeroBlock()[at..at + bn]
  {
    hide ZeroBlock;
  }

  /** One turn of the read loop: the chunk is what the file holds next. */
  lemma ChunkRead(d: Disk, free: seq<bool>, roles: Roles, i: nat, offset: nat, buf: seq<Byte>, b: nat, bn: nat,
        chunk: seq<Byte>)
    requires Sound(d, free, roles) && IsInode(roles, i) && offset + |buf| + bn <= TWO32 && offset + |buf| < TWO32
    requires (offset + |buf|) / BLKSIZE < MAXBLOCKS && (offset + |buf|) % BLKSIZE + bn <= BLKSIZE
    requires b == Home(d, Data(i, (offset + |buf|) / BLKSIZE)) && b < |d|
    requires chunk == ChunkOf(d, b, (offset + |buf|) % BLKSIZE, bn)
    requires buf == FileBytes(d, i, offset, |buf|)
    ensures |chunk| == bn && buf + chunk == FileBytes(d, i, offset, |buf| + bn)
  {
    hide Home, Sound, FileBytes, FileBlock, ChunkOf;
    var pos := offset + |buf|;
    FileBytesInBlock(d, i, pos, bn);
    ChunkOfBlock(d, free, roles, i, pos / BLKSIZE, b, pos % BLKSIZE, bn);
    FileBytesSplit(d, i, offset, |buf|, bn);
  }

  lemma ChunkOfBlock(d: Disk, free: seq<bool>, roles: Roles, i: nat, n: nat, b: nat, at: nat, bn: nat)
    requires Sound(d, free, roles) && IsInode(roles, i) && n < MAXBLOCKS && at + bn <= BLKSIZE
    requires b == Home(d, Data(i, n)) && b < |d|
    ensures ChunkOf(d, b, at, bn) == FileBlock(d, i, n)[at..at + bn]
  {
    hide Home, Sound, FileBlock, ZeroBlock;
    BlockOf(d, free, roles, i, n);
    ZeroChunk(at, bn);
  }

  lemma BlockOf(d: Disk, free: seq<bool>, roles: Roles, i: nat, n: nat)
    requires Sound(d, free, roles) && IsInode(roles, i) && n < MAXBLOCKS
    ensures var b := Home(d, Data(i, n));
            if b == 0 then FileBlock(d, i, n) == ZeroBlock()
            else b < |d| && FileBlock(d, i, n) == d[b] && b in roles && roles[b] == Data(i, n)
  {
    hide Home;
    HomeRole(d, roles, Data(i, n));
  }

  lemma SelfWritten(d: Disk, roles: Roles, a: nat, offset: nat)
    requires IsInode(roles, a) && a < |d|
    ensures Written(d, d, roles, a, offset, [])
  {
  }

  lemma WrittenEmpty(d: Disk, e: Disk, roles: Roles, a: nat, from: nat, offset: nat)
    requires Written(d, e, roles, a, from, [])
    ensures Written(d, e, roles, a, offset, [])
  {
    hide FileByte, FileBlock;
  }

  lemma WrittenNarrow(d: Disk, e: Disk, roles: Roles, narrow: Roles, a: nat, offset: nat, bytes: seq<Byte>)
    requires Written(d, e, roles, a, offset, bytes) && forall i :: IsInode(narrow, i) ==> IsInode(roles, i)
    ensures Written(d, e, narrow, a, offset, bytes)
  {
    hide FileByte, FileBlock;
  }

  /** Allocation after a partial write leaves the partial write as it is. */
  lemma GrownWritten(d: Disk, ro: Roles, e: Disk, roles: Roles, d0: Disk, ro0: Roles, a: nat, offset: nat,
        bytes: seq<Byte>)
    requires SameContent(d, e, ro) && Written(d0, d, ro0, a, offset, bytes)
    requires IsInode(ro0, a) && forall i :: IsInode(ro0, i) ==> IsInode(ro, i)
    ensures Written(d0, e, ro0, a, offset, bytes) && a < |e| && SizeOf(e[a]) == SizeOf(d[a])
  {
    hide FileByte, FileBlock, Attributes;
    SameContentWritesNothing(d, e, ro, a, offset + |bytes|);
    WrittenNarrow(d, e, ro, ro0, a, offset + |bytes|, []);
    WrittenAppend(d0, d, e, ro0, a, offset, bytes, [], bytes + []);
    assert bytes + [] == bytes;
    AttributesDetermine(d[a], e[a]);
  }

  lemma DataWriteKeepsSizes(d: Disk, free: seq<bool>, roles: Roles, a: nat, b: nat, blk: Block)
    requires Sound(d, free, roles) && IsInode(roles, a) && a < |d| && b in roles && roles[b].Data? && b < |d|
    ensures d[b := blk][a] == d[a]
  {
  }

  lemma FreedFacts(d: Disk, free: seq<bool>, roles: Roles, b: nat, c: Role)
    requires Sound(d, free, roles) && b in roles && roles[b] == c && c.Data?
    ensures b < |free| == |d| && !free[b]
    ensures forall i :: IsInode(roles, i) <==> IsInode(roles - {b}, i)
  {
    hide Home, Graph;
    SoundParts(d, free, roles, b);
  }

  /** The word in the slot for place `c` is where the place is. */
  lemma SlotWord(d: Disk, free: seq<bool>, roles: Roles, p: nat, off: nat, c: Role)
    requires Sound(d, free, roles) && Below(c) && p in roles && p < |d| && roles[p] == Parent(c)
    requires off == SlotOff(Parent(c), Index(c))
    ensures off + 4 <= BLKSIZE && Word(d[p], off) == Home(d, c)
    ensures Home(d, c) != 0 ==> Home(d, c) in roles && roles[Home(d, c)] == c && Home(d, c) < |d|
  {
    hide Home, Word, Child, Slot, Parent, Index, SlotOff;
    ParentRole(c);
    SoundParts(d, free, roles, p);
    SlotHome(d, roles, p, Index(c));
    SlotIsWord(d, p, roles[p], Index(c));
    if Home(d, c) != 0 { RoleOfSlot(d, roles, p, Index(c)); }
  }

  /** Allocation, all effects together. */
  lemma AllocatedAt(d: Disk, free: seq<bool>, roles: Roles, p: nat, off: nat, c: Role, b: nat)
    requires Sound(d, free, roles) && Below(c) && p in roles && p < |d| && roles[p] == Parent(c)
    requires off == SlotOff(Parent(c), Index(c)) && Home(d, c) == 0 && b < |d| && free[b]
    ensures off + 4 <= BLKSIZE && b < TWO32
    ensures var m: Disk := d[b := ZeroBlock()];
            var e: Disk, roles' := m[p := PutWord(m[p], off, b)], roles[b := c];
            && Sound(e, free[b := false], roles') && Grown(d, free, roles, e, free[b := false], roles')
            && Fills(free, roles, free[b := false], roles', {c})
            && b != 0 && b != p && Home(e, c) == b
  {
    hide Home, Word, PutWord, Child, Slot, Graph, Fills, Grown, Parent, Index, SlotOff;
    ParentRole(c);
    SoundParts(d, free, roles, p);
    SlotHome(d, roles, p, Index(c));
    SlotIsWord(d, p, roles[p], Index(c));
    AllocatedGrown(d, free, roles, p, Index(c), b);
    AllocatedFills(d, free, roles, p, Index(c), b, roles[b := c]);
  }

  lemma SlotIsWord(d: Disk, p: nat, s: Role, j: nat)
    requires p < |d| && j < Slots(s)
    ensures Slot(d, p, s, j) == Word(d[p], SlotOff(s, j))
  {
  }

  /** The block that holds the slot of file block `n`; 0 when a pointer block on the way is missing. */
  function PointerHome(d: Disk, ino: nat, n: nat): nat {
    if n >= MAXBLOCKS then 0
    else
      ParentRole(Data(ino, n));
      Home(d, Parent(Data(ino, n)))
  }

  lemma PointerFirst(d: Disk, ino: nat, n: nat)
    ensures n < MAXBLOCKS && PointerHome(d, ino, n) == 0 ==> Home(d, Data(ino, n)) == 0
  {
    if n < MAXBLOCKS { MissingParent(d, Data(ino, n)); }
  }

  lemma MissingParent(d: Disk, r: Role)
    requires Below(r)
    ensures (ParentRole(r); Home(d, Parent(r)) == 0) ==> Home(d, r) == 0
  {
  }

  lemma SoundParts(d: Disk, free: seq<bool>, roles: Roles, p: nat)
    requires Sound(d, free, roles) && p in roles
    ensures Graph(d, roles) && |free| == |d| <= TWO32 && p < |d| && Held(d, roles, p) && RoleOk(roles, p)
    ensures 0 in roles && roles[0] == Super && (p != 0 ==> roles[p] != Super)
  {
    hide Home, Word, Child;
  }

  lemma AllocatedGrown(d: Disk, free: seq<bool>, roles: Roles, p: nat, j: nat, b: nat)
    requires Sound(d, free, roles) && p in roles && InFile(roles[p]) && j < Slots(roles[p])
    requires Slot(d, p, roles[p], j) == 0
    requires b < |d| && free[b]
    ensures var e, roles' := Allocated(d, roles, p, j, b), roles[b := Child(roles[p], j)];
            && Sound(e, free[b := false], roles') && Grown(d, free, roles, e, free[b := false], roles')
            && b != 0 && b != p && b !in roles && Home(e, Child(roles[p], j)) == b && InFile(Child(roles[p], j))
  {
    hide Home, Word, Child, SameContent, Slot, Held, Graph;
    AllocateKeepsSound(d, free, roles, p, j, b);
    SlotHomeZero(d, free, roles, p, j);
    SoundParts(d, free, roles, p);
    ChildRole(roles[p], j);
  }

  lemma SlotHomeZero(d: Disk, free: seq<bool>, roles: Roles, p: nat, j: nat)
    requires Sound(d, free, roles) && p in roles && InFile(roles[p]) && j < Slots(roles[p])
    requires Slot(d, p, roles[p], j) == 0
    ensures Home(d, Child(roles[p], j)) == 0
  {
    SlotHome(d, roles, p, j);
  }
}
