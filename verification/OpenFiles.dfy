/**
  Reading, writing and freeing blocks of open files, seen from the mounted file system: the tree
  stays as it is.
 */
module OpenFiles {
  import opened Allocation
  import opened BlockBitmap
  import opened Blocks
  import opened CInts
  import opened Directory
  import opened DirectoryCode
  import opened DirectorySpace
  import opened Files
  import opened InodeCode
  import opened Util
  import opened Volume

  /** Every path leads where it led. */
  ghost predicate SamePaths(d: Disk, e: Disk, root: nat) {
    forall names: seq<Name> :: AllNonEmpty(names) ==> WalkFrom(e, None, root, names) == WalkFrom(d, None, root, names)
  }

  /** fs_write on a file that is no directory: the write, and the tree stays as it is. */
  method WriteFile(fs: FileSystem, ino: nat, buf: seq<Byte>, offset: nat) returns (r: Status, ghost done: nat)
    requires Mounted(fs) && IsInode(fs.roles, ino) && ino < |fs.blocks|
    requires !IsDir(fs.blocks[ino]) && offset + |buf| < TWO32
    modifies fs, fs.bitmap.words
    ensures Mounted(fs) && SamePaths(old(fs.blocks), fs.blocks, fs.root)
    ensures (forall i :: IsInode(old(fs.roles), i) <==> IsInode(fs.roles, i)) && |fs.blocks| == |old(fs.blocks)|
    ensures DirsMapped(old(fs.blocks), old(fs.roles)) ==> DirsMapped(fs.blocks, fs.roles)
    ensures done <= |buf| && Written(old(fs.blocks), fs.blocks, old(fs.roles), ino, offset, buf[..done])
    ensures SizeOf(fs.blocks[ino]) == NewSize(old(SizeOf(fs.blocks[ino])), offset, |buf|)
    ensures Fills(old(fs.Free()), old(fs.roles), fs.Free(), fs.roles, WriteWays(ino, offset, |buf|))
    ensures r == Ok <==> |Lacking(old(fs.blocks), WriteWays(ino, offset, |buf|))| <= CountFree(old(fs.Free()))
    ensures r == Ok ==> done == |buf|
    ensures r == ENOSPC ==> StoppedAt(fs.blocks, ino, offset, |buf|, done)
    ensures r == Ok || (r == ENOSPC && Full(fs.Free()))
  {
    hide Sound, TreeOk, NamedOnce, Written, IsDir, SizeOf, OthersSame, SamePaths, Full, Fills, WriteWays, Lacking,
      CountFree, DirsMapped, NewSize, StoppedAt;
    r, done := fs.Write(ino, buf, offset);
    ghost var d, e := old(fs.blocks), fs.blocks;
    WrittenOthers(d, e, old(fs.roles), ino, offset, buf[..done]);
    FileChanged(d, e, old(fs.roles), fs.roles, ino, fs.root);
    if DirsMapped(d, old(fs.roles)) {
      WriteKeepsDirs(d, old(fs.Free()), old(fs.roles), e, fs.Free(), fs.roles, ino, WriteWays(ino, offset, |buf|));
    }
  }

  /** inode_free_block on a file that is no directory. */
  method FreeBlockOf(fs: FileSystem, ino: nat, n: nat) returns (r: Status)
    requires Mounted(fs) && IsInode(fs.roles, ino) && ino < |fs.blocks| && !IsDir(fs.blocks[ino])
    modifies fs, fs.bitmap.words
    ensures Mounted(fs) && SamePaths(old(fs.blocks), fs.blocks, fs.root)
    ensures DirsMapped(old(fs.blocks), old(fs.roles)) ==> DirsMapped(fs.blocks, fs.roles)
    ensures r == if n < MAXBLOCKS then Ok else EINVAL
    ensures BlockCleared(old(fs.blocks), fs.blocks, old(fs.roles), ino, n)
    ensures BlockReleased(old(fs.Free()), old(fs.roles), fs.Free(), fs.roles, BlockNumber(old(fs.blocks), ino, n))
  {
    hide Sound, TreeOk, NamedOnce, IsDir, SizeOf, OthersSame, SamePaths, BlockNumber, DirsMapped, BlockCleared;
    r := fs.FreeFileBlock(ino, n);
    ghost var d, e := old(fs.blocks), fs.blocks;
    FreedOthers(d, e, old(fs.roles), ino, n);
    FileChanged(d, e, old(fs.roles), fs.roles, ino, fs.root);
    if DirsMapped(d, old(fs.roles)) {
      FreeKeepsDirs(d, old(fs.Free()), old(fs.roles), e, fs.Free(), fs.roles, ino, n);
    }
  }

  lemma OtherDirs(d: Disk, e: Disk, roles: Roles, roles': Roles, a: nat)
    requires OthersSame(d, e, roles, a) && a < |d| && !IsDir(d[a]) && !IsDir(e[a])
    requires forall i :: IsInode(roles, i) <==> IsInode(roles', i)
    ensures SameDirs(d, e, roles, roles')
  {
    hide FileBlock, IsDir, SizeOf, Attributes;
  }

  lemma WriteKeepsDirs(d: Disk, free: seq<bool>, roles: Roles, e: Disk, free': seq<bool>, roles': Roles, a: nat,
        ways: set<Role>)
    requires Sound(d, free, roles) && Sound(e, free', roles') && Fills(free, roles, free', roles', ways)
    requires OthersSame(d, e, roles, a) && a < |d| && a < |e| && !IsDir(d[a]) && !IsDir(e[a])
    requires (forall i :: IsInode(roles, i) <==> IsInode(roles', i)) && DirsMapped(d, roles)
    ensures DirsMapped(e, roles')
  {
    hide Sound, Fills, OthersSame, IsDir, Home, DirsMapped;
    FillsExtends(free, roles, free', roles', ways);
    HomesKept(d, free, roles, e, free', roles');
    OtherDirs(d, e, roles, roles', a);
    DirsStayMapped(d, e, roles, roles');
  }

  lemma FreeKeepsDirs(d: Disk, free: seq<bool>, roles: Roles, e: Disk, free': seq<bool>, roles': Roles, a: nat, n: nat)
    requires Sound(d, free, roles) && Sound(e, free', roles')
    requires BlockReleased(free, roles, free', roles', BlockNumber(d, a, n))
    requires OthersSame(d, e, roles, a) && IsInode(roles, a) && a < |d| && a < |e| && !IsDir(d[a]) && !IsDir(e[a])
    requires DirsMapped(d, roles)
    ensures DirsMapped(e, roles')
  {
    hide Sound, OthersSame, IsDir, Home, DirsMapped, CountFree;
    if n < MAXBLOCKS { BlockOf(d, free, roles, a, n); }
    forall r | Below(r) && IsInode(roles, r.ino) && r.ino < |d| && IsDir(d[r.ino]) && Home(d, r) != 0
      ensures Home(e, r) != 0
    {
      PlacedIsHome(d, free, roles, r);
      assert Home(d, r) in roles' && roles'[Home(d, r)] == r;
      PlacedIsHome(e, free', roles', r);
    }
    OtherDirs(d, e, roles, roles', a);
    DirsStayMapped(d, e, roles, roles');
  }

  lemma FreedOthers(d: Disk, e: Disk, roles: Roles, a: nat, n: nat)
    requires BlockCleared(d, e, roles, a, n) && a < |d| && IsInode(roles, a)
    ensures OthersSame(d, e, roles, a) && IsDir(e[a]) == IsDir(d[a])
  {
    hide FileBlock, IsDir, SizeOf, Attributes;
    forall i: nat | IsInode(roles, i) && i < |d|
      ensures IsDir(e[i]) == IsDir(d[i]) && SizeOf(e[i]) == SizeOf(d[i])
    {
      AttributesDetermine(d[i], e[i]);
    }
  }

  lemma FileChanged(d: Disk, e: Disk, roles: Roles, roles': Roles, a: nat, root: nat)
    requires OthersSame(d, e, roles, a) && a < |d| && a < |e| && !IsDir(d[a]) && !IsDir(e[a])
    requires TreeOk(d, roles) && NamedOnce(d, roles, root) && IsInode(roles, root)
    requires forall i :: IsInode(roles, i) <==> IsInode(roles', i)
    ensures TreeOk(e, roles') && NamedOnce(e, roles', root) && SamePaths(d, e, root)
  {
    hide TreeOk, NamedOnce, IsDir, OthersSame, AllNonEmpty, WalkFrom;
    OthersTree(d, e, roles, roles', a, root);
    forall names: seq<Name> | AllNonEmpty(names)
      ensures WalkFrom(e, None, root, names) == WalkFrom(d, None, root, names)
    {
      OthersWalk(d, e, roles, a, None, root, names);
    }
  }
}
