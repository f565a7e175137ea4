/**
  dir.c and inode_create: searching and extending directories, walking paths, adding a name.
 */
module DirectoryCode {
  import opened CInts
  import opened Util
  import opened Blocks
  import opened Volume
  import opened Files
  import opened Allocation
  import opened BlockBitmap
  import opened DirectorySpace
  import opened InodeCode
  import opened Directory

  /** A struct dirent inside the disk: entry `index` of data block `block`. */
  datatype Dirent = Dirent(block: nat, index: nat)

  /** A mounted file system: directories in order, every inode but the root named exactly once, and
      an image below 4 GiB, which diskblock2memaddr can address. */
  ghost predicate Mounted(fs: FileSystem)
    reads fs, fs.bitmap.words
  {
    && fs.Valid() && TreeOk(fs.blocks, fs.roles) && IsInode(fs.roles, fs.root)
    && NamedOnce(fs.blocks, fs.roles, fs.root) && |fs.blocks| * BLKSIZE < TWO32
  }

  /** Since the call began, blocks may have been allocated and nothing else happened. */
  twostate predicate OnlyGrew(fs: FileSystem)
    reads fs, fs.bitmap.words
  {
    old(Mounted(fs)) && Mounted(fs) && fs.OnlyGrew()
  }

  /** `at` is entry `k` of directory `dir`. */
  ghost predicate IsEntry(fs: FileSystem, dir: nat, k: nat, at: Dirent)
    reads fs
  {
    && k < MAXBLOCKS * BLKDIRENTS && at.block in fs.roles && at.block < |fs.blocks|
    && fs.roles[at.block] == Data(dir, k / BLKDIRENTS) && at.index == k % BLKDIRENTS
  }

  /** inode_get_block on a directory block within the directory's size. */
  method GetDirBlock(fs: FileSystem, dir: nat, n: nat) returns (r: Status, b: nat)
    requires Mounted(fs) && IsInode(fs.roles, dir) && n < MAXBLOCKS
    modifies fs, fs.bitmap.words
    ensures OnlyGrew(fs)
    ensures old(BlockNumber(fs.blocks, dir, n)) != 0 ==> unchanged(fs) && unchanged(fs.bitmap.words) && r == Ok
    ensures r == Ok || (r == ENOSPC && Full(fs.Free()) && BlockNumber(fs.blocks, dir, n) == 0)
    ensures Fills(old(fs.Free()), old(fs.roles), fs.Free(), fs.roles, Way(dir, n))
    ensures r == Ok ==>
              && b in fs.roles && b < |fs.blocks| && fs.roles[b] == Data(dir, n)
              && BlockNumber(fs.blocks, dir, n) == b != 0
              && fs.blocks[b] == FileBlock(old(fs.blocks), dir, n)
  {
    hide Sound, TreeOk, Home, FileBlock, NamedOnce, Fills, Way, Lacking, CountFree;
    r, b := fs.GetBlock(dir, n);
    SameContentTree(old(fs.blocks), fs.blocks, old(fs.roles), fs.roles);
    SameContentNamed(old(fs.blocks), fs.blocks, old(fs.roles), fs.roles, fs.root);
    if r == Ok { DataBlockHeld(fs.blocks, fs.Free(), fs.roles, b); }
  }

  /** The first entry of a block with this name; BLKDIRENTS if there is none. */
  method SearchBlock(blk: Block, name: Name) returns (j: nat)
    ensures j <= BLKDIRENTS && (j < BLKDIRENTS ==> DirentName(blk, j) == name)
    ensures forall l :: 0 <= l < j ==> DirentName(blk, l) != name
  {
    hide DirentName;
    j := 0;
    while j < BLKDIRENTS
      invariant j <= BLKDIRENTS && forall l :: 0 <= l < j ==> DirentName(blk, l) != name
    {
      if DirentName(blk, j) == name {
        return;
      }
      j := j + 1;
    }
  }

  lemma {:induction false} FindSkips(d: Disk, dir: nat, name: Name, from: nat, to: nat)
    requires dir < |d| && from <= to <= EntryCount(d, dir) < MAXBLOCKS * BLKDIRENTS
    requires forall l :: from <= l < to ==> EntryName(d, dir, l) != name
    ensures FindFrom(d, dir, name, from) == FindFrom(d, dir, name, to)
    decreases if from < to then to - from else 0
  {
    hide EntryName, EntryCount;
    if from < to { FindSkips(d, dir, name, from + 1, to); }
  }

  /** What searching block `i` of the directory says about the search of the directory. */
  lemma BlockSearched(d: Disk, dir: nat, name: Name, i: nat, j: nat)
    requires dir < |d| && i < SizeOf(d[dir]) / BLKSIZE < MAXBLOCKS && j <= BLKDIRENTS
    requires forall l :: 0 <= l < j ==> DirentName(FileBlock(d, dir, i), l) != name
    requires j < BLKDIRENTS ==> DirentName(FileBlock(d, dir, i), j) == name
    ensures (i + 1) * BLKDIRENTS <= EntryCount(d, dir) < MAXBLOCKS * BLKDIRENTS
    ensures FindFrom(d, dir, name, i * BLKDIRENTS)
         == if j < BLKDIRENTS then Some(i * BLKDIRENTS + j) else FindFrom(d, dir, name, (i + 1) * BLKDIRENTS)
    ensures j < BLKDIRENTS ==>
              && EntryInum(d, dir, i * BLKDIRENTS + j) == DirentInum(FileBlock(d, dir, i), j)
              && (i * BLKDIRENTS + j) / BLKDIRENTS == i && (i * BLKDIRENTS + j) % BLKDIRENTS == j
  {
    hide EntryName, EntryInum, FileBlock, DirentName, DirentInum, SizeOf;
    EntryBound(d, dir);
    forall k | i * BLKDIRENTS <= k < i * BLKDIRENTS + j
      ensures EntryName(d, dir, k) != name
    {
      EntryOfBlock(d, dir, i, k - i * BLKDIRENTS);
    }
    FindSkips(d, dir, name, i * BLKDIRENTS, i * BLKDIRENTS + j);
    if j < BLKDIRENTS { EntryOfBlock(d, dir, i, j); }
  }

  lemma EntryOfBlock(d: Disk, dir: nat, i: nat, j: nat)
    requires i < MAXBLOCKS && j < BLKDIRENTS
    ensures EntryName(d, dir, i * BLKDIRENTS + j) == DirentName(FileBlock(d, dir, i), j)
    ensures EntryInum(d, dir, i * BLKDIRENTS + j) == DirentInum(FileBlock(d, dir, i), j)
    ensures (i * BLKDIRENTS + j) / BLKDIRENTS == i && (i * BLKDIRENTS + j) % BLKDIRENTS == j
  {
    hide DirentName, DirentInum, FileBlock;
    EntryPosition(i, j);
  }

  lemma EntryPosition(i: nat, j: nat)
    requires j < BLKDIRENTS
    ensures (i * BLKDIRENTS + j) / BLKDIRENTS == i && (i * BLKDIRENTS + j) % BLKDIRENTS == j
  {
  }

  /** diskblock2memaddr: the block, or panic. */
  method BlockAddress(fs: FileSystem, blockno: nat) returns (r: Status)
    ensures r == if 0 < blockno < |fs.blocks| then Ok else Panicked
  {
    return if blockno == 0 || blockno >= |fs.blocks| then Panicked else Ok;
  }

  /** dir_lookup: the entry of that name, if there is one. Unallocated directory blocks are
      allocated on the way, and the search fails exactly when there are too few free ones. The empty
      name finds a free entry, whose number may be no block at all. */
  method DirLookup(fs: FileSystem, dir: nat, name: Name) returns (r: Status, ino: nat, dent: Dirent, ghost at: nat)
    requires Mounted(fs) && IsInode(fs.roles, dir) && dir < |fs.blocks| && IsDir(fs.blocks[dir])
    modifies fs, fs.bitmap.words
    ensures OnlyGrew(fs)
    ensures AllMapped(old(fs.blocks), dir) ==> unchanged(fs) && unchanged(fs.bitmap.words) && r != ENOSPC
    ensures r == Ok || r == ENOENT || r == Panicked || (r == ENOSPC && Full(fs.Free()))
    ensures SearchSpent(old(fs.blocks), old(fs.Free()), old(fs.roles), fs.blocks, fs.Free(), fs.roles, dir, name,
                        r == ENOSPC)
    ensures r == ENOENT ==> LookupIn(old(fs.blocks), dir, name) == None
    ensures r == Panicked || r == Ok ==>
              && LookupIn(old(fs.blocks), dir, name) == Some(ino)
              && HoldsEntry(fs.blocks, fs.roles, dir, at, dent, name, ino)
              && (name != [] ==> IsInode(fs.roles, ino)) && (r == Ok <==> 0 < ino < |fs.blocks|)
    ensures r == Panicked ==> name == []
  {
    hide Sound, TreeOk, DirOk, Home, FileBlock, Word, SizeOf, IsDir, Grown, SameContent, DirentInum, Full, NamedOnce,
      Searching, Spent, Searched, Lacking, CountFree, FindFrom, LookupIn, EntryName, EntryInum, EntryCount, Places,
      Scanned, SearchSpent, FoundAt, HoldsEntry, Ways, SearchWays, AllMapped;
    ghost var d, free0, roles0, end := fs.blocks, fs.Free(), fs.roles, Searched(fs.blocks, dir, name);
    DirWhole(d, roles0, dir);
    SearchStarts(d, free0, roles0, dir, name, end);
    GrownRefl(d, free0, roles0);
    var nblock := SizeOf(fs.blocks[dir]) / BLKSIZE;
    var i := 0;
    while i < nblock
      invariant 0 <= i <= nblock && OnlyGrew(fs)
      invariant AllMapped(d, dir) ==> unchanged(fs) && unchanged(fs.bitmap.words)
      invariant Searching(d, free0, roles0, fs.blocks, fs.Free(), fs.roles, dir, name, i, end)
    {
      var b, j;
      SearchingInode(d, free0, roles0, fs.blocks, fs.Free(), fs.roles, dir, name, i, end);
      MappedAt(d, dir, i);
      r, b, j := SearchOne(fs, dir, name, i, d, free0, roles0, end);
      if r != Ok {
        SearchFailed(d, free0, roles0, fs.blocks, fs.Free(), fs.roles, dir, name, end);
        return r, 0, Dirent(0, 0), 0;
      }
      if j < BLKDIRENTS {
        SearchSucceeded(d, free0, roles0, fs.blocks, fs.Free(), fs.roles, dir, name, i, b, j, end);
        ino := DirentInum(fs.blocks[b], j);
        FoundLive(fs, d, free0, roles0, dir, name, ino);
        r := BlockAddress(fs, ino);
        return r, ino, Dirent(b, j), i * BLKDIRENTS + j;
      }
      i := i + 1;
    }
    SearchExhausted(d, free0, roles0, fs.blocks, fs.Free(), fs.roles, dir, name, i, end);
    return ENOENT, 0, Dirent(0, 0), 0;
  }

  /** `dent` is entry `at` of directory `dir`, and holds this name and number. */
  ghost predicate HoldsEntry(d: Disk, roles: Roles, dir: nat, at: nat, dent: Dirent, name: Name, ino: nat) {
    && dir < |d| && at < EntryCount(d, dir) && at < MAXBLOCKS * BLKDIRENTS
    && dent.block in roles && dent.block < |d| && roles[dent.block] == Data(dir, at / BLKDIRENTS)
    && dent.index == at % BLKDIRENTS
    && EntryName(d, dir, at) == name && EntryInum(d, dir, at) == ino
  }

  /** The search took only places of the blocks it looked at, and failed exactly when there were
      too few free blocks for them. */
  ghost predicate SearchSpent(d: Disk, free: seq<bool>, roles: Roles, e: Disk, free': seq<bool>, roles': Roles,
        dir: nat, name: Name, failed: bool) {
    && dir < |d| && Spent(free, roles, e, free', roles', SearchWays(d, dir, name), failed)
    && (failed <==> |Lacking(d, SearchWays(d, dir, name))| > CountFree(free))
  }

  /** Get and search one block of the directory. */
  method SearchOne(fs: FileSystem, dir: nat, name: Name, i: nat, ghost d: Disk, ghost free0: seq<bool>,
        ghost roles0: Roles, ghost end: nat) returns (r: Status, b: nat, j: nat)
    requires Mounted(fs) && dir < |d| && i < SizeOf(d[dir]) / BLKSIZE
    requires Searching(d, free0, roles0, fs.blocks, fs.Free(), fs.roles, dir, name, i, end)
    modifies fs, fs.bitmap.words
    ensures OnlyGrew(fs)
    ensures old(BlockNumber(fs.blocks, dir, i)) != 0 ==> unchanged(fs) && unchanged(fs.bitmap.words) && r == Ok
    ensures SearchedOne(d, free0, roles0, fs.blocks, fs.Free(), fs.roles, dir, name, i, end, r, b, j)
  {
    hide Sound, TreeOk, DirOk, Home, FileBlock, Word, SizeOf, IsDir, Grown, SameContent, DirentInum, DirentName, Full,
      NamedOnce, Searching, Spent, Scanned, Fills, Way, Searched, FindFrom, EntryCount, LookupIn, FoundAt, Ways;
    ghost var e, free1, roles1 := fs.blocks, fs.Free(), fs.roles;
    SearchingInode(d, free0, roles0, e, free1, roles1, dir, name, i, end);
    r, b := GetDirBlock(fs, dir, i);
    SearchNext(d, free0, roles0, e, free1, roles1, fs.blocks, fs.Free(), fs.roles, dir, name, i, end);
    if r != Ok {
      return r, b, 0;
    }
    j := SearchBlock(fs.blocks[b], name);
    BlockSays(d, free0, roles0, e, free1, roles1, dir, name, i, j, end);
    if j < BLKDIRENTS { EntryFound(d, free0, roles0, fs.blocks, fs.Free(), fs.roles, dir, name, i, b, j, end); }
  }

  /** The outcome of one block of a search: no space, not in this block, or found. */
  ghost predicate SearchedOne(d: Disk, free0: seq<bool>, roles0: Roles, e: Disk, free: seq<bool>, roles: Roles,
        dir: nat, name: Name, i: nat, end: nat, r: Status, b: nat, j: nat) {
    && Grown(d, free0, roles0, e, free, roles) && (r == Ok || r == ENOSPC)
    && (r == ENOSPC ==> Full(free) && Spent(free0, roles0, e, free, roles, Ways(dir, 0, end), true))
    && (r == Ok ==> j <= BLKDIRENTS && b < |e|)
    && (r == Ok && j == BLKDIRENTS ==> Searching(d, free0, roles0, e, free, roles, dir, name, i + 1, end))
    && (r == Ok && j < BLKDIRENTS ==> FoundAt(d, free0, roles0, e, free, roles, dir, name, i, b, j, end))
  }

  /** What finding the name in entry `j` of block `b`, the `i`-th of the directory, means. */
  ghost predicate FoundAt(d: Disk, free0: seq<bool>, roles0: Roles, e: Disk, free: seq<bool>, roles: Roles, dir: nat,
        name: Name, i: nat, b: nat, j: nat, end: nat) {
    && dir < |d| && j < BLKDIRENTS && b < |e|
    && FindFromStart(d, dir, name) == Some(i * BLKDIRENTS + j) && Searched(d, dir, name) == i + 1
    && HoldsEntry(e, roles, dir, i * BLKDIRENTS + j, Dirent(b, j), name, DirentInum(e[b], j))
    && LookupIn(d, dir, name) == Some(DirentInum(e[b], j))
    && Scanned(free0, roles0, e, free, roles, dir, i + 1, Ways(dir, 0, end))
  }

  function FindFromStart(d: Disk, dir: nat, name: Name): Option<nat>
    requires dir < |d|
  {
    EntryBound(d, dir);
    FindFrom(d, dir, name, 0)
  }

  /** What searching block `i` says about the search of the directory. */
  lemma BlockSays(d: Disk, free0: seq<bool>, roles0: Roles, e: Disk, free1: seq<bool>, roles1: Roles, dir: nat,
        name: Name, i: nat, j: nat, end: nat)
    requires Searching(d, free0, roles0, e, free1, roles1, dir, name, i, end) && i < SizeOf(d[dir]) / BLKSIZE
    requires i < MAXBLOCKS
    requires j <= BLKDIRENTS && forall l :: 0 <= l < j ==> DirentName(FileBlock(d, dir, i), l) != name
    requires j < BLKDIRENTS ==> DirentName(FileBlock(d, dir, i), j) == name
    ensures (i + 1) * BLKDIRENTS <= EntryCount(d, dir) < MAXBLOCKS * BLKDIRENTS
    ensures if j < BLKDIRENTS then FindFrom(d, dir, name, 0) == Some(i * BLKDIRENTS + j)
            else FindFrom(d, dir, name, i * BLKDIRENTS) == FindFrom(d, dir, name, (i + 1) * BLKDIRENTS)
  {
    hide FindFrom, SizeOf, FileBlock, DirentName, DirentInum, Grown, Scanned, Searched, EntryCount, EntryInum;
    BlockSearched(d, dir, name, i, j);
  }

  lemma EntryFound(d: Disk, free0: seq<bool>, roles0: Roles, e: Disk, free: seq<bool>, roles: Roles, dir: nat,
        name: Name, i: nat, b: nat, j: nat, end: nat)
    requires IsInode(roles0, dir) && dir < |d| && i < MAXBLOCKS && j < BLKDIRENTS && b < |e|
    requires Grown(d, free0, roles0, e, free, roles)
    requires (i + 1) * BLKDIRENTS <= EntryCount(d, dir) < MAXBLOCKS * BLKDIRENTS
    requires FindFrom(d, dir, name, 0) == Some(i * BLKDIRENTS + j)
    requires b in roles && roles[b] == Data(dir, i) && e[b] == FileBlock(d, dir, i) == FileBlock(e, dir, i)
    requires DirentName(e[b], j) == name
    requires Scanned(free0, roles0, e, free, roles, dir, i + 1, Ways(dir, 0, end))
    ensures FoundAt(d, free0, roles0, e, free, roles, dir, name, i, b, j, end)
  {
    hide FindFrom, SizeOf, FileBlock, DirentName, DirentInum, Grown, Scanned, Searched, EntryCount, EntryInum,
      EntryName, Ways;
    SearchEnds(d, dir, name, i, j);
    EntryOfBlock(d, dir, i, j);
    EntryOfBlock(e, dir, i, j);
    GrownEntry(d, free0, roles0, e, free, roles, dir, i * BLKDIRENTS + j);
  }

  /** A name that was found leads to an inode. */
  lemma FoundLive(fs: FileSystem, d: Disk, free0: seq<bool>, roles0: Roles, dir: nat, name: Name, ino: nat)
    requires Mounted(fs) && TreeOk(d, roles0) && IsInode(roles0, dir) && dir < |d| && IsDir(d[dir])
    requires LookupIn(d, dir, name) == Some(ino) && Grown(d, free0, roles0, fs.blocks, fs.Free(), fs.roles)
    ensures name != [] ==> IsInode(fs.roles, ino) && 0 < ino < |fs.blocks|
  {
    hide TreeOk, Sound, NamedOnce, LookupIn, IsDir, SameContent, Home;
    if name != [] {
      LookupLive(d, roles0, dir, name);
      RootBelow(fs, ino);
    }
  }

  /** After the last block the name is not there. */
  lemma SearchExhausted(d: Disk, free0: seq<bool>, roles0: Roles, e: Disk, free: seq<bool>, roles: Roles, dir: nat,
        name: Name, i: nat, end: nat)
    requires Searching(d, free0, roles0, e, free, roles, dir, name, i, end) && i == SizeOf(d[dir]) / BLKSIZE
    requires Sound(d, free0, roles0) && Sound(e, free, roles)
    ensures FindFromStart(d, dir, name) == None && Searched(d, dir, name) == i && LookupIn(d, dir, name) == None
    ensures Scanned(free0, roles0, e, free, roles, dir, i, Ways(dir, 0, end)) && Grown(d, free0, roles0, e, free, roles)
    ensures end == i ==> SearchSpent(d, free0, roles0, e, free, roles, dir, name, false)
  {
    hide FindFrom, SizeOf, Grown, Scanned, Searched, EntryCount, Ways, Sound, Lacking, CountFree, SearchSpent;
    SearchGoesOn(d, dir, name, i);
    if end == i { SearchCost(d, free0, roles0, e, free, roles, dir, name, false); }
  }

  lemma SearchFailed(d: Disk, free0: seq<bool>, roles0: Roles, e: Disk, free: seq<bool>, roles: Roles, dir: nat,
        name: Name, end: nat)
    requires Sound(d, free0, roles0) && Sound(e, free, roles) && IsInode(roles0, dir) && dir < |d|
    requires end == Searched(d, dir, name) && Spent(free0, roles0, e, free, roles, Ways(dir, 0, end), true)
    ensures SearchSpent(d, free0, roles0, e, free, roles, dir, name, true)
  {
    hide Sound, Spent, Searched, Ways, Lacking, CountFree, SearchSpent;
    SearchCost(d, free0, roles0, e, free, roles, dir, name, true);
  }

  lemma SearchSucceeded(d: Disk, free0: seq<bool>, roles0: Roles, e: Disk, free: seq<bool>, roles: Roles, dir: nat,
        name: Name, i: nat, b: nat, j: nat, end: nat)
    requires Sound(d, free0, roles0) && Sound(e, free, roles) && IsInode(roles0, dir) && dir < |d|
    requires end == Searched(d, dir, name) && FoundAt(d, free0, roles0, e, free, roles, dir, name, i, b, j, end)
    ensures SearchSpent(d, free0, roles0, e, free, roles, dir, name, false)
    ensures j < BLKDIRENTS && b < |e| && LookupIn(d, dir, name) == Some(DirentInum(e[b], j))
    ensures HoldsEntry(e, roles, dir, i * BLKDIRENTS + j, Dirent(b, j), name, DirentInum(e[b], j))
  {
    hide Sound, Scanned, Spent, Searched, Ways, Lacking, CountFree, SearchSpent, HoldsEntry, FindFromStart, LookupIn,
      DirentInum;
    SearchCost(d, free0, roles0, e, free, roles, dir, name, false);
  }

  /** What the outcome of a search says about the free blocks before it. */
  lemma SearchCost(d: Disk, free0: seq<bool>, roles0: Roles, f: Disk, free: seq<bool>, roles: Roles, dir: nat,
        name: Name, failed: bool)
    requires Sound(d, free0, roles0) && Sound(f, free, roles) && IsInode(roles0, dir) && dir < |d|
    requires if failed then Spent(free0, roles0, f, free, roles, SearchWays(d, dir, name), true)
             else Scanned(free0, roles0, f, free, roles, dir, Searched(d, dir, name), SearchWays(d, dir, name))
    ensures SearchSpent(d, free0, roles0, f, free, roles, dir, name, failed)
  {
    hide Sound, Scanned, Spent, Searched, SearchWays, Lacking, CountFree, Places;
    if !failed { SearchOver(d, free0, roles0, f, free, roles, dir, name); }
    SearchPlaces(d, roles0, dir, name);
    SpentExactly(d, free0, roles0, f, free, roles, SearchWays(d, dir, name), failed);
  }

  lemma MappedAt(d: Disk, dir: nat, i: nat)
    requires dir < |d| && i < SizeOf(d[dir]) / BLKSIZE && i < MAXBLOCKS
    ensures AllMapped(d, dir) ==> BlockNumber(d, dir, i) != 0
  {
    hide Home, SizeOf;
  }

  lemma DirWhole(d: Disk, roles: Roles, dir: nat)
    requires TreeOk(d, roles) && IsInode(roles, dir) && dir < |d| && IsDir(d[dir])
    ensures SizeOf(d[dir]) % BLKSIZE == 0 && DirOk(d, roles, dir)
  {
  }

  lemma GrownBlock(d: Disk, free: seq<bool>, roles: Roles, e: Disk, free': seq<bool>, roles': Roles, dir: nat, n: nat)
    requires Grown(d, free, roles, e, free', roles') && IsInode(roles, dir) && n < MAXBLOCKS
    ensures FileBlock(e, dir, n) == FileBlock(d, dir, n)
    ensures forall i :: IsInode(roles, i) <==> IsInode(roles', i)
  {
    hide FileBlock;
  }

  lemma GrownEntry(d: Disk, free: seq<bool>, roles: Roles, e: Disk, free': seq<bool>, roles': Roles, dir: nat, k: nat)
    requires Grown(d, free, roles, e, free', roles') && IsInode(roles, dir) && dir < |d| && k < MAXBLOCKS * BLKDIRENTS
    ensures EntryName(e, dir, k) == EntryName(d, dir, k)
    ensures EntryInum(e, dir, k) == EntryInum(d, dir, k) && EntryCount(e, dir) == EntryCount(d, dir)
    ensures IsInode(roles', dir) && dir < |e| && IsDir(e[dir]) == IsDir(d[dir])
  {
    hide FileBlock, EntryName, EntryInum, EntryCount, IsDir;
    SameEntries(d, e, roles, dir);
  }

  /** The blocks holding the first `n` file blocks of inode `i`. */
  ghost function DataBlocks(roles: Roles, i: nat, n: nat): set<nat> {
    set b | b in roles && roles[b].Data? && roles[b].ino == i && roles[b].n < n
  }

  lemma {:induction false} DataBlocksCount(d: Disk, roles: Roles, i: nat, n: nat)
    requires Graph(d, roles) && IsInode(roles, i) && n <= MAXBLOCKS
    requires forall m: nat :: m < n ==> BlockNumber(d, i, m) != 0
    ensures |DataBlocks(roles, i, n)| >= n
  {
    hide Graph, Home;
    if n > 0 {
      DataBlocksCount(d, roles, i, n - 1);
      HomeRole(d, roles, Data(i, n - 1));
      var b, fewer, all := BlockNumber(d, i, n - 1), DataBlocks(roles, i, n - 1), DataBlocks(roles, i, n);
      assert b !in fewer && fewer + {b} <= all;
      assert all == fewer + {b} + (all - (fewer + {b}));
    }
  }

  lemma {:induction false} CountBelow(s: set<nat>, n: nat)
    requires forall b :: b in s ==> b < n
    ensures |s| <= n
  {
    if n > 0 {
      CountBelow(s - {n - 1}, n - 1);
      if n - 1 in s { assert s == (s - {n - 1}) + {n - 1}; }
    } else {
      assert s == {};
    }
  }

  /** An inode has fewer allocated file blocks than the disk has blocks. */
  lemma MappedFit(d: Disk, free: seq<bool>, roles: Roles, i: nat, n: nat)
    requires Sound(d, free, roles) && IsInode(roles, i) && n <= MAXBLOCKS
    requires forall m: nat :: m < n ==> BlockNumber(d, i, m) != 0
    ensures n < |d|
  {
    hide Home, Word, Slot;
    DataBlocksCount(d, roles, i, n);
    var s := DataBlocks(roles, i, n) + {0};
    assert 0 !in DataBlocks(roles, i, n);
    CountBelow(s, |d|);
  }

  /** A directory whose blocks are all allocated is not about to reach 4 GiB. */
  lemma RoomInDir(d: Disk, free: seq<bool>, roles: Roles, dir: nat)
    requires Sound(d, free, roles) && IsInode(roles, dir) && dir < |d| && |d| * BLKSIZE < TWO32
    requires SizeOf(d[dir]) % BLKSIZE == 0 && AllMapped(d, dir)
    ensures SizeOf(d[dir]) + BLKSIZE < TWO32
  {
    hide Home, Sound;
    EntryBound(d, dir);
    MappedFit(d, free, roles, dir, SizeOf(d[dir]) / BLKSIZE);
  }

  lemma GrownMapped(d: Disk, free: seq<bool>, roles: Roles, e: Disk, free': seq<bool>, roles': Roles, dir: nat, n: nat)
    requires Grown(d, free, roles, e, free', roles') && IsInode(roles, dir) && n <= MAXBLOCKS
    requires forall m: nat :: m < n ==> BlockNumber(d, dir, m) != 0
    ensures forall m: nat :: m < n ==> BlockNumber(e, dir, m) != 0
  {
    hide Home, SameContent;
    forall m: nat | m < n
      ensures BlockNumber(e, dir, m) != 0
    {
      assert InFile(Data(dir, m)) && BlockNumber(d, dir, m) != 0;
    }
  }

  /** Entry `at` of directory `dir` is free, and `dent` is where it lies. */
  ghost predicate FreeEntry(d: Disk, roles: Roles, dir: nat, at: nat, dent: Dirent) {
    && dir < |d| && at < EntryCount(d, dir) && at < MAXBLOCKS * BLKDIRENTS
    && dent.block in roles && dent.block < |d| && roles[dent.block] == Data(dir, at / BLKDIRENTS)
    && dent.index == at % BLKDIRENTS
    && EntryName(d, dir, at) == []
  }

  /** `at` is the first free entry of the directory, which has grown by a block exactly when it had
      none. */
  ghost predicate FirstFree(d: Disk, e: Disk, dir: nat, at: nat) {
    && dir < |d| && dir < |e| && at <= EntryCount(d, dir)
    && (forall k :: 0 <= k < at && k < MAXBLOCKS * BLKDIRENTS ==> EntryName(d, dir, k) != [])
    && SizeOf(e[dir]) == SizeOf(d[dir]) + if at == EntryCount(d, dir) then BLKSIZE else 0
  }

  lemma NoneBefore(d: Disk, dir: nat)
    requires dir < |d|
    ensures match FindFromStart(d, dir, [])
            case None => forall k :: 0 <= k < EntryCount(d, dir) && k < MAXBLOCKS * BLKDIRENTS ==>
              EntryName(d, dir, k) != []
            case Some(at) => at < EntryCount(d, dir) && forall k :: 0 <= k < at ==> EntryName(d, dir, k) != []
  {
    hide EntryName, EntryCount;
    EntryBound(d, dir);
    FirstBelow(d, dir, [], 0, EntryCount(d, dir));
  }

  lemma {:induction false} FirstBelow(d: Disk, dir: nat, name: Name, k: nat, count: nat)
    requires k <= count < MAXBLOCKS * BLKDIRENTS
    ensures match FindBelow(d, dir, name, k, count)
            case None => forall l :: k <= l < count ==> EntryName(d, dir, l) != name
            case Some(at) => k <= at < count && forall l :: k <= l < at ==> EntryName(d, dir, l) != name
    decreases count - k
  {
    hide EntryName;
    if k < count && EntryName(d, dir, k) != name { FirstBelow(d, dir, name, k + 1, count); }
  }

  lemma FirstFreeFound(d: Disk, e: Disk, roles: Roles, dir: nat, at: nat)
    requires SameContent(d, e, roles) && IsInode(roles, dir) && dir < |d|
    requires FindFromStart(d, dir, []) == Some(at)
    ensures FirstFree(d, e, dir, at)
  {
    hide EntryName, EntryCount, SizeOf, FileBlock, Attributes;
    NoneBefore(d, dir);
    SameLength(d, e, roles);
    AttributesDetermine(d[dir], e[dir]);
  }

  lemma FirstFreeAdded(d: Disk, e: Disk, dir: nat)
    requires dir < |d| && dir < |e| && FindFromStart(d, dir, []) == None
    requires SizeOf(e[dir]) == SizeOf(d[dir]) + BLKSIZE
    ensures FirstFree(d, e, dir, SizeOf(d[dir]) / BLKSIZE * BLKDIRENTS)
  {
    hide EntryName, SizeOf;
    NoneBefore(d, dir);
  }

  /** Looking for a free entry took only places of the blocks looked at and of the one added, and
      failed exactly when there were too few free blocks for them. */
  ghost predicate EntrySpent(d: Disk, free: seq<bool>, roles: Roles, e: Disk, free': seq<bool>, roles': Roles, dir: nat,
        failed: bool) {
    && dir < |d| && Spent(free, roles, e, free', roles', EntryWays(d, dir), failed)
    && (failed <==> |Lacking(d, EntryWays(d, dir))| > CountFree(free))
  }

  /** dir_alloc_dirent: the first free entry, in a block added to the directory if there is none. No name
      appears or disappears and no file reads differently, also when the disk is full. Directories
      stay allocated, except that an extension may fail half way. */
  method DirAllocDirent(fs: FileSystem, dir: nat) returns (r: Status, dent: Dirent, ghost at: nat)
    requires Mounted(fs) && IsInode(fs.roles, dir) && dir < |fs.blocks|
    requires IsDir(fs.blocks[dir])
    modifies fs, fs.bitmap.words
    ensures Mounted(fs) && (forall i :: IsInode(old(fs.roles), i) <==> IsInode(fs.roles, i))
    ensures SameNames(old(fs.blocks), fs.blocks, old(fs.roles)) && Longer(old(fs.blocks), fs.blocks, old(fs.roles), dir)
    ensures dir < |fs.blocks| && IsDir(fs.blocks[dir])
    ensures r == Ok || (r == ENOSPC && Full(fs.Free()))
    ensures EntrySpent(old(fs.blocks), old(fs.Free()), old(fs.roles), fs.blocks, fs.Free(), fs.roles, dir, r == ENOSPC)
    ensures DirsMapped(old(fs.blocks), old(fs.roles)) ==>
              if r == Ok then DirsMapped(fs.blocks, fs.roles) else HalfExtended(old(fs.blocks), fs.blocks, dir)
    ensures r == Ok ==> FreeEntry(fs.blocks, fs.roles, dir, at, dent)
    ensures r == Ok ==> FirstFree(old(fs.blocks), fs.blocks, dir, at)
  {
    hide Sound, TreeOk, DirOk, Home, FileBlock, Word, SizeOf, IsDir, Grown, SameContent, DirentInum, Full, NamedOnce,
      Searching, Spent, Searched, EntryName, EntryInum, EntryCount, Scanned, SameNames, Longer, OthersSame,
      DirsMapped, EntrySpent, SearchSpent, FoundAt, FreeEntry, HalfExtended, Ways, AllMapped, FindFromStart,
      FirstFree;
    ghost var d, free0, roles0 := fs.blocks, fs.Free(), fs.roles;
    ghost var end := EntryEnd(d, dir);
    DirWhole(d, roles0, dir);
    EntryEndIs(d, dir);
    SearchStarts(d, free0, roles0, dir, [], end);
    GrownRefl(d, free0, roles0);
    var nblock := SizeOf(fs.blocks[dir]) / BLKSIZE;
    var i := 0;
    while i < nblock
      invariant 0 <= i <= nblock && OnlyGrew(fs)
      invariant Searching(d, free0, roles0, fs.blocks, fs.Free(), fs.roles, dir, [], i, end)
    {
      var b, j;
      SearchingInode(d, free0, roles0, fs.blocks, fs.Free(), fs.roles, dir, [], i, end);
      MappedStays(d, free0, roles0, fs.blocks, fs.Free(), fs.roles, dir, i);
      r, b, j := SearchOne(fs, dir, [], i, d, free0, roles0, end);
      GrownDir(d, free0, roles0, fs.blocks, fs.Free(), fs.roles, dir);
      if r != Ok {
        EntryFailed(d, free0, roles0, fs.blocks, fs.Free(), fs.roles, dir, end);
        return r, Dirent(0, 0), 0;
      }
      if j < BLKDIRENTS {
        EntryFree(d, free0, roles0, fs.blocks, fs.Free(), fs.roles, dir, i, b, j, end);
        FoundStart(d, free0, roles0, fs.blocks, fs.Free(), fs.roles, dir, i, b, j, end);
        return Ok, Dirent(b, j), i * BLKDIRENTS + j;
      }
      i := i + 1;
    }
    SearchExhausted(d, free0, roles0, fs.blocks, fs.Free(), fs.roles, dir, [], i, end);
    r, dent, at := ExtendDir(fs, dir, i, d, free0, roles0);
    FirstFreeAdded(d, fs.blocks, dir);
  }

  lemma FoundStart(d: Disk, free0: seq<bool>, roles0: Roles, e: Disk, free: seq<bool>, roles: Roles, dir: nat, i: nat,
        b: nat, j: nat, end: nat)
    requires FoundAt(d, free0, roles0, e, free, roles, dir, [], i, b, j, end)
    requires Grown(d, free0, roles0, e, free, roles) && IsInode(roles0, dir)
    ensures FirstFree(d, e, dir, i * BLKDIRENTS + j)
  {
    hide FindFromStart, HoldsEntry, LookupIn, Scanned, Searched, SameContent, FirstFree, Home;
    FirstFreeFound(d, e, roles0, dir, i * BLKDIRENTS + j);
  }

  /** Where the search of dir_alloc_dirent ends, the added block included. */
  function EntryEnd(d: Disk, dir: nat): nat
    requires dir < |d|
  {
    if FindFromStart(d, dir, []).Some? then Searched(d, dir, []) else SizeOf(d[dir]) / BLKSIZE + 1
  }

  lemma EntryEndIs(d: Disk, dir: nat)
    requires dir < |d|
    ensures EntryWays(d, dir) == Ways(dir, 0, EntryEnd(d, dir)) && Searched(d, dir, []) <= EntryEnd(d, dir)
    ensures FindFromStart(d, dir, []).Some? ==> EntryEnd(d, dir) == Searched(d, dir, [])
  {
    hide SizeOf, Ways, FindFrom;
  }

  lemma MappedStays(d: Disk, free: seq<bool>, roles: Roles, e: Disk, free': seq<bool>, roles': Roles, dir: nat, i: nat)
    requires Grown(d, free, roles, e, free', roles') && IsInode(roles, dir) && dir < |d|
    requires i < SizeOf(d[dir]) / BLKSIZE && i < MAXBLOCKS
    ensures DirsMapped(d, roles) && IsDir(d[dir]) ==> BlockNumber(e, dir, i) != 0
  {
    hide Home, SizeOf, IsDir, SameContent;
    if DirsMapped(d, roles) && IsDir(d[dir]) {
      assert AllMapped(d, dir);
      assert InFile(Data(dir, i)) && BlockNumber(d, dir, i) != 0;
    }
  }

  /** What pure allocation means for a directory. */
  lemma GrownDir(d: Disk, free: seq<bool>, roles: Roles, e: Disk, free': seq<bool>, roles': Roles, dir: nat)
    requires Grown(d, free, roles, e, free', roles') && IsInode(roles, dir) && dir < |d|
    ensures SameNames(d, e, roles) && Longer(d, e, roles, dir) && |e| == |d| && IsDir(e[dir]) == IsDir(d[dir])
    ensures forall i :: IsInode(roles, i) <==> IsInode(roles', i)
    ensures DirsMapped(d, roles) ==> DirsMapped(e, roles')
  {
    hide SameNames, Longer, OthersSame, IsDir, SizeOf, DirsMapped, Grown;
    GrownNames(d, free, roles, e, free', roles', dir);
    GrownLonger(d, free, roles, e, free', roles', dir);
    if DirsMapped(d, roles) { GrownDirs(d, free, roles, e, free', roles'); }
  }

  lemma GrownDirs(d: Disk, free: seq<bool>, roles: Roles, e: Disk, free': seq<bool>, roles': Roles)
    requires Grown(d, free, roles, e, free', roles') && DirsMapped(d, roles)
    ensures DirsMapped(e, roles')
  {
    hide FileBlock, IsDir, SizeOf, Attributes, DirsMapped, Home;
    forall i: nat | IsInode(roles', i) && i < |e| && IsDir(e[i])
      ensures IsInode(roles, i) && i < |d| && IsDir(d[i]) && SizeOf(e[i]) == SizeOf(d[i])
    {
      AttributesDetermine(d[i], e[i]);
    }
    DirsStayMapped(d, e, roles, roles');
  }

  lemma EntryCost(d: Disk, free0: seq<bool>, roles0: Roles, e: Disk, free: seq<bool>, roles: Roles, dir: nat,
        failed: bool)
    requires Sound(d, free0, roles0) && Sound(e, free, roles) && IsInode(roles0, dir) && dir < |d|
    requires Spent(free0, roles0, e, free, roles, Ways(dir, 0, EntryEnd(d, dir)), failed)
    ensures EntrySpent(d, free0, roles0, e, free, roles, dir, failed)
  {
    hide Sound, Spent, Ways, Lacking, CountFree, EntryEnd, EntryWays, Places;
    EntryEndIs(d, dir);
    EntryPlaces(d, roles0, dir);
    SpentExactly(d, free0, roles0, e, free, roles, EntryWays(d, dir), failed);
  }

  lemma EntryFailed(d: Disk, free0: seq<bool>, roles0: Roles, e: Disk, free: seq<bool>, roles: Roles, dir: nat,
        end: nat)
    requires Sound(d, free0, roles0) && Sound(e, free, roles) && IsInode(roles0, dir) && dir < |d|
    requires end == EntryEnd(d, dir)
    requires Spent(free0, roles0, e, free, roles, Ways(dir, 0, end), true)
    ensures EntrySpent(d, free0, roles0, e, free, roles, dir, true)
  {
    hide Sound, Spent, Ways, EntryEnd, EntrySpent;
    EntryCost(d, free0, roles0, e, free, roles, dir, true);
  }

  lemma EntryFree(d: Disk, free0: seq<bool>, roles0: Roles, e: Disk, free: seq<bool>, roles: Roles, dir: nat, i: nat,
        b: nat, j: nat, end: nat)
    requires Sound(d, free0, roles0) && Sound(e, free, roles) && IsInode(roles0, dir) && dir < |d|
    requires end == EntryEnd(d, dir)
    requires FoundAt(d, free0, roles0, e, free, roles, dir, [], i, b, j, end)
    ensures EntrySpent(d, free0, roles0, e, free, roles, dir, false)
    ensures FreeEntry(e, roles, dir, i * BLKDIRENTS + j, Dirent(b, j))
  {
    hide Sound, Scanned, Spent, Searched, Ways, EntryEnd, EntrySpent, LookupIn, DirentInum, EntryName, EntryInum,
      EntryCount;
    EntryEndIs(d, dir);
    ScanFinished(free0, roles0, e, free, roles, dir, end);
    EntryCost(d, free0, roles0, e, free, roles, dir, false);
  }

  /** No entry is free: the directory grows by a block. */
  method ExtendDir(fs: FileSystem, dir: nat, n: nat, ghost d: Disk, ghost free0: seq<bool>, ghost roles0: Roles)
    returns (r: Status, dent: Dirent, ghost at: nat)
    requires Mounted(fs) && Sound(d, free0, roles0) && IsInode(roles0, dir) && dir < |d| && IsDir(d[dir])
    requires Grown(d, free0, roles0, fs.blocks, fs.Free(), fs.roles) && n == SizeOf(d[dir]) / BLKSIZE
    requires EntryEnd(d, dir) == n + 1
    requires Scanned(free0, roles0, fs.blocks, fs.Free(), fs.roles, dir, n, Ways(dir, 0, n + 1))
    modifies fs, fs.bitmap.words
    ensures Mounted(fs) && (r == Ok || (r == ENOSPC && Full(fs.Free())))
    ensures DirExtended(d, free0, roles0, fs.blocks, fs.Free(), fs.roles, dir, r, dent, at)
  {
    hide Sound, TreeOk, DirOk, Home, FileBlock, Word, PutWord, SizeOf, IsDir, Grown, SameContent, Full, NamedOnce,
      Fills, Way, EntryEnd, EntryCount, Scanned, SameNames, OthersSame, OneMoreBlock, DirExtended, Ways;
    ghost var e, free1, roles1 := fs.blocks, fs.Free(), fs.roles;
    ExtensionFits(d, free0, roles0, e, free1, roles1, dir, n);
    Extended(e, free1, roles1, dir);
    fs.blocks := fs.blocks[dir := PutWord(fs.blocks[dir], SIZE, SizeOf(fs.blocks[dir]) + BLKSIZE)];
    ghost var f := fs.blocks;
    assert OneMoreBlock(e, f, dir) by { IsLonger(e, f, dir); }
    ExtendedMounted(e, f, roles1, dir, fs.root);
    SameRolesScanned(free0, roles0, e, free1, roles1, f, dir, n, n + 1);
    var b;
    r, b := GetDirBlock(fs, dir, n);
    dent, at := Dirent(b, 0), n * BLKDIRENTS;
    ExtensionDone(d, free0, roles0, e, free1, roles1, f, fs.blocks, fs.Free(), fs.roles, dir, n, r, b);
  }

  lemma IsLonger(e: Disk, f: Disk, dir: nat)
    requires dir < |e| == |f| && SizeOf(f[dir]) == SizeOf(e[dir]) + BLKSIZE
    requires forall n: nat :: n < MAXBLOCKS ==> FileBlock(f, dir, n) == FileBlock(e, dir, n)
    ensures OneMoreBlock(e, f, dir)
  {
    hide SizeOf, FileBlock;
  }

  lemma ExtendedMounted(e: Disk, f: Disk, roles: Roles, dir: nat, root: nat)
    requires TreeOk(e, roles) && NamedOnce(e, roles, root) && IsInode(roles, dir) && dir < |e| && IsDir(e[dir])
    requires OneMoreBlock(e, f, dir) && OthersSame(e, f, roles, dir) && IsDir(f[dir])
    ensures NamedOnce(f, roles, root)
  {
    hide NamedOnce, IsDir, OneMoreBlock, OthersSame, DirOk;
    DirWhole(e, roles, dir);
    ExtendedNamed(e, f, roles, dir, root);
  }

  /** The size of the grown directory cannot wrap around. */
  lemma ExtensionFits(d: Disk, free0: seq<bool>, roles0: Roles, e: Disk, free1: seq<bool>, roles1: Roles, dir: nat,
        n: nat)
    requires Grown(d, free0, roles0, e, free1, roles1) && Sound(e, free1, roles1) && TreeOk(e, roles1)
    requires IsInode(roles0, dir) && dir < |d| && IsDir(d[dir]) && |e| * BLKSIZE < TWO32
    requires n == SizeOf(d[dir]) / BLKSIZE
    requires Scanned(free0, roles0, e, free1, roles1, dir, n, Ways(dir, 0, n + 1))
    ensures IsInode(roles1, dir) && dir < |e| == |d| && IsDir(e[dir]) && SizeOf(e[dir]) == SizeOf(d[dir])
    ensures SizeOf(e[dir]) + BLKSIZE < TWO32 && SizeOf(d[dir]) % BLKSIZE == 0 && n < MAXBLOCKS
  {
    hide Sound, TreeOk, Home, IsDir, SizeOf, Fills, Ways, Grown, SameNames, OthersSame;
    GrownNames(d, free0, roles0, e, free1, roles1, dir);
    DirWhole(e, roles1, dir);
    EntryBound(e, dir);
    RoomInDir(e, free1, roles1, dir);
  }

  /** The outcome of dir_alloc_dirent when no entry was free. */
  ghost predicate DirExtended(d: Disk, free0: seq<bool>, roles0: Roles, g: Disk, free: seq<bool>, roles: Roles,
        dir: nat, r: Status, dent: Dirent, at: nat) {
    && SameNames(d, g, roles0) && Longer(d, g, roles0, dir) && dir < |g| && IsDir(g[dir])
    && (forall i :: IsInode(roles0, i) <==> IsInode(roles, i))
    && EntrySpent(d, free0, roles0, g, free, roles, dir, r == ENOSPC)
    && (DirsMapped(d, roles0) ==> if r == Ok then DirsMapped(g, roles) else HalfExtended(d, g, dir))
    && (r == Ok ==> FreeEntry(g, roles, dir, at, dent))
    && SizeOf(g[dir]) == SizeOf(d[dir]) + BLKSIZE && (r == Ok ==> at == SizeOf(d[dir]) / BLKSIZE * BLKDIRENTS)
  }

  lemma ExtensionDone(d: Disk, free0: seq<bool>, roles0: Roles, e: Disk, free1: seq<bool>, roles1: Roles, f: Disk,
        g: Disk, free2: seq<bool>, roles2: Roles, dir: nat, n: nat, r: Status, b: nat)
    requires Sound(d, free0, roles0) && Sound(g, free2, roles2)
    requires TreeOk(e, roles1) && IsInode(roles0, dir) && IsInode(roles1, dir) && dir < |d| == |e| == |f|
    requires IsDir(d[dir]) && IsDir(e[dir]) && IsDir(f[dir])
    requires SizeOf(e[dir]) == SizeOf(d[dir]) && SizeOf(d[dir]) % BLKSIZE == 0
    requires n == SizeOf(d[dir]) / BLKSIZE < MAXBLOCKS
    requires EntryEnd(d, dir) == n + 1 && Scanned(free0, roles0, f, free1, roles1, dir, n, Ways(dir, 0, n + 1))
    requires Grown(d, free0, roles0, e, free1, roles1) && SameNames(e, f, roles1) && OthersSame(e, f, roles1, dir)
    requires OneMoreBlock(e, f, dir) && Grown(f, free1, roles1, g, free2, roles2)
    requires Fills(free1, roles1, free2, roles2, Way(dir, n))
    requires if r == Ok then b in roles2 && b < |g| && roles2[b] == Data(dir, n) && BlockNumber(g, dir, n) != 0
             else r == ENOSPC && Full(free2) && BlockNumber(g, dir, n) == 0
    ensures DirExtended(d, free0, roles0, g, free2, roles2, dir, r, Dirent(b, 0), n * BLKDIRENTS)
  {
    hide Sound, TreeOk, Home, FileBlock, SizeOf, IsDir, Grown, SameContent, Full, Fills, Way, EntryEnd, EntryCount,
      Scanned, SameNames, OthersSame, OneMoreBlock, Ways, Longer, EntrySpent, DirsMapped, HalfExtended, FreeEntry;
    ExtensionNames(d, free0, roles0, e, free1, roles1, f, g, free2, roles2, dir);
    ExtensionCost(d, free0, roles0, f, free1, roles1, g, free2, roles2, dir, n);
    if r == Ok {
      NewEntryFree(e, free1, roles1, f, g, free2, roles2, dir, n, b);
    }
    LongerLength(e, f, dir);
    RolesKept(d, free0, roles0, e, free1, roles1, f, g, free2, roles2);
    if DirsMapped(d, roles0) { ExtensionMapped(d, free0, roles0, g, free2, roles2, dir, n); }
  }

  lemma ExtensionNames(d: Disk, free0: seq<bool>, roles0: Roles, e: Disk, free1: seq<bool>, roles1: Roles, f: Disk,
        g: Disk, free2: seq<bool>, roles2: Roles, dir: nat)
    requires IsInode(roles0, dir) && dir < |d| && dir < |f| && IsDir(f[dir])
    requires Grown(d, free0, roles0, e, free1, roles1)
    requires dir < |e| && IsDir(e[dir])
    requires SameNames(e, f, roles1) && OthersSame(e, f, roles1, dir) && OneMoreBlock(e, f, dir)
    requires Grown(f, free1, roles1, g, free2, roles2)
    ensures SameNames(d, g, roles0) && OthersSame(d, g, roles0, dir) && Longer(d, g, roles0, dir) && dir < |g|
    ensures IsDir(g[dir])
    ensures forall i :: IsInode(roles0, i) <==> IsInode(roles2, i)
    ensures SizeOf(g[dir]) == SizeOf(f[dir]) && |g| == |d|
  {
    hide SizeOf, IsDir, Grown, SameNames, OthersSame, OneMoreBlock, Longer;
    GrownNames(d, free0, roles0, e, free1, roles1, dir);
    assert |f| == |e| by { LongerLength(e, f, dir); }
    NamesCompose(d, e, f, roles0, roles1, dir);
    GrownNames(f, free1, roles1, g, free2, roles2, dir);
    NamesCompose(d, f, g, roles0, roles1, dir);
    GrownAround(d, free0, roles0, e, free1, roles1, f, g, free2, roles2, dir);
  }

  lemma LongerLength(e: Disk, f: Disk, dir: nat)
    requires OneMoreBlock(e, f, dir)
    ensures dir < |e| == |f| && SizeOf(f[dir]) == SizeOf(e[dir]) + BLKSIZE
  {
    hide SizeOf, FileBlock;
  }

  lemma RolesKept(d: Disk, free0: seq<bool>, roles0: Roles, e: Disk, free1: seq<bool>, roles1: Roles, f: Disk, g: Disk,
        free2: seq<bool>, roles2: Roles)
    requires Grown(d, free0, roles0, e, free1, roles1) && Grown(f, free1, roles1, g, free2, roles2)
    ensures Extends(roles0, roles2)
  {
    hide SameContent, Home;
  }

  lemma ExtensionCost(d: Disk, free0: seq<bool>, roles0: Roles, f: Disk, free1: seq<bool>, roles1: Roles, g: Disk,
        free2: seq<bool>, roles2: Roles, dir: nat, n: nat)
    requires IsInode(roles0, dir) && IsInode(roles1, dir) && dir < |d| && n < MAXBLOCKS && EntryEnd(d, dir) == n + 1
    requires Sound(d, free0, roles0) && Sound(g, free2, roles2)
    requires Scanned(free0, roles0, f, free1, roles1, dir, n, Ways(dir, 0, n + 1))
    requires Grown(f, free1, roles1, g, free2, roles2) && Fills(free1, roles1, free2, roles2, Way(dir, n))
    ensures BlockNumber(g, dir, n) != 0 ==> EntrySpent(d, free0, roles0, g, free2, roles2, dir, false)
    ensures BlockNumber(g, dir, n) == 0 && Full(free2) ==> EntrySpent(d, free0, roles0, g, free2, roles2, dir, true)
    ensures forall m: nat :: m < n && m < MAXBLOCKS ==> BlockNumber(g, dir, m) != 0
  {
    hide Sound, Home, Grown, Full, Fills, Way, EntryEnd, Ways, EntrySpent, Spent, Scanned;
    ScanStep(free0, roles0, f, free1, roles1, g, free2, roles2, dir, n, n + 1);
    ScannedMapped(free0, roles0, g, free2, roles2, dir, n, Ways(dir, 0, n + 1));
    if BlockNumber(g, dir, n) != 0 {
      ScanFinished(free0, roles0, g, free2, roles2, dir, n + 1);
      EntryCost(d, free0, roles0, g, free2, roles2, dir, false);
    } else if Full(free2) {
      ScanFailed(free0, roles0, g, free2, roles2, dir, n, n + 1);
      EntryCost(d, free0, roles0, g, free2, roles2, dir, true);
    }
  }

  lemma ScannedMapped(free0: seq<bool>, roles0: Roles, e: Disk, free: seq<bool>, roles: Roles, dir: nat, n: nat,
        ways: set<Role>)
    requires Scanned(free0, roles0, e, free, roles, dir, n, ways)
    ensures forall m: nat :: m < n && m < MAXBLOCKS ==> BlockNumber(e, dir, m) != 0
  {
    hide Fills, Home;
  }

  lemma SameRolesScanned(free0: seq<bool>, roles0: Roles, e: Disk, free: seq<bool>, roles: Roles, f: Disk, dir: nat,
        n: nat, end: nat)
    requires Sound(e, free, roles) && Sound(f, free, roles) && IsInode(roles, dir)
    requires Scanned(free0, roles0, e, free, roles, dir, n, Ways(dir, 0, end))
    ensures Scanned(free0, roles0, f, free, roles, dir, n, Ways(dir, 0, end))
  {
    hide Sound, Home, Fills, Ways;
    HomesKept(e, free, roles, f, free, roles);
    forall m: nat | m < n && m < MAXBLOCKS
      ensures BlockNumber(f, dir, m) != 0
    {
      assert InFile(Data(dir, m)) && BlockNumber(e, dir, m) != 0;
    }
  }

  lemma NewEntryFree(e: Disk, free: seq<bool>, roles: Roles, f: Disk, g: Disk, free': seq<bool>, roles': Roles,
        dir: nat, n: nat, b: nat)
    requires TreeOk(e, roles) && IsInode(roles, dir) && dir < |e| && IsDir(e[dir]) && OneMoreBlock(e, f, dir)
    requires Grown(f, free, roles, g, free', roles') && n == SizeOf(e[dir]) / BLKSIZE && n < MAXBLOCKS
    requires b in roles' && b < |g| && roles'[b] == Data(dir, n)
    ensures FreeEntry(g, roles', dir, n * BLKDIRENTS, Dirent(b, 0))
  {
    hide TreeOk, IsDir, SizeOf, OneMoreBlock, Grown, EntryName, EntryCount;
    FirstNewEntry(e, free, roles, f, g, free', roles', dir, n);
  }

  /** After an extension every directory block is allocated, unless it is the new one that is missing. */
  lemma ExtensionMapped(d: Disk, free0: seq<bool>, roles0: Roles, g: Disk, free2: seq<bool>, roles2: Roles, dir: nat,
        n: nat)
    requires dir < |d| == |g| && IsInode(roles0, dir) && forall i :: IsInode(roles0, i) <==> IsInode(roles2, i)
    requires SizeOf(g[dir]) == SizeOf(d[dir]) + BLKSIZE
    requires SizeOf(d[dir]) % BLKSIZE == 0 && n == SizeOf(d[dir]) / BLKSIZE < MAXBLOCKS
    requires Sound(d, free0, roles0) && Sound(g, free2, roles2) && DirsMapped(d, roles0) && Extends(roles0, roles2)
    requires OthersSame(d, g, roles0, dir) && forall m: nat :: m < n && m < MAXBLOCKS ==> BlockNumber(g, dir, m) != 0
    ensures BlockNumber(g, dir, n) == 0 ==> HalfExtended(d, g, dir)
    ensures BlockNumber(g, dir, n) != 0 ==> DirsMapped(g, roles2)
  {
    hide Sound, Home, FileBlock, SizeOf, IsDir, SameContent, Attributes;
    HomesKept(d, free0, roles0, g, free2, roles2);
    if BlockNumber(g, dir, n) != 0 {
      forall i: nat | IsInode(roles2, i) && i < |g| && IsDir(g[i])
        ensures AllMapped(g, i)
      {
        if i == dir {
          assert SizeOf(g[dir]) / BLKSIZE == n + 1;
        } else {
          assert AllMapped(d, i);
          MappedElsewhere(d, g, roles0, i);
        }
      }
    }
  }

  lemma MappedElsewhere(d: Disk, g: Disk, roles: Roles, i: nat)
    requires i < |d| == |g| && AllMapped(d, i) && SizeOf(g[i]) == SizeOf(d[i]) && IsInode(roles, i)
    requires forall r :: InFile(r) && IsInode(roles, r.ino) && Home(d, r) != 0 ==> Home(g, r) == Home(d, r)
    ensures AllMapped(g, i)
  {
    hide Home, SizeOf;
    forall n: nat | n < SizeOf(g[i]) / BLKSIZE && n < MAXBLOCKS
      ensures BlockNumber(g, i, n) != 0
    {
      assert InFile(Data(i, n)) && BlockNumber(d, i, n) != 0;
    }
  }

  /** What allocation means for directories. */
  lemma GrownNames(d: Disk, free: seq<bool>, roles: Roles, e: Disk, free': seq<bool>, roles': Roles, dir: nat)
    requires Grown(d, free, roles, e, free', roles') && IsInode(roles, dir) && dir < |d|
    ensures SameNames(d, e, roles) && OthersSame(d, e, roles, dir) && |e| == |d|
    ensures IsDir(e[dir]) == IsDir(d[dir]) && SizeOf(e[dir]) == SizeOf(d[dir])
    ensures forall i :: IsInode(roles, i) <==> IsInode(roles', i)
  {
    hide FileBlock, IsDir, SizeOf, Attributes, SameNames, OthersSame;
    SameContentNames(d, e, roles);
    SameContentOthers(d, e, roles, dir);
    SameLength(d, e, roles);
    AttributesDetermine(d[dir], e[dir]);
  }

  lemma GrownLonger(d: Disk, free: seq<bool>, roles: Roles, e: Disk, free': seq<bool>, roles': Roles, dir: nat)
    requires Grown(d, free, roles, e, free', roles') && IsInode(roles, dir) && dir < |d|
    ensures Longer(d, e, roles, dir)
  {
    hide Longer, SameContent;
    SameContentLonger(d, e, roles, dir);
  }

  lemma GrownAround(d: Disk, free: seq<bool>, roles: Roles, e: Disk, free1: seq<bool>, roles1: Roles, f: Disk, g: Disk,
        free2: seq<bool>, roles2: Roles, dir: nat)
    requires Grown(d, free, roles, e, free1, roles1) && OneMoreBlock(e, f, dir) && OthersSame(e, f, roles1, dir)
    requires Grown(f, free1, roles1, g, free2, roles2) && IsInode(roles, dir) && dir < |d|
    requires IsDir(f[dir]) == IsDir(e[dir])
    ensures Longer(d, g, roles, dir)
  {
    hide SameContent, OneMoreBlock, OthersSame, Longer;
    LongerAround(d, e, f, g, roles, roles1, roles1, dir);
  }

  lemma NamesCompose(d: Disk, e: Disk, f: Disk, roles: Roles, roles': Roles, dir: nat)
    requires SameNames(d, e, roles) && OthersSame(d, e, roles, dir)
    requires SameNames(e, f, roles') && OthersSame(e, f, roles', dir)
    requires forall i :: IsInode(roles, i) <==> IsInode(roles', i)
    ensures SameNames(d, f, roles) && OthersSame(d, f, roles, dir)
  {
    hide FileBlock, IsDir, SizeOf, Attributes, Binds;
  }

  lemma FirstNewEntry(e: Disk, free: seq<bool>, roles: Roles, f: Disk, g: Disk, free': seq<bool>, roles': Roles,
        dir: nat, n: nat)
    requires TreeOk(e, roles) && IsInode(roles, dir) && dir < |e| && IsDir(e[dir]) && OneMoreBlock(e, f, dir)
    requires Grown(f, free, roles, g, free', roles') && n == SizeOf(e[dir]) / BLKSIZE && n < MAXBLOCKS
    ensures dir < |g| && n * BLKDIRENTS < EntryCount(g, dir)
    ensures n * BLKDIRENTS < MAXBLOCKS * BLKDIRENTS && EntryName(g, dir, n * BLKDIRENTS) == []
    ensures n * BLKDIRENTS / BLKDIRENTS == n && n * BLKDIRENTS % BLKDIRENTS == 0
  {
    hide FileBlock, IsDir, SizeOf, EntryName, EntryInum;
    DirWhole(e, roles, dir);
    ExtendedEntries(e, f, roles, dir);
    GrownEntry(f, free, roles, g, free', roles', dir, n * BLKDIRENTS);
  }

  // ----- walk_path

  method SkipSlashes(path: seq<Byte>, start: nat) returns (i: nat)
    requires start <= |path|
    ensures start <= i <= |path| && path[i..] == SkipSlash(path[start..])
  {
    hide SkipSlash;
    i := start;
    while i < |path| && path[i] == SLASH
      invariant start <= i <= |path| && SkipSlash(path[i..]) == SkipSlash(path[start..])
    {
      SkipOne(path, i);
      i := i + 1;
    }
    SkipNone(path, i);
  }

  lemma SkipOne(path: seq<Byte>, i: nat)
    requires i < |path| && path[i] == SLASH
    ensures SkipSlash(path[i..]) == SkipSlash(path[i + 1..])
  {
    assert path[i..][1..] == path[i + 1..];
  }

  lemma SkipNone(path: seq<Byte>, i: nat)
    requires i <= |path| && (i < |path| ==> path[i] != SLASH)
    ensures SkipSlash(path[i..]) == path[i..]
  {
  }

  method ElementEnd(path: seq<Byte>, start: nat) returns (i: nat)
    requires start <= |path|
    ensures start <= i <= |path| && path[start..i] == Element(path[start..])
  {
    hide Element;
    i := start;
    while i < |path| && path[i] != SLASH
      invariant start <= i <= |path| && |Element(path[start..])| == i - start + |Element(path[i..])|
    {
      ElementLonger(path, i);
      i := i + 1;
    }
    ElementNone(path, i);
    assert path[start..][..i - start] == path[start..i];
  }

  lemma ElementLonger(path: seq<Byte>, i: nat)
    requires i < |path| && path[i] != SLASH
    ensures |Element(path[i..])| == 1 + |Element(path[i + 1..])|
  {
    assert path[i..][1..] == path[i + 1..];
  }

  lemma ElementNone(path: seq<Byte>, i: nat)
    requires i <= |path| && (i < |path| ==> path[i] == SLASH)
    ensures Element(path[i..]) == []
  {
  }

  /** The components of the path from position `i` on. */
  function ComponentsAt(path: seq<Byte>, i: nat): seq<Name>
    requires i <= |path|
  {
    Components(path[i..])
  }

  /** The start of the first path element. */
  method FirstElement(path: seq<Byte>) returns (i: nat)
    ensures i <= |path| && (i < |path| ==> path[i] != SLASH) && ComponentsAt(path, i) == Components(path)
  {
    hide Components;
    i := SkipSlashes(path, 0);
    assert path[0..] == path;
    SkipTwice(path);
    SkippedHead(path, 0, i);
  }

  lemma NoComponents(path: seq<Byte>)
    ensures ComponentsAt(path, |path|) == []
  {
    assert path[|path|..] == [];
    EmptyPath();
  }

  /** The path element at `p`, and the start of the next one. */
  method NextElement(path: seq<Byte>, p: nat) returns (name: Name, next: nat)
    requires p < |path| && path[p] != SLASH && 0 !in path
    ensures p < next <= |path| && (next < |path| ==> path[next] != SLASH)
    ensures ComponentsAt(path, p) == [name] + ComponentsAt(path, next) && name != [] && 0 !in name
    ensures next == |path| <==> ComponentsAt(path, next) == []
  {
    hide Element, ComponentsAt, SkipSlash;
    var i := ElementEnd(path, p);
    name := path[p..i];
    next := SkipSlashes(path, i);
    NextAt(path, p, i, next);
  }

  lemma NextAt(path: seq<Byte>, p: nat, i: nat, next: nat)
    requires p <= i <= next <= |path| && p < |path| && path[p] != SLASH && 0 !in path
    requires path[p..i] == Element(path[p..]) && path[next..] == SkipSlash(path[i..])
    ensures ComponentsAt(path, p) == [path[p..i]] + ComponentsAt(path, next) && path[p..i] != [] && p < i
    ensures 0 !in path[p..i]
    ensures next == |path| <==> ComponentsAt(path, next) == []
    ensures next < |path| ==> path[next] != SLASH
  {
    hide Element, Components, SkipSlash;
    assert path[p..][|path[p..i]|..] == path[i..];
    ComponentsStep(path[p..], path[next..]);
    SkippedHead(path, i, next);
    assert path[next..] == [] <==> next == |path|;
  }

  lemma SkippedHead(path: seq<Byte>, i: nat, next: nat)
    requires i <= next <= |path| && path[next..] == SkipSlash(path[i..])
    ensures next < |path| ==> path[next] != SLASH
  {
    if next < |path| { assert path[next] == path[next..][0]; }
  }

  /** One turn of the walk: the element at the start of `p`, and what is left after its slashes. */
  lemma ComponentsStep(p: seq<Byte>, rest: seq<Byte>)
    requires p != [] && p[0] != SLASH && rest == SkipSlash(p[|Element(p)|..])
    ensures Components(p) == [Element(p)] + Components(rest) && Element(p) != []
    ensures rest == [] <==> Components(rest) == []
  {
    hide Element;
    assert SkipSlash(p) == p;
    ElementNonEmpty(p);
    SkipTwice(p[|Element(p)|..]);
  }

  lemma {:induction false} SkipTwice(q: seq<Byte>)
    ensures SkipSlash(SkipSlash(q)) == SkipSlash(q)
    ensures Components(SkipSlash(q)) == Components(q)
    ensures SkipSlash(q) == [] <==> Components(SkipSlash(q)) == []
  {
    hide Element;
    var r := SkipSlash(q);
    assert SkipSlash(r) == r;
    SameSkip(q, r);
    if r != [] { ElementNonEmpty(r); }
  }

  /** How one element moves the walk on. */
  lemma WalkStep(d: Disk, dir: Option<nat>, cur: nat, name: Name, rest: seq<Name>)
    ensures var w := WalkFrom(d, dir, cur, [name] + rest);
            && (|name| >= NAME_MAX ==> w == TooLong)
            && (|name| < NAME_MAX && cur < |d| ==>
                  && (!IsDir(d[cur]) ==> w == Gone)
                  && (IsDir(d[cur]) && LookupIn(d, cur, name) == None ==>
                        w == if rest == [] then Missing(cur, name) else Gone)
                  && (IsDir(d[cur]) && LookupIn(d, cur, name).Some? ==>
                        w == WalkFrom(d, Some(cur), LookupIn(d, cur, name).value, rest)))
  {
    hide LookupIn, IsDir;
    assert ([name] + rest)[1..] == rest;
  }

  /** A grown disk answers lookups like the original. */
  lemma GrownLookup(d: Disk, free: seq<bool>, roles: Roles, e: Disk, free': seq<bool>, roles': Roles, dir: nat,
        name: Name)
    requires Grown(d, free, roles, e, free', roles') && IsInode(roles, dir) && dir < |d|
    ensures dir < |e| && LookupIn(e, dir, name) == LookupIn(d, dir, name) && IsDir(e[dir]) == IsDir(d[dir])
  {
    hide FileBlock, EntryName, EntryInum, EntryCount, IsDir;
    SameLength(d, e, roles);
    SameEntries(d, e, roles, dir);
    EntryBound(d, dir);
    SameFind(d, e, dir, name, 0);
  }

  lemma RootBelow(fs: FileSystem, i: nat)
    requires Mounted(fs) && IsInode(fs.roles, i)
    ensures 0 < i < |fs.blocks|
  {
    InodeBelow(fs.blocks, fs.roles, i);
  }

  /** The status walk_path returns. */
  function StatusOf(w: Walk): Status {
    match w
    case Found(_, _) => Ok
    case Missing(_, _) => ENOENT
    case Gone => ENOENT
    case TooLong => EINVAL
  }

  /** What the caller may do with the result: the inode exists, or the parent is a directory that
      can take the missing name. */
  ghost predicate Usable(fs: FileSystem, w: Walk)
    reads fs
  {
    match w
    case Found(_, ino) => IsInode(fs.roles, ino)
    case Missing(parent, last) =>
      IsInode(fs.roles, parent) && parent < |fs.blocks| && IsDir(fs.blocks[parent]) && GoodName(last)
    case _ => true
  }

  /** `dent` is the entry that the walk found the file in, entry number `at` of its directory. */
  ghost predicate FoundIn(fs: FileSystem, w: Walk, dent: Dirent, at: nat)
    reads fs
  {
    w.Found? && w.dir.Some? ==> IsEntry(fs, w.dir.value, at, dent) && EntryInum(fs.blocks, w.dir.value, at) == w.ino
  }

  /** One element: the S_ISDIR and length checks, then the lookup. */
  method WalkOne(fs: FileSystem, cur: nat, name: Name) returns (r: Status, isDir: bool, ino: nat, dent: Dirent,
        ghost at: nat)
    requires Mounted(fs) && IsInode(fs.roles, cur) && name != [] && 0 !in name
    modifies fs, fs.bitmap.words
    ensures OnlyGrew(fs) && cur < |old(fs.blocks)| == |fs.blocks|
    ensures DirsMapped(old(fs.blocks), old(fs.roles)) ==> unchanged(fs) && unchanged(fs.bitmap.words) && r != ENOSPC
    ensures r == EINVAL <==> |name| >= NAME_MAX
    ensures isDir == IsDir(old(fs.blocks)[cur]) == IsDir(fs.blocks[cur])
    ensures r == Ok || r == EINVAL || r == ENOENT || (r == ENOSPC && Full(fs.Free()))
    ensures Spent(old(fs.Free()), old(fs.roles), fs.blocks, fs.Free(), fs.roles, StepWays(old(fs.blocks), cur, name),
                  r == ENOSPC)
    ensures r == ENOENT ==> !isDir || LookupIn(old(fs.blocks), cur, name) == None
    ensures r == Ok ==> isDir && LookupIn(old(fs.blocks), cur, name) == Some(ino)
                        && FoundIn(fs, Found(Some(cur), ino), dent, at) && IsInode(fs.roles, ino)
    ensures forall i :: IsInode(old(fs.roles), i) <==> IsInode(fs.roles, i)
  {
    hide Sound, TreeOk, DirOk, Home, FileBlock, Word, SizeOf, IsDir, Grown, SameContent, LookupIn, EntryName,
      EntryInum, EntryCount, Full, AllMapped, NamedOnce, Spent, SearchWays, Lacking, CountFree;
    RootBelow(fs, cur);
    GrownRefl(fs.blocks, fs.Free(), fs.roles);
    SpentNothing(fs.Free(), fs.roles, fs.blocks);
    ino, dent, at, isDir := 0, Dirent(0, 0), 0, IsDir(fs.blocks[cur]);
    if |name| >= NAME_MAX {
      return EINVAL, isDir, ino, dent, at;
    }
    if !isDir {
      return ENOENT, isDir, ino, dent, at;
    }
    r, ino, dent, at := DirLookup(fs, cur, name);
    GrownNames(old(fs.blocks), old(fs.Free()), old(fs.roles), fs.blocks, fs.Free(), fs.roles, cur);
  }

  /** One turn of the loop, seen from the disk `d` the walk started on. */
  method WalkTurn(fs: FileSystem, cur: nat, name: Name, ghost d: Disk, ghost free: seq<bool>, ghost roles: Roles,
        ghost dir: Option<nat>, ghost rest: seq<Name>, ghost ways: set<Role>)
    returns (r: Status, isDir: bool, ino: nat, dent: Dirent, ghost at: nat)
    requires Mounted(fs) && IsInode(fs.roles, cur) && name != [] && 0 !in name
    requires Grown(d, free, roles, fs.blocks, fs.Free(), fs.roles)
    requires WalkedTo(free, roles, fs.blocks, fs.Free(), fs.roles, ways, WalkWays(d, cur, [name] + rest))
    modifies fs, fs.bitmap.words
    ensures Mounted(fs) && Grown(d, free, roles, fs.blocks, fs.Free(), fs.roles)
    ensures DirsMapped(old(fs.blocks), old(fs.roles)) ==> unchanged(fs) && unchanged(fs.bitmap.words) && r != ENOSPC
    ensures r == Ok || r == EINVAL || r == ENOENT || (r == ENOSPC && Full(fs.Free()))
    ensures if r == Ok then WalkedTo(free, roles, fs.blocks, fs.Free(), fs.roles, ways, WalkWays(d, ino, rest))
            else Spent(free, roles, fs.blocks, fs.Free(), fs.roles, ways, r == ENOSPC)
    ensures var whole := WalkFrom(d, dir, cur, [name] + rest);
            && (r == EINVAL ==> whole == TooLong)
            && (r == ENOENT ==> whole == (if isDir && rest == [] then Missing(cur, name) else Gone)
                                && Usable(fs, whole))
            && (r == Ok ==> whole == WalkFrom(d, Some(cur), ino, rest) && IsInode(fs.roles, ino)
                            && FoundIn(fs, Found(Some(cur), ino), dent, at))
  {
    hide Sound, TreeOk, DirOk, Home, FileBlock, Word, SizeOf, IsDir, Grown, LookupIn, WalkFrom, EntryName, EntryInum,
      EntryCount, Full, FoundIn, DirsMapped, NamedOnce, Spent, StepWays, WalkWays, WalkedTo;
    ghost var e, free1, roles1 := fs.blocks, fs.Free(), fs.roles;
    r, isDir, ino, dent, at := WalkOne(fs, cur, name);
    GrownTransitive(d, free, roles, e, free1, roles1, fs.blocks, fs.Free(), fs.roles);
    GrownInode(d, free, roles, e, free1, roles1, cur);
    GrownLookup(d, free, roles, e, free1, roles1, cur, name);
    WalkStep(d, dir, cur, name, rest);
    GrownStep(d, free, roles, e, free1, roles1, cur, name);
    TurnCost(d, free, roles, e, free1, roles1, fs.blocks, fs.Free(), fs.roles, cur, name, rest, ways, r, ino);
  }

  lemma GrownStep(d: Disk, free: seq<bool>, roles: Roles, e: Disk, free': seq<bool>, roles': Roles, cur: nat,
        name: Name)
    requires Grown(d, free, roles, e, free', roles') && IsInode(roles, cur) && cur < |d|
    ensures StepWays(e, cur, name) == StepWays(d, cur, name)
  {
    hide SearchWays, IsDir, SizeOf, SameContent, Home, SameNames, OthersSame, Grown;
    GrownNames(d, free, roles, e, free', roles', cur);
    assert SameContent(d, e, roles) by { GrownContent(d, free, roles, e, free', roles'); }
    SameSearch(d, e, roles, cur, name);
  }

  lemma GrownContent(d: Disk, free: seq<bool>, roles: Roles, e: Disk, free': seq<bool>, roles': Roles)
    requires Grown(d, free, roles, e, free', roles')
    ensures SameContent(d, e, roles) && Extends(roles, roles') && forall i :: IsInode(roles, i) <==> IsInode(roles', i)
  {
    hide SameContent, Home;
  }

  /** The cost of one turn within that of the walk. */
  lemma TurnCost(d: Disk, free: seq<bool>, roles: Roles, e: Disk, free1: seq<bool>, roles1: Roles, f: Disk,
        free2: seq<bool>, roles2: Roles, cur: nat, name: Name, rest: seq<Name>, ways: set<Role>, r: Status, ino: nat)
    requires cur < |d| && StepWays(e, cur, name) == StepWays(d, cur, name)
    requires r == Ok || r == EINVAL || r == ENOENT || r == ENOSPC
    requires r == EINVAL <==> |name| >= NAME_MAX
    requires r == ENOENT ==> !IsDir(d[cur]) || LookupIn(d, cur, name) == None
    requires r == Ok ==> IsDir(d[cur]) && LookupIn(d, cur, name) == Some(ino)
    requires Spent(free1, roles1, f, free2, roles2, StepWays(e, cur, name), r == ENOSPC)
    requires WalkedTo(free, roles, e, free1, roles1, ways, WalkWays(d, cur, [name] + rest))
    requires Grown(e, free1, roles1, f, free2, roles2)
    ensures if r == Ok then WalkedTo(free, roles, f, free2, roles2, ways, WalkWays(d, ino, rest))
            else Spent(free, roles, f, free2, roles2, ways, r == ENOSPC)
  {
    hide Spent, StepWays, WalkWays, WalkedTo, Grown, LookupIn, IsDir;
    WalkWaysStep(d, cur, name, rest);
    var step := StepWays(d, cur, name);
    var left := WalkWays(d, cur, [name] + rest);
    var next := if r == Ok then WalkWays(d, ino, rest) else if r == ENOSPC then left else {};
    assert left == step + next by {
      if r == ENOSPC { StepWithin(d, cur, name, rest); } else if r != Ok { assert step + {} == step; }
    }
    WalkedTurn(free, roles, e, free1, roles1, f, free2, roles2, ways, left, step, next, r == ENOSPC);
    if r == EINVAL || r == ENOENT { WalkEnds(free, roles, f, free2, roles2, ways); }
  }

  lemma StepWithin(d: Disk, cur: nat, name: Name, rest: seq<Name>)
    ensures WalkWays(d, cur, [name] + rest) == StepWays(d, cur, name) + WalkWays(d, cur, [name] + rest)
  {
    hide StepWays, LookupIn, IsDir;
    assert ([name] + rest)[0] == name;
  }

  /** walk_path agrees with the fold of lookup over the path's components, and reports the parent
      and the last name exactly when only the final component is missing from a directory. */
  method WalkPath(fs: FileSystem, path: seq<Byte>) returns (r: Status, w: Walk, dent: Dirent, ghost at: nat)
    requires Mounted(fs) && 0 !in path
    modifies fs, fs.bitmap.words
    ensures OnlyGrew(fs) && (r == ENAMETOOLONG <==> |path| >= PATH_MAX) && (r == ENOSPC ==> Full(fs.Free()))
    ensures DirsMapped(old(fs.blocks), old(fs.roles)) ==> unchanged(fs) && unchanged(fs.bitmap.words) && r != ENOSPC
    ensures if r == ENAMETOOLONG then unchanged(fs) && unchanged(fs.bitmap.words)
            else PathSpent(old(fs.blocks), old(fs.Free()), old(fs.roles), fs.blocks, fs.Free(), fs.roles, fs.root,
                           Components(path), r == ENOSPC)
    ensures r != ENAMETOOLONG && r != ENOSPC ==>
              w == WalkFrom(old(fs.blocks), None, fs.root, Components(path)) && r == StatusOf(w) && Usable(fs, w)
              && FoundIn(fs, w, dent, at)
  {
    hide Sound, TreeOk, Grown, WalkFrom, ComponentsAt, Components, Home, FileBlock, LookupIn, IsDir, IsEntry,
      EntryInum, Full, DirsMapped, NamedOnce, Spent, WalkWays, WalkedTo, PathSpent, Places, AllNonEmpty;
    ghost var d, free, roles := fs.blocks, fs.Free(), fs.roles;
    GrownRefl(d, free, roles);
    dent, at := Dirent(0, 0), 0;
    if |path| >= PATH_MAX {
      return ENAMETOOLONG, Gone, dent, at;
    }
    ghost var whole := WalkFrom(d, None, fs.root, Components(path));
    var dir: Option<nat>, ino: nat := None, fs.root;
    var i := FirstElement(path);
    ghost var ways := WalkWays(d, fs.root, Components(path));
    ComponentsNonEmpty(path);
    WalkPlaces(d, roles, fs.root, Components(path));
    WalkStarts(free, roles, d, ways);
    while i < |path|
      invariant i <= |path| && (i < |path| ==> path[i] != SLASH)
      invariant Mounted(fs) && IsInode(fs.roles, ino) && Grown(d, free, roles, fs.blocks, fs.Free(), fs.roles)
      invariant DirsMapped(d, roles) ==> unchanged(fs) && unchanged(fs.bitmap.words)
      invariant WalkedTo(free, roles, fs.blocks, fs.Free(), fs.roles, ways, WalkWays(d, ino, ComponentsAt(path, i)))
      invariant whole == WalkFrom(d, dir, ino, ComponentsAt(path, i)) && FoundIn(fs, Found(dir, ino), dent, at)
      decreases |path| - i
    {
      var cur, name, isDir := ino, [], false;
      name, i := NextElement(path, i);
      r, isDir, ino, dent, at := WalkTurn(fs, cur, name, d, free, roles, dir, ComponentsAt(path, i), ways);
      if r != Ok { PathCost(d, free, roles, fs.blocks, fs.Free(), fs.roles, fs.root, Components(path), r == ENOSPC); }
      if r == EINVAL {
        return r, TooLong, dent, at;
      } else if r == ENOENT {
        return r, if isDir && i == |path| then Missing(cur, name) else Gone, dent, at;
      } else if r != Ok {
        return r, Gone, dent, at;
      }
      dir := Some(cur);
    }
    NoComponents(path);
    WalkEnd(d, dir, ino);
    WalkEnds(free, roles, fs.blocks, fs.Free(), fs.roles, ways);
    PathCost(d, free, roles, fs.blocks, fs.Free(), fs.roles, fs.root, Components(path), false);
    return Ok, Found(dir, ino), dent, at;
  }

  /** The walk took only places of the directory blocks it searched, and failed exactly when there
      were too few free blocks for them. */
  ghost predicate PathSpent(d: Disk, free: seq<bool>, roles: Roles, e: Disk, free': seq<bool>, roles': Roles, root: nat,
        names: seq<Name>, failed: bool) {
    && Spent(free, roles, e, free', roles', WalkWays(d, root, names), failed)
    && (failed <==> |Lacking(d, WalkWays(d, root, names))| > CountFree(free))
  }

  lemma PathCost(d: Disk, free: seq<bool>, roles: Roles, e: Disk, free': seq<bool>, roles': Roles, root: nat,
        names: seq<Name>, failed: bool)
    requires TreeOk(d, roles) && IsInode(roles, root) && AllNonEmpty(names)
    requires Spent(free, roles, e, free', roles', WalkWays(d, root, names), failed)
    requires Sound(d, free, roles) && Sound(e, free', roles')
    ensures PathSpent(d, free, roles, e, free', roles', root, names, failed)
  {
    hide TreeOk, Sound, Spent, WalkWays, Lacking, CountFree, Places, AllNonEmpty;
    WalkPlaces(d, roles, root, names);
    SpentExactly(d, free, roles, e, free', roles', WalkWays(d, root, names), failed);
  }

  lemma GrownInode(d: Disk, free: seq<bool>, roles: Roles, e: Disk, free': seq<bool>, roles': Roles, i: nat)
    requires Grown(d, free, roles, e, free', roles') && IsInode(roles', i) && i < |e|
    ensures IsInode(roles, i) && i < |d|
  {
    hide SameContent;
    SameLength(d, e, roles);
  }

  lemma WalkEnd(d: Disk, dir: Option<nat>, cur: nat)
    ensures WalkFrom(d, dir, cur, []) == Found(dir, cur) && WalkWays(d, cur, []) == {}
  {
  }

  // ----- inode_create

  /** What a failing inode_create leaves: the same names and inodes, and no file reads differently;
      when only the last name was missing, the parent directory may be a block longer. */
  ghost predicate NothingCreated(d: Disk, e: Disk, roles: Roles, roles': Roles, w: Walk) {
    && SameNames(d, e, roles) && (forall i :: IsInode(roles, i) <==> IsInode(roles', i))
    && if w.Missing? then Longer(d, e, roles, w.parent) else SameContent(d, e, roles)
  }

  /** One new name bound to one new inode, to which the path then leads. */
  ghost predicate FileCreated(d: Disk, e: Disk, roles: Roles, roles': Roles, root: nat, names: seq<Name>, ino: nat) {
    var w := WalkFrom(d, None, root, names);
    && w.Missing? && Created(d, e, roles, roles', w.parent, w.last, ino)
    && WalkFrom(e, None, root, names) == Found(Some(w.parent), ino) && w.parent < |e| && IsDir(e[w.parent])
  }

  /** The free blocks that inode_create needs: those missing on its way, and the new inode. */
  ghost function CreateCost(d: Disk, root: nat, names: seq<Name>): nat {
    |Lacking(d, CreateWays(d, root, names))| + if WalkFrom(d, None, root, names).Missing? then 1 else 0
  }

  /** inode_create took only places on its way and the new inode's block. */
  ghost predicate CreateTook(d: Disk, roles: Roles, roles': Roles, root: nat, names: seq<Name>, r: Status, ino: nat) {
    && Extends(roles, roles')
    && forall b :: b in roles' && b !in roles ==> roles'[b] in CreateWays(d, root, names) || (r == Ok && b == ino)
  }

  /** Every directory stays allocated, except after an extension that failed. */
  ghost predicate CreateKeepsDirs(d: Disk, e: Disk, roles: Roles, roles': Roles, w: Walk, r: Status) {
    DirsMapped(d, roles) ==>
      DirsMapped(e, roles') || (r == ENOSPC && w.Missing? && HalfExtended(d, e, w.parent))
  }

  /** inode_create. On success exactly one name appears, bound to a new inode in a cleared block, and
      the path leads there; on any failure no name appears or disappears and no file reads
      differently, the parent directory being at most a block longer. */
  method CreateInode(fs: FileSystem, path: seq<Byte>) returns (r: Status, ino: nat)
    requires Mounted(fs) && 0 !in path
    modifies fs, fs.bitmap.words
    ensures Mounted(fs) && (r == ENAMETOOLONG <==> |path| >= PATH_MAX) && (r == ENOSPC ==> Full(fs.Free()))
    ensures r == ENAMETOOLONG ==> unchanged(fs) && unchanged(fs.bitmap.words)
    ensures var w := WalkFrom(old(fs.blocks), None, fs.root, Components(path));
            && (r == EEXIST ==> w.Found?) && (r == ENOENT ==> w == Gone) && (r == EINVAL ==> w == TooLong)
            && CreateKeepsDirs(old(fs.blocks), fs.blocks, old(fs.roles), fs.roles, w, r)
            && (r != Ok ==> NothingCreated(old(fs.blocks), fs.blocks, old(fs.roles), fs.roles, w))
    ensures r == Ok ==> FileCreated(old(fs.blocks), fs.blocks, old(fs.roles), fs.roles, fs.root, Components(path), ino)
    ensures r == Ok || r == EEXIST || r == ENOENT || r == EINVAL || r == ENAMETOOLONG || r == ENOSPC
    ensures r != ENAMETOOLONG ==>
              (r == ENOSPC <==> CreateCost(old(fs.blocks), fs.root, Components(path)) > CountFree(old(fs.Free())))
    ensures r == ENOSPC && DirsMapped(old(fs.blocks), old(fs.roles)) ==>
              WalkFrom(old(fs.blocks), None, fs.root, Components(path)).Missing?
    ensures CreateTook(old(fs.blocks), old(fs.roles), fs.roles, fs.root, Components(path), r, ino)
  {
    hide Sound, TreeOk, Grown, WalkFrom, Components, Home, FileBlock, LookupIn, IsDir, SizeOf, SameContent, NamedOnce,
      AllNonEmpty, Full, Lacking, CountFree, DirsMapped, PathSpent, NothingCreated, FileCreated, CreateCost,
      CreateTook, CreateKeepsDirs;
    ghost var d, free, roles, names := fs.blocks, fs.Free(), fs.roles, Components(path);
    ghost var whole := WalkFrom(d, None, fs.root, names);
    ComponentsNonEmpty(path);
    WalkMissing(d, roles, None, fs.root, names);
    var w, dent;
    ghost var at;
    r, w, dent, at := WalkPath(fs, path);
    if r == ENAMETOOLONG {
      UnchangedCreates(d, free, roles, whole, fs.root, names);
      return r, 0;
    }
    WalkCreates(d, free, roles, fs.blocks, fs.Free(), fs.roles, fs.root, names, r == ENOSPC);
    if r == Ok {
      return EEXIST, 0;
    }
    if r != ENOENT || !w.Missing? {
      return r, 0;
    }
    r, ino := AddName(fs, w.parent, w.last, names, d, free, roles);
  }

  /** A walk alone creates nothing. */
  lemma WalkCreates(d: Disk, free: seq<bool>, roles: Roles, e: Disk, free': seq<bool>, roles': Roles, root: nat,
        names: seq<Name>, failed: bool)
    requires var w := WalkFrom(d, None, root, names); w.Missing? ==> IsInode(roles, w.parent) && w.parent < |d|
    requires Grown(d, free, roles, e, free', roles') && PathSpent(d, free, roles, e, free', roles', root, names, failed)
    ensures var w := WalkFrom(d, None, root, names);
            NothingCreated(d, e, roles, roles', w) && forall r: Status :: CreateKeepsDirs(d, e, roles, roles', w, r)
    ensures forall r: Status, ino: nat :: CreateTook(d, roles, roles', root, names, r, ino)
    ensures failed ==> CreateCost(d, root, names) > CountFree(free)
    ensures !failed && !WalkFrom(d, None, root, names).Missing? ==> CreateCost(d, root, names) <= CountFree(free)
  {
    hide WalkFrom, WalkWays, EntryWays, Longer, SameContent, SameNames, Home, CountFree, Lacking, Full, DirsMapped,
      Unplaced, Grown;
    var w, ways, all := WalkFrom(d, None, root, names), WalkWays(d, root, names), CreateWays(d, root, names);
    GrownContent(d, free, roles, e, free', roles');
    SameContentNames(d, e, roles);
    if w.Missing? { SameContentLonger(d, e, roles, w.parent); }
    if DirsMapped(d, roles) { GrownDirs(d, free, roles, e, free', roles'); }
    LackingMore(d, ways, all);
    if !w.Missing? { assert all == ways; }
  }

  lemma UnchangedCreates(d: Disk, free: seq<bool>, roles: Roles, w: Walk, root: nat, names: seq<Name>)
    requires w.Missing? ==> IsInode(roles, w.parent) && w.parent < |d|
    ensures NothingCreated(d, d, roles, roles, w) && CreateTook(d, roles, roles, root, names, ENAMETOOLONG, 0)
    ensures CreateKeepsDirs(d, d, roles, roles, w, ENAMETOOLONG)
  {
    hide FileBlock, Attributes, SizeOf, IsDir, Binds, DirsMapped;
  }

  /** The rest of inode_create once the parent directory is known: entry, inode, name. */
  method AddName(fs: FileSystem, dir: nat, last: Name, ghost names: seq<Name>, ghost d: Disk, ghost free: seq<bool>,
        ghost roles: Roles) returns (r: Status, ino: nat)
    requires Mounted(fs) && Sound(d, free, roles) && TreeOk(d, roles) && AllNonEmpty(names) && IsInode(roles, fs.root)
    requires WalkFrom(d, None, fs.root, names) == Missing(dir, last) && GoodName(last)
    requires IsInode(roles, dir) && dir < |d| && IsDir(d[dir]) && LookupIn(d, dir, last) == None
    requires Grown(d, free, roles, fs.blocks, fs.Free(), fs.roles)
    requires PathSpent(d, free, roles, fs.blocks, fs.Free(), fs.roles, fs.root, names, false)
    modifies fs, fs.bitmap.words
    ensures Mounted(fs) && (r == Ok || (r == ENOSPC && Full(fs.Free())))
    ensures CreateKeepsDirs(d, fs.blocks, roles, fs.roles, Missing(dir, last), r)
    ensures r != Ok ==> NothingCreated(d, fs.blocks, roles, fs.roles, Missing(dir, last))
    ensures r == Ok ==> FileCreated(d, fs.blocks, roles, fs.roles, fs.root, names, ino)
    ensures r == ENOSPC <==> CreateCost(d, fs.root, names) > CountFree(free)
    ensures CreateTook(d, roles, fs.roles, fs.root, names, r, ino)
  {
    hide Sound, TreeOk, Grown, WalkFrom, Home, FileBlock, LookupIn, IsDir, SizeOf, Word, PutDirent, SameContent,
      NamedOnce, AllNonEmpty, Lacking, CountFree, DirsMapped, PathSpent, NothingCreated, FileCreated, CreateCost,
      CreateTook, CreateKeepsDirs, EntrySpent, SameNames, OthersSame, Longer, HalfExtended, Created;
    ghost var e, free1, roles1 := fs.blocks, fs.Free(), fs.roles;
    GrownDir(d, free, roles, e, free1, roles1, dir);
    var dent;
    ghost var at;
    r, dent, at := DirAllocDirent(fs, dir);
    ghost var f, free2, roles2 := fs.blocks, fs.Free(), fs.roles;
    AllocCompose(d, free, roles, e, free1, roles1, f, dir);
    EntryCreates(d, free, roles, e, free1, roles1, f, free2, roles2, fs.root, names, dir, last, r == ENOSPC);
    if r != Ok {
      return r, 0;
    }
    var got := fs.bitmap.AllocBlock();
    if got.None? {
      FullCount(free2);
      return ENOSPC, 0;
    }
    ino := got.value;
    FullCount(free2);
    FreeUnused(f, free2, roles2, ino);
    ghost var roles3 := roles2[ino := Inode(ino)];
    NameAdded(d, roles, f, free2, roles2, dir, at, dent.block, last, ino, roles3, fs.root);
    fs.blocks := fs.blocks[ino := ZeroBlock()];
    fs.blocks := fs.blocks[dent.block := PutDirent(fs.blocks[dent.block], dent.index, last, ino)];
    fs.roles := roles3;
    NameCreates(d, free, roles, f, free2, roles2, fs.blocks, fs.Free(), roles3, fs.root, names, dir, last, ino);
  }

  /** Finding or making the entry, after the walk. */
  lemma EntryCreates(d: Disk, free: seq<bool>, roles: Roles, e: Disk, free1: seq<bool>, roles1: Roles, f: Disk,
        free2: seq<bool>, roles2: Roles, root: nat, names: seq<Name>, dir: nat, last: Name, failed: bool)
    requires WalkFrom(d, None, root, names) == Missing(dir, last) && AllNonEmpty(names)
    requires IsInode(roles, root) && IsInode(roles, dir) && dir < |d| && TreeOk(d, roles)
    requires SameNames(d, f, roles) && Longer(d, f, roles, dir)
    requires forall i :: IsInode(roles1, i) <==> IsInode(roles2, i)
    requires DirsMapped(e, roles1) ==> if failed then HalfExtended(e, f, dir) else DirsMapped(f, roles2)
    requires PathSpent(d, free, roles, e, free1, roles1, root, names, false)
    requires EntrySpent(e, free1, roles1, f, free2, roles2, dir, failed)
    requires Grown(d, free, roles, e, free1, roles1)
    requires Sound(d, free, roles) && Sound(e, free1, roles1) && Sound(f, free2, roles2)
    ensures NothingCreated(d, f, roles, roles2, Missing(dir, last))
    ensures if failed then CreateCost(d, root, names) > CountFree(free)
            else CountFree(free2) == CountFree(free) + 1 - CreateCost(d, root, names)
    ensures CreateKeepsDirs(d, f, roles, roles2, Missing(dir, last), ENOSPC)
    ensures !failed && DirsMapped(d, roles) ==> DirsMapped(f, roles2)
    ensures forall r: Status, ino: nat :: CreateTook(d, roles, roles2, root, names, r, ino)
  {
    hide WalkFrom, AllNonEmpty, TreeOk, SameNames, Longer, DirsMapped, HalfExtended, PathSpent, EntrySpent, Grown,
      Sound, CreateCost, CountFree, CreateTook;
    GrownContent(d, free, roles, e, free1, roles1);
    GrownDir(d, free, roles, e, free1, roles1, dir);
    EntryCostAll(d, free, roles, e, free1, roles1, f, free2, roles2, root, names, dir, last, failed);
    if failed && DirsMapped(d, roles) { SameHalf(d, e, f, roles, dir); }
  }

  lemma SameHalf(d: Disk, e: Disk, f: Disk, roles: Roles, dir: nat)
    requires SameContent(d, e, roles) && IsInode(roles, dir) && dir < |d| && HalfExtended(e, f, dir)
    ensures HalfExtended(d, f, dir)
  {
    hide FileBlock, SizeOf, Attributes, Home;
    AttributesDetermine(d[dir], e[dir]);
  }

  lemma EntryCostAll(d: Disk, free: seq<bool>, roles: Roles, e: Disk, free1: seq<bool>, roles1: Roles, f: Disk,
        free2: seq<bool>, roles2: Roles, root: nat, names: seq<Name>, dir: nat, last: Name, failed: bool)
    requires WalkFrom(d, None, root, names) == Missing(dir, last) && AllNonEmpty(names)
    requires IsInode(roles, root) && IsInode(roles, dir) && dir < |d| && TreeOk(d, roles)
    requires PathSpent(d, free, roles, e, free1, roles1, root, names, false)
    requires EntrySpent(e, free1, roles1, f, free2, roles2, dir, failed)
    requires SameContent(d, e, roles) && Extends(roles, roles1)
    requires Sound(d, free, roles) && Sound(e, free1, roles1) && Sound(f, free2, roles2)
    ensures if failed then CreateCost(d, root, names) > CountFree(free)
            else CountFree(free2) == CountFree(free) + 1 - CreateCost(d, root, names)
    ensures forall r: Status, ino: nat :: CreateTook(d, roles, roles2, root, names, r, ino)
  {
    hide WalkFrom, AllNonEmpty, TreeOk, SameContent, Sound, CountFree, WalkWays, EntryWays, Spent, Lacking, Places,
      Home;
    var ways, more := WalkWays(d, root, names), EntryWays(d, dir);
    var all := ways + more;
    assert CreateWays(d, root, names) == all;
    SameEntryWays(d, e, roles, dir);
    WalkPlaces(d, roles, root, names);
    EntryPlaces(d, roles, dir);
    AllPlaces(roles, roles1, ways, more);
    SpentExtends(free1, roles1, f, free2, roles2, more, failed);
    HomesKept(e, free1, roles1, f, free2, roles2);
    SpentBoth(free, roles, e, free1, roles1, f, free2, roles2, ways, more, all, failed);
    SpentExtends(free, roles, f, free2, roles2, all, failed);
    SpentExactly(d, free, roles, f, free2, roles2, all, failed);
    if !failed { SpentCount(d, free, roles, f, free2, roles2, all); }
  }

  lemma AllPlaces(roles: Roles, roles1: Roles, ways: set<Role>, more: set<Role>)
    requires Places(roles, ways) && Places(roles, more) && Extends(roles, roles1)
    ensures Places(roles, ways + more) && Places(roles1, ways)
  {
  }

  lemma SpentExtends(free: seq<bool>, roles: Roles, e: Disk, free': seq<bool>, roles': Roles, ways: set<Role>,
        failed: bool)
    requires Spent(free, roles, e, free', roles', ways, failed)
    ensures Extends(roles, roles') && forall b :: b in roles' && b !in roles ==> roles'[b] in ways
  {
    hide CountFree, Unplaced, Full, Lacking;
  }

  lemma FreeUnused(d: Disk, free: seq<bool>, roles: Roles, b: nat)
    requires Sound(d, free, roles) && b < |d| && free[b]
    ensures b !in roles
  {
    hide Home, Word;
  }

  /** The new inode is no directory, and no directory block moves. */
  lemma InodeKeepsDirs(f: Disk, free: seq<bool>, roles: Roles, g: Disk, free': seq<bool>, ino: nat, roles': Roles)
    requires ino !in roles && roles' == roles[ino := Inode(ino)] && ino < |g| == |f| && !IsDir(g[ino])
    requires forall i: nat :: IsInode(roles, i) && i < |f| ==> g[i] == f[i]
    requires Sound(f, free, roles) && Sound(g, free', roles')
    ensures DirsMapped(f, roles) ==> DirsMapped(g, roles')
  {
    hide Sound, Home, IsDir, SizeOf, DirsMapped;
    HomesKept(f, free, roles, g, free', roles');
    if DirsMapped(f, roles) { DirsStayMapped(f, g, roles, roles'); }
  }

  /** What the new inode completes. */
  lemma NameCreates(d: Disk, free: seq<bool>, roles: Roles, f: Disk, free2: seq<bool>, roles2: Roles, g: Disk,
        free3: seq<bool>, roles3: Roles, root: nat, names: seq<Name>, dir: nat, last: Name, ino: nat)
    requires IsInode(roles, root) && AllNonEmpty(names) && dir < |d| && dir < |g| && IsDir(d[dir]) && IsDir(g[dir])
    requires WalkFrom(d, None, root, names) == Missing(dir, last) && Created(d, g, roles, roles3, dir, last, ino)
    requires ino !in roles2 && roles3 == roles2[ino := Inode(ino)] && |g| == |f|
    requires forall i: nat :: IsInode(roles2, i) && i < |f| ==> g[i] == f[i]
    requires forall r: Status, i: nat :: CreateTook(d, roles, roles2, root, names, r, i)
    requires DirsMapped(d, roles) ==> DirsMapped(f, roles2)
    requires TreeOk(d, roles) && TreeOk(g, roles3) && Sound(f, free2, roles2) && Sound(g, free3, roles3)
    ensures FileCreated(d, g, roles, roles3, root, names, ino) && CreateTook(d, roles, roles3, root, names, Ok, ino)
    ensures CreateKeepsDirs(d, g, roles, roles3, Missing(dir, last), Ok)
  {
    hide TreeOk, Sound, Home, IsDir, SizeOf, DirsMapped, WalkFrom, CreateWays, AllNonEmpty, HalfExtended;
    assert CreateTook(d, roles, roles2, root, names, Ok, ino);
    assert ino < |g| && !IsDir(g[ino]) by { NewIsFile(d, g, roles, roles3, dir, last, ino); }
    hide Created;
    CreatedIsFound(d, g, roles, roles3, dir, last, ino, root, names);
    InodeKeepsDirs(f, free2, roles2, g, free3, ino, roles3);
  }

  lemma NewIsFile(d: Disk, g: Disk, roles: Roles, roles3: Roles, dir: nat, last: Name, ino: nat)
    requires Created(d, g, roles, roles3, dir, last, ino)
    ensures ino < |g| && !IsDir(g[ino])
  {
    hide FileBlock, Bound, OthersSame;
    ZeroWord(MODE);
  }

  lemma {:induction false} WalkMissing(d: Disk, roles: Roles, dir: Option<nat>, cur: nat, names: seq<Name>)
    requires TreeOk(d, roles) && IsInode(roles, cur) && AllNonEmpty(names)
    ensures var w := WalkFrom(d, dir, cur, names);
            w.Missing? ==> w.parent < |d| && IsDir(d[w.parent]) && LookupIn(d, w.parent, w.last) == None
                           && IsInode(roles, w.parent)
    decreases |names|
  {
    hide IsDir, LookupIn, DirOk;
    if names != [] && cur < |d| && IsDir(d[cur]) && LookupIn(d, cur, names[0]).Some? {
      LookupLive(d, roles, cur, names[0]);
      WalkMissing(d, roles, Some(cur), LookupIn(d, cur, names[0]).value, names[1..]);
    }
  }

  lemma AllocCompose(d: Disk, free: seq<bool>, roles: Roles, e: Disk, free1: seq<bool>, roles1: Roles, f: Disk,
        dir: nat)
    requires Grown(d, free, roles, e, free1, roles1) && IsInode(roles, dir) && dir < |d|
    requires SameNames(e, f, roles1) && Longer(e, f, roles1, dir)
    ensures SameNames(d, f, roles) && OthersSame(d, f, roles, dir) && Longer(d, f, roles, dir)
  {
    hide FileBlock, IsDir, SizeOf, Attributes, SameNames, OthersSame;
    GrownNames(d, free, roles, e, free1, roles1, dir);
    NamesCompose(d, e, f, roles, roles1, dir);
  }

  lemma CreatedIsFound(d: Disk, e: Disk, roles: Roles, roles': Roles, parent: nat, last: Name, ino: nat, root: nat,
        names: seq<Name>)
    requires TreeOk(d, roles) && TreeOk(e, roles') && Created(d, e, roles, roles', parent, last, ino)
    requires IsInode(roles, root) && AllNonEmpty(names)
    requires parent < |d| && parent < |e| && IsDir(d[parent]) == IsDir(e[parent])
    requires WalkFrom(d, None, root, names) == Missing(parent, last)
    ensures WalkFrom(e, None, root, names) == Found(Some(parent), ino)
  {
    hide FileBlock, IsDir, SizeOf, Attributes, WalkFrom, TreeOk, Bound;
    WalkAfterBound(d, e, roles, roles', parent, last, ino, None, root, names);
  }
}
