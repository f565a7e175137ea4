/**
  Formatting a disk and mounting it: every block of the image has exactly one role, the bitmap
  agrees, and each file is found under its name with exactly its bytes.
 */
module Image {
  import opened CInts
  import opened Util
  import opened Blocks
  import opened Volume
  import opened Files
  import opened Directory
  import opened DirectoryCode
  import opened Format
  import opened InodeCode

  /** A file named on the command line. */
  datatype File = File(path: seq<Byte>, data: seq<Byte>)

  function Names(args: seq<File>): (r: seq<Name>)
    ensures |r| == |args| && forall m :: 0 <= m < |r| ==> r[m] == BaseName(args[m].path)
  {
    if args == [] then [] else Names(args[..|args| - 1]) + [BaseName(args[|args| - 1].path)]
  }

  function Contents(args: seq<File>): (r: seq<seq<Byte>>)
    ensures |r| == |args| && forall m :: 0 <= m < |r| ==> r[m] == args[m].data
  {
    if args == [] then [] else Contents(args[..|args| - 1]) + [args[|args| - 1].data]
  }

  /** At most 127 files with usable base names and sizes that fit in 32 bits. */
  predicate ArgsOk(args: seq<File>) {
    && |args| < MAX_DIR_ENTS
    && forall m :: 0 <= m < |args| ==> GoodName(BaseName(args[m].path)) && |args[m].data| + BLKSIZE <= TWO32
  }

  ghost predicate Distinct(names: seq<Name>) { forall l, m :: 0 <= l < m < |names| ==> names[l] != names[m] }

  /** Blocks of these files with their inodes. */
  function FilesCost(files: seq<seq<Byte>>): nat {
    if files == [] then 0 else FilesCost(files[..|files| - 1]) + 1 + FileCost(|files[|files| - 1]|)
  }

  /** Blocks of an image with these files: superblock, bitmap and root inode, the files, and the
      blocks of the root directory. */
  function Needed(nblocks: nat, files: seq<seq<Byte>>): nat {
    2 + BitmapBlocks(nblocks) + FilesCost(files) + FileCost(|files| * DIRENT)
  }

  lemma {:induction false} PrefixCost(args: seq<File>, k: nat)
    requires k <= |args|
    ensures FilesCost(Contents(args[..k])) <= FilesCost(Contents(args))
    decreases |args|
  {
    hide FileCost;
    if k < |args| {
      var shorter := args[..|args| - 1];
      PrefixCost(shorter, k);
      assert shorter[..k] == args[..k];
      var files, last := Contents(shorter), args[|args| - 1].data;
      assert Contents(args) == files + [last];
      assert (files + [last])[..|files|] == files;
    } else {
      assert args[..k] == args;
    }
  }

  /** A finished image: each block below `pos` has exactly one role and is referenced from exactly
      the place that role names, every inode but the root belongs to one listed file,
      block_is_free holds exactly from `pos` on, and the root directory lists the files. */
  ghost predicate Formatted(d: Disk, free: seq<bool>, roles: Roles, root: nat, nblocks: nat, pos: nat,
        ents: seq<Block>, names: seq<Name>, files: seq<seq<Byte>>) {
    && |d| == nblocks && nblocks * BLKSIZE < TWO32 && Sound(d, free, roles) && UsedBelow(d, roles, pos) && pos < nblocks
    && (forall b :: 0 <= b < nblocks ==> (free[b] <==> pos <= b))
    && RootDone(d, roles, root, nblocks, ents, |names|) && FilesAre(d, roles, root, ents, names, files)
    && OnlyFiles(roles, root, ents, |names|)
  }

  /** main() of fsformat; false means it panicked, which it does exactly when the image needs all
      blocks of the disk or more. */
  method FormatDisk(nblocks: nat, args: seq<File>, ents: seq<Block>) returns (ok: bool, f: Formatter)
    requires 2 <= nblocks && nblocks * BLKSIZE < TWO32 && ArgsOk(args) && |ents| == 4
    ensures ok <==> Needed(nblocks, Contents(args)) < nblocks
    ensures ok ==> fresh(f) && fresh(f.bitmap) && fresh(f.bitmap.words)
    ensures ok ==> f.bitmap.Valid() && f.bitmap.nblocks == nblocks && f.Pos() == Needed(nblocks, Contents(args))
    ensures ok ==> Formatted(f.blocks, f.bitmap.Free(), f.roles, f.root, nblocks, f.Pos(), f.ents, Names(args),
                             Contents(args))
  {
    hide Names, Contents, BaseName, Graph, FilesAre, RootDone, AllHeld, OnlyFiles, FileCost, BitmapBlocks, FilesCost,
      Sound, UsedBelow, IsInode, Formatted, Needed, ArgsOk;
    FirstCost(nblocks, args);
    f := new Formatter(nblocks, ents);
    ok := f.OpenDisk();
    if !ok {
      return;
    }
    NoArgs();
    assert args[..0] == [];
    var i := 0;
    while i < |args|
      invariant 0 <= i <= |args| && ok && f.InProgress(Names(args[..i]), Contents(args[..i]))
      invariant fresh(f) && fresh(f.bitmap) && fresh(f.bitmap.words) && f.nblocks == nblocks
      invariant f.Pos() == 2 + BitmapBlocks(nblocks) + FilesCost(Contents(args[..i])) < nblocks
    {
      OneMoreArg(args, i);
      OneMoreCost(args, i);
      ok := f.WriteInode(args[i].path, args[i].data, Names(args[..i]), Contents(args[..i]));
      if !ok {
        return;
      }
      i := i + 1;
    }
    assert args[..i] == args;
    ok := f.FinishIDir(Names(args), Contents(args));
    if !ok {
      return;
    }
    f.FinishDisk();
    ImageDone(f.blocks, f.bitmap.Free(), f.roles, f.root, nblocks, f.Pos(), f.ents, Names(args), Contents(args));
  }

  /** The cost of an image in parts. */
  lemma FirstCost(nblocks: nat, args: seq<File>)
    ensures Needed(nblocks, Contents(args)) ==
              2 + BitmapBlocks(nblocks) + FilesCost(Contents(args)) + FileCost(|args| * DIRENT)
    ensures ArgsOk(args) ==>
              forall m :: 0 <= m < |args| ==> GoodName(BaseName(args[m].path)) && |args[m].data| + BLKSIZE <= TWO32
    ensures ArgsOk(args) ==> |args| < MAX_DIR_ENTS
  {
    hide FileCost, BitmapBlocks, FilesCost;
  }

  /** The finished image. */
  lemma ImageDone(d: Disk, free: seq<bool>, roles: Roles, root: nat, nblocks: nat, pos: nat, ents: seq<Block>,
        names: seq<Name>, files: seq<seq<Byte>>)
    requires |d| == |free| == nblocks && nblocks * BLKSIZE < TWO32 && pos < nblocks
    requires forall b :: 0 <= b < nblocks ==> (free[b] <==> b >= pos)
    requires UsedBelow(d, roles, pos) && OnlyFiles(roles, root, ents, |names|)
    requires FilesAre(d, roles, root, ents, names, files)
    requires RootDone(d, roles, root, nblocks, ents, |names|) && AllHeld(d, roles) && Graph(d, roles)
    ensures Formatted(d, free, roles, root, nblocks, pos, ents, names, files)
  {
    hide Graph, AllHeld, RootDone, FilesAre, OnlyFiles, Sound;
    BitmapAgrees(d, free, roles, pos);
  }

  lemma NoArgs()
    ensures Names([]) == [] && Contents([]) == [] && FilesCost([]) == 0
  {
  }

  lemma OneMoreArg(args: seq<File>, i: nat)
    requires i < |args|
    ensures Names(args[..i + 1]) == Names(args[..i]) + [BaseName(args[i].path)]
    ensures Contents(args[..i + 1]) == Contents(args[..i]) + [args[i].data]
    ensures |Names(args[..i])| == i
  {
    hide BaseName;
    assert args[..i + 1][..i] == args[..i];
  }

  lemma OneMoreCost(args: seq<File>, i: nat)
    requires i < |args|
    ensures FilesCost(Contents(args[..i + 1])) == FilesCost(Contents(args[..i])) + 1 + FileCost(|args[i].data|)
    ensures FilesCost(Contents(args[..i + 1])) <= FilesCost(Contents(args))
  {
    hide FileCost, BaseName;
    OneMoreArg(args, i);
    PrefixCost(args, i + 1);
    var files := Contents(args[..i]);
    assert (files + [args[i].data])[..|files|] == files;
  }

  lemma BitmapAgrees(d: Disk, free: seq<bool>, roles: Roles, pos: nat)
    requires Graph(d, roles) && AllHeld(d, roles) && UsedBelow(d, roles, pos) && |free| == |d|
    requires forall b :: 0 <= b < |d| ==> (free[b] <==> b >= pos)
    ensures Sound(d, free, roles)
  {
    hide Graph, Held;
  }

  // ----- the root directory

  lemma DirBlockEntry(ents: seq<Block>, n: nat, i: nat, j: nat)
    requires |ents| == 4 && n < MAX_DIR_ENTS && i < 4 && j < BLKDIRENTS
    ensures var m := BLKDIRENTS * i + j;
            && m < MAX_DIR_ENTS
            && DirentName(DirBlock(ents, n, i), j) == (if m < n then EntName(ents, m) else [])
            && (m < n ==> DirentInum(DirBlock(ents, n, i), j) == EntInum(ents, m))
  {
    hide CStr, Word;
    var m := BLKDIRENTS * i + j;
    var b := DirBlock(ents, n, i);
    EntryIndex(i, j);
    if m < n {
      assert NameField(b, j) == NameField(ents[i], j);
      WordOfBytes(b, ents[i], DIRENT * j);
    } else {
      assert NameField(b, j) == NameField(ZeroBlock(), j);
      ZeroEntries(j);
    }
  }

  lemma EntryIndex(i: nat, j: nat)
    requires j < BLKDIRENTS
    ensures (BLKDIRENTS * i + j) / BLKDIRENTS == i && (BLKDIRENTS * i + j) % BLKDIRENTS == j
  {
  }

  /** The root directory's entries are the collected ones, followed by free ones. */
  lemma RootEntries(d: Disk, roles: Roles, root: nat, nblocks: nat, ents: seq<Block>, n: nat)
    requires RootDone(d, roles, root, nblocks, ents, n)
    ensures SizeOf(d[root]) % BLKSIZE == 0
    ensures n <= EntryCount(d, root) == BLKDIRENTS * BlocksFor(n * DIRENT) <= MAX_DIR_ENTS
    ensures forall k :: 0 <= k < EntryCount(d, root) ==> EntryName(d, root, k) == if k < n then EntName(ents, k) else []
    ensures forall k :: 0 <= k < n ==> EntryInum(d, root, k) == EntInum(ents, k)
    ensures forall i :: SizeOf(d[root]) / BLKSIZE <= i < MAXBLOCKS ==> FileBlock(d, root, i) == ZeroBlock()
  {
    hide FileBlock, SizeOf, IsDir, DirBlock, EntName, EntInum, DirentName, DirentInum, RoundUp, SuperIs;
    DirSizes(n);
    forall k | 0 <= k < EntryCount(d, root)
      ensures EntryName(d, root, k) == if k < n then EntName(ents, k) else []
      ensures k < n ==> EntryInum(d, root, k) == EntInum(ents, k)
    {
      DirBlockEntry(ents, n, k / BLKDIRENTS, k % BLKDIRENTS);
      assert k == BLKDIRENTS * (k / BLKDIRENTS) + k % BLKDIRENTS;
    }
  }

  predicate AllGood(names: seq<Name>) { forall m :: 0 <= m < |names| ==> GoodName(names[m]) }

  /** With distinct names the image is a well-formed tree of one directory. */
  lemma FormattedTree(d: Disk, free: seq<bool>, roles: Roles, root: nat, nblocks: nat, pos: nat, ents: seq<Block>,
        names: seq<Name>, files: seq<seq<Byte>>)
    requires Formatted(d, free, roles, root, nblocks, pos, ents, names, files) && Distinct(names) && AllGood(names)
    ensures TreeOk(d, roles) && IsInode(roles, root) && root < |d| && IsDir(d[root]) && NamedOnce(d, roles, root)
  {
    hide FileBlock, SizeOf, IsDir, EntName, EntInum, EntryName, EntryInum, EntryCount, Graph, FileIs, NamedOnce;
    RootEntries(d, roles, root, nblocks, ents, |names|);
    forall m | 0 <= m < |names|
      ensures IsInode(roles, EntInum(ents, m))
    {
      FileIsInode(d, roles, EntInum(ents, m), files[m]);
    }
    assert DirOk(d, roles, root);
    RootNamed(d, roles, root, nblocks, ents, names, files);
  }

  /** The root directory's entries name every other inode once. */
  lemma RootNamed(d: Disk, roles: Roles, root: nat, nblocks: nat, ents: seq<Block>, names: seq<Name>,
        files: seq<seq<Byte>>)
    requires RootDone(d, roles, root, nblocks, ents, |names|) && FilesAre(d, roles, root, ents, names, files)
    requires OnlyFiles(roles, root, ents, |names|) && AllGood(names)
    ensures NamedOnce(d, roles, root)
  {
    hide FileBlock, SizeOf, IsDir, EntName, EntInum, EntryName, EntryInum, EntryCount, FileIs, DirBlock, RoundUp,
      SuperIs;
    RootEntries(d, roles, root, nblocks, ents, |names|);
    forall dir: nat, k: nat | Live(d, roles, dir, k)
      ensures dir == root && k < |names| && EntryInum(d, dir, k) == EntInum(ents, k) != root
    {
    }
    forall i: nat | IsInode(roles, i) && i != root
      ensures Named(d, roles, i)
    {
      var m :| 0 <= m < |names| && EntInum(ents, m) == i;
      assert Live(d, roles, root, m) && EntryInum(d, root, m) == i;
    }
  }

  /** Each file's name is bound to its inode. */
  lemma FormattedLookup(d: Disk, free: seq<bool>, roles: Roles, root: nat, nblocks: nat, pos: nat, ents: seq<Block>,
        names: seq<Name>, files: seq<seq<Byte>>, m: nat)
    requires Formatted(d, free, roles, root, nblocks, pos, ents, names, files)
    requires Distinct(names) && AllGood(names) && m < |names|
    ensures root < |d| && LookupIn(d, root, names[m]) == Some(EntInum(ents, m))
    ensures FileIs(d, roles, EntInum(ents, m), files[m])
  {
    hide FileBlock, SizeOf, IsDir, EntName, EntInum, EntryName, EntryInum, EntryCount, Graph, FileIs, LookupIn;
    FormattedTree(d, free, roles, root, nblocks, pos, ents, names, files);
    RootEntries(d, roles, root, nblocks, ents, |names|);
    assert Binds(d, root, names[m], EntInum(ents, m)) by {
      assert EntryName(d, root, m) == names[m] && EntryInum(d, root, m) == EntInum(ents, m);
    }
    assert DirOk(d, roles, root);
    LookupIsMap(d, roles, root, names[m], EntInum(ents, m));
  }

  /** The bytes of a file. */
  lemma FileIsBytes(d: Disk, roles: Roles, ino: nat, data: seq<Byte>)
    requires FileIs(d, roles, ino, data) && |data| <= TWO32
    ensures FileBytes(d, ino, 0, |data|) == data
  {
    hide FileBlock;
    forall x | 0 <= x < |data|
      ensures FileBytes(d, ino, 0, |data|)[x] == data[x]
    {
      assert FileBytes(d, ino, 0, |data|)[x] == FileByte(d, ino, x);
      PadByte(data, x);
    }
  }

  lemma PadByte(data: seq<Byte>, x: nat)
    requires x < |data| && x < TWO32
    ensures x / BLKSIZE < MAXBLOCKS && PadBlock(data, x / BLKSIZE)[x % BLKSIZE] == data[x]
  {
    assert x == BLKSIZE * (x / BLKSIZE) + x % BLKSIZE;
  }

  lemma SingleComponent(name: Name)
    requires name != [] && SLASH !in name
    ensures Components([SLASH] + name) == [name]
  {
    var p := [SLASH] + name;
    assert p[1..] == name;
    SlashStep(p);
    WholeElement(name);
    ElementStep(name);
    assert name[|name|..] == [];
    EmptyPath();
  }

  lemma {:induction false} WholeElement(name: seq<Byte>)
    requires SLASH !in name
    ensures Element(name) == name
  {
    if name != [] { WholeElement(name[1..]); }
  }

  /** Format, then read: the path "/name" leads to the file's inode, its size is the file's
      length, and its bytes are the file's, through all pointer levels. */
  lemma RoundTrip(d: Disk, free: seq<bool>, roles: Roles, root: nat, nblocks: nat, pos: nat, ents: seq<Block>,
        names: seq<Name>, files: seq<seq<Byte>>, m: nat)
    requires Formatted(d, free, roles, root, nblocks, pos, ents, names, files)
    requires Distinct(names) && AllGood(names) && m < |names|
    requires SLASH !in names[m] && |files[m]| < TWO32
    ensures var w := WalkFrom(d, None, root, Components([SLASH] + names[m]));
            && w.Found? && w.ino < |d| && IsInode(roles, w.ino)
            && SizeOf(d[w.ino]) == |files[m]|
            && Available(SizeOf(d[w.ino]), 0, |files[m]|) == |files[m]|
            && FileBytes(d, w.ino, 0, |files[m]|) == files[m]
  {
    hide FileBlock, IsDir, SizeOf, LookupIn, Components, Formatted, EntInum, FileBytes;
    FormattedTree(d, free, roles, root, nblocks, pos, ents, names, files);
    FormattedLookup(d, free, roles, root, nblocks, pos, ents, names, files, m);
    SingleComponent(names[m]);
    FileCount(d, free, roles, root, nblocks, pos, ents, names, files);
    var ino := EntInum(ents, m);
    FileIsBytes(d, roles, ino, files[m]);
    var one: seq<Name> := [names[m]];
    assert one[1..] == [];
  }

  /** Lookups in a formatted image allocate nothing. */
  lemma FormattedMapped(d: Disk, free: seq<bool>, roles: Roles, root: nat, nblocks: nat, pos: nat, ents: seq<Block>,
        names: seq<Name>, files: seq<seq<Byte>>)
    requires Formatted(d, free, roles, root, nblocks, pos, ents, names, files)
    ensures DirsMapped(d, roles)
  {
    hide FileBlock, SizeOf, IsDir, Home, DirBlock, RoundUp, SuperIs, Graph, FilesAre;
    RootEntries(d, roles, root, nblocks, ents, |names|);
    DirSizes(|names|);
  }

  lemma ShortPath(name: Name)
    requires GoodName(name)
    ensures |[SLASH] + name| < PATH_MAX && 0 !in [SLASH] + name
  {
  }

  /** The same through the driver: mount the image, open "/name", read the whole file. */
  method ReadBack(f: Formatter, args: seq<File>, ghost pos: nat, m: nat)
    returns (r: Status, path: seq<Byte>, buf: seq<Byte>)
    requires ArgsOk(args) && Distinct(Names(args)) && m < |args|
    requires f.bitmap.Valid() && f.bitmap.nblocks == |f.blocks|
    requires Formatted(f.blocks, f.bitmap.Free(), f.roles, f.root, |f.blocks|, pos, f.ents, Names(args), Contents(args))
    modifies f.bitmap.words
    ensures forall name :: EndsIn(args[m].path, name) ==> path == [SLASH] + name
    ensures r == Ok && buf == args[m].data
  {
    hide Names, Contents, BaseName, Graph, FilesAre, RootDone, Formatted, Sound, TreeOk, SizeOf, IsDir, WalkFrom,
      Components, FileBytes, DirsMapped, NamedOnce, EndsIn;
    ghost var names, files := Names(args), Contents(args);
    ghost var d, free := f.blocks, f.bitmap.Free();
    assert AllGood(names);
    var name := BaseName(args[m].path);
    FormattedTree(d, free, f.roles, f.root, |d|, pos, f.ents, names, files);
    FormattedMapped(d, free, f.roles, f.root, |d|, pos, f.ents, names, files);
    FormattedSound(d, free, f.roles, f.root, |d|, pos, f.ents, names, files);
    RoundTrip(d, free, f.roles, f.root, |d|, pos, f.ents, names, files, m);
    ShortPath(name);
    assert |d| * BLKSIZE < TWO32 by { FormattedSize(d, free, f.roles, f.root, |d|, pos, f.ents, names, files); }
    var fs := new FileSystem(f.bitmap, f.root, f.blocks, f.roles);
    path := [SLASH] + name;
    forall other | EndsIn(args[m].path, other)
      ensures other == name
    {
      BaseNameIs(args[m].path, other);
    }
    buf := [];
    var w, dent;
    ghost var at;
    r, w, dent, at := WalkPath(fs, path);
    if !w.Found? {
      return;
    }
    r, buf := fs.Read(w.ino, |args[m].data|, 0);
  }

  /** For every list of files that fits: formatting the disk, mounting it and reading a file gives
      back its bytes. The file given as "dir/name", or as "name", is opened as "/name". */
  method FormatAndRead(nblocks: nat, args: seq<File>, ents: seq<Block>, m: nat)
    returns (r: Status, path: seq<Byte>, buf: seq<Byte>)
    requires 2 <= nblocks && nblocks * BLKSIZE < TWO32 && ArgsOk(args) && |ents| == 4
    requires Distinct(Names(args)) && m < |args| && Needed(nblocks, Contents(args)) < nblocks
    ensures forall name :: EndsIn(args[m].path, name) ==> path == [SLASH] + name
    ensures r == Ok && buf == args[m].data
  {
    hide Names, Contents, Needed, ArgsOk, Distinct, Formatted, EndsIn;
    var ok, f := FormatDisk(nblocks, args, ents);
    assert nblocks == |f.blocks| by {
      FormattedSize(f.blocks, f.bitmap.Free(), f.roles, f.root, nblocks, f.Pos(), f.ents, Names(args), Contents(args));
    }
    r, path, buf := ReadBack(f, args, f.Pos(), m);
  }

  lemma FormattedSize(d: Disk, free: seq<bool>, roles: Roles, root: nat, nblocks: nat, pos: nat, ents: seq<Block>,
        names: seq<Name>, files: seq<seq<Byte>>)
    requires Formatted(d, free, roles, root, nblocks, pos, ents, names, files)
    ensures |d| == nblocks && nblocks * BLKSIZE < TWO32
  {
  }

  lemma FormattedSound(d: Disk, free: seq<bool>, roles: Roles, root: nat, nblocks: nat, pos: nat, ents: seq<Block>,
        names: seq<Name>, files: seq<seq<Byte>>)
    requires Formatted(d, free, roles, root, nblocks, pos, ents, names, files)
    ensures Sound(d, free, roles)
  {
  }

  lemma FileCount(d: Disk, free: seq<bool>, roles: Roles, root: nat, nblocks: nat, pos: nat, ents: seq<Block>,
        names: seq<Name>, files: seq<seq<Byte>>)
    requires Formatted(d, free, roles, root, nblocks, pos, ents, names, files)
    ensures |names| == |files| < MAX_DIR_ENTS && |ents| == 4
  {
  }
}
