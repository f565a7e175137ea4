/**
  Whole runs of the mounted file system: whatever sequence of calls is made, the disk stays mounted
  in order, and every reply is the one that the map of paths gives.
 */
module FileRuns {
  import opened Allocation
  import opened BlockBitmap
  import opened Util
  import opened Blocks
  import opened CInts
  import opened Volume
  import opened Files
  import opened Directory
  import opened DirectoryCode
  import opened DirectorySpace
  import opened FileTree
  import opened FileView
  import opened InodeCode
  import opened OpenFiles
  import opened Paths

  /** Mounted, with nothing but zeros behind the end of a file. */
  ghost predicate Ready(fs: FileSystem)
    reads fs, fs.bitmap.words
  {
    Mounted(fs) && ZerosBehind(fs.blocks, fs.roles)
  }

  ghost function Seen(fs: FileSystem): View
    reads fs
  {
    ViewOf(fs.blocks, fs.roles, fs.root)
  }

  lemma SoundRooted(d: Disk, free: seq<bool>, roles: Roles, root: nat)
    requires Sound(d, free, roles) && TreeOk(d, roles) && NamedOnce(d, roles, root) && IsInode(roles, root)
    ensures Rooted(d, roles, root)
  {
    hide TreeOk, NamedOnce;
    forall i: nat | IsInode(roles, i)
      ensures i < |d|
    {
      InodeBelow(d, roles, i);
    }
  }

  /** inode_open: the walk, seen through the map. */
  method Open(fs: FileSystem, path: seq<Byte>) returns (r: Status, ino: nat)
    requires Ready(fs) && 0 !in path
    modifies fs, fs.bitmap.words
    ensures Ready(fs) && Kept(old(Seen(fs)), Seen(fs)) && Opened(old(Seen(fs)), path, r)
    ensures r == Ok ==> Leads(fs.blocks, fs.root, Components(path))
                        && Target(fs.blocks, fs.root, Components(path)) == ino
  {
    hide Sound, TreeOk, NamedOnce, Grown, WalkFrom, Components, AllNonEmpty, PathSpent, DirsMapped, Overlong, TreeOf,
      ZerosBehind, Full, IsDir, SameContent, Rooted;
    ghost var d, free, roles, names := fs.blocks, fs.Free(), fs.roles, Components(path);
    ComponentsNonEmpty(path);
    SoundRooted(d, free, roles, fs.root);
    WalkStatus(d, roles, fs.root, names);
    var w, dent;
    ghost var at;
    r, w, dent, at := WalkPath(fs, path);
    GrownSeen(d, free, roles, fs.blocks, fs.Free(), fs.roles, fs.root);
    SoundRooted(fs.blocks, fs.Free(), fs.roles, fs.root);
    InTree(fs.blocks, fs.roles, fs.root, names);
    ino := if w.Found? then w.ino else 0;
  }

  lemma GrownSeen(d: Disk, free: seq<bool>, roles: Roles, e: Disk, free': seq<bool>, roles': Roles, root: nat)
    requires Rooted(d, roles, root) && Grown(d, free, roles, e, free', roles') && ZerosBehind(d, roles)
    ensures Kept(ViewOf(d, roles, root), ViewOf(e, roles', root)) && ZerosBehind(e, roles')
    ensures forall names: seq<Name> ::
              AllNonEmpty(names) ==> WalkFrom(e, None, root, names) == WalkFrom(d, None, root, names)
  {
    hide Rooted, Grown, ZerosBehind, TreeOf, DirsMapped, AllNonEmpty, WalkFrom;
    GrownContent(d, free, roles, e, free', roles');
    GrownTree(d, e, roles, roles', root);
    if DirsMapped(d, roles) { GrownDirs(d, free, roles, e, free', roles'); }
  }

  // ----- writing, reading and releasing

  /** fs_open and fs_write. When the disk is full, the bytes in front of the first block that could
      not be had are in the file. */
  method WriteAt(fs: FileSystem, path: seq<Byte>, offset: nat, bytes: seq<Byte>) returns (r: Reply, ghost done: nat)
    requires Ready(fs) && OpOk(Write(path, offset, bytes))
    modifies fs, fs.bitmap.words
    ensures Ready(fs) && Step(old(Seen(fs)), Write(path, offset, bytes), r, Seen(fs))
    ensures NotOpened(old(Seen(fs)), path, r, Seen(fs))
            || (r.Done? && WriteStep(old(Seen(fs)), path, offset, bytes, done, r.status, Seen(fs))
                && Leads(fs.blocks, fs.root, Components(path))
                && (r.status == ENOSPC ==>
                      StoppedAt(fs.blocks, Target(fs.blocks, fs.root, Components(path)), offset, |bytes|, done)))
  {
    hide Sound, TreeOk, NamedOnce, WalkFrom, Components, TreeOf, ZerosBehind, IsDir, Written, SamePaths, Fills,
      NewSize, WriteWays, Lacking, CountFree, DirsMapped, Full, Contents, OpenStatus, Overwritten, Leads, StoppedAt;
    ghost var v := Seen(fs);
    done := 0;
    var status, ino := Open(fs, path);
    if status != Ok {
      return Done(status, []), done;
    }
    ghost var d, roles, v1 := fs.blocks, fs.roles, Seen(fs);
    OpenedNode(d, fs.Free(), roles, fs.root, v, path);
    if IsDir(fs.blocks[ino]) {
      return IsDirectory, done;
    }
    status, done := WriteFile(fs, ino, bytes, offset);
    WriteSeen(d, roles, fs.blocks, fs.roles, fs.root, Components(path), offset, bytes[..done], |bytes|);
    SamePathLeads(d, fs.blocks, fs.root, Components(path));
    StoppedBounds(fs.blocks, ino, offset, |bytes|, done);
    assert WriteStep(v, path, offset, bytes, done, status, Seen(fs));
    return Done(status, []), done;
  }

  lemma SamePathLeads(d: Disk, e: Disk, root: nat, names: seq<Name>)
    requires Leads(d, root, names) && SamePaths(d, e, root) && |e| == |d|
    ensures Leads(e, root, names) && Target(e, root, names) == Target(d, root, names)
  {
    hide WalkFrom, AllNonEmpty;
  }

  lemma StoppedBounds(d: Disk, ino: nat, offset: nat, len: nat, done: nat)
    ensures StoppedAt(d, ino, offset, len, done) ==> done < len && (done == 0 || (offset + done) % BLKSIZE == 0)
  {
    hide BlockNumber;
  }

  /** The node that an opened path leads to. */
  lemma OpenedNode(d: Disk, free: seq<bool>, roles: Roles, root: nat, v: View, path: seq<Byte>)
    requires Sound(d, free, roles) && TreeOk(d, roles) && NamedOnce(d, roles, root) && IsInode(roles, root)
    requires Leads(d, root, Components(path)) && v.tree == TreeOf(d, root) && Opened(v, path, Ok)
    ensures Rooted(d, roles, root) && IsInode(roles, Target(d, root, Components(path)))
    ensures OpenStatus(v.tree, path) == Ok && Components(path) in v.tree
    ensures v.tree[Components(path)] == NodeAt(d, Target(d, root, Components(path)))
  {
    hide Sound, TreeOk, NamedOnce, Components, WalkFrom, NodeAt, Rooted;
    SoundRooted(d, free, roles, root);
    InTree(d, roles, root, Components(path));
  }

  lemma WriteSeen(d: Disk, roles: Roles, e: Disk, roles': Roles, root: nat, names: seq<Name>, offset: nat,
        bytes: seq<Byte>, len: nat)
    requires Rooted(d, roles, root) && Leads(d, root, names) && |d| == |e| && ZerosBehind(d, roles)
    requires var a := Target(d, root, names);
             && IsInode(roles, a) && !IsDir(d[a]) && Written(d, e, roles, a, offset, bytes) && |bytes| <= len
             && offset + len < TWO32
             && SizeOf(e[a]) == NewSize(SizeOf(d[a]), offset, len)
    requires SamePaths(d, e, root) && forall i :: IsInode(roles, i) <==> IsInode(roles', i)
    ensures ZerosBehind(e, roles')
    ensures TreeOf(e, root) ==
            TreeOf(d, root)[names := File(Overwritten(Contents(d, Target(d, root, names)), offset, bytes, len))]
  {
    hide Rooted, Leads, ZerosBehind, Written, TreeOf, Contents, Overwritten, NewSize, WalkFrom, AllNonEmpty, IsDir,
      SizeOf;
    var a := Target(d, root, names);
    WrittenOthers(d, e, roles, a, offset, bytes);
    WrittenContents(d, e, roles, roles', a, offset, bytes, len);
    FileUpdated(d, e, roles, roles', root, names);
  }

  /** fs_open and fs_read. */
  method ReadAt(fs: FileSystem, path: seq<Byte>, offset: nat, count: nat) returns (r: Reply)
    requires Ready(fs) && OpOk(Read(path, offset, count))
    modifies fs, fs.bitmap.words
    ensures Ready(fs) && Step(old(Seen(fs)), Read(path, offset, count), r, Seen(fs))
  {
    hide Sound, TreeOk, NamedOnce, WalkFrom, Components, TreeOf, ZerosBehind, IsDir, DirsMapped, Contents, OpenStatus,
      Leads, FileBytes, Available, Slice;
    ghost var v := Seen(fs);
    var status, ino := Open(fs, path);
    if status != Ok {
      return Done(status, []);
    }
    OpenedNode(fs.blocks, fs.Free(), fs.roles, fs.root, v, path);
    if IsDir(fs.blocks[ino]) {
      return IsDirectory;
    }
    var data;
    status, data := fs.Read(ino, count, offset);
    SliceRead(fs.blocks, ino, offset, count, data);
    return Done(status, data);
  }

  lemma SliceRead(d: Disk, i: nat, offset: nat, count: nat, data: seq<Byte>)
    requires i < |d| && offset + |data| <= TWO32 && |data| == Available(SizeOf(d[i]), offset, count)
    requires data == FileBytes(d, i, offset, |data|)
    ensures data == Slice(Contents(d, i), offset, count)
  {
    hide FileByte, SizeOf;
  }

  /** Opening a file and inode_free_block. */
  method ReleaseAt(fs: FileSystem, path: seq<Byte>, n: nat) returns (r: Reply)
    requires Ready(fs) && OpOk(Release(path, n))
    modifies fs, fs.bitmap.words
    ensures Ready(fs) && Step(old(Seen(fs)), Release(path, n), r, Seen(fs))
  {
    hide Sound, TreeOk, NamedOnce, WalkFrom, Components, TreeOf, ZerosBehind, IsDir, SamePaths, BlockCleared,
      BlockReleased, DirsMapped, Contents, OpenStatus, Leads, Cleared;
    ghost var v := Seen(fs);
    var status, ino := Open(fs, path);
    if status != Ok {
      return Done(status, []);
    }
    ghost var d, free, roles := fs.blocks, fs.Free(), fs.roles;
    OpenedNode(d, free, roles, fs.root, v, path);
    if IsDir(fs.blocks[ino]) {
      return IsDirectory;
    }
    status := FreeBlockOf(fs, ino, n);
    ReleaseSeen(d, free, roles, fs.blocks, fs.Free(), fs.roles, fs.root, Components(path), n);
    return Done(status, []);
  }

  lemma ReleaseSeen(d: Disk, free: seq<bool>, roles: Roles, e: Disk, free': seq<bool>, roles': Roles, root: nat,
        names: seq<Name>, n: nat)
    requires Rooted(d, roles, root) && Leads(d, root, names) && ZerosBehind(d, roles)
    requires var a := Target(d, root, names);
             && IsInode(roles, a) && !IsDir(d[a]) && BlockCleared(d, e, roles, a, n)
             && BlockReleased(free, roles, free', roles', BlockNumber(d, a, n))
    requires SamePaths(d, e, root)
    ensures ZerosBehind(e, roles')
    ensures TreeOf(e, root) == TreeOf(d, root)[names := File(Cleared(Contents(d, Target(d, root, names)), n))]
  {
    hide Rooted, Leads, ZerosBehind, TreeOf, Contents, Cleared, WalkFrom, AllNonEmpty, IsDir, FileBlock, Attributes,
      CountFree, BlockNumber;
    var a := Target(d, root, names);
    FreedOthers(d, e, roles, a, n);
    ClearedContents(d, e, roles, roles', a, n);
    FileUpdated(d, e, roles, roles', root, names);
  }

  // ----- making files and directories

  /** The new inode's attributes: `front` in front of i_size, and size 0. */
  function Stamped(b: Block, front: seq<Byte>): Block
    requires |front| == SIZE
  {
    PutWord(PutBytes(b, 0, front), SIZE, 0)
  }

  lemma StampedBlock(front: seq<Byte>, ino: nat)
    requires |front| == SIZE
    ensures var b := Stamped(ZeroBlock(), front);
            && b[..SIZE] == front && SizeOf(b) == 0 && IsDir(b) == IsDir(PutBytes(ZeroBlock(), 0, front))
            && forall j :: 0 <= j < Slots(Inode(ino)) ==>
                 Word(b, SlotOff(Inode(ino), j)) == Word(ZeroBlock(), SlotOff(Inode(ino), j))
  {
    hide Word, PutWord;
    var plain := PutBytes(ZeroBlock(), 0, front);
    WordPut(plain, SIZE, 0);
    forall j | 0 <= j < Slots(Inode(ino))
      ensures Word(plain, SlotOff(Inode(ino), j)) == Word(ZeroBlock(), SlotOff(Inode(ino), j))
    {
      WordOfBytes(plain, ZeroBlock(), SlotOff(Inode(ino), j));
    }
  }

  lemma ZeroInode()
    ensures SizeOf(ZeroBlock()) == 0 && !IsDir(ZeroBlock())
  {
    hide Word;
    ZeroWord(SIZE);
    ZeroWord(MODE);
  }

  /** A new inode with attributes: an empty file or an empty directory. */
  ghost predicate Fresh(e: Disk, ino: nat, front: seq<Byte>) {
    && |front| == SIZE && ino < |e| && e[ino][..SIZE] == front && SizeOf(e[ino]) == 0
    && IsDir(e[ino]) == IsDir(PutBytes(ZeroBlock(), 0, front))
    && forall n :: 0 <= n < MAXBLOCKS ==> FileBlock(e, ino, n) == ZeroBlock()
  }

  /** Giving a new inode its attributes keeps everything in order. */
  lemma NodeStamped(d: Disk, free: seq<bool>, roles: Roles, ino: nat, front: seq<Byte>, root: nat)
    requires Sound(d, free, roles) && TreeOk(d, roles) && NamedOnce(d, roles, root) && IsInode(roles, ino) && ino < |d|
    requires |front| == SIZE && d[ino] == ZeroBlock()
    requires forall n :: 0 <= n < MAXBLOCKS ==> FileBlock(d, ino, n) == ZeroBlock()
    ensures var e: Disk := d[ino := Stamped(d[ino], front)];
            && Sound(e, free, roles) && TreeOk(e, roles) && NamedOnce(e, roles, root) && OthersSame(d, e, roles, ino)
            && Fresh(e, ino, front) && SameNames(d, e, roles) && (DirsMapped(d, roles) ==> DirsMapped(e, roles))
  {
    hide Word, PutWord, Graph, Held, Stamped, SizeOf, IsDir, FileBlock, TreeOk, NamedOnce, Home, DirsMapped,
      SameNames, PutBytes, OthersSame;
    StampedBlock(front, ino);
    ZeroInode();
    var e: Disk := d[ino := Stamped(d[ino], front)];
    WriteAttributesKeepsSound(d, free, roles, ino, e[ino]);
    OtherFiles(d, e, roles, ino);
    EmptyKeepsTree(d, e, roles, ino, root);
    if DirsMapped(d, roles) {
      HomesKept(d, free, roles, e, free, roles);
      EmptyKeepsDirs(d, e, roles, ino);
    }
  }

  /** A file without bytes may become a directory without entries. */
  lemma EmptyKeepsTree(d: Disk, e: Disk, roles: Roles, ino: nat, root: nat)
    requires TreeOk(d, roles) && NamedOnce(d, roles, root) && OthersSame(d, e, roles, ino) && IsInode(roles, ino)
    requires ino < |d|
    requires SizeOf(d[ino]) == 0 == SizeOf(e[ino])
    requires forall n :: 0 <= n < MAXBLOCKS ==> FileBlock(e, ino, n) == ZeroBlock()
    ensures TreeOk(e, roles) && NamedOnce(e, roles, root) && SameNames(d, e, roles)
  {
    hide SizeOf, IsDir, FileBlock, EntryName, EntryInum, NamedOnce, OthersSame;
    assert |e| == |d| by { OthersLength(d, e, roles, ino); }
    forall i: nat | IsInode(roles, i) && i < |e| && IsDir(e[i])
      ensures DirOk(e, roles, i)
    {
      if i != ino {
        OtherEntries(d, e, roles, ino, i);
        OtherDirOk(d, e, roles, roles, ino, i);
      }
    }
    forall i: nat, k: nat
      ensures Live(e, roles, i, k) <==> Live(d, roles, i, k)
      ensures Live(d, roles, i, k) ==> EntryInum(e, i, k) == EntryInum(d, i, k)
    {
      if IsInode(roles, i) && i < |d| && i != ino { OtherEntries(d, e, roles, ino, i); }
    }
    SameLiveNamed(d, e, roles, roles, root);
    forall i: nat, name: Name, x: nat | IsInode(roles, i) && i < |d| && name != []
      ensures Binds(e, i, name, x) <==> Binds(d, i, name, x)
    {
      if i != ino { OtherBinds(d, e, roles, ino, i, name, x); }
    }
  }

  lemma OthersLength(d: Disk, e: Disk, roles: Roles, a: nat)
    requires OthersSame(d, e, roles, a)
    ensures |d| == |e|
  {
  }

  lemma EmptyKeepsDirs(d: Disk, e: Disk, roles: Roles, ino: nat)
    requires DirsMapped(d, roles) && OthersSame(d, e, roles, ino) && ino < |e| && SizeOf(e[ino]) == 0
    requires forall r :: Below(r) && IsInode(roles, r.ino) && Home(d, r) != 0 ==> Home(e, r) == Home(d, r)
    ensures DirsMapped(e, roles)
  {
    hide Home, SizeOf, IsDir, FileBlock, Attributes;
    forall i: nat | IsInode(roles, i) && i < |e| && IsDir(e[i])
      ensures AllMapped(e, i)
    {
      if i != ino {
        assert AllMapped(d, i);
        forall n: nat | n < SizeOf(e[i]) / BLKSIZE && n < MAXBLOCKS
          ensures BlockNumber(e, i, n) != 0
        {
          assert Below(Data(i, n)) && BlockNumber(d, i, n) != 0;
        }
      }
    }
  }

  /** From `d` to `e` the path `names` came to lead to a new inode with these attributes. */
  ghost predicate NodeMade(d: Disk, e: Disk, roles: Roles, roles': Roles, root: nat, names: seq<Name>, ino: nat,
        front: seq<Byte>) {
    && Grafted(d, e, roles, roles', ino) && IsInode(roles', ino) && Fresh(e, ino, front)
    && (forall i :: IsInode(roles', i) <==> IsInode(roles, i) || i == ino)
    && (forall i: nat :: IsInode(roles, i) && i < |d| ==> NodeAt(e, i) == NodeAt(d, i))
    && Leads(e, root, names) && Target(e, root, names) == ino
  }

  /** Creating a file and stamping it, together. */
  lemma Stamping(d: Disk, roles: Roles, g: Disk, roles': Roles, e: Disk, root: nat, names: seq<Name>, ino: nat,
        front: seq<Byte>)
    requires FileCreated(d, g, roles, roles', root, names, ino) && OthersSame(g, e, roles', ino) && Fresh(e, ino, front)
    requires TreeOk(d, roles) && TreeOk(e, roles') && IsInode(roles, root) && AllNonEmpty(names)
    requires SameNames(g, e, roles')
    requires ZerosBehind(d, roles)
    ensures NodeMade(d, e, roles, roles', root, names, ino, front) && ZerosBehind(e, roles')
  {
    hide TreeOk, AllNonEmpty, IsDir, SizeOf, WalkFrom, Fresh, NodeAt, Bound, SameNames, OthersSame, FileBlock,
      ZerosBehind;
    var w := WalkFrom(d, None, root, names);
    WalkMissing(d, roles, None, root, names);
    MadeBinds(d, g, e, roles, roles', w.parent, w.last, ino);
    forall i: nat | IsInode(roles, i) && i < |d|
      ensures NodeAt(e, i) == NodeAt(d, i) && IsDir(e[i]) == IsDir(d[i])
    {
      MadeNode(d, g, e, roles, roles', w.parent, ino, i);
    }
    OthersLength(d, g, roles, w.parent);
    MadeZeros(d, g, e, roles, roles', w.parent, ino, front);
    FreshLength(e, ino, front);
    WalkAfterBound(d, e, roles, roles', w.parent, w.last, ino, None, root, names);
  }

  lemma FreshLength(e: Disk, ino: nat, front: seq<Byte>)
    requires Fresh(e, ino, front)
    ensures ino < |e| && SizeOf(e[ino]) == 0
  {
    hide SizeOf, IsDir, FileBlock;
  }

  lemma MadeBinds(d: Disk, g: Disk, e: Disk, roles: Roles, roles': Roles, dir: nat, last: Name, ino: nat)
    requires Bound(d, g, roles, dir, last, ino) && SameNames(g, e, roles')
    requires forall i :: IsInode(roles, i) ==> IsInode(roles', i)
    ensures Bound(d, e, roles, dir, last, ino) && |e| == |d|
    ensures forall i: nat, name: Name, x: nat :: IsInode(roles, i) && i < |d| && name != [] && x != ino ==>
              (Binds(e, i, name, x) <==> Binds(d, i, name, x))
  {
    hide Binds;
  }

  lemma MadeNode(d: Disk, g: Disk, e: Disk, roles: Roles, roles': Roles, dir: nat, ino: nat, i: nat)
    requires OthersSame(d, g, roles, dir) && OthersSame(g, e, roles', ino) && IsInode(roles, i) && i < |d|
    requires IsInode(roles', i) && i != ino
    requires dir < |d| && IsDir(d[dir]) && dir < |g| && IsDir(g[dir])
    ensures i < |e| && NodeAt(e, i) == NodeAt(d, i) && IsDir(e[i]) == IsDir(d[i])
    ensures i != dir ==> SizeOf(e[i]) == SizeOf(d[i])
    ensures i != dir ==> forall x: nat :: x < TWO32 ==> FileByte(e, i, x) == FileByte(d, i, x)
  {
    hide Attributes, IsDir, SizeOf, FileBlock, FileByte, Contents;
    SameNode(g, e, roles', ino, i);
    if i != dir { SameNode(d, g, roles, dir, i); }
  }

  lemma MadeZeros(d: Disk, g: Disk, e: Disk, roles: Roles, roles': Roles, dir: nat, ino: nat, front: seq<Byte>)
    requires OthersSame(d, g, roles, dir) && OthersSame(g, e, roles', ino) && Fresh(e, ino, front)
    requires !IsInode(roles, ino)
    requires dir < |d| && IsDir(d[dir]) && dir < |g| && IsDir(g[dir]) && ZerosBehind(d, roles) && |d| == |g|
    requires forall i :: IsInode(roles', i) <==> IsInode(roles, i) || i == ino
    ensures ZerosBehind(e, roles')
  {
    hide OthersSame, IsDir, SizeOf, FileBlock;
    forall i: nat, x: nat | IsInode(roles', i) && i < |e| && SizeOf(e[i]) <= x < TWO32
      ensures IsDir(e[i]) || FileByte(e, i, x) == 0
    {
      if i == ino {
        assert FileBlock(e, ino, x / BLKSIZE) == ZeroBlock();
      } else {
        OthersLength(g, e, roles', ino);
        MadeNode(d, g, e, roles, roles', dir, ino, i);
      }
    }
  }

  /** fs_mknod and fs_mkdir: inode_create, then the attributes. */
  method MakeAt(fs: FileSystem, path: seq<Byte>, front: seq<Byte>) returns (r: Reply)
    requires Ready(fs) && OpOk(Make(path, front))
    modifies fs, fs.bitmap.words
    ensures Ready(fs) && Step(old(Seen(fs)), Make(path, front), r, Seen(fs))
    ensures r == Done(Ok, []) ==>
              && Leads(fs.blocks, fs.root, Components(path))
              && fs.blocks[Target(fs.blocks, fs.root, Components(path))][..SIZE] == front
  {
    hide Sound, TreeOk, NamedOnce, WalkFrom, Components, TreeOf, ZerosBehind, IsDir, DirsMapped, NothingCreated,
      FileCreated, CreateKeepsDirs, CreateTook, CreateCost, CountFree, Overlong, Holds, Rooted, AllNonEmpty,
      FileBlock, Fresh, NodeMade, Stamped, SameNames, OthersSame, NewNode, Full;
    ghost var d, free, roles, names := fs.blocks, fs.Free(), fs.roles, Components(path);
    ComponentsNonEmpty(path);
    SoundRooted(d, free, roles, fs.root);
    WalkStatus(d, roles, fs.root, names);
    var status, ino := CreateInode(fs, path);
    ghost var g, free1, roles1 := fs.blocks, fs.Free(), fs.roles;
    SoundRooted(g, free1, roles1, fs.root);
    if status != Ok {
      CreateNothing(d, roles, g, roles1, fs.root, names, status);
      return Done(status, []);
    }
    CreatedZero(d, g, roles, roles1, fs.root, names, ino);
    fs.blocks := fs.blocks[ino := Stamped(fs.blocks[ino], front)];
    NodeStamped(g, free1, roles1, ino, front, fs.root);
    Stamping(d, roles, g, roles1, fs.blocks, fs.root, names, ino, front);
    SoundRooted(fs.blocks, fs.Free(), fs.roles, fs.root);
    MadeSeen(d, roles, fs.blocks, fs.roles, fs.root, names, ino, front);
    return Done(Ok, []);
  }

  lemma CreatedZero(d: Disk, g: Disk, roles: Roles, roles': Roles, root: nat, names: seq<Name>, ino: nat)
    requires FileCreated(d, g, roles, roles', root, names, ino)
    requires CreateKeepsDirs(d, g, roles, roles', WalkFrom(d, None, root, names), Ok)
    ensures DirsMapped(d, roles) ==> DirsMapped(g, roles')
    ensures ino < |g| && IsInode(roles', ino) && g[ino] == ZeroBlock()
    ensures forall n :: 0 <= n < MAXBLOCKS ==> FileBlock(g, ino, n) == ZeroBlock()
    ensures WalkFrom(d, None, root, names).Missing?
  {
    hide Bound, OthersSame, WalkFrom, FileBlock, SizeOf, IsDir, DirsMapped, HalfExtended;
  }

  lemma MadeSeen(d: Disk, roles: Roles, e: Disk, roles': Roles, root: nat, names: seq<Name>, ino: nat, front: seq<Byte>)
    requires Rooted(d, roles, root) && Rooted(e, roles', root) && NodeMade(d, e, roles, roles', root, names, ino, front)
    ensures Leads(e, root, names) && e[Target(e, root, names)][..SIZE] == front
    ensures |front| == SIZE && TreeOf(e, root) == TreeOf(d, root)[names := NewNode(front)]
  {
    hide Rooted, TreeOf, Leads, Grafted, WalkFrom, FileBlock, SizeOf, IsDir, NodeAt;
    NodeAdded(d, e, roles, roles', root, names, ino);
    FreshNode(e, ino, front);
  }

  lemma FreshNode(e: Disk, ino: nat, front: seq<Byte>)
    requires Fresh(e, ino, front)
    ensures NodeAt(e, ino) == NewNode(front)
  {
    hide FileBlock, SizeOf, IsDir, FileByte;
  }

  lemma CreateNothing(d: Disk, roles: Roles, g: Disk, roles': Roles, root: nat, names: seq<Name>, status: Status)
    requires Rooted(d, roles, root) && Rooted(g, roles', root) && AllNonEmpty(names) && ZerosBehind(d, roles)
    requires NothingCreated(d, g, roles, roles', WalkFrom(d, None, root, names))
    requires CreateKeepsDirs(d, g, roles, roles', WalkFrom(d, None, root, names), status) && status != Ok
    ensures TreeOf(g, root) == TreeOf(d, root) && ZerosBehind(g, roles')
    ensures DirsMapped(d, roles) && status != ENOSPC ==> DirsMapped(g, roles')
  {
    hide TreeOk, NamedOnce, WalkFrom, TreeOf, ZerosBehind, IsDir, DirsMapped, AllNonEmpty, SameNames, HalfExtended,
      OthersSame, SameContent, FileBlock, SizeOf, NodeAt;
    var w := WalkFrom(d, None, root, names);
    WalkMissing(d, roles, None, root, names);
    if !w.Missing? { SameContentOthers(d, g, roles, |d|); }
    var a := if w.Missing? then w.parent else |d|;
    OthersLength(d, g, roles, a);
    OtherZeros(d, g, roles, roles', a);
    forall i: nat | IsInode(roles, i) && i < |d|
      ensures NodeAt(g, i) == NodeAt(d, i)
    {
      if i != a { SameNode(d, g, roles, a, i); } else { DirNodes(d, g, i); }
    }
    NothingAdded(d, g, roles, roles', root);
  }

  lemma DirNodes(d: Disk, g: Disk, i: nat)
    requires i < |d| && i < |g| && IsDir(d[i]) && IsDir(g[i])
    ensures NodeAt(g, i) == NodeAt(d, i) == Dir
  {
    hide IsDir;
  }

  // ----- runs

  /** One call. */
  method Perform(fs: FileSystem, op: Op) returns (r: Reply)
    requires Ready(fs) && OpOk(op)
    modifies fs, fs.bitmap.words
    ensures Ready(fs) && Step(old(Seen(fs)), op, r, Seen(fs))
  {
    hide Ready, Seen, OpOk, Step;
    match op
    case Make(path, front) => r := MakeAt(fs, path, front);
    case Write(path, offset, bytes) =>
      ghost var done;
      r, done := WriteAt(fs, path, offset, bytes);
    case Read(path, offset, count) => r := ReadAt(fs, path, offset, count);
    case Release(path, n) => r := ReleaseAt(fs, path, n);
  }

  /** Any sequence of calls on a mounted file system. */
  method PerformAll(fs: FileSystem, ops: seq<Op>) returns (rs: seq<Reply>, ghost vs: seq<View>)
    requires Ready(fs) && OpsOk(ops)
    modifies fs, fs.bitmap.words
    ensures Ready(fs) && Steps(vs, ops, rs) && vs[0] == old(Seen(fs)) && vs[|ops|] == Seen(fs)
  {
    hide Ready, Seen, Step, OpOk;
    rs, vs := [], [Seen(fs)];
    var k := 0;
    while k < |ops|
      invariant 0 <= k <= |ops| && Ready(fs) && Steps(vs, ops[..k], rs)
      invariant vs[0] == old(Seen(fs)) && vs[k] == Seen(fs)
    {
      var r := Perform(fs, ops[k]);
      rs, vs, k := rs + [r], vs + [Seen(fs)], k + 1;
    }
    assert ops[..k] == ops;
  }
}
