/**
  fsformat.c: a bump allocator that lays out the superblock, the bitmap, and then every file with
  its inode, data and pointer blocks.
 */
module Format {
  import opened CInts
  import opened Util
  import opened Blocks
  import opened Volume
  import opened Files
  import opened BlockBitmap
  import opened Building
  import opened Directory

  const FS_MAGIC := 0xC520_2F19
  const MODE_DIR := 0x41FF           // S_IFDIR | 0777
  const MODE_FILE := 0x8180          // S_IFREG | 0600
  const MAX_DIR_ENTS := 128

  /** ROUNDUP(bytes, BLKSIZE) in uint32_t arithmetic. */
  function RoundUp(bytes: nat): nat {
    (bytes + BLKSIZE - 1) % TWO32 / BLKSIZE * BLKSIZE
  }

  /** Blocks needed for `bytes` bytes. */
  function BlocksFor(bytes: nat): nat { RoundUp(bytes) / BLKSIZE }

  lemma OneBlock()
    ensures BlocksFor(BLKSIZE) == 1
  {
  }

  /** Pointer blocks of a file with `k` data blocks: the indirect block from the tenth block on, and
      the doubly-indirect block with all 1024 blocks below it as soon as the indirect block is full. */
  function PointerBlocks(k: nat): nat {
    if k < N_DIRECT then 0 else if k < N_DIRECT + N_INDIRECT then 1 else 2 + N_INDIRECT
  }

  /** Blocks of a file of `len` bytes besides its inode. */
  function FileCost(len: nat): nat { BlocksFor(len) + PointerBlocks(BlocksFor(len)) }

  /** The bitmap is allocated in whole blocks. */
  lemma BitmapSize(nblocks: nat)
    requires nblocks * BLKSIZE < TWO32
    ensures BlocksFor(BitmapBlocks(nblocks) * BLKSIZE) == BitmapBlocks(nblocks)
  {
  }

  /** What block `i` of a file with these bytes contains. */
  function PadBlock(data: seq<Byte>, i: nat): Block {
    if BLKSIZE * i >= |data| then ZeroBlock()
    else if BLKSIZE * (i + 1) <= |data| then data[BLKSIZE * i..BLKSIZE * (i + 1)]
    else PutBytes(ZeroBlock(), 0, data[BLKSIZE * i..])
  }

  /** Roles of `k` consecutive data blocks of an inode. */
  function WithData(roles: Roles, ino: nat, start: nat, k: nat): Roles {
    if k == 0 then roles else WithData(roles, ino, start, k - 1)[start + k - 1 := Data(ino, k - 1)]
  }

  lemma {:induction false} WithDataAt(roles: Roles, ino: nat, start: nat, k: nat)
    requires forall b :: b in roles ==> b < start
    ensures forall b :: b in WithData(roles, ino, start, k) <==> b in roles || start <= b < start + k
    ensures forall b :: b in roles ==> WithData(roles, ino, start, k)[b] == roles[b]
    ensures forall b :: start <= b < start + k ==> WithData(roles, ino, start, k)[b] == Data(ino, b - start)
  {
    if k > 0 { WithDataAt(roles, ino, start, k - 1); }
  }

  /** Exactly the blocks below `pos` are in use, and the others are clear. */
  ghost predicate UsedBelow(d: Disk, roles: Roles, pos: nat) {
    (forall b :: b in roles <==> 0 <= b < pos) && (forall b :: pos <= b < |d| ==> d[b] == ZeroBlock())
  }

  /** The data blocks of `ino` are start, ..., start + k - 1. */
  ghost predicate DataAt(roles: Roles, ino: nat, start: nat, k: nat) {
    && (forall b :: start <= b < start + k ==> b in roles && roles[b] == Data(ino, b - start))
    && (forall b :: b in roles && roles[b].Data? && roles[b].ino == ino ==> roles[b].n < k)
  }

  /** The superblock's three fields. */
  predicate SuperIs(b: Block, nblocks: nat, root: nat) {
    Word(b, 0) == 0xC520_2F19 && Word(b, 4) == nblocks && Word(b, 8) == root
  }

  lemma SuperWritten(b: Block, nblocks: nat, root: nat)
    requires nblocks < TWO32 && root < TWO32
    ensures SuperIs(PutWord(PutWord(PutWord(b, 0, FS_MAGIC), 4, nblocks), 8, root), nblocks, root)
  {
    hide Word, PutWord;
    WordPut(b, 0, FS_MAGIC);
    WordPut(PutWord(b, 0, FS_MAGIC), 4, nblocks);
    WordPut(PutWord(PutWord(b, 0, FS_MAGIC), 4, nblocks), 8, root);
  }

  /** Roles right after opendisk: superblock, bitmap, root inode. */
  function FirstRoles(root: nat): (roles: Roles)
    ensures forall b :: b in roles <==> 0 <= b <= root
    ensures forall b :: b in roles ==> roles[b] == if b == root then Inode(root) else if b == 0 then Super else Bitmap
  {
    ReservedRoles(root)[root := Inode(root)]
  }

  function ReservedRoles(k: nat): (roles: Roles)
    ensures forall b :: b in roles <==> 0 <= b < k
    ensures forall b :: b in roles ==> roles[b] == if b == 0 then Super else Bitmap
  {
    if k == 0 then map[] else ReservedRoles(k - 1)[k - 1 := if k == 1 then Super else Bitmap]
  }

  lemma FreshLaid(d: Disk, root: nat)
    requires root == 1 + BitmapBlocks(|d|) && root < |d| <= TWO32
    requires d[root] == PutWord(ZeroBlock(), MODE, MODE_DIR)
    ensures Graph(d, FirstRoles(root)) && IsDir(d[root]) && ModeOf(d[root]) == 0x41FF && AllHeld(d, FirstRoles(root))
    ensures forall r :: Below(r) && r.ino == root ==> Home(d, r) == 0
  {
    hide Word, PutWord, Home, Slot, IsDir, FirstRoles, Child;
    var roles := FirstRoles(root);
    FreshRoot(d, root);
    FreshGraph(d, roles, root);
    hide Graph, BitmapBlocks;
    forall b | b in roles
      ensures Held(d, roles, b)
    {
      if b == root { NewInodeEmpty(d, root, Inode(root)); }
    }
    forall r | Below(r) && r.ino == root
      ensures Home(d, r) == 0
    {
      NewInodeEmpty(d, root, r);
    }
  }

  lemma FreshGraph(d: Disk, roles: Roles, root: nat)
    requires root == 1 + BitmapBlocks(|d|) && root < |d| <= TWO32
    requires forall b :: b in roles <==> 0 <= b <= root
    requires forall b :: b in roles ==> roles[b] == if b == root then Inode(root) else if b == 0 then Super else Bitmap
    requires forall j :: 0 <= j < Slots(Inode(root)) ==> Slot(d, root, Inode(root), j) == 0
    ensures Graph(d, roles)
  {
    hide Slot, Child, BitmapBlocks;
    assert BitmapPlaced(|d|, roles);
    hide BitmapPlaced;
    forall b | b in roles
      ensures b < |d| && (b == 0 <==> roles[b] == Super) && RoleOk(roles, b)
    {
    }
    forall b, j | b in roles && 0 <= j < Slots(roles[b])
      ensures Slot(d, b, roles[b], j) == 0
    {
      assert b == root;
    }
  }

  lemma FreshRoot(d: Disk, root: nat)
    requires 0 < root < |d| && d[root] == PutWord(ZeroBlock(), MODE, MODE_DIR)
    ensures IsDir(d[root]) && ModeOf(d[root]) == 0x41FF
    ensures forall j :: 0 <= j < Slots(Inode(root)) ==> Slot(d, root, Inode(root), j) == 0
  {
    hide Word, PutWord;
    WordPut(ZeroBlock(), MODE, MODE_DIR);
    forall j | 0 <= j < Slots(Inode(root))
      ensures Slot(d, root, Inode(root), j) == 0
    {
      ZeroWord(SlotOff(Inode(root), j));
    }
  }

  // ----- the directory entries being collected, in the memory of startidir

  function EntName(ents: seq<Block>, m: nat): Name
    requires |ents| == 4 && m < MAX_DIR_ENTS
  {
    DirentName(ents[m / BLKDIRENTS], m % BLKDIRENTS)
  }

  function EntInum(ents: seq<Block>, m: nat): nat
    requires |ents| == 4 && m < MAX_DIR_ENTS
  {
    DirentInum(ents[m / BLKDIRENTS], m % BLKDIRENTS)
  }

  /** Every collected entry has its name and leads to a file with its bytes. */
  ghost predicate FilesAre(d: Disk, roles: Roles, root: nat, ents: seq<Block>, names: seq<Name>,
        files: seq<seq<Byte>>) {
    && |ents| == 4 && |names| == |files| < MAX_DIR_ENTS
    && (forall m :: 0 <= m < |names| ==>
          EntName(ents, m) == names[m] && FileIs(d, roles, EntInum(ents, m), files[m]) && EntInum(ents, m) != root)
    && (forall l, m :: 0 <= l < m < |names| ==> EntInum(ents, l) != EntInum(ents, m))
  }

  /** Every inode but the root is the one that some collected entry names. */
  ghost predicate OnlyFiles(roles: Roles, root: nat, ents: seq<Block>, n: nat) {
    |ents| == 4 && n < MAX_DIR_ENTS
    && forall i: nat :: IsInode(roles, i) && i != root ==> exists m :: 0 <= m < n && EntInum(ents, m) == i
  }

  lemma OnlyFilesKept(roles: Roles, roles': Roles, root: nat, ents: seq<Block>, n: nat)
    requires OnlyFiles(roles, root, ents, n) && forall i: nat :: IsInode(roles', i) ==> IsInode(roles, i)
    ensures OnlyFiles(roles', root, ents, n)
  {
    hide EntInum;
  }

  lemma OnlyFilesAdded(roles: Roles, root: nat, ents: seq<Block>, n: nat, name: Name, ino: nat)
    requires OnlyFiles(roles, root, ents, n) && n + 1 < MAX_DIR_ENTS && GoodName(name) && ino < TWO32
    ensures OnlyFiles(roles[ino := Inode(ino)], root, EntsPut(ents, n, name, ino), n + 1)
  {
    hide EntName, EntInum, EntsPut;
    EntsPutAt(ents, n, name, ino);
    EntsPutLength(ents, n, name, ino);
    var ents', roles' := EntsPut(ents, n, name, ino), roles[ino := Inode(ino)];
    forall i: nat | IsInode(roles', i) && i != root
      ensures exists m :: 0 <= m < n + 1 && EntInum(ents', m) == i
    {
      if i == ino {
        assert EntInum(ents', n) == i;
      } else {
        assert IsInode(roles, i);
        var m :| 0 <= m < n && EntInum(ents, m) == i;
        assert EntInum(ents', m) == i;
      }
    }
  }

  function EntsPut(ents: seq<Block>, m: nat, name: Name, ino: nat): seq<Block>
    requires |ents| == 4 && m < MAX_DIR_ENTS && |name| < NAME_MAX && ino < TWO32
  {
    ents[m / BLKDIRENTS := PutDirent(ents[m / BLKDIRENTS], m % BLKDIRENTS, name, ino)]
  }

  lemma EntsPutAt(ents: seq<Block>, m: nat, name: Name, ino: nat)
    requires |ents| == 4 && m < MAX_DIR_ENTS && GoodName(name) && ino < TWO32
    ensures forall l :: 0 <= l < MAX_DIR_ENTS ==>
              && EntName(EntsPut(ents, m, name, ino), l) == (if l == m then name else EntName(ents, l))
              && EntInum(EntsPut(ents, m, name, ino), l) == (if l == m then ino else EntInum(ents, l))
  {
    hide PutDirent, DirentName, DirentInum;
    DirentPut(ents[m / BLKDIRENTS], m % BLKDIRENTS, name, ino);
    forall l | 0 <= l < MAX_DIR_ENTS
      ensures EntName(EntsPut(ents, m, name, ino), l) == (if l == m then name else EntName(ents, l))
      ensures EntInum(EntsPut(ents, m, name, ino), l) == (if l == m then ino else EntInum(ents, l))
    {
      assert m == BLKDIRENTS * (m / BLKDIRENTS) + m % BLKDIRENTS && l == BLKDIRENTS * (l / BLKDIRENTS) + l % BLKDIRENTS;
    }
  }

  /** Work on an inode that is not among the files keeps the files. */
  lemma FilesKept(d: Disk, e: Disk, roles: Roles, roles': Roles, ino: nat, root: nat, ents: seq<Block>,
        names: seq<Name>, files: seq<seq<Byte>>)
    requires Graph(d, roles) && FilesAre(d, roles, root, ents, names, files) && OthersKept(d, e, roles, roles', ino)
    requires ino !in roles || ino == root
    ensures FilesAre(e, roles', root, ents, names, files)
  {
    hide EntName, EntInum, Graph, OthersKept, FileIs;
    forall m | 0 <= m < |names|
      ensures FileIs(e, roles', EntInum(ents, m), files[m])
    {
      FileIsInode(d, roles, EntInum(ents, m), files[m]);
      FileIsKept(d, e, roles, roles', ino, EntInum(ents, m), files[m]);
    }
  }

  lemma FileIsInode(d: Disk, roles: Roles, ino: nat, data: seq<Byte>)
    requires FileIs(d, roles, ino, data)
    ensures ino in roles && IsInode(roles, ino) && ino < |d|
  {
  }

  /** One more file and its entry. */
  lemma FilesAdded(d: Disk, roles: Roles, root: nat, ents: seq<Block>, names: seq<Name>, files: seq<seq<Byte>>,
        name: Name, ino: nat, data: seq<Byte>)
    requires FilesAre(d, roles, root, ents, names, files) && |names| + 1 < MAX_DIR_ENTS && GoodName(name) && ino < TWO32
    requires FileIs(d, roles, ino, data) && ino != root && forall m :: 0 <= m < |names| ==> EntInum(ents, m) != ino
    ensures FilesAre(d, roles, root, EntsPut(ents, |names|, name, ino), names + [name], files + [data])
    ensures EntInum(EntsPut(ents, |names|, name, ino), |names|) == ino
  {
    hide EntName, EntInum, EntsPut, FileIs;
    EntsPutAt(ents, |names|, name, ino);
    EntsPutLength(ents, |names|, name, ino);
  }

  lemma EntsPutLength(ents: seq<Block>, m: nat, name: Name, ino: nat)
    requires |ents| == 4 && m < MAX_DIR_ENTS && |name| < NAME_MAX && ino < TWO32
    ensures |EntsPut(ents, m, name, ino)| == 4
  {
  }

  /** Inode `ino` is a regular file with exactly these bytes; everything after them is zero. */
  ghost predicate FileIs(d: Disk, roles: Roles, ino: nat, data: seq<Byte>) {
    && IsInode(roles, ino) && ino < |d| && SizeOf(d[ino]) == |data| && !IsDir(d[ino]) && ModeOf(d[ino]) == 0x8180
    && forall n :: 0 <= n < MAXBLOCKS ==> FileBlock(d, ino, n) == PadBlock(data, n)
  }

  class Formatter {
    const nblocks: nat
    const bitmap: FreeMap
    var blocks: Disk
    var diskpos: nat
    var root: nat                   // iroot->inode
    var ents: seq<Block>            // iroot->ents
    var n: nat                      // iroot->n
    ghost var roles: Roles

    /** A truncated image file and the (uninitialized) memory of startidir. */
    constructor (nblocks: nat, ents: seq<Block>)
      ensures this.nblocks == nblocks && this.ents == ents && fresh(bitmap) && fresh(bitmap.words)
      ensures diskpos == 0 && n == 0 && roles == map[]
      ensures bitmap.Valid() && bitmap.nblocks == nblocks == |blocks|
      ensures forall b :: 0 <= b < nblocks ==> bitmap.Free()[b]
      ensures forall b :: 0 <= b < nblocks ==> blocks[b] == ZeroBlock()
    {
      this.nblocks, this.ents := nblocks, ents;
      bitmap := new FreeMap(nblocks);
      blocks := Repeat<Block>(ZeroBlock(), nblocks);
      diskpos, root, n, roles := 0, 0, 0, map[];
    }

    /** blockof(diskpos) */
    function Pos(): nat
      reads this`diskpos
    {
      diskpos / BLKSIZE
    }

    ghost predicate Shape()
      reads this, bitmap.words
    {
      && |blocks| == nblocks == bitmap.nblocks && nblocks * BLKSIZE < TWO32 && diskpos % BLKSIZE == 0 && Pos() < nblocks
      && bitmap.Valid() && forall b :: 0 <= b < nblocks ==> bitmap.Free()[b]
    }

    /** alloc(): false means "out of disk blocks". */
    method Alloc(bytes: nat) returns (ok: bool, start: nat)
      requires diskpos % BLKSIZE == 0
      modifies this`diskpos
      ensures start == old(Pos()) && diskpos == old(diskpos) + RoundUp(bytes) && diskpos % BLKSIZE == 0
      ensures Pos() == old(Pos()) + BlocksFor(bytes) && (ok <==> Pos() < nblocks)
    {
      start := diskpos / BLKSIZE;
      diskpos := diskpos + RoundUp(bytes);
      ok := diskpos / BLKSIZE < nblocks;
    }

    /** State while the pointers of `ino` are being written: `i` of `k` data blocks are linked.
        `d` and `ro` are the disk and roles before the first pointer. */
    ghost predicate Linking(d: Disk, ro: Roles, ino: nat, start: nat, i: nat, k: nat)
      reads this, bitmap.words
    {
      && Shape() && UsedBelow(blocks, roles, Pos()) && Extends(ro, roles) && DataAt(roles, ino, start, k)
      && i <= k < MAXBLOCKS && start > 0 && Partial(blocks, roles, ino, start, i) && OnlyLinked(d, blocks, ro, ino)
      && forall x: nat :: IsInode(roles, x) ==> IsInode(ro, x)
    }

    /** Write the pointer to data block start + i. */
    method PutData(ino: nat, start: nat, i: nat, ghost k: nat, p: nat, off: nat, ghost d: Disk, ghost ro: Roles)
      requires Linking(d, ro, ino, start, i, k) && i < k && p == Home(blocks, Parent(Data(ino, i))) != 0
      requires off == SlotOff(Parent(Data(ino, i)), Index(Data(ino, i)))
      modifies this`blocks
      ensures Linking(d, ro, ino, start, i + 1, k)
      ensures forall r :: InFile(r) && IsInode(roles, r.ino) && !r.Data? ==> Home(blocks, r) == Home(old(blocks), r)
    {
      hide Partial, OnlyLinked, Home, Parent, Index, Word, PutWord, Graph;
      ghost var before := blocks;
      LinkData(blocks, roles, ino, start, i, p);
      blocks := blocks[p := PutWord(blocks[p], off, start + i)];
      OnlyLinkedTransitive(d, before, blocks, ro, roles, ino);
    }

    /** Allocate a pointer block and write the pointer to it. */
    method NewPointer(ino: nat, ghost start: nat, ghost i: nat, ghost k: nat, ghost c: Role, p: nat, off: nat,
          ghost d: Disk, ghost ro: Roles)
      returns (ok: bool, b: nat)
      requires Linking(d, ro, ino, start, i, k) && Below(c) && !c.Data? && c.ino == ino && Home(blocks, c) == 0
      requires p == Home(blocks, Parent(c)) != 0 && off == SlotOff(Parent(c), Index(c))
      modifies this`blocks, this`roles, this`diskpos
      ensures Pos() == old(Pos()) + 1 && (ok <==> Pos() < nblocks)
      ensures ok ==> Linking(d, ro, ino, start, i, k) && b != 0 && Extends(old(roles), roles)
      ensures ok ==> forall r ::
                InFile(r) && IsInode(roles, r.ino) && r.ino == ino ==>
                  Home(blocks, r) == if r == c then b else Home(old(blocks), r)
    {
      hide Partial, OnlyLinked, Home, Parent, Index, Word, PutWord, Graph, UsedBelow, DataAt, Child, RoundUp, Rank,
        ZeroBlock;
      ghost var before, ro1 := blocks, roles;
      OneBlock();
      UsedBasics(blocks, roles, Pos());
      ok, b := Alloc(BLKSIZE);
      if !ok {
        return;
      }
      PartialInode(blocks, roles, ino, start, i);
      ghost var roles' := roles[b := c];
      LinkPointer(blocks, roles, ino, start, i, c, b, p, roles');
      blocks := blocks[p := PutWord(blocks[p], off, b)];
      roles := roles';
      PointerUsed(before, blocks, ro1, p, b, c, roles', ino, start, k);
      OnlyLinkedTransitive(d, before, blocks, ro, ro1, ino);
    }

    /** finishinode: size, then direct, indirect and doubly-indirect pointers to the `len` bytes of
        data at block `start`. */
    method FinishInode(ino: nat, start: nat, len: nat) returns (ok: bool)
      requires Shape() && UsedBelow(blocks, roles, Pos()) && Partial(blocks, roles, ino, start, 0)
      requires start > 0 && len < TWO32 && BlocksFor(len) < MAXBLOCKS && DataAt(roles, ino, start, BlocksFor(len))
      requires forall r :: Below(r) && r.ino == ino ==> Home(blocks, r) == 0
      modifies this`blocks, this`roles, this`diskpos
      ensures ok <==> old(Pos()) + PointerBlocks(BlocksFor(len)) < nblocks
      ensures ok ==> Pos() == old(Pos()) + PointerBlocks(BlocksFor(len))
      ensures ok ==> ino < |old(blocks)|
                     && Linking(SizeSet(old(blocks), ino, len), old(roles), ino, start, BlocksFor(len), BlocksFor(len))
    {
      hide Partial, OnlyLinked, Home, Word, PutWord, Graph, UsedBelow, DataAt;
      PartialInode(blocks, roles, ino, start, 0);
      SizeKeepsPartial(blocks, roles, ino, start, 0, len);
      ghost var d, ro := SizeSet(blocks, ino, len), roles;
      OnlyLinkedRefl(d, roles, ino);
      SizeKeepsShape(blocks, roles, ino, len, Pos());
      blocks := blocks[ino := PutWord(blocks[ino], SIZE, len)];
      var k := RoundUp(len) / BLKSIZE;
      // direct blocks
      var i := 0;
      while i < k && i < N_DIRECT
        invariant i <= k && i <= N_DIRECT && Linking(d, ro, ino, start, i, k) && diskpos == old(diskpos)
        invariant forall r :: Below(r) && r.ino == ino && !r.Data? ==> Home(blocks, r) == 0
      {
        PartialInode(blocks, roles, ino, start, i);
        PutData(ino, start, i, k, ino, DIRECT + 4 * i, d, ro);
        i := i + 1;
      }
      if i == N_DIRECT {
        ok := FillIndirect(ino, start, i, k, d, ro);
        return;
      }
      ok := true;
    }

    /** The indirect block and what comes after it. */
    method FillIndirect(ino: nat, start: nat, i0: nat, k: nat, ghost d: Disk, ghost ro: Roles) returns (ok: bool)
      requires Linking(d, ro, ino, start, i0, k) && i0 == N_DIRECT
      requires forall r :: Below(r) && r.ino == ino && !r.Data? ==> Home(blocks, r) == 0
      modifies this`blocks, this`roles, this`diskpos
      ensures ok <==> old(Pos()) + PointerBlocks(k) < nblocks
      ensures ok ==> Linking(d, ro, ino, start, k, k) && Pos() == old(Pos()) + PointerBlocks(k)
    {
      hide Partial, OnlyLinked, Home, Word, PutWord, Graph, Shape, UsedBelow, Extends, DataAt, Pos;
      var i := i0;
      PartialInode(blocks, roles, ino, start, i);
      var ind;
      ok, ind := NewPointer(ino, start, i, k, Ind(ino), ino, DIRECT + 4 * N_DIRECT, d, ro);
      if !ok {
        return;
      }
      PartialInode(blocks, roles, ino, start, i);
      ghost var pos := Pos();
      while i < k && i < N_DIRECT + N_INDIRECT
        invariant N_DIRECT <= i <= k && i <= N_DIRECT + N_INDIRECT && Pos() == pos
        invariant Linking(d, ro, ino, start, i, k) && IsInode(roles, ino)
        invariant Home(blocks, Ind(ino)) == ind != 0
        invariant forall r :: Below(r) && r.ino == ino && !r.Data? && r != Ind(ino) ==> Home(blocks, r) == 0
      {
        PutData(ino, start, i, k, ind, 4 * (i - N_DIRECT), d, ro);
        i := i + 1;
      }
      if i == N_DIRECT + N_INDIRECT {
        ok := FillDouble(ino, start, i, k, d, ro);
      }
    }

    /** The doubly-indirect block and all its second-level blocks. */
    method FillDouble(ino: nat, start: nat, i0: nat, k: nat, ghost d: Disk, ghost ro: Roles) returns (ok: bool)
      requires Linking(d, ro, ino, start, i0, k) && i0 == N_DIRECT + N_INDIRECT
      requires forall r :: Below(r) && r.ino == ino && !r.Data? && r != Ind(ino) ==> Home(blocks, r) == 0
      modifies this`blocks, this`roles, this`diskpos
      ensures ok <==> old(Pos()) + 1 + N_INDIRECT < nblocks
      ensures ok ==> Linking(d, ro, ino, start, k, k) && Pos() == old(Pos()) + 1 + N_INDIRECT
    {
      hide Partial, OnlyLinked, Home, Word, PutWord, Graph, Shape, UsedBelow, Extends, DataAt, Pos;
      var i := i0;
      PartialInode(blocks, roles, ino, start, i);
      var inind;
      ok, inind := NewPointer(ino, start, i, k, Dbl(ino), ino, DIRECT + 4 * (N_DIRECT + 1), d, ro);
      if !ok {
        return;
      }
      PartialInode(blocks, roles, ino, start, i);
      var j := 0;
      while j < N_INDIRECT
        invariant 0 <= j <= N_INDIRECT && N_DIRECT + N_INDIRECT <= i <= k && Linking(d, ro, ino, start, i, k)
        invariant Home(blocks, Dbl(ino)) == inind != 0 && Pos() == old(Pos()) + 1 + j < nblocks
        invariant i == k || i == N_DIRECT + N_INDIRECT + j * N_INDIRECT
        invariant i <= N_DIRECT + N_INDIRECT + j * N_INDIRECT
        invariant forall l :: j <= l < N_INDIRECT ==> Home(blocks, DblInd(ino, l)) == 0
      {
        var ind;
        ok, ind := NewPointer(ino, start, i, k, DblInd(ino, j), inind, 4 * j, d, ro);
        if !ok {
          return;
        }
        PartialInode(blocks, roles, ino, start, i);
        i := FillSecondLevel(ino, start, i, k, j, ind, inind, d, ro);
        j := j + 1;
      }
      ok := true;
    }

    /** The load loop of one second-level block. */
    method FillSecondLevel(ino: nat, start: nat, i0: nat, k: nat, j: nat, ind: nat, ghost inind: nat, ghost d: Disk,
          ghost ro: Roles) returns (i: nat)
      requires Linking(d, ro, ino, start, i0, k) && j < N_INDIRECT && N_DIRECT + N_INDIRECT <= i0
      requires i0 == k || i0 == N_DIRECT + N_INDIRECT + j * N_INDIRECT
      requires i0 <= N_DIRECT + N_INDIRECT + j * N_INDIRECT
      requires Home(blocks, DblInd(ino, j)) == ind != 0 && Home(blocks, Dbl(ino)) == inind
      requires forall l :: j < l < N_INDIRECT ==> Home(blocks, DblInd(ino, l)) == 0
      modifies this`blocks
      ensures Linking(d, ro, ino, start, i, k) && i0 <= i
      ensures i == k || i == N_DIRECT + N_INDIRECT + (j + 1) * N_INDIRECT
      ensures i <= N_DIRECT + N_INDIRECT + (j + 1) * N_INDIRECT
      ensures Home(blocks, Dbl(ino)) == inind && forall l :: j < l < N_INDIRECT ==> Home(blocks, DblInd(ino, l)) == 0
    {
      hide Partial, OnlyLinked, Home, Word, PutWord, Graph, Shape, UsedBelow, Extends, DataAt;
      i := i0;
      PartialInode(blocks, roles, ino, start, i);
      while i < k && i < N_DIRECT + N_INDIRECT + (j + 1) * N_INDIRECT
        invariant i0 <= i <= k && i <= N_DIRECT + N_INDIRECT + (j + 1) * N_INDIRECT
        invariant i == k || i >= N_DIRECT + N_INDIRECT + j * N_INDIRECT
        invariant Linking(d, ro, ino, start, i, k) && IsInode(roles, ino)
        invariant Home(blocks, DblInd(ino, j)) == ind && Home(blocks, Dbl(ino)) == inind
        invariant forall l :: j < l < N_INDIRECT ==> Home(blocks, DblInd(ino, l)) == 0
      {
        SecondLevelSlot(ino, i, j);
        PutData(ino, start, i, k, ind, 4 * (i - N_DIRECT - N_INDIRECT - j * N_INDIRECT), d, ro);
        i := i + 1;
      }
    }

    // ----- the directory being collected

    /** Every block below diskpos has its role and is held; the files written so far are complete;
        the root directory is still empty on disk. */
    ghost predicate InProgress(names: seq<Name>, files: seq<seq<Byte>>)
      reads this, bitmap.words
    {
      && Laid() && n == |names| && FilesAre(blocks, roles, root, ents, names, files)
      && OnlyFiles(roles, root, ents, n)
    }

    ghost predicate Laid()
      reads this, bitmap.words
    {
      Shape() && UsedBelow(blocks, roles, Pos()) && Graph(blocks, roles) && AllHeld(blocks, roles)
      && RootOk(blocks, roles, root, nblocks)
    }

    /** opendisk() */
    method OpenDisk() returns (ok: bool)
      requires diskpos == 0 && n == 0 && roles == map[] && nblocks * BLKSIZE < TWO32 && |ents| == 4
      requires bitmap.Valid() && bitmap.nblocks == nblocks == |blocks|
      requires forall b :: 0 <= b < nblocks ==> bitmap.Free()[b]
      requires forall b :: 0 <= b < nblocks ==> blocks[b] == ZeroBlock()
      modifies this`blocks, this`roles, this`diskpos, this`root
      ensures ok <==> 2 + BitmapBlocks(nblocks) < nblocks
      ensures ok ==> InProgress([], []) && Pos() == 2 + BitmapBlocks(nblocks)
    {
      hide Word, PutWord, Home, Graph, IsDir, SuperIs, RoundUp, FirstRoles, FilesAre, AllHeld, RootOk, UsedBelow,
        ZeroBlock;
      OneBlock();
      BitmapSize(nblocks);
      var super;
      ok, super := Alloc(BLKSIZE);
      if !ok {
        return;
      }
      var nbitblocks := (nblocks + BLKBITSIZE - 1) / BLKBITSIZE;
      var map0;
      ok, map0 := Alloc(nbitblocks * BLKSIZE);
      if !ok {
        return;
      }
      ok, root := Alloc(BLKSIZE);
      if !ok {
        return;
      }
      blocks := blocks[root := PutWord(blocks[root], MODE, MODE_DIR)];
      SuperWritten(blocks[super], nblocks, root);
      blocks := blocks[super := PutWord(PutWord(PutWord(blocks[super], 0, FS_MAGIC), 4, nblocks), 8, root)];
      roles := FirstRoles(root);
      FreshLaid(blocks, root);
      FreshStart(blocks, root, nblocks, ents);
    }

    /** idiradd(): a new, empty file inode and its directory entry. */
    method IDirAdd(name: Name, ghost names: seq<Name>, ghost files: seq<seq<Byte>>) returns (ok: bool, ino: nat)
      requires InProgress(names, files) && n + 1 < MAX_DIR_ENTS && GoodName(name)
      modifies this`blocks, this`roles, this`diskpos, this`ents, this`n
      ensures Pos() == old(Pos()) + 1 && (ok <==> Pos() < nblocks)
      ensures ok ==> InProgress(names + [name], files + [[]]) && ino == EntInum(ents, n - 1)
      ensures ok ==> forall r :: Below(r) && r.ino == ino ==> Home(blocks, r) == 0
    {
      hide Word, PutWord, Home, Graph, IsDir, SuperIs, PutDirent, FilesAre, EntInum, FileIs, OthersKept, AllHeld,
        RootOk, RoundUp, OnlyFiles;
      OneBlock();
      var out := n;
      n := n + 1;
      ghost var d, ro, size := blocks, roles, |ents|;
      FilesCount(d, ro, root, ents, names, files);
      RootInUse(d, ro, root, nblocks);
      GraphZero(d, ro);
      ok, ino := Alloc(BLKSIZE);
      if !ok {
        return;
      }
      InodeAdded(d, ro, ino);
      blocks := blocks[ino := PutWord(blocks[ino], MODE, MODE_FILE)];
      roles := roles[ino := Inode(ino)];
      FilesKept(d, blocks, ro, roles, ino, root, ents, names, files);
      FilesAdded(blocks, roles, root, ents, names, files, name, ino, []);
      OnlyFilesAdded(ro, root, ents, out, name, ino);
      ents := ents[out / BLKDIRENTS := PutDirent(ents[out / BLKDIRENTS], out % BLKDIRENTS, name, ino)];
      NewFileNotDir(blocks, roles, ino);
      RootKept(d, blocks, ro, roles, ino, root, nblocks);
    }

    /** readn(): the file's bytes go to the blocks from `start` on. */
    method ReadN(start: nat, data: seq<Byte>)
      requires |data| + BLKSIZE <= TWO32 && start + BlocksFor(|data|) <= |blocks|
      requires forall b :: start <= b < |blocks| ==> blocks[b] == ZeroBlock()
      modifies this`blocks
      ensures |blocks| == |old(blocks)|
      ensures forall b :: 0 <= b < |blocks| ==>
                blocks[b] == if start <= b < start + BlocksFor(|data|) then PadBlock(data, b - start)
                else old(blocks)[b]
    {
      hide PadBlock, RoundUp, PutBytes, ZeroBlock;
      BlocksCover(|data|);
      var k := BlocksFor(|data|);
      var i := 0;
      while i < k
        invariant 0 <= i <= k && |blocks| == |old(blocks)|
        invariant forall b :: 0 <= b < |blocks| ==>
                    blocks[b] == if start <= b < start + i then PadBlock(data, b - start) else old(blocks)[b]
      {
        var to := if BLKSIZE * (i + 1) < |data| then BLKSIZE * (i + 1) else |data|;
        PadBlockIs(data, i, to);
        blocks := blocks[start + i := PutBytes(blocks[start + i], 0, data[BLKSIZE * i..to])];
        i := i + 1;
      }
    }

    /** The second half of writeinode(): data blocks, then the inode that points to them. */
    method StoreData(ino: nat, data: seq<Byte>) returns (ok: bool)
      requires Laid() && IsInode(roles, ino) && ino < |blocks|
      requires !IsDir(blocks[ino]) && ModeOf(blocks[ino]) == 0x8180 && ino != root && |data| + BLKSIZE <= TWO32
      requires forall r :: Below(r) && r.ino == ino ==> Home(blocks, r) == 0
      modifies this`blocks, this`roles, this`diskpos
      ensures ok <==> old(Pos()) + FileCost(|data|) < nblocks
      ensures ok ==> Laid() && OthersKept(old(blocks), blocks, old(roles), roles, ino)
                     && FileIs(blocks, roles, ino, data)
      ensures ok ==> Pos() == old(Pos()) + FileCost(|data|)
      ensures ok ==> forall x: nat :: IsInode(roles, x) ==> IsInode(old(roles), x)
    {
      hide Word, PutWord, Home, Graph, IsDir, SuperIs, FileIs, OthersKept, AllHeld, RootOk, RoundUp, PadBlock,
        Partial, OnlyLinked, WithData, DataAt;
      ghost var d, ro := blocks, roles;
      GraphZero(d, ro);
      var start;
      ok, start := Alloc(|data|);
      if !ok {
        return;
      }
      ReadN(start, data);
      ghost var k := BlocksFor(|data|);
      SmallDisk(start, k, nblocks);
      roles := WithData(ro, ino, start, k);
      DataRegion(d, blocks, ro, ino, start, k, roles);
      UsedGrows(d, blocks, ro, ino, start, k, roles);
      ghost var d1, ro1 := blocks, roles;
      ok := FinishInode(ino, start, |data|);
      if !ok {
        return;
      }
      PointersDone(d, ro, d1, ro1, blocks, roles, ino, start, k, |data|);
      FileDone(d1, blocks, roles, ino, start, k, data);
      RootKept(d, blocks, ro, roles, ino, root, nblocks);
    }

    /** writeinode(): the file named by the last element of `path`. */
    method WriteInode(path: seq<Byte>, data: seq<Byte>, ghost names: seq<Name>,
          ghost files: seq<seq<Byte>>) returns (ok: bool)
      requires InProgress(names, files) && n + 1 < MAX_DIR_ENTS && GoodName(BaseName(path)) && |data| + BLKSIZE <= TWO32
      modifies this`blocks, this`roles, this`diskpos, this`ents, this`n
      ensures ok <==> old(Pos()) + 1 + FileCost(|data|) < nblocks
      ensures ok ==> InProgress(names + [BaseName(path)], files + [data]) && Pos() == old(Pos()) + 1 + FileCost(|data|)
    {
      hide Home, Graph, FilesAre, EntInum, FileIs, OthersKept, AllHeld, RootOk, BaseName, Shape, UsedBelow, OnlyFiles,
        Pos, FileCost;
      var name := BaseName(path);
      var ino;
      ok, ino := IDirAdd(name, names, files);
      if !ok {
        return;
      }
      ghost var d, ro, names1, files1 := blocks, roles, names + [name], files + [[]];
      NewestFile(d, ro, root, ents, names1, files1);
      ok := StoreData(ino, data);
      if !ok {
        return;
      }
      OnlyFilesKept(ro, roles, root, ents, n);
      assert files1[..|files1| - 1] == files;
      FilesReplaced(d, blocks, ro, roles, root, ents, names1, files1, ino, data, files + [data]);
    }

    /** memmove of the first `size` bytes of the collected entries. */
    method MoveEnts(start: nat, size: nat)
      requires |ents| == 4 && size == n * DIRENT && n < MAX_DIR_ENTS && start + BlocksFor(size) <= |blocks|
      requires forall b :: start <= b < |blocks| ==> blocks[b] == ZeroBlock()
      modifies this`blocks
      ensures |blocks| == |old(blocks)|
      ensures forall b :: 0 <= b < |blocks| ==>
                blocks[b] == if start <= b < start + BlocksFor(size) then DirBlock(ents, n, b - start)
                else old(blocks)[b]
    {
      hide DirBlock, RoundUp, PutBytes, ZeroBlock;
      DirSizes(n);
      BlocksCover(size);
      var k := BlocksFor(size);
      var i := 0;
      while i < k
        invariant 0 <= i <= k && |blocks| == |old(blocks)|
        invariant forall b :: 0 <= b < |blocks| ==>
                    blocks[b] == if start <= b < start + i then DirBlock(ents, n, b - start) else old(blocks)[b]
      {
        var m := if size - BLKSIZE * i < BLKSIZE then size - BLKSIZE * i else BLKSIZE;
        DirBlockIs(ents, n, i, m);
        blocks := blocks[start + i := PutBytes(blocks[start + i], 0, ents[i][..m])];
        i := i + 1;
      }
    }

    /** finishidir(): the root directory's blocks, then its pointers. */
    method FinishIDir(ghost names: seq<Name>, ghost files: seq<seq<Byte>>) returns (ok: bool)
      requires InProgress(names, files)
      modifies this`blocks, this`roles, this`diskpos
      ensures ok ==> Shape() && UsedBelow(blocks, roles, Pos()) && Graph(blocks, roles) && AllHeld(blocks, roles)
                     && |names| == n
      ensures ok ==> FilesAre(blocks, roles, root, ents, names, files)
                     && RootDone(blocks, roles, root, nblocks, ents, n)
      ensures ok ==> OnlyFiles(roles, root, ents, n) && Pos() == old(Pos()) + FileCost(|names| * DIRENT)
      ensures ok <==> old(Pos()) + FileCost(|names| * DIRENT) < nblocks
    {
      hide Word, PutWord, Home, Graph, IsDir, SuperIs, FilesAre, OthersKept, AllHeld, RootOk, RoundUp, Partial,
        OnlyLinked, WithData, DataAt, DirBlock, OnlyFiles;
      ghost var d, ro := blocks, roles;
      GraphZero(d, ro);
      FilesCount(d, ro, root, ents, names, files);
      RootInUse(d, ro, root, nblocks);
      var size := n * DIRENT;
      DirSizes(n);
      var start;
      ok, start := Alloc(size);
      if !ok {
        return;
      }
      MoveEnts(start, size);
      ghost var k := BlocksFor(size);
      roles := WithData(ro, root, start, k);
      DataRegion(d, blocks, ro, root, start, k, roles);
      UsedGrows(d, blocks, ro, root, start, k, roles);
      ghost var d1, ro1 := blocks, roles;
      ok := FinishInode(root, start, RoundUp(size));
      if !ok {
        return;
      }
      PointersDone(d, ro, d1, ro1, blocks, roles, root, start, k, RoundUp(size));
      FilesKept(d, blocks, ro, roles, root, root, ents, names, files);
      RootFinished(d, d1, blocks, ro, roles, root, nblocks, ents, n, start, k);
      OnlyFilesKept(ro, roles, root, ents, n);
    }

    /** finishdisk(): clear the bits of every block below diskpos. */
    method FinishDisk()
      requires Shape()
      modifies bitmap.words
      ensures bitmap.Valid() && forall b :: 0 <= b < nblocks ==> (bitmap.Free()[b] <==> b >= Pos())
    {
      for i := 0 to diskpos / BLKSIZE
        invariant bitmap.Valid() && forall b :: 0 <= b < nblocks ==> (bitmap.Free()[b] <==> b >= i)
      {
        bitmap.ClearBlock(i);
      }
    }
  }

  /** A block of the root directory: collected entries, zeros behind the last. */
  function DirBlock(ents: seq<Block>, n: nat, i: nat): Block
    requires |ents| == 4 && n < MAX_DIR_ENTS
  {
    if i >= 4 || n * DIRENT <= BLKSIZE * i then ZeroBlock()
    else
      var rest := n * DIRENT - BLKSIZE * i;
      PutBytes(ZeroBlock(), 0, ents[i][..if rest < BLKSIZE then rest else BLKSIZE])
  }

  lemma DirBlockIs(ents: seq<Block>, n: nat, i: nat, m: nat)
    requires |ents| == 4 && n < MAX_DIR_ENTS && i < 4 && BLKSIZE * i < n * DIRENT
    requires m == if n * DIRENT - BLKSIZE * i < BLKSIZE then n * DIRENT - BLKSIZE * i else BLKSIZE
    ensures PutBytes(ZeroBlock(), 0, ents[i][..m]) == DirBlock(ents, n, i)
  {
  }

  lemma DirSizes(n: nat)
    requires n < MAX_DIR_ENTS
    ensures n * DIRENT + BLKSIZE <= TWO32 && RoundUp(n * DIRENT) < TWO32
    ensures BlocksFor(RoundUp(n * DIRENT)) == BlocksFor(n * DIRENT) <= 4
    ensures RoundUp(n * DIRENT) == BLKSIZE * BlocksFor(n * DIRENT) && n <= BLKDIRENTS * BlocksFor(n * DIRENT)
  {
  }

  /** The root directory on disk: whole blocks holding the collected entries, and nothing behind;
      it is the only directory. */
  ghost predicate RootDone(d: Disk, roles: Roles, root: nat, nblocks: nat, ents: seq<Block>, n: nat) {
    && |ents| == 4 && n < MAX_DIR_ENTS && 0 < |d| && SuperIs(d[0], nblocks, root)
    && IsInode(roles, root) && root < |d| && IsDir(d[root]) && ModeOf(d[root]) == 0x41FF
    && SizeOf(d[root]) == BLKSIZE * BlocksFor(n * DIRENT)
    && (forall i :: 0 <= i < MAXBLOCKS ==>
          FileBlock(d, root, i) == if i < BlocksFor(n * DIRENT) then DirBlock(ents, n, i) else ZeroBlock())
    && (forall i :: 0 <= i < BlocksFor(n * DIRENT) && i < MAXBLOCKS ==> Home(d, Data(root, i)) != 0)
    && (forall i: nat :: IsInode(roles, i) && i < |d| && i != root ==> !IsDir(d[i]))
  }

  lemma RootFinished(d: Disk, d1: Disk, e: Disk, ro: Roles, roles: Roles, root: nat, nblocks: nat, ents: seq<Block>,
        n: nat, start: nat, k: nat)
    requires RootOk(d, ro, root, nblocks) && Graph(d, ro)
    requires OthersKept(d, e, ro, roles, root) && |ents| == 4 && n < MAX_DIR_ENTS
    requires forall i: nat :: IsInode(roles, i) ==> IsInode(ro, i)
    requires root < |d1| == |e| && d1[root] == d[root] && IsDir(e[root]) == IsDir(d1[root])
    requires ModeOf(e[root]) == ModeOf(d1[root])
    requires SizeOf(e[root]) == RoundUp(n * DIRENT)
    requires k == BlocksFor(n * DIRENT) && start + k <= |d1|
    requires forall b :: start <= b < start + k ==> d1[b] == DirBlock(ents, n, b - start)
    requires forall i :: 0 <= i < MAXBLOCKS ==> FileBlock(e, root, i) == if i < k then d1[start + i] else ZeroBlock()
    requires k < MAXBLOCKS && forall i :: 0 <= i < k ==> Home(e, Data(root, i)) != 0
    ensures RootDone(e, roles, root, nblocks, ents, n)
  {
    hide Word, Home, IsDir, SuperIs, SizeOf, FileBlock, DirBlock, RoundUp;
    DirSizes(n);
  }

  /** strrchr(name, '/') + 1, or the whole name. */
  function BaseName(path: seq<Byte>): (r: Name)
    ensures |r| <= |path| && r == path[|path| - |r|..] && SLASH !in r
  {
    if path == [] || path[|path| - 1] == SLASH then [] else BaseName(path[..|path| - 1]) + [path[|path| - 1]]
  }

  lemma {:induction false} AfterLastSlash(path: seq<Byte>)
    ensures |BaseName(path)| < |path| ==> path[|path| - |BaseName(path)| - 1] == SLASH
  {
    if path != [] && path[|path| - 1] != SLASH { AfterLastSlash(path[..|path| - 1]); }
  }

  /** `path` names `name` in some directory, or in the current one. */
  ghost predicate EndsIn(path: seq<Byte>, name: Name) {
    SLASH !in name && (path == name || exists dir: seq<Byte> :: path == dir + [SLASH] + name)
  }

  /** A path has only one such name. */
  lemma OneEnding(path: seq<Byte>, a: Name, b: Name)
    requires EndsIn(path, a) && EndsIn(path, b) && |a| <= |b|
    ensures a == b
  {
    if path != a {
      var dir: seq<Byte> :| path == dir + [SLASH] + a;
      assert path[|dir|] == SLASH;
      EndingChars(path, b);
    }
  }

  lemma EndingChars(path: seq<Byte>, name: Name)
    requires EndsIn(path, name)
    ensures |name| <= |path|
    ensures forall k :: |path| - |name| <= k < |path| ==> path[k] == name[k - (|path| - |name|)] != SLASH
    ensures name == path[|path| - |name|..]
  {
  }

  /** Everything after the last slash, and the whole path when there is none. */
  lemma BaseNameIs(path: seq<Byte>, name: Name)
    ensures EndsIn(path, name) <==> name == BaseName(path)
  {
    hide BaseName, EndsIn;
    BaseNameEnds(path);
    var base := BaseName(path);
    if EndsIn(path, name) {
      if |name| <= |base| { OneEnding(path, name, base); } else { OneEnding(path, base, name); }
    }
  }

  lemma BaseNameEnds(path: seq<Byte>)
    ensures EndsIn(path, BaseName(path))
  {
    hide BaseName;
    var base := BaseName(path);
    AfterLastSlash(path);
    if |base| < |path| {
      assert path == path[..|path| - |base| - 1] + [SLASH] + base;
    } else {
      assert path[0..] == path;
    }
  }

  lemma BlocksCover(len: nat)
    requires len + BLKSIZE <= TWO32
    ensures len <= BLKSIZE * BlocksFor(len) < len + BLKSIZE
  {
  }

  lemma PadBlockIs(data: seq<Byte>, i: nat, to: nat)
    requires BLKSIZE * i < |data| && to == if BLKSIZE * (i + 1) < |data| then BLKSIZE * (i + 1) else |data|
    ensures PutBytes(ZeroBlock(), 0, data[BLKSIZE * i..to]) == PadBlock(data, i)
  {
    if BLKSIZE * (i + 1) <= |data| {
      assert PutBytes(ZeroBlock(), 0, data[BLKSIZE * i..to]) == data[BLKSIZE * i..BLKSIZE * (i + 1)];
    } else {
      assert data[BLKSIZE * i..to] == data[BLKSIZE * i..];
    }
  }

  lemma SmallDisk(start: nat, k: nat, nblocks: nat)
    requires start + k < nblocks && nblocks * BLKSIZE < TWO32
    ensures k < MAXBLOCKS
  {
  }

  lemma NewestFile(d: Disk, roles: Roles, root: nat, ents: seq<Block>, names: seq<Name>, files: seq<seq<Byte>>)
    requires FilesAre(d, roles, root, ents, names, files) && |names| > 0
    ensures |ents| == 4 && |names| < MAX_DIR_ENTS
    ensures var ino := EntInum(ents, |names| - 1); IsInode(roles, ino) && ino < |d| && !IsDir(d[ino]) && ino != root
    ensures ModeOf(d[EntInum(ents, |names| - 1)]) == 0x8180
  {
  }

  /** New data blocks, not yet linked. */
  lemma DataRegion(d: Disk, e: Disk, roles: Roles, ino: nat, start: nat, k: nat, roles': Roles)
    requires Graph(d, roles) && AllHeld(d, roles) && UsedBelow(d, roles, start)
    requires |d| == |e| && start + k <= |d| && k < MAXBLOCKS
    requires forall b :: 0 <= b < start ==> e[b] == d[b]
    requires IsInode(roles, ino) && (forall r :: Below(r) && r.ino == ino ==> Home(d, r) == 0)
    requires roles' == WithData(roles, ino, start, k)
    ensures Graph(e, roles') && Partial(e, roles', ino, start, 0)
    ensures DataAt(roles', ino, start, k) && OthersKept(d, e, roles, roles', ino)
    ensures forall r :: Below(r) && r.ino == ino ==> Home(e, r) == 0
    ensures ino < |d| && e[ino] == d[ino] && start > 0 && IsInode(roles', ino) && Extends(roles, roles')
    ensures forall x: nat :: IsInode(roles', x) ==> IsInode(roles, x)
  {
    hide Word, Home, Slot, Child, WithData, Graph;
    WithDataAt(roles, ino, start, k);
    SlotsBelow(d, e, roles, start);
    GraphZero(d, roles);
    assert ino < start;
    forall r | InFile(r) && IsInode(roles, r.ino)
      ensures Home(e, r) == Home(d, r)
    {
      SameSlotsHome(d, e, roles, r);
    }
    NoDataYet(d, roles, ino);
    GraphSameSlots(d, e, roles);
    DataGraph(e, roles, ino, start, k, roles');
    forall b | b in roles' && !(roles'[b].Data? && roles'[b].ino == ino && roles'[b].n >= 0)
      ensures Held(e, roles', b)
    {
      OldHeld(d, e, roles, roles', b);
    }
    forall n | 0 <= n < MAXBLOCKS
      ensures Home(e, Data(ino, n)) == 0
    {
      assert Below(Data(ino, n)) && InFile(Data(ino, n));
    }
  }

  lemma SlotsBelow(d: Disk, e: Disk, roles: Roles, start: nat)
    requires |d| == |e| && (forall b :: b in roles ==> b < start) && start <= |d|
    requires forall b :: 0 <= b < start ==> e[b] == d[b]
    ensures SameSlots(d, e, roles)
  {
    hide Word;
  }

  lemma NoDataYet(d: Disk, roles: Roles, ino: nat)
    requires Graph(d, roles) && AllHeld(d, roles) && forall r :: Below(r) && r.ino == ino ==> Home(d, r) == 0
    ensures forall b :: b in roles && roles[b].Data? ==> roles[b].ino != ino
  {
    hide Word, Home, Slot;
    forall b | b in roles && roles[b].Data?
      ensures roles[b].ino != ino
    {
      assert RoleOk(roles, b) && Held(d, roles, b);
    }
  }

  lemma DataGraph(e: Disk, roles: Roles, ino: nat, start: nat, k: nat, roles': Roles)
    requires Graph(e, roles) && IsInode(roles, ino) && start + k <= |e| && k < MAXBLOCKS && start > 0
    requires forall b :: b in roles' <==> b in roles || start <= b < start + k
    requires forall b :: b in roles ==> b < start && roles'[b] == roles[b]
    requires forall b :: start <= b < start + k ==> roles'[b] == Data(ino, b - start)
    ensures Graph(e, roles')
  {
    hide Word, Slot, Child;
    forall b | b in roles'
      ensures RoleOk(roles', b)
    {
      if b in roles { assert RoleOk(roles, b); }
    }
  }

  lemma OldHeld(d: Disk, e: Disk, roles: Roles, roles': Roles, b: nat)
    requires Graph(d, roles) && b in roles && Held(d, roles, b) && b in roles' && roles'[b] == roles[b]
    requires forall r :: InFile(r) && IsInode(roles, r.ino) ==> Home(e, r) == Home(d, r)
    ensures Held(e, roles', b)
  {
    hide Word, Slot, Home;
    assert RoleOk(roles, b);
  }

  lemma UsedGrows(d: Disk, e: Disk, roles: Roles, ino: nat, start: nat, k: nat, roles': Roles)
    requires UsedBelow(d, roles, start) && |d| == |e| && start + k <= |d|
    requires forall b :: start + k <= b < |d| ==> e[b] == d[b]
    requires roles' == WithData(roles, ino, start, k)
    ensures UsedBelow(e, roles', start + k)
  {
    WithDataAt(roles, ino, start, k);
  }

  /** Finished pointers: everything held, the file's blocks are the data blocks in order, and
      nothing else is touched. */
  lemma PointersDone(d: Disk, ro: Roles, d1: Disk, ro1: Roles, e: Disk, roles: Roles, ino: nat, start: nat, k: nat,
        len: nat)
    requires len < TWO32 && k < MAXBLOCKS && start > 0 && start + k <= |d1|
    requires OthersKept(d, d1, ro, ro1, ino) && IsInode(ro1, ino) && ino < |d1|
    requires Graph(d1, ro1) && Partial(d1, ro1, ino, start, 0)
    requires DataAt(ro1, ino, start, k)
    requires DataAt(roles, ino, start, k) && Extends(ro1, roles)
    requires Partial(e, roles, ino, start, k) && OnlyLinked(SizeSet(d1, ino, len), e, ro1, ino)
    ensures AllHeld(e, roles) && Graph(e, roles) && OthersKept(d, e, ro, roles, ino)
    ensures |e| == |d1| && IsDir(e[ino]) == IsDir(d1[ino]) && ModeOf(e[ino]) == ModeOf(d1[ino])
    ensures SizeOf(e[ino]) == len && IsInode(roles, ino)
    ensures forall n :: 0 <= n < MAXBLOCKS ==> FileBlock(e, ino, n) == if n < k then d1[start + n] else ZeroBlock()
    ensures forall n :: 0 <= n < k ==> Home(e, Data(ino, n)) != 0
  {
    hide Word, PutWord, Home, Graph, SizeOf, IsDir, Attributes, Partial, OnlyLinked, OthersKept, DataAt, SizeSet,
      FileBlock, AllHeld;
    var s := SizeSet(d1, ino, len);
    SizeKeepsPartial(d1, ro1, ino, start, 0, len);
    PointersHeld(e, roles, ino, start, k);
    PointersSize(d1, s, e, ro1, ino, len);
    PointersKept(d, ro, d1, ro1, s, e, roles, ino);
    PointersBlocks(d1, ro1, s, e, roles, ino, start, k);
  }

  lemma PointersHeld(e: Disk, roles: Roles, ino: nat, start: nat, k: nat)
    requires Partial(e, roles, ino, start, k) && DataAt(roles, ino, start, k) && k < MAXBLOCKS && start > 0
    ensures AllHeld(e, roles) && Graph(e, roles) && IsInode(roles, ino)
    ensures forall n :: 0 <= n < k ==> Home(e, Data(ino, n)) != 0
  {
    hide Word, Home, Graph, Held;
    forall b | b in roles
      ensures Held(e, roles, b)
    {
    }
  }

  lemma PointersSize(d1: Disk, s: Disk, e: Disk, ro1: Roles, ino: nat, len: nat)
    requires ino < |d1| && len < TWO32 && s == SizeSet(d1, ino, len) && OnlyLinked(s, e, ro1, ino)
    ensures |e| == |d1| && IsDir(e[ino]) == IsDir(d1[ino]) && ModeOf(e[ino]) == ModeOf(d1[ino]) && SizeOf(e[ino]) == len
    ensures forall b :: 0 <= b < |d1| && b != ino ==> s[b] == d1[b]
  {
    hide Word, PutWord, Home, SizeOf, IsDir, Attributes;
    SizeOfPut(d1[ino], len);
    AttributesDetermine(s[ino], e[ino]);
    SizeElsewhere(d1, ino, len);
  }

  lemma PointersKept(d: Disk, ro: Roles, d1: Disk, ro1: Roles, s: Disk, e: Disk, roles: Roles, ino: nat)
    requires OthersKept(d, d1, ro, ro1, ino) && |s| == |d1| && (forall b :: 0 <= b < |d1| && b != ino ==> s[b] == d1[b])
    requires IsInode(ro1, ino) && Extends(ro1, roles) && OnlyLinked(s, e, ro1, ino)
    requires forall r :: InFile(r) && IsInode(ro1, r.ino) ==> Home(s, r) == Home(d1, r)
    ensures OthersKept(d, e, ro, roles, ino)
  {
    hide Home, Attributes;
    assert forall i :: IsInode(ro, i) ==> IsInode(ro1, i);
  }

  lemma PointersBlocks(d1: Disk, ro1: Roles, s: Disk, e: Disk, roles: Roles, ino: nat, start: nat, k: nat)
    requires |s| == |d1| && (forall b :: 0 <= b < |d1| && b != ino ==> s[b] == d1[b]) && OnlyLinked(s, e, ro1, ino)
    requires k < MAXBLOCKS && start > 0 && start + k <= |d1| && IsInode(ro1, ino)
    requires DataAt(ro1, ino, start, k) && Partial(e, roles, ino, start, k)
    ensures forall n :: 0 <= n < MAXBLOCKS ==> FileBlock(e, ino, n) == if n < k then d1[start + n] else ZeroBlock()
  {
    hide Word, Home, Graph, Held, Attributes, ZeroBlock;
    forall n | 0 <= n < MAXBLOCKS
      ensures FileBlock(e, ino, n) == if n < k then d1[start + n] else ZeroBlock()
    {
      if n < k { assert ro1[start + n] == Data(ino, n) && e[start + n] == s[start + n]; }
    }
  }

  /** A file whose blocks are its bytes in order. */
  lemma FileDone(d1: Disk, e: Disk, roles: Roles, ino: nat, start: nat, k: nat, data: seq<Byte>)
    requires |data| + BLKSIZE <= TWO32 && k == BlocksFor(|data|) && start + k <= |d1|
    requires forall b :: start <= b < start + k ==> d1[b] == PadBlock(data, b - start)
    requires IsInode(roles, ino) && ino < |e| && SizeOf(e[ino]) == |data| && !IsDir(e[ino]) && ModeOf(e[ino]) == 0x8180
    requires forall n :: 0 <= n < MAXBLOCKS ==> FileBlock(e, ino, n) == if n < k then d1[start + n] else ZeroBlock()
    ensures FileIs(e, roles, ino, data)
  {
    hide FileBlock, PadBlock, SizeOf, IsDir, RoundUp;
    forall n | 0 <= n < MAXBLOCKS
      ensures FileBlock(e, ino, n) == PadBlock(data, n)
    {
      PadZero(data, n);
    }
  }

  lemma SizeElsewhere(d: Disk, ino: nat, len: nat)
    requires ino < |d| && len < TWO32
    ensures forall b :: 0 <= b < |d| && b != ino ==> SizeSet(d, ino, len)[b] == d[b]
  {
    hide PutWord;
  }

  lemma PadZero(data: seq<Byte>, n: nat)
    requires |data| + BLKSIZE <= TWO32
    ensures n >= BlocksFor(|data|) ==> PadBlock(data, n) == ZeroBlock()
  {
    BlocksCover(|data|);
  }

  /** The newest file got its contents. */
  lemma FilesReplaced(d: Disk, e: Disk, roles: Roles, roles': Roles, root: nat, ents: seq<Block>, names: seq<Name>,
        files: seq<seq<Byte>>,
                      ino: nat, data: seq<Byte>, files': seq<seq<Byte>>)
    requires Graph(d, roles) && FilesAre(d, roles, root, ents, names, files)
    requires |names| > 0 && ino == EntInum(ents, |names| - 1)
    requires OthersKept(d, e, roles, roles', ino) && FileIs(e, roles', ino, data)
    requires files' == files[..|files| - 1] + [data]
    ensures FilesAre(e, roles', root, ents, names, files')
  {
    hide EntName, EntInum, Graph, OthersKept, FileIs;
    forall m | 0 <= m < |names|
      ensures FileIs(e, roles', EntInum(ents, m), files'[m])
    {
      if m < |names| - 1 { FileIsKept(d, e, roles, roles', ino, EntInum(ents, m), files[m]); }
    }
  }

  lemma FilesCount(d: Disk, roles: Roles, root: nat, ents: seq<Block>, names: seq<Name>, files: seq<seq<Byte>>)
    requires FilesAre(d, roles, root, ents, names, files)
    ensures |ents| == 4 && |names| == |files| < MAX_DIR_ENTS
    ensures forall m :: 0 <= m < |names| ==> EntInum(ents, m) in roles
  {
  }

  lemma NewFileNotDir(d: Disk, roles: Roles, ino: nat)
    requires FileIs(d, roles, ino, [])
    ensures ino < |d| && !IsDir(d[ino])
  {
  }

  ghost predicate AllHeld(d: Disk, roles: Roles) { forall b :: b in roles ==> Held(d, roles, b) }

  /** The superblock is written, and the root directory, still empty, is the only directory. */
  ghost predicate RootOk(d: Disk, roles: Roles, root: nat, nblocks: nat) {
    && 0 < |d| && SuperIs(d[0], nblocks, root)
    && IsInode(roles, root) && root < |d| && IsDir(d[root]) && ModeOf(d[root]) == 0x41FF
    && (forall r :: Below(r) && r.ino == root ==> Home(d, r) == 0)
    && (forall i: nat :: IsInode(roles, i) && i < |d| && i != root ==> !IsDir(d[i]))
  }

  lemma FreshStart(d: Disk, root: nat, nblocks: nat, ents: seq<Block>)
    requires 0 < root < |d| && SuperIs(d[0], nblocks, root) && IsDir(d[root]) && ModeOf(d[root]) == 0x41FF
    requires forall r :: Below(r) && r.ino == root ==> Home(d, r) == 0
    requires |ents| == 4 && forall b :: root < b < |d| ==> d[b] == ZeroBlock()
    ensures RootOk(d, FirstRoles(root), root, nblocks) && UsedBelow(d, FirstRoles(root), root + 1)
    ensures FilesAre(d, FirstRoles(root), root, ents, [], []) && OnlyFiles(FirstRoles(root), root, ents, 0)
  {
    hide Home, IsDir, SuperIs, FirstRoles;
  }

  lemma RootInUse(d: Disk, roles: Roles, root: nat, nblocks: nat)
    requires RootOk(d, roles, root, nblocks)
    ensures root in roles && IsInode(roles, root) && forall r :: Below(r) && r.ino == root ==> Home(d, r) == 0
  {
    hide Home;
  }

  lemma RootKept(d: Disk, e: Disk, roles: Roles, roles': Roles, ino: nat, root: nat, nblocks: nat)
    requires Graph(d, roles) && RootOk(d, roles, root, nblocks) && OthersKept(d, e, roles, roles', ino) && ino != root
    requires forall i: nat :: IsInode(roles', i) ==> IsInode(roles, i) || i == ino
    requires ino < |e| && !IsDir(e[ino])
    ensures RootOk(e, roles', root, nblocks)
  {
    hide Word, Home, IsDir, SuperIs;
  }

  /** Everything that does not belong to inode `ino` is as it was. */
  ghost predicate OthersKept(d: Disk, e: Disk, roles: Roles, roles': Roles, ino: nat) {
    && |d| == |e| && Extends(roles, roles')
    && (forall b :: b in roles && b < |d| && (roles[b].Data? || roles[b].Super? || (roles[b].Inode? && b != ino)) ==>
          e[b] == d[b])
    && (forall r :: InFile(r) && IsInode(roles, r.ino) && r.ino != ino ==> Home(e, r) == Home(d, r))
  }

  lemma FileIsKept(d: Disk, e: Disk, roles: Roles, roles': Roles, ino: nat, other: nat, data: seq<Byte>)
    requires Graph(d, roles) && FileIs(d, roles, other, data)
    requires (other != ino || ino !in roles) && OthersKept(d, e, roles, roles', ino)
    ensures FileIs(e, roles', other, data)
  {
    hide Word, Home, PadBlock, SizeOf, IsDir;
    forall n | 0 <= n < MAXBLOCKS
      ensures FileBlock(e, other, n) == FileBlock(d, other, n)
    {
      HomeRole(d, roles, Data(other, n));
    }
  }

  /** A new inode in a clear block: an empty regular file. */
  lemma InodeAdded(d: Disk, roles: Roles, ino: nat)
    requires Graph(d, roles) && AllHeld(d, roles) && ino !in roles && 0 < ino < |d| && d[ino] == ZeroBlock()
    ensures var e: Disk, roles' := d[ino := PutWord(d[ino], MODE, MODE_FILE)], roles[ino := Inode(ino)];
            && Graph(e, roles') && AllHeld(e, roles')
            && OthersKept(d, e, roles, roles', ino) && FileIs(e, roles', ino, [])
            && (forall r :: Below(r) && r.ino == ino ==> Home(e, r) == 0)
  {
    hide Word, PutWord, Home, Slot, Graph, Held, SizeOf;
    var e: Disk, roles' := d[ino := PutWord(d[ino], MODE, MODE_FILE)], roles[ino := Inode(ino)];
    AdoptSlots(d, roles, ino, Inode(ino));
    assert Adopt(d, ino) == d;
    ModeKeepsSlots(d, e, roles', ino);
    GraphSameSlots(d, e, roles');
    NewFileBlock(d[ino]);
    forall r | InFile(r) && IsInode(roles, r.ino)
      ensures Home(e, r) == Home(d, r)
    {
      SameSlotsHome(d, e, roles', r);
    }
    forall r | InFile(r) && r.ino == ino
      ensures Home(e, r) == if r.Inode? then ino else 0
    {
      NewInodeEmpty(e, ino, r);
    }
    InodeHeld(d, e, roles, roles', ino);
    forall n | 0 <= n < MAXBLOCKS
      ensures FileBlock(e, ino, n) == PadBlock([], n)
    {
      assert InFile(Data(ino, n));
    }
  }

  lemma NewFileBlock(b: Block)
    requires b == ZeroBlock()
    ensures SizeOf(PutWord(b, MODE, MODE_FILE)) == 0 && !IsDir(PutWord(b, MODE, MODE_FILE))
    ensures ModeOf(PutWord(b, MODE, MODE_FILE)) == 0x8180
  {
    hide Word, PutWord;
    WordPut(b, MODE, MODE_FILE);
    ZeroWord(SIZE);
  }

  lemma ModeKeepsSlots(d: Disk, e: Disk, roles': Roles, ino: nat)
    requires ino in roles' && roles'[ino] == Inode(ino) && ino < |d| && e == d[ino := PutWord(d[ino], MODE, MODE_FILE)]
    requires forall j :: 0 <= j < Slots(Inode(ino)) ==> Slot(d, ino, Inode(ino), j) == 0
    ensures SameSlots(d, e, roles')
    ensures forall j :: 0 <= j < Slots(Inode(ino)) ==> Slot(e, ino, Inode(ino), j) == 0
  {
    hide Word, PutWord;
    WordPut(d[ino], MODE, MODE_FILE);
  }

  lemma GraphSameSlots(d: Disk, e: Disk, roles: Roles)
    requires Graph(d, roles) && SameSlots(d, e, roles)
    ensures Graph(e, roles)
  {
    hide Word, Slot, Child;
  }

  lemma InodeHeld(d: Disk, e: Disk, roles: Roles, roles': Roles, ino: nat)
    requires Graph(d, roles) && AllHeld(d, roles) && ino !in roles && roles' == roles[ino := Inode(ino)]
    requires forall r :: InFile(r) && IsInode(roles, r.ino) ==> Home(e, r) == Home(d, r)
    requires Home(e, Inode(ino)) == ino
    ensures AllHeld(e, roles')
  {
    hide Word, Slot, Home;
    forall b | b in roles'
      ensures Held(e, roles', b)
    {
      if b != ino { assert Held(d, roles, b) && RoleOk(roles, b); }
    }
  }

  lemma SecondLevelSlot(ino: nat, i: nat, j: nat)
    requires j < N_INDIRECT
    requires N_DIRECT + N_INDIRECT + j * N_INDIRECT <= i < N_DIRECT + N_INDIRECT + (j + 1) * N_INDIRECT
    ensures i < MAXBLOCKS && Parent(Data(ino, i)) == DblInd(ino, j)
    ensures Index(Data(ino, i)) == i - N_DIRECT - N_INDIRECT - j * N_INDIRECT
  {
    DivMod(j, i - N_DIRECT - N_INDIRECT - j * N_INDIRECT);
  }

  function SizeSet(d: Disk, ino: nat, len: nat): (e: Disk)
    requires ino < |d| && len < TWO32
    ensures |e| == |d|
  {
    d[ino := PutWord(d[ino], SIZE, len)]
  }

  lemma SizeKeepsShape(d: Disk, roles: Roles, ino: nat, len: nat, pos: nat)
    requires UsedBelow(d, roles, pos) && ino in roles && ino < |d| && len < TWO32
    ensures UsedBelow(SizeSet(d, ino, len), roles, pos)
  {
    hide PutWord;
  }

  /** Writing i_size moves no block. */
  lemma SizeKeepsPartial(d: Disk, roles: Roles, ino: nat, start: nat, i: nat, len: nat)
    requires Partial(d, roles, ino, start, i) && ino < |d| && len < TWO32
    ensures Partial(SizeSet(d, ino, len), roles, ino, start, i)
    ensures forall r :: InFile(r) && IsInode(roles, r.ino) ==> Home(SizeSet(d, ino, len), r) == Home(d, r)
  {
    hide Word, Home, PutWord, SizeSet, Slot, Graph, SameSlots, Held;
    var e := SizeSet(d, ino, len);
    SizeKeepsSlots(d, roles, ino, len);
    GraphSameSlots(d, e, roles);
    forall r | InFile(r) && IsInode(roles, r.ino)
      ensures Home(e, r) == Home(d, r)
    {
      SameSlotsHome(d, e, roles, r);
    }
    forall b | b in roles && Held(d, roles, b)
      ensures Held(e, roles, b)
    {
      OldHeld(d, e, roles, roles, b);
    }
    forall n | 0 <= n < MAXBLOCKS
      ensures Home(e, Data(ino, n)) == Home(d, Data(ino, n))
    {
      assert InFile(Data(ino, n));
    }
  }

  lemma SizeKeepsSlots(d: Disk, roles: Roles, ino: nat, len: nat)
    requires IsInode(roles, ino) && ino < |d| && len < TWO32
    ensures SameSlots(d, SizeSet(d, ino, len), roles)
  {
    hide Word, PutWord;
    WordPut(d[ino], SIZE, len);
  }

  lemma UsedBasics(d: Disk, roles: Roles, pos: nat)
    requires UsedBelow(d, roles, pos)
    ensures forall b :: b in roles <==> 0 <= b < pos
    ensures pos < |d| ==> d[pos] == ZeroBlock()
  {
  }

  /** A pointer block more in use. */
  lemma PointerUsed(d: Disk, e: Disk, roles: Roles, p: nat, b: nat, c: Role, roles': Roles, ino: nat, start: nat,
        k: nat)
    requires UsedBelow(d, roles, b) && |e| == |d| && p in roles && (forall q: nat :: q < |d| && q != p ==> e[q] == d[q])
    requires DataAt(roles, ino, start, k) && !c.Data? && !c.Inode? && roles' == roles[b := c]
    ensures UsedBelow(e, roles', b + 1) && DataAt(roles', ino, start, k) && Extends(roles, roles')
    ensures forall x: nat :: IsInode(roles', x) ==> IsInode(roles, x)
  {
    hide ZeroBlock;
    assert b !in roles;
    forall q | start <= q < start + k
      ensures q in roles' && roles'[q] == Data(ino, q - start)
    {
      assert q in roles;
    }
    forall q | q in roles' && roles'[q].Data? && roles'[q].ino == ino
      ensures roles'[q].n < k
    {
      assert q in roles && roles'[q] == roles[q];
    }
  }

  lemma PartialInode(d: Disk, roles: Roles, ino: nat, start: nat, i: nat)
    requires Partial(d, roles, ino, start, i)
    ensures IsInode(roles, ino) && 0 in roles && 0 < ino < |d| && Home(d, Inode(ino)) == ino
  {
    InodeBelow(d, roles, ino);
  }
}
