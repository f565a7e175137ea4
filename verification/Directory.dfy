/**
  Directories as finite maps from names to inodes, and paths as folds of lookup over their
  components.
 */
module Directory {
  import opened CInts
  import opened Util
  import opened Blocks
  import opened Volume
  import opened Files

  const PATH_MAX := 1024
  const SLASH: Byte := 47

  // ----- entries

  /** How many entries the directory's blocks hold. */
  function EntryCount(d: Disk, dir: nat): nat
    requires dir < |d|
  {
    SizeOf(d[dir]) / BLKSIZE * BLKDIRENTS
  }

  function EntryName(d: Disk, dir: nat, k: nat): Name
    requires k < MAXBLOCKS * BLKDIRENTS
  {
    DirentName(FileBlock(d, dir, k / BLKDIRENTS), k % BLKDIRENTS)
  }

  function EntryInum(d: Disk, dir: nat, k: nat): nat
    requires k < MAXBLOCKS * BLKDIRENTS
  {
    DirentInum(FileBlock(d, dir, k / BLKDIRENTS), k % BLKDIRENTS)
  }

  /** `name` is bound to `inum` in directory `dir`. */
  ghost predicate Binds(d: Disk, dir: nat, name: Name, inum: nat) {
    dir < |d| && exists k ::
      0 <= k < EntryCount(d, dir) && k < MAXBLOCKS * BLKDIRENTS && EntryName(d, dir, k) == name
      && EntryInum(d, dir, k) == inum
  }

  /** A well-formed directory: whole blocks, terminated and pairwise distinct names, live entries
      that name inodes, and nothing behind its end. */
  ghost predicate DirOk(d: Disk, roles: Roles, dir: nat) {
    && dir < |d| && SizeOf(d[dir]) % BLKSIZE == 0
    && (forall k :: 0 <= k < EntryCount(d, dir) && k < MAXBLOCKS * BLKDIRENTS ==>
          && |EntryName(d, dir, k)| < NAME_MAX
          && (EntryName(d, dir, k) != [] ==> IsInode(roles, EntryInum(d, dir, k))))
    && (forall k, l :: 0 <= k < l < EntryCount(d, dir) && l < MAXBLOCKS * BLKDIRENTS && EntryName(d, dir, k) != [] ==>
          EntryName(d, dir, k) != EntryName(d, dir, l))
    && (forall n :: SizeOf(d[dir]) / BLKSIZE <= n < MAXBLOCKS ==> FileBlock(d, dir, n) == ZeroBlock())
  }

  /** Every directory of the disk is well-formed. */
  ghost predicate TreeOk(d: Disk, roles: Roles) {
    forall i: nat :: IsInode(roles, i) && i < |d| && IsDir(d[i]) ==> DirOk(d, roles, i)
  }

  /** Entry `k` of directory `dir` is in use. */
  ghost predicate Live(d: Disk, roles: Roles, dir: nat, k: nat) {
    && IsInode(roles, dir) && dir < |d| && IsDir(d[dir])
    && k < EntryCount(d, dir) && k < MAXBLOCKS * BLKDIRENTS && EntryName(d, dir, k) != []
  }

  /** Some entry of some directory names inode `i`. */
  ghost predicate Named(d: Disk, roles: Roles, i: nat) {
    exists dir: nat, k: nat :: Live(d, roles, dir, k) && EntryInum(d, dir, k) == i
  }

  /** Every inode but the root is named by exactly one directory entry, and the root by none. */
  ghost predicate NamedOnce(d: Disk, roles: Roles, root: nat) {
    && (forall i: nat :: IsInode(roles, i) && i != root ==> Named(d, roles, i))
    && (forall dir: nat, k: nat :: Live(d, roles, dir, k) ==> EntryInum(d, dir, k) != root)
    && (forall dir: nat, k: nat, dir': nat, l: nat ::
          Live(d, roles, dir, k) && Live(d, roles, dir', l) && EntryInum(d, dir, k) == EntryInum(d, dir', l) ==>
            dir == dir' && k == l)
  }

  /** The entries in use, and the inodes they name, are the same. */
  ghost predicate SameLive(d: Disk, e: Disk, roles: Roles, roles': Roles) {
    forall dir: nat, k: nat ::
      && (Live(e, roles', dir, k) <==> Live(d, roles, dir, k))
      && (Live(d, roles, dir, k) ==> EntryInum(e, dir, k) == EntryInum(d, dir, k))
  }

  lemma SameLiveNamed(d: Disk, e: Disk, roles: Roles, roles': Roles, root: nat)
    requires NamedOnce(d, roles, root) && SameLive(d, e, roles, roles')
    requires forall i :: IsInode(roles, i) <==> IsInode(roles', i)
    ensures NamedOnce(e, roles', root)
  {
    hide EntryName, EntryInum, EntryCount, IsDir;
    assert forall dir: nat, k: nat :: Live(d, roles, dir, k) ==> k < MAXBLOCKS * BLKDIRENTS;
    hide Live;
    forall i: nat | IsInode(roles', i) && i != root
      ensures Named(e, roles', i)
    {
      assert Named(d, roles, i);
      var dir: nat, k: nat :| Live(d, roles, dir, k) && EntryInum(d, dir, k) == i;
      assert Live(e, roles', dir, k) && EntryInum(e, dir, k) == i;
    }
  }

  lemma EntryBound(d: Disk, dir: nat)
    requires dir < |d|
    ensures EntryCount(d, dir) < MAXBLOCKS * BLKDIRENTS && SizeOf(d[dir]) / BLKSIZE < MAXBLOCKS
  {
    hide Word;
  }

  /** Every block of directory `dir` is allocated. */
  ghost predicate AllMapped(d: Disk, dir: nat)
    requires dir < |d|
  {
    forall n: nat :: n < SizeOf(d[dir]) / BLKSIZE && n < MAXBLOCKS ==> BlockNumber(d, dir, n) != 0
  }

  /** Every block of every directory is allocated. */
  ghost predicate DirsMapped(d: Disk, roles: Roles) {
    forall i: nat :: IsInode(roles, i) && i < |d| && IsDir(d[i]) ==> AllMapped(d, i)
  }

  /** Nothing is leaked and nothing is lost: a block is in use exactly when it is the superblock, a
      bitmap block, the root inode, or when a pointer or a directory entry leads to it; and it is
      only one of these. */
  lemma UsedIffReferenced(d: Disk, free: seq<bool>, roles: Roles, root: nat, b: nat)
    requires Sound(d, free, roles) && TreeOk(d, roles) && IsInode(roles, root) && NamedOnce(d, roles, root)
    requires 0 < b < |d|
    ensures !free[b] <==> b <= BitmapBlocks(|d|) || b == root || Pointed(d, roles, b) || Named(d, roles, b)
    ensures b <= BitmapBlocks(|d|) || b == root ==> !Pointed(d, roles, b) && !Named(d, roles, b)
    ensures root > BitmapBlocks(|d|) && !(Pointed(d, roles, b) && Named(d, roles, b))
  {
    hide Home, Word, Slot, Pointed, EntryName, EntryInum, EntryCount, IsDir, BitmapBlocks;
    PointedIffBelow(d, free, roles, b);
    if Named(d, roles, b) {
      var dir: nat, k: nat :| Live(d, roles, dir, k) && EntryInum(d, dir, k) == b;
      assert DirOk(d, roles, dir);
      assert IsInode(roles, b);
    }
    if b in roles { assert RoleOk(roles, b); }
    assert roles[root].Inode?;
  }

  // ----- lookup

  /** The first of the entries k, ..., count - 1 with this name. */
  function FindBelow(d: Disk, dir: nat, name: Name, k: nat, count: nat): (r: Option<nat>)
    requires k <= count < MAXBLOCKS * BLKDIRENTS
    ensures r.Some? ==> k <= r.value < count && EntryName(d, dir, r.value) == name
    ensures r.None? ==> forall l :: k <= l < count ==> EntryName(d, dir, l) != name
    decreases count - k
  {
    if k == count then None
    else if EntryName(d, dir, k) == name then Some(k)
    else FindBelow(d, dir, name, k + 1, count)
  }

  /** The first entry of the directory with this name at or after `k`. */
  function FindFrom(d: Disk, dir: nat, name: Name, k: nat): (r: Option<nat>)
    requires dir < |d| && k <= EntryCount(d, dir) < MAXBLOCKS * BLKDIRENTS
  {
    FindBelow(d, dir, name, k, EntryCount(d, dir))
  }

  /** The inode a name leads to in a directory. */
  function LookupIn(d: Disk, dir: nat, name: Name): Option<nat>
    requires dir < |d|
  {
    EntryBound(d, dir);
    match FindFrom(d, dir, name, 0)
    case None => None
    case Some(k) => Some(EntryInum(d, dir, k))
  }

  /** In a well-formed directory lookup is a map: it finds exactly the binding of the name. */
  lemma LookupIsMap(d: Disk, roles: Roles, dir: nat, name: Name, inum: nat)
    requires DirOk(d, roles, dir) && name != []
    ensures LookupIn(d, dir, name) == Some(inum) <==> Binds(d, dir, name, inum)
    ensures LookupIn(d, dir, name) == None <==> forall i :: !Binds(d, dir, name, i)
  {
    hide EntryName, EntryInum, EntryCount;
    EntryBound(d, dir);
    match FindFrom(d, dir, name, 0)
    case None =>
    case Some(k) =>
      assert Binds(d, dir, name, EntryInum(d, dir, k));
      forall i | Binds(d, dir, name, i)
        ensures i == EntryInum(d, dir, k)
      {
        var l :| 0 <= l < EntryCount(d, dir) && l < MAXBLOCKS * BLKDIRENTS && EntryName(d, dir, l) == name
                 && EntryInum(d, dir, l) == i;
      }
  }

  /** Directories depend on file contents and attributes only. */
  lemma SameEntries(d: Disk, e: Disk, roles: Roles, dir: nat)
    requires SameContent(d, e, roles) && IsInode(roles, dir) && dir < |d|
    ensures IsDir(e[dir]) == IsDir(d[dir]) && SizeOf(e[dir]) == SizeOf(d[dir])
    ensures EntryCount(e, dir) == EntryCount(d, dir)
    ensures forall k :: 0 <= k < MAXBLOCKS * BLKDIRENTS ==>
              EntryName(e, dir, k) == EntryName(d, dir, k) && EntryInum(e, dir, k) == EntryInum(d, dir, k)
  {
    hide FileBlock, SizeOf, IsDir, Attributes, DirentName, DirentInum;
    AttributesDetermine(d[dir], e[dir]);
  }

  lemma SameContentTree(d: Disk, e: Disk, roles: Roles, roles': Roles)
    requires SameContent(d, e, roles) && TreeOk(d, roles) && forall i :: IsInode(roles, i) <==> IsInode(roles', i)
    ensures TreeOk(e, roles')
  {
    hide FileBlock, SizeOf, IsDir, Attributes, EntryName, EntryInum, EntryCount;
    forall i: nat | IsInode(roles', i) && i < |e| && IsDir(e[i])
      ensures DirOk(e, roles', i)
    {
      SameEntries(d, e, roles, i);
      assert DirOk(d, roles, i);
    }
  }

  lemma SameContentNamed(d: Disk, e: Disk, roles: Roles, roles': Roles, root: nat)
    requires SameContent(d, e, roles) && NamedOnce(d, roles, root)
    requires forall i :: IsInode(roles, i) <==> IsInode(roles', i)
    ensures NamedOnce(e, roles', root)
  {
    hide FileBlock, SizeOf, IsDir, Attributes, EntryName, EntryInum, EntryCount, SameContent, NamedOnce;
    SameLength(d, e, roles);
    forall dir: nat, k: nat
      ensures Live(e, roles', dir, k) <==> Live(d, roles, dir, k)
      ensures Live(d, roles, dir, k) ==> EntryInum(e, dir, k) == EntryInum(d, dir, k)
    {
      if IsInode(roles, dir) && dir < |d| { SameEntries(d, e, roles, dir); }
    }
    SameLiveNamed(d, e, roles, roles', root);
  }

  /** Names seen from outside: every directory binds the same names to the same inodes. */
  ghost predicate SameNames(d: Disk, e: Disk, roles: Roles) {
    && |d| == |e|
    && forall dir: nat, name: Name, inum: nat ::
         IsInode(roles, dir) && dir < |d| && name != [] ==> (Binds(e, dir, name, inum) <==> Binds(d, dir, name, inum))
  }

  lemma SameContentNames(d: Disk, e: Disk, roles: Roles)
    requires SameContent(d, e, roles)
    ensures SameNames(d, e, roles)
  {
    hide FileBlock, SizeOf, IsDir, Attributes, EntryName, EntryInum, EntryCount, SameContent;
    assert |d| == |e| by { SameLength(d, e, roles); }
    forall dir: nat, name: Name, inum: nat | IsInode(roles, dir) && dir < |d| && name != []
      ensures Binds(e, dir, name, inum) <==> Binds(d, dir, name, inum)
    {
      SameEntries(d, e, roles, dir);
    }
  }

  lemma SameLength(d: Disk, e: Disk, roles: Roles)
    requires SameContent(d, e, roles)
    ensures |d| == |e|
  {
  }

  // ----- paths

  function SkipSlash(p: seq<Byte>): (r: seq<Byte>)
    ensures |r| <= |p| && r == p[|p| - |r|..] && (r == [] || r[0] != SLASH)
  {
    if p != [] && p[0] == SLASH then SkipSlash(p[1..]) else p
  }

  /** The path element at the start of `p`. */
  function Element(p: seq<Byte>): (r: seq<Byte>)
    ensures |r| <= |p| && r == p[..|r|] && SLASH !in r
    ensures |r| < |p| ==> p[|r|] == SLASH
  {
    if p == [] || p[0] == SLASH then [] else [p[0]] + Element(p[1..])
  }

  lemma ElementNonEmpty(p: seq<Byte>)
    requires p != [] && p[0] != SLASH
    ensures |Element(p)| > 0
  {
  }

  /** The elements of a path in the order walk_path meets them. */
  function Components(path: seq<Byte>): seq<Name>
    decreases |path|
  {
    var p := SkipSlash(path);
    if p == [] then []
    else
      ElementNonEmpty(p);
      [Element(p)] + Components(p[|Element(p)|..])
  }

  predicate AllNonEmpty(names: seq<Name>) { forall i :: 0 <= i < |names| ==> names[i] != [] }

  /** walk_path never looks up an empty name, which would match a free entry. */
  lemma {:induction false} ComponentsNonEmpty(path: seq<Byte>)
    ensures AllNonEmpty(Components(path))
    decreases |path|
  {
    hide SkipSlash, Element, AllNonEmpty;
    var p := SkipSlash(path);
    if p == [] {
      NoneEmpty();
    } else {
      ElementNonEmpty(p);
      var rest := Components(p[|Element(p)|..]);
      ComponentsNonEmpty(p[|Element(p)|..]);
      OneMoreNonEmpty(Element(p), rest);
    }
  }

  lemma NoneEmpty()
    ensures AllNonEmpty([])
  {
  }

  lemma OneMoreNonEmpty(e: Name, rest: seq<Name>)
    requires e != [] && AllNonEmpty(rest)
    ensures AllNonEmpty([e] + rest)
  {
  }

  /** The path cut at every slash, empty pieces included. */
  function Split(path: seq<Byte>): seq<seq<Byte>>
    decreases |path|
  {
    var e := Element(path);
    if |e| == |path| then [e] else [e] + Split(path[|e| + 1..])
  }

  function NonEmpty(pieces: seq<seq<Byte>>): seq<seq<Byte>> {
    if pieces == [] then []
    else if pieces[0] == [] then NonEmpty(pieces[1..])
    else [pieces[0]] + NonEmpty(pieces[1..])
  }

  lemma SlashStep(path: seq<Byte>)
    requires path != [] && path[0] == SLASH
    ensures Components(path) == Components(path[1..]) && NonEmpty(Split(path)) == NonEmpty(Split(path[1..]))
  {
    hide Components;
    assert Element(path) == [];
    var rest := Split(path[1..]);
    assert Split(path) == [[]] + rest;
    assert ([[]] + rest)[1..] == rest;
    assert SkipSlash(path) == SkipSlash(path[1..]);
    SameSkip(path, path[1..]);
  }

  lemma SameSkip(p: seq<Byte>, q: seq<Byte>)
    requires SkipSlash(p) == SkipSlash(q)
    ensures Components(p) == Components(q)
  {
    hide SkipSlash, Element;
  }

  lemma ElementStep(path: seq<Byte>)
    requires path != [] && path[0] != SLASH
    ensures var e := Element(path);
            && |e| > 0 && Components(path) == [e] + Components(path[|e|..])
            && NonEmpty(Split(path)) == [e] + if |e| == |path| then [] else NonEmpty(Split(path[|e| + 1..]))
  {
    hide Element;
    ElementNonEmpty(path);
    var e := Element(path);
    assert SkipSlash(path) == path;
    if |e| == |path| {
      var pieces: seq<seq<Byte>> := [e];
      assert pieces[1..] == [];
    } else {
      var rest := Split(path[|e| + 1..]);
      assert ([e] + rest)[1..] == rest;
    }
  }

  /** The components are the nonempty slash-separated pieces: repeated, leading and trailing
      slashes do not matter. */
  lemma {:induction false} ComponentsAreNonEmptyPieces(path: seq<Byte>)
    ensures Components(path) == NonEmpty(Split(path))
    decreases |path|
  {
    hide Components, NonEmpty, Split, Element;
    if path == [] {
      EmptyPath();
    } else if path[0] == SLASH {
      SlashStep(path);
      ComponentsAreNonEmptyPieces(path[1..]);
    } else {
      ElementStep(path);
      var e := Element(path);
      var rest := path[|e|..];
      if |e| < |path| {
        assert rest[1..] == path[|e| + 1..];
        SlashStep(rest);
        ComponentsAreNonEmptyPieces(rest[1..]);
      } else {
        assert rest == [];
        EmptyPath();
      }
    }
  }

  lemma EmptyPath()
    ensures Components([]) == [] == NonEmpty(Split([]))
  {
    var pieces: seq<seq<Byte>> := [[]];
    assert Split([]) == pieces && pieces[1..] == [];
  }

  /** Where a path leads. */
  datatype Walk =
    | Found(dir: Option<nat>, ino: nat)      // the file, and the directory it was found in
    | Missing(parent: nat, last: Name)       // only the last element is missing
    | Gone                                   // an inner element is missing, or is no directory
    | TooLong                                // an element exceeds NAME_MAX

  /** Fold lookup over the path elements, starting at `cur`. */
  function WalkFrom(d: Disk, dir: Option<nat>, cur: nat, names: seq<Name>): Walk
    decreases |names|
  {
    if names == [] then Found(dir, cur)
    else if |names[0]| >= NAME_MAX then TooLong
    else if cur >= |d| || !IsDir(d[cur]) then Gone
    else
      match LookupIn(d, cur, names[0])
      case None => if |names| == 1 then Missing(cur, names[0]) else Gone
      case Some(i) => WalkFrom(d, Some(cur), i, names[1..])
  }

  /** Walks see only file contents and attributes. */
  lemma {:induction false} SameWalk(d: Disk, e: Disk, roles: Roles, dir: Option<nat>, cur: nat, names: seq<Name>)
    requires SameContent(d, e, roles) && TreeOk(d, roles) && IsInode(roles, cur)
    requires AllNonEmpty(names)
    ensures WalkFrom(e, dir, cur, names) == WalkFrom(d, dir, cur, names)
    decreases |names|
  {
    hide FileBlock, SizeOf, IsDir, Attributes, EntryName, EntryInum, EntryCount, SameContent;
    SameLength(d, e, roles);
    if names != [] && cur < |d| {
      SameEntries(d, e, roles, cur);
      EntryBound(d, cur);
      SameFind(d, e, cur, names[0], 0);
      if IsDir(d[cur]) {
        match LookupIn(d, cur, names[0])
        case None =>
        case Some(i) =>
          LookupLive(d, roles, cur, names[0]);
          SameWalk(d, e, roles, Some(cur), i, names[1..]);
      }
    }
  }

  lemma LookupLive(d: Disk, roles: Roles, dir: nat, name: Name)
    requires TreeOk(d, roles) && IsInode(roles, dir) && dir < |d| && IsDir(d[dir]) && name != []
    ensures LookupIn(d, dir, name).Some? ==> IsInode(roles, LookupIn(d, dir, name).value)
  {
    hide FileBlock, SizeOf, IsDir, EntryName, EntryInum, EntryCount;
    assert DirOk(d, roles, dir);
    EntryBound(d, dir);
  }

  lemma {:induction false} SameFind(d: Disk, e: Disk, dir: nat, name: Name, k: nat)
    requires |d| == |e| && dir < |d| && EntryCount(e, dir) == EntryCount(d, dir) < MAXBLOCKS * BLKDIRENTS
    requires k <= EntryCount(d, dir)
    requires forall l :: 0 <= l < MAXBLOCKS * BLKDIRENTS ==> EntryName(e, dir, l) == EntryName(d, dir, l)
    ensures FindFrom(e, dir, name, k) == FindFrom(d, dir, name, k)
    decreases EntryCount(d, dir) - k
  {
    hide EntryName, EntryInum, EntryCount;
    if k < EntryCount(d, dir) && EntryName(d, dir, k) != name { SameFind(d, e, dir, name, k + 1); }
  }

  // ----- changing a directory

  lemma ZeroEntries(j: nat)
    requires j < BLKDIRENTS
    ensures DirentName(ZeroBlock(), j) == []
  {
    assert NameField(ZeroBlock(), j)[0] == 0;
  }

  /** `e` is `d` with `name` bound to `inum` in directory `dir`; all other bindings are the same. */
  ghost predicate Bound(d: Disk, e: Disk, roles: Roles, dir: nat, name: Name, inum: nat) {
    && |d| == |e|
    && forall i: nat, nm: Name, x: nat :: IsInode(roles, i) && i < |d| && nm != [] ==>
         (Binds(e, i, nm, x) <==> Binds(d, i, nm, x) || (i == dir && nm == name && x == inum))
  }

  /** Filling a free entry binds one name. */
  lemma EntryFilled(d: Disk, free: seq<bool>, roles: Roles, dir: nat, k: nat, name: Name, inum: nat, b: nat)
    requires Sound(d, free, roles) && TreeOk(d, roles) && IsInode(roles, dir) && dir < |d| && IsDir(d[dir])
    requires k < EntryCount(d, dir) && k < MAXBLOCKS * BLKDIRENTS && EntryName(d, dir, k) == []
    requires b in roles && roles[b] == Data(dir, k / BLKDIRENTS) && b < |d|
    requires GoodName(name) && inum < TWO32 && IsInode(roles, inum) && LookupIn(d, dir, name) == None
    ensures var e: Disk := d[b := PutDirent(d[b], k % BLKDIRENTS, name, inum)];
            && Sound(e, free, roles) && TreeOk(e, roles) && Bound(d, e, roles, dir, name, inum)
            && OnlyEntry(d, e, dir, k, name, inum)
            && (forall i: nat :: IsInode(roles, i) && i < |d| ==> e[i] == d[i])
            && (forall i: nat, n: nat ::
                  IsInode(roles, i) && i != dir && n < MAXBLOCKS ==> FileBlock(e, i, n) == FileBlock(d, i, n))
  {
    hide Home, Word, Graph, PutDirent, DirentName, DirentInum, IsDir, SizeOf, LookupIn, TreeOk, EntryCount, EntryName,
      EntryInum, FileBlock, Bound;
    var blk := PutDirent(d[b], k % BLKDIRENTS, name, inum);
    var e: Disk := d[b := blk];
    WriteDataKeepsSound(d, free, roles, b, blk);
    DataBlockHeld(d, free, roles, b);
    DirentPut(d[b], k % BLKDIRENTS, name, inum);
    OneEntry(d, e, roles, dir, k, name, inum, blk);
    OtherFiles(d, e, roles, dir);
    FilledTree(d, e, roles, dir, k, name, inum);
    FilledBinds(d, e, roles, dir, k, name, inum);
  }

  lemma DataBlockHeld(d: Disk, free: seq<bool>, roles: Roles, b: nat)
    requires Sound(d, free, roles) && b in roles && roles[b].Data? && b < |d|
    ensures roles[b].n < MAXBLOCKS && FileBlock(d, roles[b].ino, roles[b].n) == d[b]
  {
    hide Home;
    HeldBlock(d, roles, b);
  }

  /** Entry `k` of `dir` is new, and no other entry of `dir` changed. */
  ghost predicate OnlyEntry(d: Disk, e: Disk, dir: nat, k: nat, name: Name, inum: nat) {
    && |d| == |e| && dir < |d| && e[dir] == d[dir] && k < MAXBLOCKS * BLKDIRENTS
    && EntryName(e, dir, k) == name && EntryInum(e, dir, k) == inum
    && (forall l :: 0 <= l < MAXBLOCKS * BLKDIRENTS && l != k ==>
          EntryName(e, dir, l) == EntryName(d, dir, l) && EntryInum(e, dir, l) == EntryInum(d, dir, l))
    && (forall n :: 0 <= n < MAXBLOCKS && n != k / BLKDIRENTS ==> FileBlock(e, dir, n) == FileBlock(d, dir, n))
  }

  lemma OneEntry(d: Disk, e: Disk, roles: Roles, dir: nat, k: nat, name: Name, inum: nat, blk: Block)
    requires |d| == |e| && IsInode(roles, dir) && dir < |d| && e[dir] == d[dir] && k < MAXBLOCKS * BLKDIRENTS
    requires forall n: nat ::
               n < MAXBLOCKS ==> FileBlock(e, dir, n) == if n == k / BLKDIRENTS then blk else FileBlock(d, dir, n)
    requires DirentName(blk, k % BLKDIRENTS) == name && DirentInum(blk, k % BLKDIRENTS) == inum
    requires forall j :: 0 <= j < BLKDIRENTS && j != k % BLKDIRENTS ==>
               DirentName(blk, j) == DirentName(FileBlock(d, dir, k / BLKDIRENTS), j)
               && DirentInum(blk, j) == DirentInum(FileBlock(d, dir, k / BLKDIRENTS), j)
    ensures OnlyEntry(d, e, dir, k, name, inum)
  {
    hide FileBlock, DirentName, DirentInum;
    forall l | 0 <= l < MAXBLOCKS * BLKDIRENTS && l != k
      ensures EntryName(e, dir, l) == EntryName(d, dir, l) && EntryInum(e, dir, l) == EntryInum(d, dir, l)
    {
      assert l == BLKDIRENTS * (l / BLKDIRENTS) + l % BLKDIRENTS && k == BLKDIRENTS * (k / BLKDIRENTS) + k % BLKDIRENTS;
    }
  }

  /** The other directories are as before. */
  ghost predicate OthersSame(d: Disk, e: Disk, roles: Roles, dir: nat) {
    && |d| == |e|
    && (forall i: nat :: IsInode(roles, i) && i < |d| && i != dir ==>
          Attributes(e[i]) == Attributes(d[i]) && IsDir(e[i]) == IsDir(d[i]) && SizeOf(e[i]) == SizeOf(d[i]))
    && (forall i: nat, n: nat ::
          IsInode(roles, i) && i != dir && n < MAXBLOCKS ==> FileBlock(e, i, n) == FileBlock(d, i, n))
  }

  lemma OtherFiles(d: Disk, e: Disk, roles: Roles, dir: nat)
    requires |d| == |e|
    requires forall i: nat :: IsInode(roles, i) && i < |d| && i != dir ==> e[i] == d[i]
    requires forall i: nat, n: nat ::
               IsInode(roles, i) && i != dir && n < MAXBLOCKS ==> FileBlock(e, i, n) == FileBlock(d, i, n)
    ensures OthersSame(d, e, roles, dir)
  {
    hide FileBlock, SizeOf, IsDir;
  }

  lemma OtherEntries(d: Disk, e: Disk, roles: Roles, dir: nat, i: nat)
    requires OthersSame(d, e, roles, dir) && IsInode(roles, i) && i < |d| && i != dir
    ensures IsDir(e[i]) == IsDir(d[i]) && SizeOf(e[i]) == SizeOf(d[i]) && EntryCount(e, i) == EntryCount(d, i)
    ensures forall k :: 0 <= k < MAXBLOCKS * BLKDIRENTS ==>
              EntryName(e, i, k) == EntryName(d, i, k) && EntryInum(e, i, k) == EntryInum(d, i, k)
    ensures forall n: nat :: n < MAXBLOCKS ==> FileBlock(e, i, n) == FileBlock(d, i, n)
  {
    hide FileBlock, SizeOf, IsDir, DirentName, DirentInum;
  }

  lemma OtherDirOk(d: Disk, e: Disk, roles: Roles, roles': Roles, dir: nat, i: nat)
    requires OthersSame(d, e, roles, dir) && IsInode(roles, i) && i < |d| && i != dir && DirOk(d, roles, i)
    requires forall x :: IsInode(roles, x) ==> IsInode(roles', x)
    ensures DirOk(e, roles', i)
  {
    hide FileBlock, SizeOf, IsDir, EntryName, EntryInum, EntryCount;
    OtherEntries(d, e, roles, dir, i);
  }

  lemma FilledTree(d: Disk, e: Disk, roles: Roles, dir: nat, k: nat, name: Name, inum: nat)
    requires OnlyEntry(d, e, dir, k, name, inum) && OthersSame(d, e, roles, dir) && TreeOk(d, roles)
    requires IsInode(roles, dir) && IsDir(d[dir]) && k < EntryCount(d, dir) && EntryName(d, dir, k) == []
    requires GoodName(name) && IsInode(roles, inum) && LookupIn(d, dir, name) == None
    ensures TreeOk(e, roles)
  {
    hide FileBlock, SizeOf, IsDir, EntryName, EntryInum;
    EntryBound(d, dir);
    forall i: nat | IsInode(roles, i) && i < |e| && IsDir(e[i])
      ensures DirOk(e, roles, i)
    {
      assert i != dir ==> IsDir(d[i]);
      assert DirOk(d, roles, i);
      if i != dir { OtherDirOk(d, e, roles, roles, dir, i); } else { FilledDir(d, e, roles, dir, k, name, inum); }
    }
  }

  lemma FilledDir(d: Disk, e: Disk, roles: Roles, dir: nat, k: nat, name: Name, inum: nat)
    requires OnlyEntry(d, e, dir, k, name, inum) && DirOk(d, roles, dir)
    requires k < EntryCount(d, dir) && EntryName(d, dir, k) == []
    requires GoodName(name) && IsInode(roles, inum) && LookupIn(d, dir, name) == None
    ensures DirOk(e, roles, dir)
  {
    hide FileBlock, SizeOf, IsDir, EntryName, EntryInum;
    EntryBound(d, dir);
    assert EntryCount(e, dir) == EntryCount(d, dir);
    assert k / BLKDIRENTS < SizeOf(d[dir]) / BLKSIZE;
  }

  lemma FilledBinds(d: Disk, e: Disk, roles: Roles, dir: nat, k: nat, name: Name, inum: nat)
    requires OnlyEntry(d, e, dir, k, name, inum) && OthersSame(d, e, roles, dir)
    requires IsInode(roles, dir) && k < EntryCount(d, dir) && EntryName(d, dir, k) == [] && name != []
    ensures Bound(d, e, roles, dir, name, inum)
  {
    hide FileBlock, SizeOf, IsDir, EntryName, EntryInum, EntryCount;
    assert EntryCount(e, dir) == EntryCount(d, dir) by { SameCount(d, e, dir); }
    forall i: nat, nm: Name, x: nat | IsInode(roles, i) && i < |d| && nm != []
      ensures Binds(e, i, nm, x) <==> Binds(d, i, nm, x) || (i == dir && nm == name && x == inum)
    {
      if i != dir { OtherEntries(d, e, roles, dir, i); } else { BindsUpdate(d, e, dir, k, name, inum, nm, x); }
    }
  }

  lemma SameCount(d: Disk, e: Disk, dir: nat)
    requires dir < |d| == |e| && e[dir] == d[dir]
    ensures EntryCount(e, dir) == EntryCount(d, dir)
  {
  }

  lemma BindsUpdate(d: Disk, e: Disk, dir: nat, k: nat, name: Name, inum: nat, nm: Name, x: nat)
    requires OnlyEntry(d, e, dir, k, name, inum) && EntryCount(e, dir) == EntryCount(d, dir)
    requires k < EntryCount(d, dir) && EntryName(d, dir, k) == [] && nm != []
    ensures Binds(e, dir, nm, x) <==> Binds(d, dir, nm, x) || (nm == name && x == inum)
  {
    hide FileBlock, SizeOf, IsDir, EntryName, EntryInum, EntryCount;
    if Binds(d, dir, nm, x) {
      var l :| 0 <= l < EntryCount(d, dir) && l < MAXBLOCKS * BLKDIRENTS && EntryName(d, dir, l) == nm
               && EntryInum(d, dir, l) == x;
      assert EntryName(e, dir, l) == nm && EntryInum(e, dir, l) == x;
    }
    if nm == name && x == inum {
      assert EntryName(e, dir, k) == nm && EntryInum(e, dir, k) == x;
    }
    if Binds(e, dir, nm, x) {
      var l :| 0 <= l < EntryCount(e, dir) && l < MAXBLOCKS * BLKDIRENTS && EntryName(e, dir, l) == nm
               && EntryInum(e, dir, l) == x;
      if l != k { assert EntryName(d, dir, l) == nm && EntryInum(d, dir, l) == x; }
    }
  }

  /** Adding an unallocated block at the end of a directory adds only free entries. */
  lemma Extended(d: Disk, free: seq<bool>, roles: Roles, dir: nat)
    requires Sound(d, free, roles) && TreeOk(d, roles) && IsInode(roles, dir)
    requires dir < |d| && IsDir(d[dir]) && SizeOf(d[dir]) + BLKSIZE < TWO32
    ensures var e: Disk := d[dir := PutWord(d[dir], SIZE, SizeOf(d[dir]) + BLKSIZE)];
            && Sound(e, free, roles) && TreeOk(e, roles) && SameNames(d, e, roles)
            && SizeOf(e[dir]) == SizeOf(d[dir]) + BLKSIZE && IsDir(e[dir])
            && OthersSame(d, e, roles, dir)
            && (forall n: nat :: n < MAXBLOCKS ==> FileBlock(e, dir, n) == FileBlock(d, dir, n))
            && (forall i: nat :: IsInode(roles, i) && i < |d| && i != dir ==> e[i] == d[i])
  {
    hide Home, Word, Graph, PutWord, Binds, DirOk;
    var size := SizeOf(d[dir]) + BLKSIZE;
    var e: Disk := d[dir := PutWord(d[dir], SIZE, size)];
    WordPut(d[dir], SIZE, size);
    WriteAttributesKeepsSound(d, free, roles, dir, e[dir]);
    hide FileBlock, SizeOf, IsDir;
    assert SizeOf(e[dir]) == size && IsDir(e[dir]) by { SizeOfPut(d[dir], size); }
    assert DirOk(d, roles, dir);
    ExtendedDir(d, e, roles, dir);
    forall i: nat | IsInode(roles, i) && i < |e| && IsDir(e[i])
      ensures DirOk(e, roles, i)
    {
      if i != dir { OtherDirOk(d, e, roles, roles, dir, i); }
    }
    forall i: nat, name: Name, inum: nat | IsInode(roles, i) && i < |d| && name != []
      ensures Binds(e, i, name, inum) <==> Binds(d, i, name, inum)
    {
      if i != dir { OtherBinds(d, e, roles, dir, i, name, inum); } else { ExtendedBinds(d, e, roles, dir, name, inum); }
    }
  }

  lemma SizeOfPut(b: Block, size: nat)
    requires size < TWO32
    ensures SizeOf(PutWord(b, SIZE, size)) == size && IsDir(PutWord(b, SIZE, size)) == IsDir(b)
    ensures ModeOf(PutWord(b, SIZE, size)) == ModeOf(b)
  {
    hide Word, PutWord;
    WordPut(b, SIZE, size);
  }

  lemma OtherBinds(d: Disk, e: Disk, roles: Roles, dir: nat, i: nat, name: Name, inum: nat)
    requires OthersSame(d, e, roles, dir) && IsInode(roles, i) && i < |d| && i != dir
    ensures Binds(e, i, name, inum) <==> Binds(d, i, name, inum)
  {
    hide FileBlock, SizeOf, IsDir, EntryName, EntryInum, EntryCount;
    OtherEntries(d, e, roles, dir, i);
  }

  /** `e` is `d` with one more block in directory `dir`. */
  ghost predicate OneMoreBlock(d: Disk, e: Disk, dir: nat) {
    && dir < |d| == |e| && SizeOf(e[dir]) == SizeOf(d[dir]) + BLKSIZE
    && forall n: nat :: n < MAXBLOCKS ==> FileBlock(e, dir, n) == FileBlock(d, dir, n)
  }

  /** The entries of the extended directory: the old ones, then free ones. */
  lemma ExtendedEntries(d: Disk, e: Disk, roles: Roles, dir: nat)
    requires OneMoreBlock(d, e, dir) && DirOk(d, roles, dir)
    ensures EntryCount(e, dir) == EntryCount(d, dir) + BLKDIRENTS < MAXBLOCKS * BLKDIRENTS
    ensures forall k :: 0 <= k < MAXBLOCKS * BLKDIRENTS ==>
              EntryName(e, dir, k) == EntryName(d, dir, k) && EntryInum(e, dir, k) == EntryInum(d, dir, k)
    ensures forall k :: EntryCount(d, dir) <= k < MAXBLOCKS * BLKDIRENTS ==> EntryName(d, dir, k) == []
  {
    hide FileBlock, SizeOf, IsDir, DirentName, DirentInum;
    EntryBound(e, dir);
    forall k | EntryCount(d, dir) <= k < MAXBLOCKS * BLKDIRENTS
      ensures EntryName(d, dir, k) == []
    {
      assert SizeOf(d[dir]) / BLKSIZE <= k / BLKDIRENTS;
      ZeroEntries(k % BLKDIRENTS);
    }
  }

  lemma ExtendedDir(d: Disk, e: Disk, roles: Roles, dir: nat)
    requires OneMoreBlock(d, e, dir) && DirOk(d, roles, dir)
    ensures DirOk(e, roles, dir)
  {
    ExtendedEntries(d, e, roles, dir);
    hide FileBlock, SizeOf, IsDir, EntryName, EntryInum, EntryCount;
  }

  lemma ExtendedBinds(d: Disk, e: Disk, roles: Roles, dir: nat, name: Name, inum: nat)
    requires OneMoreBlock(d, e, dir) && DirOk(d, roles, dir) && name != []
    ensures Binds(e, dir, name, inum) <==> Binds(d, dir, name, inum)
  {
    hide FileBlock, SizeOf, IsDir, EntryName, EntryInum, EntryCount;
    ExtendedEntries(d, e, roles, dir);
  }

  /** Directory `dir` may have got one more block; no file reads differently. */
  ghost predicate Longer(d: Disk, e: Disk, roles: Roles, dir: nat) {
    && OthersSame(d, e, roles, dir) && dir < |d| && IsDir(e[dir]) == IsDir(d[dir])
    && (SizeOf(e[dir]) == SizeOf(d[dir]) || SizeOf(e[dir]) == SizeOf(d[dir]) + BLKSIZE)
    && forall n: nat :: n < MAXBLOCKS ==> FileBlock(e, dir, n) == FileBlock(d, dir, n)
  }

  lemma SameContentLonger(d: Disk, e: Disk, roles: Roles, dir: nat)
    requires SameContent(d, e, roles) && IsInode(roles, dir) && dir < |d|
    ensures Longer(d, e, roles, dir)
  {
    hide FileBlock, IsDir, SizeOf, Attributes;
    SameContentOthers(d, e, roles, dir);
    AttributesDetermine(d[dir], e[dir]);
  }

  /** Allocation before and after the growing step. */
  lemma LongerAround(d: Disk, e: Disk, f: Disk, g: Disk, roles: Roles, roles1: Roles, roles2: Roles, dir: nat)
    requires SameContent(d, e, roles) && OneMoreBlock(e, f, dir) && OthersSame(e, f, roles1, dir)
    requires SameContent(f, g, roles2)
    requires IsDir(f[dir]) == IsDir(e[dir])
    requires forall i :: IsInode(roles, i) ==> IsInode(roles1, i) && IsInode(roles2, i)
    requires IsInode(roles, dir) && dir < |d|
    ensures Longer(d, g, roles, dir)
  {
    hide FileBlock, IsDir, SizeOf, Attributes, OthersSame;
    SameContentOthers(d, e, roles, dir);
    SameContentOthers(f, g, roles2, dir);
    OthersSameTransitive(d, e, f, roles, roles1, dir);
    OthersSameTransitive(d, f, g, roles, roles2, dir);
    AttributesDetermine(d[dir], e[dir]);
    AttributesDetermine(f[dir], g[dir]);
  }

  /** The added entries are free, so they name nothing. */
  lemma ExtendedNamed(d: Disk, e: Disk, roles: Roles, dir: nat, root: nat)
    requires OneMoreBlock(d, e, dir) && DirOk(d, roles, dir) && OthersSame(d, e, roles, dir)
    requires IsDir(d[dir]) && IsDir(e[dir]) && NamedOnce(d, roles, root)
    ensures NamedOnce(e, roles, root)
  {
    hide FileBlock, SizeOf, IsDir, EntryName, EntryInum, EntryCount, NamedOnce;
    ExtendedEntries(d, e, roles, dir);
    forall i: nat, k: nat
      ensures Live(e, roles, i, k) <==> Live(d, roles, i, k)
      ensures Live(d, roles, i, k) ==> EntryInum(e, i, k) == EntryInum(d, i, k)
    {
      if IsInode(roles, i) && i < |d| && i != dir { OtherEntries(d, e, roles, dir, i); }
    }
    SameLiveNamed(d, e, roles, roles, root);
  }

  /** What happens to a file that is no directory does not concern the tree. */
  lemma OthersTree(d: Disk, e: Disk, roles: Roles, roles': Roles, a: nat, root: nat)
    requires OthersSame(d, e, roles, a) && a < |d| && !IsDir(d[a]) && !IsDir(e[a])
    requires TreeOk(d, roles) && NamedOnce(d, roles, root) && forall i :: IsInode(roles, i) <==> IsInode(roles', i)
    ensures TreeOk(e, roles') && NamedOnce(e, roles', root)
  {
    hide FileBlock, SizeOf, IsDir, EntryName, EntryInum, EntryCount, NamedOnce, DirOk;
    forall i: nat | IsInode(roles', i) && i < |e| && IsDir(e[i])
      ensures DirOk(e, roles', i)
    {
      OtherDirOk(d, e, roles, roles', a, i);
    }
    forall i: nat, k: nat
      ensures Live(e, roles', i, k) <==> Live(d, roles, i, k)
      ensures Live(d, roles, i, k) ==> EntryInum(e, i, k) == EntryInum(d, i, k)
    {
      if IsInode(roles, i) && i < |d| && i != a { OtherEntries(d, e, roles, a, i); }
    }
    SameLiveNamed(d, e, roles, roles', root);
  }

  /** Nor does it move any path. */
  lemma {:induction false} OthersWalk(d: Disk, e: Disk, roles: Roles, a: nat, dir: Option<nat>, cur: nat,
        names: seq<Name>)
    requires OthersSame(d, e, roles, a) && a < |d| && !IsDir(d[a]) && !IsDir(e[a])
    requires TreeOk(d, roles) && IsInode(roles, cur) && AllNonEmpty(names)
    ensures WalkFrom(e, dir, cur, names) == WalkFrom(d, dir, cur, names)
    decreases |names|
  {
    hide FileBlock, SizeOf, IsDir, EntryName, EntryInum, EntryCount;
    if names != [] && cur < |d| && cur != a {
      OtherEntries(d, e, roles, a, cur);
      EntryBound(d, cur);
      SameFind(d, e, cur, names[0], 0);
      if IsDir(d[cur]) {
        match LookupIn(d, cur, names[0])
        case None =>
        case Some(i) =>
          LookupLive(d, roles, cur, names[0]);
          OthersWalk(d, e, roles, a, Some(cur), i, names[1..]);
      }
    }
  }

  /** A write into a file leaves the other files' attributes and blocks alone. */
  lemma WrittenOthers(d: Disk, e: Disk, roles: Roles, a: nat, offset: nat, bytes: seq<Byte>)
    requires Written(d, e, roles, a, offset, bytes)
    ensures OthersSame(d, e, roles, a) && IsDir(e[a]) == IsDir(d[a])
  {
    hide FileBlock, FileByte, IsDir, SizeOf, Attributes;
    forall i: nat | IsInode(roles, i) && i < |d| && i != a
      ensures IsDir(e[i]) == IsDir(d[i]) && SizeOf(e[i]) == SizeOf(d[i])
    {
      AttributesDetermine(d[i], e[i]);
    }
  }

  /** A new inode is in no directory and is none. */
  lemma NewInodeTree(d: Disk, free: seq<bool>, roles: Roles, b: nat)
    requires Sound(d, free, roles) && TreeOk(d, roles) && b < |d| && free[b]
    ensures TreeOk(Adopt(d, b), roles[b := Inode(b)]) && SameNames(d, Adopt(d, b), roles)
  {
    hide Home, Word, Graph, FileBlock, DirOk, IsDir, SizeOf, Binds, Attributes;
    CreateKeepsSound(d, free, roles, b);
    var e, roles' := Adopt(d, b), roles[b := Inode(b)];
    SameContentNames(d, e, roles);
    SameContentOthers(d, e, roles, b);
    forall i: nat | IsInode(roles', i) && i < |e| && IsDir(e[i])
      ensures DirOk(e, roles', i)
    {
      assert IsInode(roles, i) && i != b;
      OtherDirOk(d, e, roles, roles', b, i);
    }
  }

  lemma SameContentOthers(d: Disk, e: Disk, roles: Roles, b: nat)
    requires SameContent(d, e, roles)
    ensures OthersSame(d, e, roles, b)
  {
    hide FileBlock, IsDir, SizeOf, Attributes;
    forall i: nat | IsInode(roles, i) && i < |d|
      ensures IsDir(e[i]) == IsDir(d[i]) && SizeOf(e[i]) == SizeOf(d[i])
    {
      AttributesDetermine(d[i], e[i]);
    }
  }

  /** After a name is bound, the path that missed only that name leads to the new inode. */
  lemma {:induction false} WalkAfterBound(d: Disk, e: Disk, roles: Roles, roles': Roles, parent: nat, last: Name,
        inum: nat, dir: Option<nat>, cur: nat, names: seq<Name>)
    requires TreeOk(d, roles) && TreeOk(e, roles') && Bound(d, e, roles, parent, last, inum)
    requires IsInode(roles, cur) && AllNonEmpty(names)
    requires forall i: nat :: IsInode(roles, i) && i < |d| ==> IsInode(roles', i) && IsDir(e[i]) == IsDir(d[i])
    requires WalkFrom(d, dir, cur, names) == Missing(parent, last)
    ensures WalkFrom(e, dir, cur, names) == Found(Some(parent), inum)
    decreases |names|
  {
    hide IsDir, LookupIn, Binds, DirOk;
    var name := names[0];
    assert DirOk(d, roles, cur) && DirOk(e, roles', cur);
    match LookupIn(d, cur, name)
    case None =>
      LookupIsMap(e, roles', cur, name, inum);
      assert names[1..] == [];
    case Some(i) =>
      LookupIsMap(d, roles, cur, name, i);
      LookupIsMap(e, roles', cur, name, i);
      LookupLive(d, roles, cur, name);
      WalkAfterBound(d, e, roles, roles', parent, last, inum, Some(cur), i, names[1..]);
  }

  /** `last` in directory `parent` is a new, empty inode; every other name and file is as before. */
  ghost predicate Created(d: Disk, e: Disk, roles: Roles, roles': Roles, parent: nat, last: Name, ino: nat) {
    && Bound(d, e, roles, parent, last, ino) && OthersSame(d, e, roles, parent)
    && ino < |e| && !IsInode(roles, ino) && IsInode(roles', ino)
    && e[ino] == ZeroBlock() && SizeOf(e[ino]) == 0
    && (forall n :: 0 <= n < MAXBLOCKS ==> FileBlock(e, ino, n) == ZeroBlock())
    && (forall i :: IsInode(roles', i) <==> IsInode(roles, i) || i == ino)
  }

  lemma BoundAfterSame(d: Disk, e: Disk, f: Disk, roles: Roles, roles': Roles, dir: nat, name: Name, inum: nat)
    requires SameNames(d, e, roles) && Bound(e, f, roles', dir, name, inum)
    requires forall i :: IsInode(roles, i) ==> IsInode(roles', i)
    ensures Bound(d, f, roles, dir, name, inum)
  {
    hide Binds;
  }

  lemma SameNamesTransitive(d: Disk, e: Disk, f: Disk, roles: Roles, roles': Roles)
    requires SameNames(d, e, roles) && SameNames(e, f, roles') && forall i :: IsInode(roles, i) ==> IsInode(roles', i)
    ensures SameNames(d, f, roles)
  {
    hide Binds;
  }

  lemma OthersSameTransitive(d: Disk, e: Disk, f: Disk, roles: Roles, roles': Roles, dir: nat)
    requires OthersSame(d, e, roles, dir) && OthersSame(e, f, roles', dir)
    requires forall i :: IsInode(roles, i) ==> IsInode(roles', i)
    ensures OthersSame(d, f, roles, dir)
  {
    hide FileBlock, IsDir, SizeOf, Attributes;
  }

  /** A name that is unbound stays unbound while bindings are the same. */
  lemma StillUnbound(d: Disk, e: Disk, roles: Roles, roles': Roles, dir: nat, name: Name)
    requires TreeOk(d, roles) && TreeOk(e, roles') && SameNames(d, e, roles) && name != []
    requires IsInode(roles, dir) && IsInode(roles', dir) && dir < |d| && IsDir(d[dir]) && IsDir(e[dir])
    requires LookupIn(d, dir, name) == None
    ensures LookupIn(e, dir, name) == None
  {
    hide Binds, DirOk, LookupIn, IsDir;
    assert DirOk(d, roles, dir) && DirOk(e, roles', dir);
    LookupIsMap(d, roles, dir, name, 0);
    LookupIsMap(e, roles', dir, name, 0);
  }

  /** The last steps of inode_create, on a disk `d` whose names are those of `d0`: block `b` becomes
      an empty inode, and free entry `at` of the directory, in block `q`, is filled. */
  lemma NameAdded(d0: Disk, roles0: Roles, d: Disk, free: seq<bool>, roles: Roles, dir: nat, at: nat, q: nat,
        last: Name, b: nat, roles': Roles, root: nat)
    requires Sound(d, free, roles) && TreeOk(d, roles) && TreeOk(d0, roles0) && IsInode(roles0, dir)
    requires forall i :: IsInode(roles0, i) <==> IsInode(roles, i)
    requires SameNames(d0, d, roles0) && OthersSame(d0, d, roles0, dir)
    requires dir < |d0| == |d| && IsDir(d0[dir]) && IsDir(d[dir]) && LookupIn(d0, dir, last) == None && GoodName(last)
    requires at < EntryCount(d, dir) && at < MAXBLOCKS * BLKDIRENTS && EntryName(d, dir, at) == []
    requires q in roles && q < |d| && roles[q] == Data(dir, at / BLKDIRENTS)
    requires b < |d| && free[b] && roles' == roles[b := Inode(b)]
    requires NamedOnce(d, roles, root) && IsInode(roles, root)
    ensures b < TWO32 && q != b
    ensures var d1 := Adopt(d, b);
            var e: Disk := d1[q := PutDirent(d1[q], at % BLKDIRENTS, last, b)];
            && Sound(e, free[b := false], roles') && TreeOk(e, roles') && NamedOnce(e, roles', root)
            && Created(d0, e, roles0, roles', dir, last, b) && IsDir(e[dir])
            && (forall i: nat :: IsInode(roles, i) && i < |d| ==> e[i] == d[i])
            && forall i :: IsInode(roles0, i) ==> IsInode(roles', i)
  {
    hide Home, Word, Graph, PutDirent, IsDir, SizeOf, LookupIn, TreeOk, EntryCount, EntryName, EntryInum, FileBlock,
      Bound, SameNames, OthersSame, SameContent, NamedOnce, OnlyEntry;
    var d1 := Adopt(d, b);
    CreateKeepsSound(d, free, roles, b);
    NewInodeTree(d, free, roles, b);
    SameEntries(d, d1, roles, dir);
    SameContentOthers(d, d1, roles, dir);
    NewBlock(d, free, roles, q, b);
    SameNamesTransitive(d0, d, d1, roles0, roles);
    OthersSameTransitive(d0, d, d1, roles0, roles, dir);
    assert forall i :: IsInode(roles', i) <==> IsInode(roles0, i) || i == b;
    StillUnbound(d0, d1, roles0, roles', dir, last);
    EntryFilled(d1, free[b := false], roles', dir, at, last, b, q);
    var e: Disk := d1[q := PutDirent(d1[q], at % BLKDIRENTS, last, b)];
    BoundAfterSame(d0, d1, e, roles0, roles', dir, last, b);
    OtherFiles(d1, e, roles', dir);
    OthersSameTransitive(d0, d1, e, roles0, roles', dir);
    EntryAdded(d, d1, e, roles, roles', dir, at, last, b, root);
  }

  /** The new inode is named by the filled entry, every other inode by the entry that named it. */
  lemma EntryAdded(d: Disk, d1: Disk, e: Disk, roles: Roles, roles': Roles, dir: nat, at: nat, last: Name, b: nat,
        root: nat)
    requires SameContent(d, d1, roles) && OnlyEntry(d1, e, dir, at, last, b) && OthersSame(d1, e, roles', dir)
    requires b < |d| && !IsInode(roles, b) && roles' == roles[b := Inode(b)] && !IsDir(d1[b])
    requires IsInode(roles, dir) && dir < |d| && IsDir(d[dir]) && at < EntryCount(d, dir) && EntryName(d, dir, at) == []
    requires last != []
    requires TreeOk(d, roles) && NamedOnce(d, roles, root) && IsInode(roles, root)
    ensures NamedOnce(e, roles', root)
  {
    hide FileBlock, SizeOf, IsDir, Attributes, EntryName, EntryInum, EntryCount, NamedOnce, SameContent, OthersSame,
      OnlyEntry, DirOk;
    SameLength(d, d1, roles);
    forall i: nat, k: nat
      ensures Live(e, roles', i, k) <==> Live(d, roles, i, k) || (i == dir && k == at)
      ensures Live(d, roles, i, k) ==> EntryInum(e, i, k) == EntryInum(d, i, k) && IsInode(roles, EntryInum(d, i, k))
    {
      EntryAfter(d, d1, e, roles, roles', dir, at, last, b, i, k);
    }
    EntryAfter(d, d1, e, roles, roles', dir, at, last, b, dir, at);
    NamedAfter(d, e, roles, roles', dir, at, b, root);
  }

  lemma EntryAfter(d: Disk, d1: Disk, e: Disk, roles: Roles, roles': Roles, dir: nat, at: nat, last: Name, b: nat,
        i: nat, k: nat)
    requires SameContent(d, d1, roles) && OnlyEntry(d1, e, dir, at, last, b) && OthersSame(d1, e, roles', dir)
    requires |d| == |d1| && b < |d| && !IsInode(roles, b) && roles' == roles[b := Inode(b)] && !IsDir(d1[b])
    requires IsInode(roles, dir) && dir < |d| && IsDir(d[dir]) && at < EntryCount(d, dir) && EntryName(d, dir, at) == []
    requires last != []
    requires TreeOk(d, roles)
    ensures Live(e, roles', i, k) <==> Live(d, roles, i, k) || (i == dir && k == at)
    ensures Live(d, roles, i, k) ==> EntryInum(e, i, k) == EntryInum(d, i, k) && IsInode(roles, EntryInum(d, i, k))
    ensures at < MAXBLOCKS * BLKDIRENTS && EntryInum(e, dir, at) == b
  {
    hide FileBlock, SizeOf, IsDir, Attributes, EntryName, EntryInum, EntryCount, SameContent;
    if IsInode(roles, i) && i < |d| {
      SameEntries(d, d1, roles, i);
      if i != dir { OtherEntries(d1, e, roles', dir, i); } else { SameCount(d1, e, dir); }
      if IsDir(d[i]) { assert DirOk(d, roles, i); }
    }
  }

  lemma NamedAfter(d: Disk, e: Disk, roles: Roles, roles': Roles, dir: nat, at: nat, b: nat, root: nat)
    requires NamedOnce(d, roles, root) && IsInode(roles, root) && !IsInode(roles, b)
    requires at < MAXBLOCKS * BLKDIRENTS && EntryInum(e, dir, at) == b
    requires forall i :: IsInode(roles', i) <==> IsInode(roles, i) || i == b
    requires forall i: nat, k: nat :: Live(e, roles', i, k) <==> Live(d, roles, i, k) || (i == dir && k == at)
    requires forall i: nat, k: nat ::
               Live(d, roles, i, k) ==> EntryInum(e, i, k) == EntryInum(d, i, k) && IsInode(roles, EntryInum(d, i, k))
    ensures NamedOnce(e, roles', root)
  {
    hide EntryName, EntryInum, EntryCount, IsDir;
    assert forall i: nat, k: nat :: Live(d, roles, i, k) ==> k < MAXBLOCKS * BLKDIRENTS;
    hide Live;
    forall i: nat | IsInode(roles', i) && i != root
      ensures Named(e, roles', i)
    {
      if i == b {
        assert Live(e, roles', dir, at);
      } else {
        assert Named(d, roles, i);
        var i', k: nat :| Live(d, roles, i', k) && EntryInum(d, i', k) == i;
        assert Live(e, roles', i', k);
      }
    }
  }

  lemma NewBlock(d: Disk, free: seq<bool>, roles: Roles, q: nat, b: nat)
    requires Sound(d, free, roles) && b < |d| && free[b] && q in roles && q < |d|
    ensures b < TWO32 && q != b && Adopt(d, b)[q] == d[q] && !IsInode(roles, b)
  {
    hide Home, Word;
  }
}
