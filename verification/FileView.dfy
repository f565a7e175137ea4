/**
  Reading the map of paths off the disk, and what each change of the disk does to it.
 */
module FileView {
  import opened Util
  import opened Blocks
  import opened CInts
  import opened Volume
  import opened Files
  import opened Directory
  import opened FileTree
  import opened InodeCode
  import opened Paths

  ghost predicate Leads(d: Disk, root: nat, names: seq<Name>) {
    AllNonEmpty(names) && WalkFrom(d, None, root, names).Found? && WalkFrom(d, None, root, names).ino < |d|
  }

  ghost function Target(d: Disk, root: nat, names: seq<Name>): (i: nat)
    requires Leads(d, root, names)
    ensures i < |d|
  {
    WalkFrom(d, None, root, names).ino
  }

  /** The whole contents of a file. */
  ghost function Contents(d: Disk, i: nat): (s: seq<Byte>)
    requires i < |d|
    ensures |s| == SizeOf(d[i]) && forall x :: 0 <= x < |s| ==> s[x] == FileByte(d, i, x)
  {
    FileBytes(d, i, 0, SizeOf(d[i]))
  }

  ghost function NodeAt(d: Disk, i: nat): Node
    requires i < |d|
  {
    if IsDir(d[i]) then Dir else File(Contents(d, i))
  }

  ghost function TreeOf(d: Disk, root: nat): Tree {
    imap names: seq<Name> | Leads(d, root, names) :: NodeAt(d, Target(d, root, names))
  }

  ghost function ViewOf(d: Disk, roles: Roles, root: nat): View { View(TreeOf(d, root), DirsMapped(d, roles)) }

  /** Behind its end every file reads as zeros. */
  ghost predicate ZerosBehind(d: Disk, roles: Roles) {
    forall i: nat, x: nat :: IsInode(roles, i) && i < |d| && SizeOf(d[i]) <= x < TWO32 ==>
      IsDir(d[i]) || FileByte(d, i, x) == 0
  }

  /** A tree to work on: every inode is on the disk, and the tree is as mounting wants it. */
  ghost predicate Rooted(d: Disk, roles: Roles, root: nat) {
    && TreeOk(d, roles) && NamedOnce(d, roles, root) && IsInode(roles, root)
    && forall i: nat :: IsInode(roles, i) ==> i < |d|
  }

  // ----- the tree and the walk

  lemma InTree(d: Disk, roles: Roles, root: nat, names: seq<Name>)
    requires Rooted(d, roles, root) && AllNonEmpty(names)
    ensures names in TreeOf(d, root) <==> WalkFrom(d, None, root, names).Found?
    ensures Leads(d, root, names) <==> WalkFrom(d, None, root, names).Found?
    ensures Leads(d, root, names) ==>
              TreeOf(d, root)[names] == NodeAt(d, Target(d, root, names)) && IsInode(roles, Target(d, root, names))
  {
    hide TreeOk, NamedOnce, AllNonEmpty, IsDir, Contents, WalkFrom;
    if WalkFrom(d, None, root, names).Found? { FoundInode(d, roles, None, root, names); }
  }

  /** The map decides every outcome of a walk. */
  lemma {:induction false} WalkStatus(d: Disk, roles: Roles, root: nat, names: seq<Name>)
    requires Rooted(d, roles, root) && AllNonEmpty(names)
    ensures var t, w := TreeOf(d, root), WalkFrom(d, None, root, names);
            && (w.Found? <==> names in t) && (w.TooLong? <==> Overlong(t, names))
            && (w.Missing? <==> names !in t && !Overlong(t, names) && Holds(t, names))
    decreases |names|
  {
    hide Rooted, TreeOf, AllNonEmpty, IsDir, Contents, WalkFrom, LookupIn;
    InTree(d, roles, root, names);
    if names == [] {
      EmptyWalk(d, root);
    } else {
      FrontNonEmpty(names);
      var front, last := names[..|names| - 1], names[|names| - 1];
      WalkStatus(d, roles, root, front);
      InTree(d, roles, root, front);
      assert front + [last] == names;
      WalkSplit(d, None, root, front, last);
      if WalkFrom(d, None, root, front).Found? {
        OneMoreStep(d, WalkFrom(d, None, root, front).dir, WalkFrom(d, None, root, front).ino, last);
      }
    }
  }

  lemma EmptyWalk(d: Disk, root: nat)
    ensures WalkFrom(d, None, root, []) == Found(None, root)
  {
  }

  lemma OneMoreStep(d: Disk, dir: Option<nat>, cur: nat, last: Name)
    requires cur < |d|
    ensures var w := WalkFrom(d, dir, cur, [last]);
            && (w.TooLong? <==> |last| >= NAME_MAX) && (w.Found? ==> IsDir(d[cur]))
            && (w.Missing? <==> !w.Found? && !w.TooLong? && IsDir(d[cur]))
  {
    hide IsDir, LookupIn;
    var one: seq<Name> := [last];
    assert one[1..] == [];
  }

  // ----- unchanged trees

  lemma SameTree(d: Disk, e: Disk, root: nat)
    requires forall names: seq<Name> :: Leads(e, root, names) <==> Leads(d, root, names)
    requires forall names: seq<Name> :: Leads(d, root, names) ==>
               NodeAt(e, Target(e, root, names)) == NodeAt(d, Target(d, root, names))
    ensures TreeOf(e, root) == TreeOf(d, root)
  {
    hide Leads, Target, NodeAt;
  }

  lemma TreeUpdated(d: Disk, e: Disk, root: nat, names: seq<Name>, node: Node)
    requires Leads(e, root, names) && NodeAt(e, Target(e, root, names)) == node
    requires forall other: seq<Name> :: other != names ==> (Leads(e, root, other) <==> Leads(d, root, other))
    requires forall other: seq<Name> :: other != names && Leads(d, root, other) ==>
               NodeAt(e, Target(e, root, other)) == NodeAt(d, Target(d, root, other))
    ensures TreeOf(e, root) == TreeOf(d, root)[names := node]
  {
    hide Leads, Target, NodeAt;
  }

  /** A file whose size and blocks are the same. */
  lemma SameNode(d: Disk, e: Disk, roles: Roles, a: nat, i: nat)
    requires OthersSame(d, e, roles, a) && IsInode(roles, i) && i < |d| && i != a
    ensures NodeAt(e, i) == NodeAt(d, i)
    ensures forall x: nat :: x < TWO32 ==> FileByte(e, i, x) == FileByte(d, i, x)
  {
    hide FileBlock, IsDir, SizeOf, Attributes;
    forall x: nat | x < TWO32
      ensures FileByte(e, i, x) == FileByte(d, i, x)
    {
      assert FileBlock(e, i, x / BLKSIZE) == FileBlock(d, i, x / BLKSIZE);
    }
    SizeBelow(d[i]);
    assert Contents(e, i) == Contents(d, i);
  }

  /** Other files keep their zeros. */
  lemma OtherZeros(d: Disk, e: Disk, roles: Roles, roles': Roles, a: nat)
    requires OthersSame(d, e, roles, a) && ZerosBehind(d, roles)
    requires forall i: nat :: IsInode(roles', i) ==> IsInode(roles, i) || i == a
    requires a < |e| ==> IsDir(e[a]) || forall x: nat :: SizeOf(e[a]) <= x < TWO32 ==> FileByte(e, a, x) == 0
    ensures ZerosBehind(e, roles')
  {
    hide FileByte, IsDir, SizeOf, Attributes;
    forall i: nat, x: nat | IsInode(roles', i) && i < |e| && SizeOf(e[i]) <= x < TWO32
      ensures IsDir(e[i]) || FileByte(e, i, x) == 0
    {
      if i != a { SameNode(d, e, roles, a, i); }
    }
  }

  /** Allocation shows nowhere. */
  lemma GrownTree(d: Disk, e: Disk, roles: Roles, roles': Roles, root: nat)
    requires Rooted(d, roles, root) && SameContent(d, e, roles) && ZerosBehind(d, roles)
    requires forall i :: IsInode(roles, i) <==> IsInode(roles', i)
    ensures TreeOf(e, root) == TreeOf(d, root) && ZerosBehind(e, roles')
    ensures forall names: seq<Name> ::
              AllNonEmpty(names) ==> WalkFrom(e, None, root, names) == WalkFrom(d, None, root, names)
  {
    hide SameContent, TreeOk, NamedOnce, OthersSame, AllNonEmpty, IsDir, Contents, WalkFrom, FileByte, NodeAt;
    SameLength(d, e, roles);
    SameContentOthers(d, e, roles, |d|);
    OtherZeros(d, e, roles, roles', |d|);
    forall names: seq<Name> | AllNonEmpty(names)
      ensures WalkFrom(e, None, root, names) == WalkFrom(d, None, root, names)
    {
      SameWalk(d, e, roles, None, root, names);
    }
    forall names: seq<Name> | Leads(d, root, names)
      ensures NodeAt(e, Target(e, root, names)) == NodeAt(d, Target(d, root, names))
    {
      FoundInode(d, roles, None, root, names);
      SameNode(d, e, roles, |d|, Target(d, root, names));
    }
    SameTree(d, e, root);
  }

  // ----- one file

  /** What happens to one file is seen under its path and nowhere else. */
  lemma FileUpdated(d: Disk, e: Disk, roles: Roles, roles': Roles, root: nat, names: seq<Name>)
    requires Rooted(d, roles, root) && Leads(d, root, names) && |d| == |e|
    requires OthersSame(d, e, roles, Target(d, root, names)) && !IsDir(e[Target(d, root, names)])
    requires forall q: seq<Name> :: AllNonEmpty(q) ==> WalkFrom(e, None, root, q) == WalkFrom(d, None, root, q)
    ensures TreeOf(e, root) == TreeOf(d, root)[names := File(Contents(e, Target(d, root, names)))]
  {
    hide TreeOk, NamedOnce, OthersSame, AllNonEmpty, IsDir, Contents, WalkFrom;
    var a := Target(d, root, names);
    forall other: seq<Name> | other != names && Leads(d, root, other)
      ensures NodeAt(e, Target(e, root, other)) == NodeAt(d, Target(d, root, other))
    {
      FoundInode(d, roles, None, root, other);
      if Target(d, root, other) == a { OnePath(d, roles, root, names, other); }
      SameNode(d, e, roles, a, Target(d, root, other));
    }
    TreeUpdated(d, e, root, names, File(Contents(e, a)));
  }

  /** A write, in bytes. */
  lemma WrittenContents(d: Disk, e: Disk, roles: Roles, roles': Roles, a: nat, offset: nat, bytes: seq<Byte>, len: nat)
    requires Written(d, e, roles, a, offset, bytes) && |bytes| <= len && offset + len < TWO32
    requires SizeOf(e[a]) == NewSize(SizeOf(d[a]), offset, len) && ZerosBehind(d, roles) && IsInode(roles, a)
    requires !IsDir(d[a])
    requires forall i :: IsInode(roles, i) <==> IsInode(roles', i)
    ensures Contents(e, a) == Overwritten(Contents(d, a), offset, bytes, len) && ZerosBehind(e, roles')
  {
    hide FileByte, FileBlock, Attributes, IsDir, SizeOf, OthersSame;
    WrittenOthers(d, e, roles, a, offset, bytes);
    OtherZeros(d, e, roles, roles', a);
    SizeBelow(e[a]);
  }

  lemma SizeBelow(b: Block)
    ensures SizeOf(b) < TWO32
  {
    hide Word;
  }

  /** The removal of a block, in bytes. */
  lemma ClearedContents(d: Disk, e: Disk, roles: Roles, roles': Roles, a: nat, n: nat)
    requires BlockCleared(d, e, roles, a, n) && OthersSame(d, e, roles, a) && ZerosBehind(d, roles) && IsInode(roles, a)
    requires a < |d|
    requires !IsDir(d[a]) && !IsDir(e[a]) && forall i :: IsInode(roles, i) <==> IsInode(roles', i)
    ensures Contents(e, a) == Cleared(Contents(d, a), n) && ZerosBehind(e, roles')
  {
    hide FileBlock, Attributes, IsDir, SizeOf, OthersSame;
    AttributesDetermine(d[a], e[a]);
    forall x: nat | x < TWO32
      ensures FileByte(e, a, x) == if x / BLKSIZE == n then 0 else FileByte(d, a, x)
    {
      assert FileBlock(e, a, x / BLKSIZE) == if x / BLKSIZE == n then ZeroBlock() else FileBlock(d, a, x / BLKSIZE);
    }
    hide FileByte;
    OtherZeros(d, e, roles, roles', a);
    SizeBelow(e[a]);
  }

  // ----- a new name

  /** `names` is new and leads to the new inode; every other path is as it was. */
  lemma NodeAdded(d: Disk, e: Disk, roles: Roles, roles': Roles, root: nat, names: seq<Name>, ino: nat)
    requires Rooted(d, roles, root) && Rooted(e, roles', root) && Grafted(d, e, roles, roles', ino)
    requires IsInode(roles', ino)
    requires Leads(e, root, names) && Target(e, root, names) == ino
    requires forall i: nat :: IsInode(roles, i) && i < |d| ==> NodeAt(e, i) == NodeAt(d, i)
    ensures TreeOf(e, root) == TreeOf(d, root)[names := NodeAt(e, ino)]
  {
    hide TreeOk, NamedOnce, Grafted, AllNonEmpty, IsDir, Contents, WalkFrom, NodeAt;
    GraftedDir(d, e, roles, roles', ino, ino);
    forall other: seq<Name> | other != names
      ensures Leads(e, root, other) <==> Leads(d, root, other)
      ensures Leads(d, root, other) ==> NodeAt(e, Target(e, root, other)) == NodeAt(d, Target(d, root, other))
    {
      if AllNonEmpty(other) {
        GraftedWalk(d, e, roles, roles', ino, None, root, other);
        if Leads(e, root, other) && Target(e, root, other) == ino { OnePath(e, roles', root, names, other); }
        if Leads(d, root, other) { FoundInode(d, roles, None, root, other); }
      }
    }
    TreeUpdated(d, e, root, names, NodeAt(e, ino));
  }

  /** No name is new, and no inode. */
  lemma NothingAdded(d: Disk, e: Disk, roles: Roles, roles': Roles, root: nat)
    requires Rooted(d, roles, root) && Rooted(e, roles', root) && SameNames(d, e, roles)
    requires forall i: nat :: IsInode(roles, i) <==> IsInode(roles', i)
    requires forall i: nat :: IsInode(roles, i) && i < |d| ==> NodeAt(e, i) == NodeAt(d, i)
    ensures TreeOf(e, root) == TreeOf(d, root)
  {
    hide TreeOk, NamedOnce, AllNonEmpty, IsDir, Contents, WalkFrom, Binds;
    assert Grafted(d, e, roles, roles', |d|);
    hide Grafted, NodeAt, SameNames;
    forall names: seq<Name>
      ensures Leads(e, root, names) <==> Leads(d, root, names)
      ensures Leads(d, root, names) ==> NodeAt(e, Target(e, root, names)) == NodeAt(d, Target(d, root, names))
    {
      if AllNonEmpty(names) {
        GraftedWalk(d, e, roles, roles', |d|, None, root, names);
        if Leads(d, root, names) { FoundInode(d, roles, None, root, names); }
      }
    }
    SameTree(d, e, root);
  }
}
