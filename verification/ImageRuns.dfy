/**
  From a list of files to a whole run: the formatted disk, mounted, starts out as the map of exactly
  those files, and every call after that is answered from the map.
 */
module ImageRuns {
  import opened Blocks
  import opened CInts
  import opened Directory
  import opened FileRuns
  import opened FileTree
  import opened FileView
  import opened Files
  import opened Format
  import Image
  import opened InodeCode
  import opened Paths
  import opened Util
  import opened Volume

  /** One directory, and in it exactly these files. */
  ghost predicate ListsFiles(t: Tree, names: seq<Name>, files: seq<seq<Byte>>) {
    && |names| == |files| && [] in t && t[[]] == Dir
    && (forall m :: 0 <= m < |names| ==> var p: seq<Name> := [names[m]]; p in t && t[p] == File(files[m]))
    && forall p :: p in t ==> p == [] || (|p| == 1 && p[0] in names)
  }

  /** The bytes behind the end of a formatted file. */
  lemma PadZero(data: seq<Byte>, x: nat)
    requires |data| <= x < TWO32
    ensures x / BLKSIZE < MAXBLOCKS && PadBlock(data, x / BLKSIZE)[x % BLKSIZE] == 0
  {
    assert x == BLKSIZE * (x / BLKSIZE) + x % BLKSIZE;
  }

  lemma FileIsZero(d: Disk, roles: Roles, ino: nat, data: seq<Byte>, x: nat)
    requires FileIs(d, roles, ino, data) && |data| <= x < TWO32
    ensures FileByte(d, ino, x) == 0
  {
    hide FileBlock, IsDir, SizeOf, PadBlock;
    PadZero(data, x);
  }

  lemma FileIsNode(d: Disk, roles: Roles, ino: nat, data: seq<Byte>)
    requires FileIs(d, roles, ino, data) && |data| <= TWO32
    ensures ino < |d| && NodeAt(d, ino) == File(data)
  {
    hide FileBlock, IsDir, SizeOf, PadBlock, FileByte;
    Image.FileIsBytes(d, roles, ino, data);
  }

  /** Each inode of the image is the root or one listed file. */
  lemma ListedInode(d: Disk, free: seq<bool>, roles: Roles, root: nat, nblocks: nat, pos: nat, ents: seq<Block>,
        names: seq<Name>, files: seq<seq<Byte>>, i: nat) returns (m: nat)
    requires Image.Formatted(d, free, roles, root, nblocks, pos, ents, names, files) && IsInode(roles, i) && i != root
    ensures m < |names| == |files| && FileIs(d, roles, i, files[m])
  {
    hide Graph, RootDone, EntName, EntInum, FileIs;
    m :| 0 <= m < |names| && EntInum(ents, m) == i;
  }

  lemma FormattedZeros(d: Disk, free: seq<bool>, roles: Roles, root: nat, nblocks: nat, pos: nat, ents: seq<Block>,
        names: seq<Name>, files: seq<seq<Byte>>)
    requires Image.Formatted(d, free, roles, root, nblocks, pos, ents, names, files) && root < |d| && IsDir(d[root])
    ensures ZerosBehind(d, roles)
  {
    hide Image.Formatted, FileByte, IsDir, FileBlock;
    forall i: nat, x: nat | IsInode(roles, i) && i < |d| && SizeOf(d[i]) <= x < TWO32
      ensures IsDir(d[i]) || FileByte(d, i, x) == 0
    {
      if i != root {
        var m := ListedInode(d, free, roles, root, nblocks, pos, ents, names, files, i);
        FileIsZero(d, roles, i, files[m], x);
      }
    }
  }

  /** A path in the image is the root's or one name of the root directory. */
  lemma FormattedPaths(d: Disk, free: seq<bool>, roles: Roles, root: nat, nblocks: nat, pos: nat, ents: seq<Block>,
        names: seq<Name>, files: seq<seq<Byte>>, p: seq<Name>)
    requires Image.Formatted(d, free, roles, root, nblocks, pos, ents, names, files) && Leads(d, root, p) && p != []
    requires TreeOk(d, roles) && IsInode(roles, root) && NamedOnce(d, roles, root)
    ensures |p| == 1 && p[0] in names
  {
    hide Image.Formatted, IsDir, WalkFrom, AllNonEmpty, LookupIn, NamedOnce, TreeOk, FileIs, EntName, EntryName;
    LastStep(d, root, p);
    FrontNonEmpty(p);
    var front := p[..|p| - 1];
    FoundInode(d, roles, None, root, front);
    var dir := WalkFrom(d, None, root, front).ino;
    if dir != root {
      var m := ListedInode(d, free, roles, root, nblocks, pos, ents, names, files, dir);
      FileIsFile(d, roles, dir, files[m]);
    }
    NoPathToRoot(d, roles, root, front);
    RootListed(d, free, roles, root, nblocks, pos, ents, names, files, p[|p| - 1]);
  }

  lemma FileIsFile(d: Disk, roles: Roles, ino: nat, data: seq<Byte>)
    requires FileIs(d, roles, ino, data)
    ensures ino < |d| && !IsDir(d[ino])
  {
    hide FileBlock, IsDir, SizeOf, PadBlock;
  }

  lemma RootListed(d: Disk, free: seq<bool>, roles: Roles, root: nat, nblocks: nat, pos: nat, ents: seq<Block>,
        names: seq<Name>, files: seq<seq<Byte>>, name: Name)
    requires Image.Formatted(d, free, roles, root, nblocks, pos, ents, names, files)
    requires root < |d| && name != [] && LookupIn(d, root, name).Some?
    ensures name in names
  {
    hide Graph, FileIs, EntName, EntInum, EntryName, EntryInum, EntryCount, IsDir, SizeOf, FileBlock;
    Image.RootEntries(d, roles, root, nblocks, ents, |names|);
    EntryBound(d, root);
    var k := FindFrom(d, root, name, 0).value;
    assert EntryName(d, root, k) == name;
  }

  /** The image seen as a map. */
  lemma FormattedView(d: Disk, free: seq<bool>, roles: Roles, root: nat, nblocks: nat, pos: nat, ents: seq<Block>,
        names: seq<Name>, files: seq<seq<Byte>>)
    requires Image.Formatted(d, free, roles, root, nblocks, pos, ents, names, files)
    requires Image.Distinct(names) && Image.AllGood(names) && forall m :: 0 <= m < |files| ==> |files[m]| <= TWO32
    ensures TreeOk(d, roles) && NamedOnce(d, roles, root) && IsInode(roles, root) && ZerosBehind(d, roles)
    ensures ViewOf(d, roles, root).complete && ListsFiles(ViewOf(d, roles, root).tree, names, files)
  {
    hide Image.Formatted, TreeOk, NamedOnce, IsDir, ZerosBehind, DirsMapped, LookupIn, EntInum, FileIs, NodeAt,
      WalkFrom, Rooted, Image.Distinct;
    Image.FormattedTree(d, free, roles, root, nblocks, pos, ents, names, files);
    Image.FormattedMapped(d, free, roles, root, nblocks, pos, ents, names, files);
    Image.FormattedSound(d, free, roles, root, nblocks, pos, ents, names, files);
    Image.FileCount(d, free, roles, root, nblocks, pos, ents, names, files);
    FormattedZeros(d, free, roles, root, nblocks, pos, ents, names, files);
    SoundRooted(d, free, roles, root);
    RootNode(d, root);
    forall m | 0 <= m < |names|
      ensures var p: seq<Name> := [names[m]]; Leads(d, root, p) && NodeAt(d, Target(d, root, p)) == File(files[m])
    {
      Image.FormattedLookup(d, free, roles, root, nblocks, pos, ents, names, files, m);
      FileIsNode(d, roles, EntInum(ents, m), files[m]);
      OneName(d, root, names[m], EntInum(ents, m));
    }
    forall p: seq<Name> | Leads(d, root, p) && p != []
      ensures |p| == 1 && p[0] in names
    {
      FormattedPaths(d, free, roles, root, nblocks, pos, ents, names, files, p);
    }
  }

  lemma RootNode(d: Disk, root: nat)
    requires root < |d| && IsDir(d[root])
    ensures Leads(d, root, []) && NodeAt(d, Target(d, root, [])) == Dir
  {
    hide IsDir;
  }

  lemma OneName(d: Disk, root: nat, name: Name, ino: nat)
    requires root < |d| && IsDir(d[root]) && GoodName(name) && ino < |d| && LookupIn(d, root, name) == Some(ino)
    ensures Leads(d, root, [name]) && Target(d, root, [name]) == ino
  {
    hide IsDir, LookupIn;
    var one: seq<Name> := [name];
    assert one[1..] == [];
    assert WalkFrom(d, None, root, one) == WalkFrom(d, Some(root), ino, []) == Found(Some(root), ino);
  }

  /** Each file, given as "dir/name" or as "name", is listed as "name" with its bytes. */
  ghost predicate ListsArgs(t: Tree, args: seq<Image.File>) {
    forall m, name :: 0 <= m < |args| && EndsIn(args[m].path, name) ==>
      var p: seq<Name> := [name]; p in t && t[p] == File(args[m].data)
  }

  lemma ArgsListed(t: Tree, args: seq<Image.File>)
    requires ListsFiles(t, Image.Names(args), Image.Contents(args))
    ensures ListsArgs(t, args)
  {
    hide BaseName, EndsIn;
    forall m, name | 0 <= m < |args| && EndsIn(args[m].path, name)
      ensures var p: seq<Name> := [name]; p in t && t[p] == File(args[m].data)
    {
      BaseNameIs(args[m].path, name);
      assert Image.Names(args)[m] == name;
    }
  }

  /** Format a disk with these files, mount it, and make any calls. */
  method FormatAndRun(nblocks: nat, args: seq<Image.File>, ents: seq<Block>, ops: seq<Op>)
    returns (rs: seq<Reply>)
    requires 2 <= nblocks && nblocks * BLKSIZE < TWO32 && Image.ArgsOk(args) && |ents| == 4
    requires Image.Distinct(Image.Names(args)) && Image.Needed(nblocks, Image.Contents(args)) < nblocks && OpsOk(ops)
    ensures exists v: View ::
              && Answers(v, ops, rs) && v.complete && ListsArgs(v.tree, args)
              && ListsFiles(v.tree, Image.Names(args), Image.Contents(args))
  {
    hide Image.Names, Image.Contents, Image.Needed, Image.Distinct, Image.Formatted, ListsFiles, Step, ViewOf,
      ZerosBehind, OpOk, Sound, TreeOk, NamedOnce, ListsArgs;
    var ok, f := Image.FormatDisk(nblocks, args, ents);
    ghost var names, files := Image.Names(args), Image.Contents(args);
    GoodArgs(args);
    FormattedView(f.blocks, f.bitmap.Free(), f.roles, f.root, nblocks, f.Pos(), f.ents, names, files);
    Image.FormattedSize(f.blocks, f.bitmap.Free(), f.roles, f.root, nblocks, f.Pos(), f.ents, names, files);
    Image.FormattedSound(f.blocks, f.bitmap.Free(), f.roles, f.root, nblocks, f.Pos(), f.ents, names, files);
    var fs := new FileSystem(f.bitmap, f.root, f.blocks, f.roles);
    ghost var vs;
    rs, vs := PerformAll(fs, ops);
    assert Answers(vs[0], ops, rs);
    ArgsListed(vs[0].tree, args);
  }

  lemma GoodArgs(args: seq<Image.File>)
    requires Image.ArgsOk(args)
    ensures Image.AllGood(Image.Names(args)) && forall m :: 0 <= m < |args| ==> |Image.Contents(args)[m]| <= TWO32
  {
    hide BaseName;
  }
}
