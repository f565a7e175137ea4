/**
  Paths of a tree in which every inode is named once: each file has exactly one path, and a new
  name moves no other path.
 */
module Paths {
  import opened Util
  import opened Blocks
  import opened Volume
  import opened Directory

  /** One more element at the end of a path. */
  lemma {:induction false} WalkSplit(d: Disk, dir: Option<nat>, cur: nat, front: seq<Name>, last: Name)
    ensures WalkFrom(d, dir, cur, front + [last]) ==
            match WalkFrom(d, dir, cur, front)
            case Found(at, i) => WalkFrom(d, at, i, [last])
            case Missing(_, _) => Gone
            case Gone => Gone
            case TooLong => TooLong
    decreases |front|
  {
    hide IsDir, LookupIn;
    var names := front + [last];
    if front == [] {
      assert names == [last];
    } else {
      assert names[0] == front[0] && names[1..] == front[1..] + [last];
      if cur < |d| && IsDir(d[cur]) && LookupIn(d, cur, front[0]).Some? {
        WalkSplit(d, Some(cur), LookupIn(d, cur, front[0]).value, front[1..], last);
      }
    }
  }

  /** The last step of a path that leads somewhere. */
  lemma LastStep(d: Disk, root: nat, names: seq<Name>)
    requires names != [] && WalkFrom(d, None, root, names).Found?
    ensures var w := WalkFrom(d, None, root, names[..|names| - 1]);
            && w.Found? && w.ino < |d| && IsDir(d[w.ino])
            && LookupIn(d, w.ino, names[|names| - 1]) == Some(WalkFrom(d, None, root, names).ino)
            && WalkFrom(d, None, root, names).dir == Some(w.ino)
  {
    hide IsDir, LookupIn;
    var front, last := names[..|names| - 1], names[|names| - 1];
    assert front + [last] == names;
    WalkSplit(d, None, root, front, last);
    var one: seq<Name> := [last];
    assert one[1..] == [];
  }

  lemma {:induction false} FoundInode(d: Disk, roles: Roles, dir: Option<nat>, cur: nat, names: seq<Name>)
    requires TreeOk(d, roles) && IsInode(roles, cur) && AllNonEmpty(names) && WalkFrom(d, dir, cur, names).Found?
    ensures IsInode(roles, WalkFrom(d, dir, cur, names).ino)
    decreases |names|
  {
    hide IsDir, LookupIn, TreeOk;
    if names != [] {
      LookupLive(d, roles, cur, names[0]);
      FoundInode(d, roles, Some(cur), LookupIn(d, cur, names[0]).value, names[1..]);
    }
  }

  lemma FrontNonEmpty(names: seq<Name>)
    requires AllNonEmpty(names) && names != []
    ensures AllNonEmpty(names[..|names| - 1]) && names[|names| - 1] != []
  {
  }

  /** A lookup finds an entry in use. */
  lemma LookupNamed(d: Disk, roles: Roles, dir: nat, name: Name) returns (k: nat)
    requires TreeOk(d, roles) && IsInode(roles, dir) && dir < |d| && IsDir(d[dir]) && name != []
    requires LookupIn(d, dir, name).Some?
    ensures Live(d, roles, dir, k) && EntryInum(d, dir, k) == LookupIn(d, dir, name).value
    ensures EntryName(d, dir, k) == name
  {
    hide EntryName, EntryInum, EntryCount, IsDir, DirOk;
    EntryBound(d, dir);
    k := FindFrom(d, dir, name, 0).value;
  }

  /** No inode has two paths. */
  lemma {:induction false} OnePath(d: Disk, roles: Roles, root: nat, p: seq<Name>, q: seq<Name>)
    requires TreeOk(d, roles) && NamedOnce(d, roles, root) && IsInode(roles, root) && AllNonEmpty(p) && AllNonEmpty(q)
    requires WalkFrom(d, None, root, p).Found? && WalkFrom(d, None, root, q).Found?
    requires WalkFrom(d, None, root, p).ino == WalkFrom(d, None, root, q).ino
    ensures p == q
    decreases |p|
  {
    hide TreeOk, IsDir, LookupIn, AllNonEmpty, WalkFrom, EntryName, EntryInum;
    if p == [] || q == [] {
      NoPathToRoot(d, roles, root, p);
      NoPathToRoot(d, roles, root, q);
    } else {
      var i, k, a := LastEntry(d, roles, root, p);
      var j, l, b := LastEntry(d, roles, root, q);
      assert Live(d, roles, i, k) && Live(d, roles, j, l);
      OnePath(d, roles, root, p[..|p| - 1], q[..|q| - 1]);
      assert p == p[..|p| - 1] + [a] && q == q[..|q| - 1] + [b];
    }
  }

  /** The entry in use that a path's last step finds. */
  lemma LastEntry(d: Disk, roles: Roles, root: nat, names: seq<Name>) returns (dir: nat, k: nat, last: Name)
    requires TreeOk(d, roles) && IsInode(roles, root) && AllNonEmpty(names) && names != []
    requires WalkFrom(d, None, root, names).Found?
    ensures Live(d, roles, dir, k) && EntryInum(d, dir, k) == WalkFrom(d, None, root, names).ino
    ensures last == names[|names| - 1] == EntryName(d, dir, k) && AllNonEmpty(names[..|names| - 1])
    ensures WalkFrom(d, None, root, names[..|names| - 1]).Found?
    ensures WalkFrom(d, None, root, names[..|names| - 1]).ino == dir
  {
    hide TreeOk, IsDir, LookupIn, AllNonEmpty, WalkFrom, EntryName, EntryInum, Live;
    LastStep(d, root, names);
    FrontNonEmpty(names);
    FoundInode(d, roles, None, root, names[..|names| - 1]);
    dir, last := WalkFrom(d, None, root, names[..|names| - 1]).ino, names[|names| - 1];
    k := LookupNamed(d, roles, dir, last);
  }

  /** The root is named nowhere, so only the empty path leads there. */
  lemma NoPathToRoot(d: Disk, roles: Roles, root: nat, names: seq<Name>)
    requires TreeOk(d, roles) && NamedOnce(d, roles, root) && IsInode(roles, root) && AllNonEmpty(names)
    requires WalkFrom(d, None, root, names).Found?
    ensures WalkFrom(d, None, root, names).ino == root <==> names == []
  {
    hide TreeOk, IsDir, LookupIn, AllNonEmpty, EntryName, EntryInum, Live;
    if names != [] {
      var dir, k, last := LastEntry(d, roles, root, names);
      assert Live(d, roles, dir, k);
    }
  }

  // ----- a new inode

  /** From `d` to `e` at most one inode `new` came in, under one new name, and it is no directory or
      an empty one. */
  ghost predicate Grafted(d: Disk, e: Disk, roles: Roles, roles': Roles, added: nat) {
    && |d| == |e| && TreeOk(d, roles) && TreeOk(e, roles') && !IsInode(roles, added)
    && (forall i: nat :: IsInode(roles, i) ==> IsInode(roles', i))
    && (forall i: nat :: IsInode(roles, i) && i < |d| ==> IsDir(e[i]) == IsDir(d[i]))
    && (added < |e| ==> !IsDir(e[added]) || SizeOf(e[added]) == 0)
    && forall i: nat, name: Name, x: nat :: IsInode(roles, i) && i < |d| && name != [] && x != added ==>
         (Binds(e, i, name, x) <==> Binds(d, i, name, x))
  }

  /** One lookup, before and after. */
  lemma GraftedLookup(d: Disk, e: Disk, roles: Roles, roles': Roles, added: nat, dir: nat, name: Name)
    requires Grafted(d, e, roles, roles', added) && IsInode(roles, dir) && dir < |d| && IsDir(d[dir]) && name != []
    ensures IsDir(e[dir])
    ensures LookupIn(d, dir, name).Some? ==>
              LookupIn(e, dir, name) == LookupIn(d, dir, name) && IsInode(roles, LookupIn(d, dir, name).value)
    ensures LookupIn(e, dir, name) == LookupIn(d, dir, name) || LookupIn(e, dir, name) == Some(added)
  {
    hide IsDir, SizeOf, LookupIn, Binds, DirOk;
    assert DirOk(d, roles, dir) && DirOk(e, roles', dir);
    LookupLive(d, roles, dir, name);
    match LookupIn(d, dir, name)
    case Some(x) =>
      LookupIsMap(d, roles, dir, name, x);
      LookupIsMap(e, roles', dir, name, x);
    case None =>
      if LookupIn(e, dir, name).Some? {
        var x := LookupIn(e, dir, name).value;
        LookupIsMap(e, roles', dir, name, x);
        LookupIsMap(d, roles, dir, name, x);
      }
  }

  lemma NothingInside(e: Disk, dir: nat, name: Name)
    requires dir < |e| && SizeOf(e[dir]) == 0
    ensures LookupIn(e, dir, name) == None
  {
    hide SizeOf, EntryName;
    EntryBound(e, dir);
  }

  /** Every path that led somewhere leads there still, and every other path that leads somewhere now
      leads to the new inode. */
  lemma {:induction false} GraftedWalk(d: Disk, e: Disk, roles: Roles, roles': Roles, added: nat, dir: Option<nat>,
        cur: nat, names: seq<Name>)
    requires Grafted(d, e, roles, roles', added) && IsInode(roles, cur) && AllNonEmpty(names)
    ensures WalkFrom(d, dir, cur, names).Found? ==> WalkFrom(e, dir, cur, names) == WalkFrom(d, dir, cur, names)
    ensures WalkFrom(e, dir, cur, names).Found? ==>
              WalkFrom(e, dir, cur, names).ino == added || WalkFrom(d, dir, cur, names) == WalkFrom(e, dir, cur, names)
    decreases |names|
  {
    hide Grafted, LookupIn, IsDir, SizeOf;
    if names != [] && |names[0]| < NAME_MAX {
      GraftedDir(d, e, roles, roles', added, cur);
      if cur < |d| && IsDir(d[cur]) {
        GraftedLookup(d, e, roles, roles', added, cur, names[0]);
        match LookupIn(d, cur, names[0])
        case Some(x) =>
          GraftedWalk(d, e, roles, roles', added, Some(cur), x, names[1..]);
        case None =>
          if names[1..] != [] && added < |e| && IsDir(e[added]) { NothingInside(e, added, names[1]); }
      }
    }
  }

  lemma GraftedDir(d: Disk, e: Disk, roles: Roles, roles': Roles, added: nat, i: nat)
    requires Grafted(d, e, roles, roles', added)
    ensures |d| == |e| && (added < |e| ==> !IsDir(e[added]) || SizeOf(e[added]) == 0)
    ensures IsInode(roles, i) && i < |d| ==> IsDir(e[i]) == IsDir(d[i])
  {
    hide IsDir, SizeOf, Binds, TreeOk;
  }
}
