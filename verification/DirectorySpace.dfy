/**
  What searching directories and walking paths may allocate, and exactly when the free blocks
  suffice for it.
 */
module DirectorySpace {
  import opened Allocation
  import opened BlockBitmap
  import opened Blocks
  import opened Directory
  import opened Files
  import opened Util
  import opened Volume

  // ----- the blocks a search touches

  /** How many blocks of the directory a search for `name` looks at. */
  function Searched(d: Disk, dir: nat, name: Name): nat
    requires dir < |d|
  {
    EntryBound(d, dir);
    match FindFrom(d, dir, name, 0)
    case None => SizeOf(d[dir]) / BLKSIZE
    case Some(k) => k / BLKDIRENTS + 1
  }

  /** The places that a search for `name` in directory `dir` uses. */
  function SearchWays(d: Disk, dir: nat, name: Name): set<Role>
    requires dir < |d|
  {
    Ways(dir, 0, Searched(d, dir, name))
  }

  /** A search that has found nothing in the first `i` blocks goes on, unless these are all. */
  lemma SearchGoesOn(d: Disk, dir: nat, name: Name, i: nat)
    requires dir < |d| && i <= SizeOf(d[dir]) / BLKSIZE < MAXBLOCKS
    requires i * BLKDIRENTS <= EntryCount(d, dir) < MAXBLOCKS * BLKDIRENTS
    requires FindFrom(d, dir, name, 0) == FindFrom(d, dir, name, i * BLKDIRENTS)
    ensures if i == SizeOf(d[dir]) / BLKSIZE then Searched(d, dir, name) == i else Searched(d, dir, name) > i
    ensures i == SizeOf(d[dir]) / BLKSIZE ==> FindFrom(d, dir, name, 0) == None
  {
    hide SizeOf, EntryName;
  }

  lemma SearchEnds(d: Disk, dir: nat, name: Name, i: nat, j: nat)
    requires dir < |d| && EntryCount(d, dir) < MAXBLOCKS * BLKDIRENTS && j < BLKDIRENTS
    requires FindFrom(d, dir, name, 0) == Some(i * BLKDIRENTS + j)
    ensures Searched(d, dir, name) == i + 1
  {
    hide SizeOf, EntryName, FindFrom;
  }

  lemma SameSearch(d: Disk, e: Disk, roles: Roles, dir: nat, name: Name)
    requires SameContent(d, e, roles) && IsInode(roles, dir) && dir < |d|
    ensures dir < |e| && SearchWays(e, dir, name) == SearchWays(d, dir, name)
    ensures EntryCount(d, dir) < MAXBLOCKS * BLKDIRENTS && EntryCount(e, dir) < MAXBLOCKS * BLKDIRENTS
    ensures FindFrom(e, dir, name, 0) == FindFrom(d, dir, name, 0) && SizeOf(e[dir]) == SizeOf(d[dir])
  {
    hide FileBlock, SizeOf, IsDir, EntryName, EntryInum, EntryCount;
    SameLength(d, e, roles);
    SameEntries(d, e, roles, dir);
    EntryBound(d, dir);
    SameFind(d, e, dir, name, 0);
  }

  // ----- steps and their cost

  /** A step that took places among `ways`. It failed exactly when some of them are still missing,
      and only because the disk is full. */
  ghost predicate Spent(free: seq<bool>, roles: Roles, e: Disk, free': seq<bool>, roles': Roles, ways: set<Role>,
        failed: bool) {
    && Fills(free, roles, free', roles', ways)
    && (failed ==> Full(free')) && (failed <==> Lacking(e, ways) != {})
  }

  /** So it failed exactly when more places were missing than blocks were free. */
  lemma SpentExactly(d: Disk, free: seq<bool>, roles: Roles, e: Disk, free': seq<bool>, roles': Roles, ways: set<Role>,
        failed: bool)
    requires Sound(d, free, roles) && Sound(e, free', roles') && Places(roles, ways)
    requires Spent(free, roles, e, free', roles', ways, failed)
    ensures failed <==> |Lacking(d, ways)| > CountFree(free)
  {
    hide Sound, Home, CountFree, Full, Fills;
    FillsPlaces(free, roles, free', roles', ways, ways);
    if failed {
      var r :| r in Lacking(e, ways);
      FellShort(d, free, roles, e, free', roles', ways, r);
    } else {
      Sufficed(d, free, roles, e, free', roles', ways);
    }
  }

  lemma FillsPlaces(free: seq<bool>, roles: Roles, free': seq<bool>, roles': Roles, ways: set<Role>, places: set<Role>)
    requires Fills(free, roles, free', roles', ways) && Places(roles, places)
    ensures Places(roles', places)
  {
    hide CountFree, Unplaced;
  }

  lemma SpentNothing(free: seq<bool>, roles: Roles, d: Disk)
    ensures Spent(free, roles, d, free, roles, {}, false)
  {
    hide Home;
  }

  /** The first `i` blocks of the directory are allocated, and only places of `ways` were taken. */
  ghost predicate Scanned(free0: seq<bool>, roles0: Roles, e: Disk, free: seq<bool>, roles: Roles, dir: nat, i: nat,
        ways: set<Role>) {
    && Fills(free0, roles0, free, roles, ways)
    && forall m: nat :: m < i && m < MAXBLOCKS ==> BlockNumber(e, dir, m) != 0
  }

  lemma ScanStart(free: seq<bool>, roles: Roles, d: Disk, dir: nat, ways: set<Role>)
    ensures Scanned(free, roles, d, free, roles, dir, 0, ways)
  {
    FillsNothing(free, roles, ways);
  }

  lemma ScanStep(free0: seq<bool>, roles0: Roles, e: Disk, free1: seq<bool>, roles1: Roles, f: Disk, free2: seq<bool>,
        roles2: Roles, dir: nat, i: nat, end: nat)
    requires Scanned(free0, roles0, e, free1, roles1, dir, i, Ways(dir, 0, end))
    requires Grown(e, free1, roles1, f, free2, roles2)
    requires IsInode(roles1, dir) && i < end && i < MAXBLOCKS && Fills(free1, roles1, free2, roles2, Way(dir, i))
    ensures Scanned(free0, roles0, f, free2, roles2, dir, i, Ways(dir, 0, end))
    ensures BlockNumber(f, dir, i) != 0 ==> Scanned(free0, roles0, f, free2, roles2, dir, i + 1, Ways(dir, 0, end))
  {
    hide Fills, Home, SameContent, Way, Ways;
    var ways := Ways(dir, 0, end);
    WaysAre(dir, 0, end);
    FillsMore(free1, roles1, free2, roles2, Way(dir, i), ways);
    FillsTransitive(free0, roles0, free1, roles1, free2, roles2, ways);
    forall m: nat | m < i && m < MAXBLOCKS
      ensures BlockNumber(f, dir, m) != 0
    {
      assert InFile(Data(dir, m)) && BlockNumber(e, dir, m) != 0;
    }
  }

  lemma ScanFailed(free0: seq<bool>, roles0: Roles, e: Disk, free: seq<bool>, roles: Roles, dir: nat, i: nat, end: nat)
    requires Scanned(free0, roles0, e, free, roles, dir, i, Ways(dir, 0, end)) && Full(free)
    requires i < end && i < MAXBLOCKS && BlockNumber(e, dir, i) == 0
    ensures Spent(free0, roles0, e, free, roles, Ways(dir, 0, end), true)
  {
    hide Fills, Home, Full, Way, Ways;
    WaysAre(dir, 0, end);
    WayIs(dir, i);
    assert Data(dir, i) in Lacking(e, Ways(dir, 0, end));
  }

  lemma ScanFinished(free0: seq<bool>, roles0: Roles, e: Disk, free: seq<bool>, roles: Roles, dir: nat, end: nat)
    requires Scanned(free0, roles0, e, free, roles, dir, end, Ways(dir, 0, end))
    ensures Spent(free0, roles0, e, free, roles, Ways(dir, 0, end), false)
  {
    hide Fills, Home, Full, Way, Ways, Lacking;
    NoneLacking(e, dir, 0, end);
  }

  // ----- a search under way

  /** A search for `name` that began on disk `d` has looked at the first `i` blocks in vain; it may
      take places of the first `end` blocks. */
  ghost predicate Searching(d: Disk, free0: seq<bool>, roles0: Roles, e: Disk, free: seq<bool>, roles: Roles, dir: nat,
        name: Name, i: nat, end: nat) {
    && IsInode(roles0, dir) && dir < |d| && Grown(d, free0, roles0, e, free, roles)
    && i <= SizeOf(d[dir]) / BLKSIZE < MAXBLOCKS && i * BLKDIRENTS <= EntryCount(d, dir) < MAXBLOCKS * BLKDIRENTS
    && FindFrom(d, dir, name, 0) == FindFrom(d, dir, name, i * BLKDIRENTS) && Searched(d, dir, name) <= end
    && Scanned(free0, roles0, e, free, roles, dir, i, Ways(dir, 0, end))
  }

  lemma SearchStarts(d: Disk, free: seq<bool>, roles: Roles, dir: nat, name: Name, end: nat)
    requires IsInode(roles, dir) && dir < |d| && Searched(d, dir, name) <= end
    ensures Searching(d, free, roles, d, free, roles, dir, name, 0, end)
  {
    hide Grown, FindFrom, Searched, Scanned, Ways;
    EntryBound(d, dir);
    GrownRefl(d, free, roles);
    ScanStart(free, roles, d, dir, Ways(dir, 0, end));
  }

  lemma SearchingInode(d: Disk, free0: seq<bool>, roles0: Roles, e: Disk, free: seq<bool>, roles: Roles, dir: nat,
        name: Name, i: nat, end: nat)
    requires Searching(d, free0, roles0, e, free, roles, dir, name, i, end)
    ensures IsInode(roles0, dir) && IsInode(roles, dir) && Grown(d, free0, roles0, e, free, roles)
    ensures i < SizeOf(d[dir]) / BLKSIZE ==> i < end && i < MAXBLOCKS
  {
    hide FindFrom, SizeOf, SameContent, Home, Scanned, EntryCount, Searched;
    SearchGoesOn(d, dir, name, i);
  }

  /** The next block was asked for; what searching it for the name says. */
  lemma SearchNext(d: Disk, free0: seq<bool>, roles0: Roles, e: Disk, free1: seq<bool>, roles1: Roles, f: Disk,
        free2: seq<bool>, roles2: Roles, dir: nat, name: Name, i: nat, end: nat)
    requires Searching(d, free0, roles0, e, free1, roles1, dir, name, i, end) && i < SizeOf(d[dir]) / BLKSIZE
    requires Grown(e, free1, roles1, f, free2, roles2) && Fills(free1, roles1, free2, roles2, Way(dir, i))
    ensures Grown(d, free0, roles0, f, free2, roles2)
    ensures FileBlock(e, dir, i) == FileBlock(f, dir, i) == FileBlock(d, dir, i)
    ensures BlockNumber(f, dir, i) == 0 && Full(free2) ==>
              Spent(free0, roles0, f, free2, roles2, Ways(dir, 0, end), true)
    ensures BlockNumber(f, dir, i) != 0 ==>
              && Scanned(free0, roles0, f, free2, roles2, dir, i + 1, Ways(dir, 0, end))
              && (FindFrom(d, dir, name, i * BLKDIRENTS) == FindFrom(d, dir, name, (i + 1) * BLKDIRENTS)
                  && (i + 1) * BLKDIRENTS <= EntryCount(d, dir) ==>
                    Searching(d, free0, roles0, f, free2, roles2, dir, name, i + 1, end))
  {
    hide FindFrom, SizeOf, Home, Scanned, EntryCount, Searched, Grown, Fills, Way, Ways, Full, Spent, FileBlock;
    SearchingInode(d, free0, roles0, e, free1, roles1, dir, name, i, end);
    GrownTransitive(d, free0, roles0, e, free1, roles1, f, free2, roles2);
    GrownSameBlock(d, free0, roles0, e, free1, roles1, dir, i);
    GrownSameBlock(e, free1, roles1, f, free2, roles2, dir, i);
    ScanStep(free0, roles0, e, free1, roles1, f, free2, roles2, dir, i, end);
    if BlockNumber(f, dir, i) == 0 && Full(free2) {
      ScanFailed(free0, roles0, f, free2, roles2, dir, i, end);
    }
  }

  lemma GrownSameBlock(d: Disk, free: seq<bool>, roles: Roles, e: Disk, free': seq<bool>, roles': Roles, dir: nat,
        n: nat)
    requires Grown(d, free, roles, e, free', roles') && IsInode(roles, dir) && n < MAXBLOCKS
    ensures FileBlock(e, dir, n) == FileBlock(d, dir, n)
  {
    hide FileBlock, Home;
  }

  /** The search is over: it found the name in the last block scanned, or there are no more. */
  lemma SearchOver(d: Disk, free0: seq<bool>, roles0: Roles, f: Disk, free: seq<bool>, roles: Roles, dir: nat,
        name: Name)
    requires dir < |d|
    requires Scanned(free0, roles0, f, free, roles, dir, Searched(d, dir, name), SearchWays(d, dir, name))
    ensures Spent(free0, roles0, f, free, roles, SearchWays(d, dir, name), false)
  {
    hide Searched, Scanned, Spent, Ways;
    ScanFinished(free0, roles0, f, free, roles, dir, Searched(d, dir, name));
  }

  // ----- the blocks a walk touches

  /** One element: the length and directory checks come before the search. */
  function StepWays(d: Disk, cur: nat, name: Name): set<Role> {
    if |name| >= NAME_MAX || cur >= |d| || !IsDir(d[cur]) then {} else SearchWays(d, cur, name)
  }

  /** The places that walking the path elements from `cur` uses. */
  function WalkWays(d: Disk, cur: nat, names: seq<Name>): set<Role>
    decreases |names|
  {
    if names == [] then {}
    else
      StepWays(d, cur, names[0])
      + if |names[0]| < NAME_MAX && cur < |d| && IsDir(d[cur]) && LookupIn(d, cur, names[0]).Some?
        then WalkWays(d, LookupIn(d, cur, names[0]).value, names[1..]) else {}
  }

  lemma WalkWaysStep(d: Disk, cur: nat, name: Name, rest: seq<Name>)
    ensures var w := WalkWays(d, cur, [name] + rest);
            && (|name| >= NAME_MAX || cur >= |d| || !IsDir(d[cur]) ==> w == StepWays(d, cur, name))
            && (cur < |d| && LookupIn(d, cur, name) == None ==> w == StepWays(d, cur, name))
            && (|name| < NAME_MAX && cur < |d| && IsDir(d[cur]) && LookupIn(d, cur, name).Some? ==>
                  w == StepWays(d, cur, name) + WalkWays(d, LookupIn(d, cur, name).value, rest))
  {
    hide LookupIn, IsDir, StepWays;
    assert ([name] + rest)[1..] == rest;
  }

  lemma SearchPlaces(d: Disk, roles: Roles, dir: nat, name: Name)
    requires IsInode(roles, dir) && dir < |d|
    ensures Places(roles, SearchWays(d, dir, name))
  {
    hide Searched, Ways;
    WaysPlaces(roles, dir, 0, Searched(d, dir, name));
  }

  lemma {:induction false} WalkPlaces(d: Disk, roles: Roles, cur: nat, names: seq<Name>)
    requires TreeOk(d, roles) && IsInode(roles, cur) && AllNonEmpty(names)
    ensures Places(roles, WalkWays(d, cur, names))
    decreases |names|
  {
    hide IsDir, LookupIn, SearchWays, DirOk;
    if names != [] && cur < |d| {
      SearchPlaces(d, roles, cur, names[0]);
      if IsDir(d[cur]) && LookupIn(d, cur, names[0]).Some? {
        LookupLive(d, roles, cur, names[0]);
        WalkPlaces(d, roles, LookupIn(d, cur, names[0]).value, names[1..]);
      }
    }
  }

  /** Of the places `ways`, those outside `left` are reached. */
  ghost predicate WalkedTo(free0: seq<bool>, roles0: Roles, e: Disk, free: seq<bool>, roles: Roles, ways: set<Role>,
        left: set<Role>) {
    && Fills(free0, roles0, free, roles, ways) && Places(roles, ways) && left <= ways
    && forall r :: r in ways && r !in left && InFile(r) ==> Home(e, r) != 0
  }

  lemma WalkStarts(free: seq<bool>, roles: Roles, d: Disk, ways: set<Role>)
    requires Places(roles, ways)
    ensures WalkedTo(free, roles, d, free, roles, ways, ways)
  {
    FillsNothing(free, roles, ways);
  }

  lemma WalkedTurn(free0: seq<bool>, roles0: Roles, e: Disk, free1: seq<bool>, roles1: Roles, f: Disk, free2: seq<bool>,
        roles2: Roles, ways: set<Role>, left: set<Role>, step: set<Role>, next: set<Role>, failed: bool)
    requires WalkedTo(free0, roles0, e, free1, roles1, ways, left) && Grown(e, free1, roles1, f, free2, roles2)
    requires Spent(free1, roles1, f, free2, roles2, step, failed) && left == step + next
    ensures failed ==> Spent(free0, roles0, f, free2, roles2, ways, true)
    ensures !failed ==> WalkedTo(free0, roles0, f, free2, roles2, ways, next)
  {
    hide Fills, Home, SameContent, Full, Places;
    FillsMore(free1, roles1, free2, roles2, step, ways);
    FillsTransitive(free0, roles0, free1, roles1, free2, roles2, ways);
    FillsPlaces(free1, roles1, free2, roles2, step, ways);
    if failed {
      var r :| r in Lacking(f, step);
      assert r in Lacking(f, ways);
    } else {
      forall r | r in ways && r !in next && InFile(r)
        ensures Home(f, r) != 0
      {
        if r in step { assert r !in Lacking(f, step); } else { PlaceInode(roles1, ways, r); }
      }
    }
  }

  lemma PlaceInode(roles: Roles, ways: set<Role>, r: Role)
    requires Places(roles, ways) && r in ways
    ensures InFile(r) && IsInode(roles, r.ino)
  {
  }

  lemma WalkEnds(free0: seq<bool>, roles0: Roles, e: Disk, free: seq<bool>, roles: Roles, ways: set<Role>)
    requires WalkedTo(free0, roles0, e, free, roles, ways, {})
    ensures Spent(free0, roles0, e, free, roles, ways, false)
  {
    hide Fills, Home, Full, Places;
  }

  // ----- the blocks inode_create touches

  /** The places that finding or making a free entry in `dir` uses. */
  function EntryWays(d: Disk, dir: nat): set<Role>
    requires dir < |d|
  {
    EntryBound(d, dir);
    if FindFrom(d, dir, [], 0).Some? then SearchWays(d, dir, []) else Ways(dir, 0, SizeOf(d[dir]) / BLKSIZE + 1)
  }

  /** The places that inode_create uses besides the block of the new inode. */
  function CreateWays(d: Disk, root: nat, names: seq<Name>): set<Role> {
    var w := WalkFrom(d, None, root, names);
    WalkWays(d, root, names) + if w.Missing? && w.parent < |d| then EntryWays(d, w.parent) else {}
  }

  lemma EntryPlaces(d: Disk, roles: Roles, dir: nat)
    requires IsInode(roles, dir) && dir < |d|
    ensures Places(roles, EntryWays(d, dir))
  {
    hide Searched, Ways;
    SearchPlaces(d, roles, dir, []);
    WaysPlaces(roles, dir, 0, SizeOf(d[dir]) / BLKSIZE + 1);
  }

  lemma SameEntryWays(d: Disk, e: Disk, roles: Roles, dir: nat)
    requires SameContent(d, e, roles) && IsInode(roles, dir) && dir < |d|
    ensures dir < |e| && EntryWays(e, dir) == EntryWays(d, dir)
  {
    hide SearchWays, FindFrom, SizeOf, Ways;
    SameSearch(d, e, roles, dir, []);
  }

  /** If a step succeeded, it used exactly as many free blocks as places were missing. */
  lemma SpentCount(d: Disk, free: seq<bool>, roles: Roles, e: Disk, free': seq<bool>, roles': Roles, ways: set<Role>)
    requires Places(roles, ways) && Spent(free, roles, e, free', roles', ways, false)
    requires Sound(d, free, roles) && Sound(e, free', roles')
    ensures CountFree(free') == CountFree(free) - |Lacking(d, ways)|
  {
    hide Sound, Home, CountFree, Full, Lacking, Unplaced, Places;
    FillsPlaces(free, roles, free', roles', ways, ways);
    LackingIsUnplaced(d, free, roles, ways);
    LackingIsUnplaced(e, free', roles', ways);
  }

  lemma LackingMore(d: Disk, ways: set<Role>, more: set<Role>)
    requires ways <= more
    ensures |Lacking(d, ways)| <= |Lacking(d, more)|
  {
    hide Home;
    var a, b := Lacking(d, ways), Lacking(d, more);
    assert b == a + (b - a);
  }

  /** Two steps in a row: among all their places, only those of the second can be missing. */
  lemma SpentBoth(free: seq<bool>, roles: Roles, e: Disk, free1: seq<bool>, roles1: Roles, f: Disk, free2: seq<bool>,
        roles2: Roles, ways: set<Role>, more: set<Role>, all: set<Role>, failed: bool)
    requires Spent(free, roles, e, free1, roles1, ways, false) && Spent(free1, roles1, f, free2, roles2, more, failed)
    requires all == ways + more && Places(roles1, ways)
    requires forall r :: InFile(r) && IsInode(roles1, r.ino) && Home(e, r) != 0 ==> Home(f, r) == Home(e, r)
    ensures Spent(free, roles, f, free2, roles2, all, failed)
  {
    hide Fills, Home, Full;
    FillsMore(free, roles, free1, roles1, ways, all);
    FillsMore(free1, roles1, free2, roles2, more, all);
    FillsTransitive(free, roles, free1, roles1, free2, roles2, all);
    forall r | r in ways && InFile(r)
      ensures Home(f, r) != 0
    {
      assert r !in Lacking(e, ways);
    }
    assert Lacking(f, all) == Lacking(f, more);
  }

  // ----- directories stay allocated

  /** The directories of `e` are directories of `d`, as long as they were. */
  ghost predicate SameDirs(d: Disk, e: Disk, roles: Roles, roles': Roles) {
    forall i: nat :: IsInode(roles', i) && i < |e| && IsDir(e[i]) ==>
      IsInode(roles, i) && i < |d| && IsDir(d[i]) && SizeOf(e[i]) == SizeOf(d[i])
  }

  lemma DirsStayMapped(d: Disk, e: Disk, roles: Roles, roles': Roles)
    requires DirsMapped(d, roles) && SameDirs(d, e, roles, roles')
    requires forall r :: Below(r) && IsInode(roles, r.ino) && r.ino < |d| && IsDir(d[r.ino]) && Home(d, r) != 0 ==>
               Home(e, r) != 0
    ensures DirsMapped(e, roles')
  {
    hide Home, SizeOf, IsDir;
    forall i: nat | IsInode(roles', i) && i < |e| && IsDir(e[i])
      ensures AllMapped(e, i)
    {
      forall n: nat | n < SizeOf(e[i]) / BLKSIZE && n < MAXBLOCKS
        ensures BlockNumber(e, i, n) != 0
      {
        assert AllMapped(d, i);
        assert Below(Data(i, n)) && BlockNumber(d, i, n) != 0;
      }
    }
  }

  /** An extension that failed: the directory has become longer, but the new block is missing. */
  ghost predicate HalfExtended(d: Disk, e: Disk, dir: nat) {
    && dir < |d| == |e| && SizeOf(e[dir]) == SizeOf(d[dir]) + BLKSIZE
    && SizeOf(d[dir]) / BLKSIZE < MAXBLOCKS && Home(e, Data(dir, SizeOf(d[dir]) / BLKSIZE)) == 0
  }

  lemma HalfExtendedUnmapped(d: Disk, e: Disk, roles': Roles, dir: nat)
    requires HalfExtended(d, e, dir) && SizeOf(d[dir]) % BLKSIZE == 0 && IsInode(roles', dir) && IsDir(e[dir])
    ensures !AllMapped(e, dir) && !DirsMapped(e, roles')
  {
    hide Home, SizeOf, IsDir;
    assert SizeOf(d[dir]) / BLKSIZE < SizeOf(e[dir]) / BLKSIZE;
    assert BlockNumber(e, dir, SizeOf(d[dir]) / BLKSIZE) == 0;
    assert !AllMapped(e, dir);
  }

  /** On a full disk the search for a name that is not there runs out of space, instead of reporting
      that there is no such name, exactly when a block of the directory is missing. */
  lemma FullSearch(d: Disk, free: seq<bool>, dir: nat, name: Name)
    requires dir < |d| && Full(free) && LookupIn(d, dir, name) == None
    ensures |Lacking(d, SearchWays(d, dir, name))| > CountFree(free) <==> !AllMapped(d, dir)
  {
    hide Home, SizeOf, Way, CountFree, Full, EntryName, EntryInum;
    EntryBound(d, dir);
    FullCount(free);
    var blocks := SizeOf(d[dir]) / BLKSIZE;
    assert SearchWays(d, dir, name) == Ways(dir, 0, blocks);
    if AllMapped(d, dir) {
      NoneLacking(d, dir, 0, blocks);
    } else {
      var n: nat :| n < blocks && n < MAXBLOCKS && BlockNumber(d, dir, n) == 0;
      WaysAre(dir, 0, blocks);
      WayIs(dir, n);
      assert Data(dir, n) in Lacking(d, SearchWays(d, dir, name));
    }
  }
}
