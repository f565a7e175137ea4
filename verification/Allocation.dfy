/**
  Which blocks an operation may allocate, and exactly when the free blocks suffice: the places on
  the way to a file block, those of them that lead nowhere yet, and steps that fill such places.
 */
module Allocation {
  import opened BlockBitmap
  import opened Blocks
  import opened Files
  import opened Volume

  // ----- places

  /** The pointer blocks between an inode and its file block `n`. */
  function PointerWay(ino: nat, n: nat): set<Role> {
    if n < N_DIRECT then {}
    else if n < N_DIRECT + N_INDIRECT then {Ind(ino)}
    else if n < MAXBLOCKS then {Dbl(ino), DblInd(ino, (n - N_DIRECT - N_INDIRECT) / N_INDIRECT)}
    else {}
  }

  /** Everything between an inode and its file block `n`, the file block included. */
  function Way(ino: nat, n: nat): set<Role> {
    if n < MAXBLOCKS then PointerWay(ino, n) + {Data(ino, n)} else {}
  }

  /** The same for the file blocks from, ..., end - 1. */
  function Ways(ino: nat, from: nat, end: nat): set<Role> {
    if end <= from then {} else Ways(ino, from, end - 1) + Way(ino, end - 1)
  }

  /** Places below the inode, with data only in the range. */
  lemma {:induction false} WaysAre(ino: nat, from: nat, end: nat)
    ensures forall r :: r in Ways(ino, from, end) ==> Below(r) && r.ino == ino && (r.Data? ==> from <= r.n < end)
    ensures forall n: nat :: from <= n < end ==> Way(ino, n) <= Ways(ino, from, end)
    decreases end
  {
    hide Way;
    if end > from {
      WaysAre(ino, from, end - 1);
      WayIs(ino, end - 1);
    }
  }

  lemma WayIs(ino: nat, n: nat)
    ensures forall r :: r in Way(ino, n) ==> Below(r) && r.ino == ino && (r.Data? ==> r.n == n)
    ensures n < MAXBLOCKS ==> Data(ino, n) in Way(ino, n) && Way(ino, n) == PointerWay(ino, n) + {Data(ino, n)}
  {
  }

  lemma {:induction false} WaysGrow(ino: nat, from: nat, end: nat, more: nat)
    requires end <= more
    ensures Ways(ino, from, end) <= Ways(ino, from, more)
    decreases more
  {
    hide Way;
    if end < more && from < more { WaysGrow(ino, from, end, more - 1); }
  }

  /** Those of the places that no pointer leads to yet. */
  ghost function Lacking(d: Disk, ways: set<Role>): set<Role> {
    set r | r in ways && InFile(r) && Home(d, r) == 0
  }

  // ----- places in terms of roles

  ghost predicate Placed(roles: Roles, r: Role) { exists b :: b in roles && roles[b] == r }

  ghost function Unplaced(roles: Roles, ways: set<Role>): set<Role> {
    set r | r in ways && !Placed(roles, r)
  }

  /** Places of existing inodes. */
  ghost predicate Places(roles: Roles, ways: set<Role>) {
    forall r :: r in ways ==> Below(r) && IsInode(roles, r.ino)
  }

  lemma WaysPlaces(roles: Roles, ino: nat, from: nat, end: nat)
    requires IsInode(roles, ino)
    ensures Places(roles, Ways(ino, from, end))
  {
    WaysAre(ino, from, end);
  }

  lemma WayPlaces(roles: Roles, ino: nat, n: nat)
    requires IsInode(roles, ino)
    ensures Places(roles, Way(ino, n)) && Places(roles, PointerWay(ino, n))
  {
    WayIs(ino, n);
  }

  /** A place is reached exactly when some block has its role. */
  lemma PlacedIsHome(d: Disk, free: seq<bool>, roles: Roles, r: Role)
    requires Sound(d, free, roles) && InFile(r) && IsInode(roles, r.ino)
    ensures Placed(roles, r) <==> Home(d, r) != 0
    ensures Home(d, r) != 0 ==> Home(d, r) in roles && roles[Home(d, r)] == r
  {
    hide Home, Word, Child, Slot;
    HomeRole(d, roles, r);
    if Placed(roles, r) {
      var b :| b in roles && roles[b] == r;
      assert Held(d, roles, b);
      PlaceNotZero(d, roles, b);
    }
  }

  lemma PlaceNotZero(d: Disk, roles: Roles, b: nat)
    requires Graph(d, roles) && b in roles && InFile(roles[b])
    ensures b != 0
  {
  }

  lemma LackingIsUnplaced(d: Disk, free: seq<bool>, roles: Roles, ways: set<Role>)
    requires Sound(d, free, roles) && Places(roles, ways)
    ensures Lacking(d, ways) == Unplaced(roles, ways)
  {
    hide Home, Placed, Sound;
    forall r | r in ways
      ensures InFile(r) && (Placed(roles, r) <==> Home(d, r) != 0)
    {
      PlacedIsHome(d, free, roles, r);
    }
  }

  // ----- steps

  /** Blocks in use keep their roles, new ones take places of `ways`, and every place taken costs
      one free block. */
  ghost predicate Fills(free: seq<bool>, roles: Roles, free': seq<bool>, roles': Roles, ways: set<Role>) {
    && Extends(roles, roles')
    && (forall b :: b in roles' && b !in roles ==> roles'[b] in ways)
    && CountFree(free') - |Unplaced(roles', ways)| == CountFree(free) - |Unplaced(roles, ways)|
  }

  lemma FillsNothing(free: seq<bool>, roles: Roles, ways: set<Role>)
    ensures Fills(free, roles, free, roles, ways)
  {
  }

  lemma FillsTransitive(free: seq<bool>, roles: Roles, free': seq<bool>, roles': Roles, free'': seq<bool>,
        roles'': Roles, ways: set<Role>)
    requires Fills(free, roles, free', roles', ways) && Fills(free', roles', free'', roles'', ways)
    ensures Fills(free, roles, free'', roles'', ways)
  {
    hide CountFree, Unplaced;
  }

  /** A step is also a step among more places. */
  lemma FillsMore(free: seq<bool>, roles: Roles, free': seq<bool>, roles': Roles, ways: set<Role>, more: set<Role>)
    requires Fills(free, roles, free', roles', ways) && ways <= more
    ensures Fills(free, roles, free', roles', more)
  {
    hide CountFree;
    var others := more - ways;
    forall r | r in others
      ensures Placed(roles', r) <==> Placed(roles, r)
    {
      if Placed(roles, r) {
        var b :| b in roles && roles[b] == r;
        assert b in roles' && roles'[b] == r;
      }
    }
    assert Unplaced(roles', others) == Unplaced(roles, others);
    UnplacedSplit(roles, ways, more);
    UnplacedSplit(roles', ways, more);
  }

  lemma UnplacedSplit(roles: Roles, ways: set<Role>, more: set<Role>)
    requires ways <= more
    ensures |Unplaced(roles, more)| == |Unplaced(roles, ways)| + |Unplaced(roles, more - ways)|
  {
    hide Placed;
    assert Unplaced(roles, more) == Unplaced(roles, ways) + Unplaced(roles, more - ways);
  }

  /** One free block takes one place. */
  lemma FillsOne(free: seq<bool>, roles: Roles, b: nat, c: Role, roles': Roles)
    requires b < |free| && free[b] && b !in roles && !Placed(roles, c) && roles' == roles[b := c]
    ensures Fills(free, roles, free[b := false], roles', {c})
  {
    hide CountFree;
    CountChange(free, b, false);
    assert roles'[b] == c;
    assert Placed(roles', c);
    assert Unplaced(roles, {c}) == {c} && Unplaced(roles', {c}) == {};
  }

  lemma {:induction false} FullCount(free: seq<bool>)
    ensures Full(free) <==> CountFree(free) == 0
    decreases |free|
  {
    if free != [] {
      var front := free[..|free| - 1];
      FullCount(front);
      assert forall b :: 0 <= b < |front| ==> free[b] == front[b];
    }
  }

  /** If a step ends with every place reached, the free blocks sufficed. */
  lemma Sufficed(d: Disk, free: seq<bool>, roles: Roles, e: Disk, free': seq<bool>, roles': Roles, ways: set<Role>)
    requires Sound(d, free, roles) && Sound(e, free', roles') && Fills(free, roles, free', roles', ways)
    requires Places(roles, ways) && Places(roles', ways) && Lacking(e, ways) == {}
    ensures |Lacking(d, ways)| <= CountFree(free)
  {
    hide CountFree, Sound, Lacking, Unplaced, Places, Extends;
    LackingIsUnplaced(d, free, roles, ways);
    LackingIsUnplaced(e, free', roles', ways);
  }

  /** If it ends with a full disk and some place still missing, they did not. */
  lemma FellShort(d: Disk, free: seq<bool>, roles: Roles, e: Disk, free': seq<bool>, roles': Roles, ways: set<Role>,
        r: Role)
    requires Sound(d, free, roles) && Sound(e, free', roles') && Fills(free, roles, free', roles', ways)
    requires Places(roles, ways) && Places(roles', ways) && Full(free') && r in ways && InFile(r) && Home(e, r) == 0
    ensures |Lacking(d, ways)| > CountFree(free)
  {
    hide CountFree, Sound, Unplaced, Places, Extends, Home, Full;
    LackingIsUnplaced(d, free, roles, ways);
    LackingIsUnplaced(e, free', roles', ways);
    FullCount(free');
    assert r in Lacking(e, ways);
  }

  /** When the file blocks are there, so is everything on the way to them. */
  lemma NoneLacking(d: Disk, ino: nat, from: nat, end: nat)
    requires forall n: nat :: from <= n < end && n < MAXBLOCKS ==> BlockNumber(d, ino, n) != 0
    ensures Lacking(d, Ways(ino, from, end)) == {}
    decreases end
  {
    hide Home, Way;
    if end > from {
      NoneLacking(d, ino, from, end - 1);
      if end - 1 < MAXBLOCKS { assert BlockNumber(d, ino, end - 1) != 0; }
      NoneLackingOnWay(d, ino, end - 1);
    }
  }

  lemma NoneLackingOnWay(d: Disk, ino: nat, n: nat)
    requires n < MAXBLOCKS ==> BlockNumber(d, ino, n) != 0
    ensures forall r :: r in Way(ino, n) && InFile(r) ==> Home(d, r) != 0
  {
    hide Slot, Word;
    if n < MAXBLOCKS && n >= N_DIRECT {
      assert Home(d, Parent(Data(ino, n))) != 0;
    }
  }

  /** Blocks that keep their roles stay where they are. */
  lemma HomesKept(d: Disk, free: seq<bool>, roles: Roles, e: Disk, free': seq<bool>, roles': Roles)
    requires Sound(d, free, roles) && Sound(e, free', roles') && Extends(roles, roles')
    ensures forall r :: InFile(r) && IsInode(roles, r.ino) && Home(d, r) != 0 ==> Home(e, r) == Home(d, r)
  {
    hide Home, Word, Child, Slot;
    forall r | InFile(r) && IsInode(roles, r.ino) && Home(d, r) != 0
      ensures Home(e, r) == Home(d, r)
    {
      HomeRole(d, roles, r);
      assert Held(e, roles', Home(d, r));
    }
  }
}
