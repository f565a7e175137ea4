/**
  Hanging a file's blocks under its inode one pointer at a time, as fsformat does: the data
  blocks already have their roles and contents, the pointers to them appear in order.
 */
module Building {
  import opened CInts
  import opened Blocks
  import opened Volume

  /** The first `i` of the data blocks start, start + 1, ... of inode `ino` are linked, and every
      other block in use, except the data blocks still to come, is held by its own slot. */
  ghost predicate Partial(d: Disk, roles: Roles, ino: nat, start: nat, i: nat) {
    && Graph(d, roles) && IsInode(roles, ino)
    && (forall b :: b in roles && !(roles[b].Data? && roles[b].ino == ino && roles[b].n >= i) ==> Held(d, roles, b))
    && (forall b :: b in roles && roles[b].Data? && roles[b].ino == ino ==> b == start + roles[b].n)
    && (forall n :: 0 <= n < MAXBLOCKS ==> Home(d, Data(ino, n)) == if n < i then start + n else 0)
  }

  /** What linking may change: pointers of `ino`, and blocks that were not in use. */
  ghost predicate OnlyLinked(d: Disk, e: Disk, roles: Roles, ino: nat) {
    && |d| == |e| && ino < |d| && Attributes(e[ino]) == Attributes(d[ino])
    && (forall b :: b in roles && b < |d| && (roles[b].Data? || roles[b].Super? || (roles[b].Inode? && b != ino)) ==>
          e[b] == d[b])
    && (forall r :: InFile(r) && IsInode(roles, r.ino) && r.ino != ino ==> Home(e, r) == Home(d, r))
  }

  lemma OnlyLinkedRefl(d: Disk, roles: Roles, ino: nat)
    requires ino < |d|
    ensures OnlyLinked(d, d, roles, ino)
  {
  }

  lemma OnlyLinkedTransitive(d: Disk, e: Disk, f: Disk, roles: Roles, roles': Roles, ino: nat)
    requires OnlyLinked(d, e, roles, ino) && OnlyLinked(e, f, roles', ino)
    requires forall b :: b in roles ==> b in roles' && roles'[b] == roles[b]
    ensures OnlyLinked(d, f, roles, ino)
  {
    hide Home, Attributes;
    assert forall i :: IsInode(roles, i) ==> IsInode(roles', i);
  }

  /** Link data block start + i at its slot of block `p`. */
  lemma LinkData(d: Disk, roles: Roles, ino: nat, start: nat, i: nat, p: nat)
    requires Partial(d, roles, ino, start, i) && i < MAXBLOCKS && start > 0
    requires start + i in roles && roles[start + i] == Data(ino, i)
    requires p == Home(d, Parent(Data(ino, i))) && p != 0
    ensures p in roles && p < |d| && roles[p] == Parent(Data(ino, i)) && start + i < TWO32
    ensures var e := PutSlot(d, p, roles[p], Index(Data(ino, i)), start + i);
            && Partial(e, roles, ino, start, i + 1) && OnlyLinked(d, e, roles, ino)
            && (forall r :: InFile(r) && IsInode(roles, r.ino) && !r.Data? ==> Home(e, r) == Home(d, r))
  {
    hide Word, Graph, Slot, Child, Parent, Index, OnlyLinked, PutSlot, Home;
    var c, x := Data(ino, i), start + i;
    ParentRole(c);
    HomeRole(d, roles, Parent(c));
    NotPending(d, roles, ino, start, i, p);
    RolesExist(d, roles, ino, x);
    PutFacts(d, roles, p, Index(c), x);
    var e := PutSlot(d, p, roles[p], Index(c), x);
    PutKeepsFiles(d, roles, p, Index(c), x, ino);
    assert Home(d, c) == 0;
    forall b | b in roles && !(roles[b].Data? && roles[b].ino == ino && roles[b].n >= i + 1)
      ensures Held(e, roles, b)
    {
      HeldAfterPut(d, e, roles, b, c, x, ino, i);
    }
    forall n | 0 <= n < MAXBLOCKS
      ensures Home(e, Data(ino, n)) == if n < i + 1 then start + n else 0
    {
      assert InFile(Data(ino, n)) && Data(ino, n).ino == ino;
    }
  }

  lemma NotPending(d: Disk, roles: Roles, ino: nat, start: nat, i: nat, p: nat)
    requires Partial(d, roles, ino, start, i) && p in roles && !roles[p].Data?
    ensures Held(d, roles, p) && p < |d|
  {
    hide Home, Word, Slot;
  }

  /** Writing one slot, all effects together. */
  lemma PutFacts(d: Disk, roles: Roles, p: nat, j: nat, x: nat)
    requires CanPut(d, roles, p, j, x)
    ensures p < |d| && x < TWO32
    ensures var e := PutSlot(d, p, roles[p], j, x);
            && Graph(e, roles)
            && (forall r :: InFile(r) && IsInode(roles, r.ino) ==>
                  Home(e, r) == if r == Child(roles[p], j) then x else Home(d, r))
  {
    hide Word, Slot, Child, Home;
    var e := PutSlot(d, p, roles[p], j, x);
    PutSlotGraph(d, roles, p, j, x);
    forall r | InFile(r) && IsInode(roles, r.ino)
      ensures Home(e, r) == if r == Child(roles[p], j) then x else Home(d, r)
    {
      PutSlotHome(d, roles, p, j, x, r);
    }
  }

  lemma PutKeepsFiles(d: Disk, roles: Roles, p: nat, j: nat, x: nat, ino: nat)
    requires CanPut(d, roles, p, j, x) && roles[p].ino == ino && IsInode(roles, ino) && ino < |d|
    requires forall r :: InFile(r) && IsInode(roles, r.ino) ==>
               Home(PutSlot(d, p, roles[p], j, x), r) == if r == Child(roles[p], j) then x else Home(d, r)
    ensures OnlyLinked(d, PutSlot(d, p, roles[p], j, x), roles, ino)
  {
    hide Word, Slot, Child, Home;
    PutSlotSlots(d, p, roles[p], j, x);
    ChildRole(roles[p], j);
    assert RoleOk(roles, p);
  }

  lemma HeldAfterPut(d: Disk, e: Disk, roles: Roles, b: nat, c: Role, x: nat, ino: nat, i: nat)
    requires Graph(d, roles) && b in roles && c == Data(ino, i) && i < MAXBLOCKS && x in roles && roles[x] == c
    requires forall r :: InFile(r) && IsInode(roles, r.ino) ==> Home(e, r) == if r == c then x else Home(d, r)
    requires Home(d, c) == 0
    requires roles[b] == c ==> b == x
    requires roles[b] != c ==> Held(d, roles, b)
    ensures Held(e, roles, b)
  {
    hide Word, Slot, Home;
    assert RoleOk(roles, b);
  }

  /** Link a new, clear pointer block `b` in role `c`. */
  lemma LinkPointer(d: Disk, roles: Roles, ino: nat, start: nat, i: nat, c: Role, b: nat, p: nat, roles': Roles)
    requires Partial(d, roles, ino, start, i) && Below(c) && !c.Data? && c.ino == ino && Home(d, c) == 0
    requires b !in roles && 0 < b < |d| && d[b] == ZeroBlock() && roles' == roles[b := c]
    requires p == Home(d, Parent(c)) && p != 0
    ensures p in roles && p < |d| && roles[p] == Parent(c) && b < TWO32
    ensures var e := PutSlot(d, p, Parent(c), Index(c), b);
            && Partial(e, roles', ino, start, i) && OnlyLinked(d, e, roles, ino)
            && (forall r :: InFile(r) && IsInode(roles, r.ino) ==> Home(e, r) == if r == c then b else Home(d, r))
  {
    hide Word, Graph, Slot, Child, Parent, Index, OnlyLinked, PutSlot, Home, CanPut, Held;
    PointerFits(d, roles, ino, start, i, c, b, p, roles');
    PutFacts(d, roles', p, Index(c), b);
    var e := PutSlot(d, p, roles[p], Index(c), b);
    PutKeepsFiles(d, roles', p, Index(c), b, ino);
    FewerRoles(d, e, roles, roles', ino);
    forall q | q in roles' && !(roles'[q].Data? && roles'[q].ino == ino && roles'[q].n >= i)
      ensures Held(e, roles', q)
    {
      if q != b { HeldBeside(d, e, roles, roles', q, b, c); } else { HeldNew(d, e, roles', b, c); }
    }
    forall n | 0 <= n < MAXBLOCKS
      ensures Home(e, Data(ino, n)) == Home(d, Data(ino, n))
    {
      assert InFile(Data(ino, n));
    }
  }

  /** The new pointer block can go into its slot. */
  lemma PointerFits(d: Disk, roles: Roles, ino: nat, start: nat, i: nat, c: Role, b: nat, p: nat, roles': Roles)
    requires Partial(d, roles, ino, start, i) && Below(c) && !c.Data? && c.ino == ino && Home(d, c) == 0
    requires b !in roles && 0 < b < |d| && d[b] == ZeroBlock() && roles' == roles[b := c]
    requires p == Home(d, Parent(c)) && p != 0
    ensures p in roles && p < |d| && roles[p] == Parent(c) == roles'[p] && b < TWO32
    ensures ino < |d| && Index(c) < Slots(roles[p]) && Child(roles[p], Index(c)) == c
    ensures CanPut(d, roles', p, Index(c), b) && IsInode(roles', ino) && ino != b && InFile(roles[p])
    ensures roles[p].ino == ino
    ensures forall r :: InFile(r) && IsInode(roles, r.ino) ==> IsInode(roles', r.ino)
  {
    hide Word, Graph, Slot, Child, Parent, Index, Home;
    ParentRole(c);
    HomeRole(d, roles, Parent(c));
    NotPending(d, roles, ino, start, i, p);
    RolesExist(d, roles, p, ino);
    SlotHome(d, roles, p, Index(c));
    AdoptSlots(d, roles, b, c);
    assert Adopt(d, b) == d;
    HeldKept(d, roles, p, b, c, roles');
  }

  lemma FewerRoles(d: Disk, e: Disk, roles: Roles, roles': Roles, ino: nat)
    requires OnlyLinked(d, e, roles', ino) && forall b :: b in roles ==> b in roles' && roles'[b] == roles[b]
    ensures OnlyLinked(d, e, roles, ino)
  {
    hide Home, Attributes;
    assert forall i :: IsInode(roles, i) ==> IsInode(roles', i);
  }

  lemma HeldNew(d: Disk, e: Disk, roles': Roles, b: nat, c: Role)
    requires b in roles' && roles'[b] == c && InFile(c) && IsInode(roles', c.ino)
    requires forall r :: InFile(r) && IsInode(roles', r.ino) ==> Home(e, r) == if r == c then b else Home(d, r)
    ensures Held(e, roles', b)
  {
    hide Home;
  }

  lemma HeldKept(d: Disk, roles: Roles, p: nat, b: nat, c: Role, roles': Roles)
    requires p in roles && b != p && Held(d, roles, p) && roles' == roles[b := c]
    ensures Held(d, roles', p)
  {
  }

  lemma HeldBeside(d: Disk, e: Disk, roles: Roles, roles': Roles, q: nat, b: nat, c: Role)
    requires Graph(d, roles) && b !in roles && roles' == roles[b := c]
    requires q in roles && Held(d, roles, q) && InFile(c) && Home(d, c) == 0
    requires forall r :: InFile(r) && IsInode(roles', r.ino) ==> Home(e, r) == if r == c then b else Home(d, r)
    requires c.ino != b
    ensures Held(e, roles', q)
  {
    hide Word, Slot, Home;
    assert RoleOk(roles, q);
  }
}
