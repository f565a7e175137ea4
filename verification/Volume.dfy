/**
  A disk as blocks and free bits, and the pointer graph in it: every block in use has one role,
  its role fixes the one place that may point to it, and that place does.
 */
module Volume {
  import opened CInts
  import opened Blocks

  type Disk = seq<Block>

  /** What a block is for. Ind, Dbl and DblInd are the pointer blocks of inode `ino`; Data(ino, n)
      is its n-th file block. */
  datatype Role = Super | Bitmap | Inode(ino: nat) | Ind(ino: nat) | Dbl(ino: nat) | DblInd(ino: nat, k: nat)
      | Data(ino: nat, n: nat)

  // ----- pointer slots

  /** How many pointers a block of this role holds. */
  function Slots(r: Role): nat {
    match r
    case Inode(_) => N_DIRECT + 2
    case Ind(_) => N_INDIRECT
    case Dbl(_) => N_INDIRECT
    case DblInd(_, _) => N_INDIRECT
    case _ => 0
  }

  function SlotOff(r: Role, j: nat): (off: nat)
    requires j < Slots(r)
    ensures off + 4 <= BLKSIZE
  {
    if r.Inode? then DIRECT + 4 * j else 4 * j
  }

  function Slot(d: Disk, b: nat, r: Role, j: nat): (w: nat)
    requires b < |d| && j < Slots(r)
    ensures w < TWO32
  {
    Word(d[b], SlotOff(r, j))
  }

  /** The role of the block that slot `j` points to. */
  function Child(r: Role, j: nat): Role
    requires j < Slots(r)
  {
    match r
    case Inode(i) => if j < N_DIRECT then Data(i, j) else if j == N_DIRECT then Ind(i) else Dbl(i)
    case Ind(i) => Data(i, N_DIRECT + j)
    case Dbl(i) => DblInd(i, j)
    case DblInd(i, k) => Data(i, N_DIRECT + N_INDIRECT + N_INDIRECT * k + j)
  }

  /** Roles of blocks that belong to a file and hang below its inode. */
  predicate Below(r: Role) {
    r.Ind? || r.Dbl? || (r.DblInd? && r.k < N_INDIRECT) || (r.Data? && r.n < MAXBLOCKS)
  }

  function Parent(r: Role): Role
    requires Below(r)
  {
    match r
    case Ind(i) => Inode(i)
    case Dbl(i) => Inode(i)
    case DblInd(i, _) => Dbl(i)
    case Data(i, n) =>
      if n < N_DIRECT then Inode(i)
      else if n < N_DIRECT + N_INDIRECT then Ind(i)
      else DblInd(i, (n - N_DIRECT - N_INDIRECT) / N_INDIRECT)
  }

  function Index(r: Role): (j: nat)
    requires Below(r)
    ensures j < Slots(Parent(r))
  {
    match r
    case Ind(_) => N_DIRECT
    case Dbl(_) => N_DIRECT + 1
    case DblInd(_, k) => k
    case Data(_, n) =>
      if n < N_DIRECT then n
      else if n < N_DIRECT + N_INDIRECT then n - N_DIRECT
      else (n - N_DIRECT - N_INDIRECT) % N_INDIRECT
  }

  function Rank(r: Role): nat {
    match r
    case Ind(_) => 1
    case Dbl(_) => 1
    case DblInd(_, _) => 2
    case Data(_, _) => 3
    case _ => 0
  }

  /** Inode, or a role below one. */
  predicate InFile(r: Role) { r.Inode? || Below(r) }

  lemma ParentRole(r: Role)
    requires Below(r)
    ensures InFile(Parent(r)) && Rank(Parent(r)) < Rank(r) && Parent(r).ino == r.ino && Child(Parent(r), Index(r)) == r
  {
    if r.Data? && r.n >= N_DIRECT + N_INDIRECT {
      var m := r.n - N_DIRECT - N_INDIRECT;
      assert m == N_INDIRECT * (m / N_INDIRECT) + m % N_INDIRECT;
    }
  }

  lemma ChildRole(r: Role, j: nat)
    requires InFile(r) && j < Slots(r)
    ensures Below(Child(r, j)) && Parent(Child(r, j)) == r && Index(Child(r, j)) == j && Child(r, j).ino == r.ino
  {
    if r.DblInd? {
      DivMod(r.k, j);
    }
  }

  lemma DivMod(k: nat, j: nat)
    requires j < N_INDIRECT
    ensures (N_INDIRECT * k + j) / N_INDIRECT == k && (N_INDIRECT * k + j) % N_INDIRECT == j
  {
  }

  // ----- following pointers

  /** The block that the pointers of the file lead to for role `r`; 0 when some pointer on the way is. */
  function Home(d: Disk, r: Role): (b: nat)
    requires InFile(r)
    decreases Rank(r)
  {
    if r.Inode? then r.ino
    else
      ParentRole(r);
      var p := Home(d, Parent(r));
      if p == 0 || p >= |d| then 0 else Slot(d, p, Parent(r), Index(r))
  }

  /** The block that holds file block `n` of inode `i`, or 0. */
  function BlockNumber(d: Disk, i: nat, n: nat): nat { if n < MAXBLOCKS then Home(d, Data(i, n)) else 0 }

  /** File block `n` of inode `i`; a missing block reads as zeros. */
  function FileBlock(d: Disk, i: nat, n: nat): (b: Block)
    requires n < MAXBLOCKS
  {
    var p := Home(d, Data(i, n));
    if p == 0 || p >= |d| then ZeroBlock() else d[p]
  }

  // ----- the graph

  type Roles = map<nat, Role>

  /** Blocks in use keep their roles. */
  ghost predicate Extends(roles: Roles, roles': Roles) {
    forall b :: b in roles ==> b in roles' && roles'[b] == roles[b]
  }

  const BLKBITSIZE := 8 * BLKSIZE

  /** How many blocks the bitmap of a disk of `n` blocks takes. */
  function BitmapBlocks(n: nat): nat { (n + BLKBITSIZE - 1) / BLKBITSIZE }

  /** The bitmap's blocks follow the superblock, and no other block is one of them. */
  ghost predicate BitmapPlaced(n: nat, roles: Roles) {
    forall b: nat :: b in roles && roles[b].Bitmap? <==> 1 <= b <= BitmapBlocks(n)
  }

  /** Pointers lead only to blocks of the role that belongs in their place. */
  ghost predicate Graph(d: Disk, roles: Roles) {
    && |d| <= TWO32
    && (forall b :: b in roles ==> b < |d| && (b == 0 <==> roles[b] == Super) && RoleOk(roles, b))
    && 0 in roles && BitmapPlaced(|d|, roles)
    && (forall b, j :: b in roles && 0 <= j < Slots(roles[b]) && Slot(d, b, roles[b], j) != 0 ==>
          Slot(d, b, roles[b], j) in roles && roles[Slot(d, b, roles[b], j)] == Child(roles[b], j))
  }

  /** A block with a file role names an inode that exists. */
  ghost predicate RoleOk(roles: Roles, b: nat)
    requires b in roles
  {
    var r := roles[b];
    && (r.Inode? ==> r.ino == b)
    && (r.Super? || r.Bitmap? || InFile(r))
    && (InFile(r) ==> IsInode(roles, r.ino))
  }

  predicate IsInode(roles: Roles, i: nat) { i in roles && roles[i] == Inode(i) }

  /** The place that belongs to block `b` points to it. */
  ghost predicate Held(d: Disk, roles: Roles, b: nat)
    requires b in roles
  {
    InFile(roles[b]) ==> Home(d, roles[b]) == b
  }

  /** Every block is free or in use for exactly one purpose, and every file block in use is
      pointed to by exactly the slot its role names. */
  ghost predicate Sound(d: Disk, free: seq<bool>, roles: Roles) {
    && Graph(d, roles) && |free| == |d|
    && (forall b :: b in roles ==> Held(d, roles, b))
    && (forall b :: 0 <= b < |d| ==> (free[b] <==> b !in roles))
  }

  /** Where pointers lead has the right role; so two places never lead to one block. */
  lemma {:induction false} HomeRole(d: Disk, roles: Roles, r: Role)
    requires Graph(d, roles) && InFile(r) && IsInode(roles, r.ino)
    ensures Home(d, r) != 0 ==> Home(d, r) in roles && roles[Home(d, r)] == r && Home(d, r) < |d|
    ensures r.Inode? ==> Home(d, r) != 0
    decreases Rank(r)
  {
    hide Word;
    if !r.Inode? {
      ParentRole(r);
      HomeRole(d, roles, Parent(r));
      var p := Home(d, Parent(r));
      if p != 0 {
        assert roles[p] == Parent(r) && Index(r) < Slots(roles[p]);
        var w := Slot(d, p, roles[p], Index(r));
      }
    }
  }

  /** No block is referenced twice: slots that point to the same block are the same slot. */
  lemma ReferencedOnce(d: Disk, roles: Roles, b: nat, j: nat, c: nat, k: nat)
    requires Graph(d, roles) && b in roles && c in roles && j < Slots(roles[b]) && k < Slots(roles[c])
    requires Held(d, roles, b) && Held(d, roles, c)
    requires Slot(d, b, roles[b], j) == Slot(d, c, roles[c], k) != 0
    ensures b == c && j == k
  {
    hide Word, Home;
    ChildRole(roles[b], j);
    ChildRole(roles[c], k);
  }

  /** Slot `j` of block `p`, a block of some file, holds `b`. */
  ghost predicate PointsTo(d: Disk, roles: Roles, p: nat, j: nat, b: nat) {
    p in roles && p < |d| && InFile(roles[p]) && j < Slots(roles[p]) && Slot(d, p, roles[p], j) == b
  }

  ghost predicate Pointed(d: Disk, roles: Roles, b: nat) { exists p: nat, j: nat :: PointsTo(d, roles, p, j, b) }

  /** A block hangs below an inode exactly when some slot points to it. */
  lemma PointedIffBelow(d: Disk, free: seq<bool>, roles: Roles, b: nat)
    requires Sound(d, free, roles) && b != 0
    ensures Pointed(d, roles, b) <==> b in roles && Below(roles[b])
  {
    hide Word, Slot, Index, Parent, Child;
    if b in roles && Below(roles[b]) {
      var r := roles[b];
      assert Held(d, roles, b) && RoleOk(roles, b);
      ParentRole(r);
      HomeRole(d, roles, Parent(r));
      assert PointsTo(d, roles, Home(d, Parent(r)), Index(r), b);
    }
    if Pointed(d, roles, b) {
      var p: nat, j: nat :| PointsTo(d, roles, p, j, b);
      ChildRole(roles[p], j);
    }
  }

  // ----- writing one slot

  function PutSlot(d: Disk, p: nat, r: Role, j: nat, x: nat): (e: Disk)
    requires p < |d| && j < Slots(r) && x < TWO32
    ensures |e| == |d|
  {
    d[p := PutWord(d[p], SlotOff(r, j), x)]
  }

  lemma PutSlotSlots(d: Disk, p: nat, r: Role, j: nat, x: nat)
    requires p < |d| && j < Slots(r) && x < TWO32
    ensures forall k :: 0 <= k < Slots(r) ==>
              Slot(PutSlot(d, p, r, j, x), p, r, k) == if k == j then x else Slot(d, p, r, k)
    ensures r.Inode? ==> Attributes(PutSlot(d, p, r, j, x)[p]) == Attributes(d[p])
    ensures forall b, s, k ::
              0 <= b < |d| && b != p && 0 <= k < Slots(s) ==> Slot(PutSlot(d, p, r, j, x), b, s, k) == Slot(d, b, s, k)
  {
    hide Word, PutWord;
    WordPut(d[p], SlotOff(r, j), x);
  }

  /** `x` can go into slot `j` of block `p`: nothing, a data block, or a pointer block without pointers. */
  ghost predicate CanPut(d: Disk, roles: Roles, p: nat, j: nat, x: nat) {
    && Graph(d, roles) && p in roles && InFile(roles[p]) && Held(d, roles, p) && j < Slots(roles[p])
    && (x != 0 ==> x in roles && roles[x] == Child(roles[p], j))
    && (Child(roles[p], j).Data?
        || (Slot(d, p, roles[p], j) == 0 && x != 0 && forall k ::
              0 <= k < Slots(roles[x]) ==> Slot(d, x, roles[x], k) == 0))
  }

  /** Writing a slot moves exactly the role it stands for. */
  lemma {:induction false} PutSlotHome(d: Disk, roles: Roles, p: nat, j: nat, x: nat, r: Role)
    requires CanPut(d, roles, p, j, x) && InFile(r) && IsInode(roles, r.ino)
    ensures var e := PutSlot(d, p, roles[p], j, x);
            Home(e, r) == if r == Child(roles[p], j) then x else Home(d, r)
    decreases Rank(r)
  {
    hide Word, PutSlot;
    var e := PutSlot(d, p, roles[p], j, x);
    var c := Child(roles[p], j);
    PutSlotSlots(d, p, roles[p], j, x);
    ChildRole(roles[p], j);
    if !r.Inode? {
      ParentRole(r);
      var s := Parent(r);
      PutSlotHome(d, roles, p, j, x, s);
      HomeRole(d, roles, s);
      var q := Home(d, s);
      if s == c {
        assert Home(d, c) == Slot(d, p, roles[p], j);
        assert Slot(e, x, s, Index(r)) == Slot(d, x, s, Index(r));
      } else if q != 0 {
        assert roles[q] == s;
      }
    }
  }

  /** Writing a slot keeps the graph. */
  lemma PutSlotGraph(d: Disk, roles: Roles, p: nat, j: nat, x: nat)
    requires CanPut(d, roles, p, j, x)
    ensures Graph(PutSlot(d, p, roles[p], j, x), roles)
  {
    hide Word, PutSlot, Child, Home;
    PutSlotSlots(d, p, roles[p], j, x);
  }

  // ----- other steps

  /** The pointers of the blocks in `roles` are the same in `d` and `e`. */
  ghost predicate SameSlots(d: Disk, e: Disk, roles: Roles) {
    && |d| == |e|
    && forall b, j :: b in roles && b < |d| && 0 <= j < Slots(roles[b]) ==>
         Slot(e, b, roles[b], j) == Slot(d, b, roles[b], j)
  }

  lemma {:induction false} SameSlotsHome(d: Disk, e: Disk, roles: Roles, r: Role)
    requires Graph(d, roles) && SameSlots(d, e, roles) && InFile(r) && IsInode(roles, r.ino)
    ensures Home(e, r) == Home(d, r)
    decreases Rank(r)
  {
    hide Word, Slot;
    if !r.Inode? {
      ParentRole(r);
      SameSlotsHome(d, e, roles, Parent(r));
      HomeRole(d, roles, Parent(r));
    }
  }

  /** Every file of `roles` has the same attributes and the same blocks in `d` and `e`. */
  ghost predicate SameContent(d: Disk, e: Disk, roles: Roles) {
    && |d| == |e|
    && (forall i: nat :: IsInode(roles, i) && i < |d| ==> Attributes(e[i]) == Attributes(d[i]))
    && (forall i: nat, n: nat :: IsInode(roles, i) && n < MAXBLOCKS ==> FileBlock(e, i, n) == FileBlock(d, i, n))
  }

  lemma SameContentTransitive(d: Disk, e: Disk, f: Disk, roles: Roles, roles': Roles)
    requires SameContent(d, e, roles) && SameContent(e, f, roles')
    requires forall i :: IsInode(roles, i) ==> IsInode(roles', i)
    ensures SameContent(d, f, roles)
  {
    hide FileBlock, Attributes;
  }

  /** `b` is unused, cleared, and from now on has role `c`. */
  function Adopt(d: Disk, b: nat): Disk
    requires b < |d|
  {
    d[b := ZeroBlock()]
  }

  lemma AdoptSlots(d: Disk, roles: Roles, b: nat, c: Role)
    requires Graph(d, roles) && b < |d| && b !in roles && b != 0
    requires c.Inode? ==> c.ino == b
    requires InFile(c) && IsInode(roles[b := c], c.ino)
    ensures Graph(Adopt(d, b), roles[b := c]) && SameSlots(d, Adopt(d, b), roles)
    ensures forall j :: 0 <= j < Slots(c) ==> Slot(Adopt(d, b), b, c, j) == 0
  {
    hide Word, Child;
    var e, roles' := Adopt(d, b), roles[b := c];
    forall q | q in roles'
      ensures RoleOk(roles', q)
    {
      if q != b { assert RoleOk(roles, q); }
    }
    forall q, j | q in roles && 0 <= j < Slots(roles[q])
      ensures Slot(e, q, roles[q], j) == Slot(d, q, roles[q], j)
    {
    }
    forall j | 0 <= j < Slots(c)
      ensures Slot(Adopt(d, b), b, c, j) == 0
    {
      ZeroWord(SlotOff(c, j));
    }
  }

  /** Homes in a graph are never unused blocks, so adopting one moves nothing. */
  lemma AdoptContent(d: Disk, roles: Roles, b: nat, c: Role)
    requires Graph(d, roles) && b < |d| && b !in roles && b != 0
    requires c.Inode? ==> c.ino == b
    requires InFile(c) && IsInode(roles[b := c], c.ino)
    ensures forall r :: InFile(r) && IsInode(roles, r.ino) ==> Home(Adopt(d, b), r) == Home(d, r)
    ensures SameContent(d, Adopt(d, b), roles)
  {
    hide Word, Child, Slot, Graph;
    var e := Adopt(d, b);
    AdoptSlots(d, roles, b, c);
    forall r | InFile(r) && IsInode(roles, r.ino)
      ensures Home(e, r) == Home(d, r)
    {
      SameSlotsHome(d, e, roles, r);
    }
    forall i, n | IsInode(roles, i) && 0 <= n < MAXBLOCKS
      ensures FileBlock(e, i, n) == FileBlock(d, i, n)
    {
      HomeRole(d, roles, Data(i, n));
    }
  }

  /** Linking an adopted block: roles move as intended and no file content changes, because the
      new block is clear. */
  lemma LinkContent(d: Disk, roles: Roles, p: nat, j: nat, x: nat)
    requires CanPut(d, roles, p, j, x) && Slot(d, p, roles[p], j) == 0 && x != 0
    requires roles[x].Data? ==> d[x] == ZeroBlock()
    ensures SameContent(d, PutSlot(d, p, roles[p], j, x), roles)
  {
    hide Word, Slot, Graph;
    RolesExist(d, roles, p, x);
    var e := PutSlot(d, p, roles[p], j, x);
    var c := Child(roles[p], j);
    ChildRole(roles[p], j);
    forall i, n | IsInode(roles, i) && 0 <= n < MAXBLOCKS
      ensures FileBlock(e, i, n) == FileBlock(d, i, n)
    {
      PutSlotHome(d, roles, p, j, x, Data(i, n));
      HomeRole(d, roles, Data(i, n));
      if Data(i, n) == c { SlotHome(d, roles, p, j); }
    }
    PutSlotSlots(d, p, roles[p], j, x);
  }

  lemma RolesExist(d: Disk, roles: Roles, p: nat, x: nat)
    requires Graph(d, roles) && p in roles && x in roles
    ensures p < |d| <= TWO32 && x < |d| && RoleOk(roles, p) && RoleOk(roles, x)
  {
  }

  /** The home of a slot's role is what the slot holds. */
  lemma SlotHome(d: Disk, roles: Roles, p: nat, j: nat)
    requires Graph(d, roles) && p in roles && InFile(roles[p]) && Held(d, roles, p) && j < Slots(roles[p])
    ensures Home(d, Child(roles[p], j)) == Slot(d, p, roles[p], j)
  {
    hide Slot;
    ChildRole(roles[p], j);
  }

  /** Allocation as a whole: block `b` is taken from the free ones, cleared, and linked at slot `j` of `p`. */
  function Allocated(d: Disk, roles: Roles, p: nat, j: nat, b: nat): (e: Disk)
    requires p in roles && p < |d| && b < |d| && j < Slots(roles[p]) && b < TWO32
  {
    PutSlot(Adopt(d, b), p, roles[p], j, b)
  }

  lemma AllocateKeepsSound(d: Disk, free: seq<bool>, roles: Roles, p: nat, j: nat, b: nat)
    requires Sound(d, free, roles) && p in roles && InFile(roles[p]) && j < Slots(roles[p])
    requires Slot(d, p, roles[p], j) == 0
    requires b < |d| && free[b]
    ensures var e, roles' := Allocated(d, roles, p, j, b), roles[b := Child(roles[p], j)];
            && Sound(e, free[b := false], roles') && SameContent(d, e, roles)
            && Slot(e, p, roles[p], j) == b
            && (forall r :: InFile(r) && IsInode(roles, r.ino) ==>
                  Home(e, r) == if r == Child(roles[p], j) then b else Home(d, r))
            && (forall i :: IsInode(roles, i) <==> IsInode(roles', i))
  {
    hide Word, Child, Slot, Graph, Held, SameSlots;
    var c := Child(roles[p], j);
    var roles' := roles[b := c];
    GraphBasics(d, roles, p, b);
    ChildRole(roles[p], j);
    AdoptSlots(d, roles, b, c);
    AdoptContent(d, roles, b, c);
    var m := Adopt(d, b);
    SlotHome(d, roles, p, j);
    AdoptedHeld(d, m, roles, b, c);
    AdoptedSlot(d, roles, b, c, p, j);
    LinkAdopted(m, roles', p, j, b);
    var e := PutSlot(m, p, roles[p], j, b);
    LinkedHeld(d, m, e, roles, b, c, roles');
    SameContentTransitive(d, m, e, roles, roles');
  }

  lemma GraphBasics(d: Disk, roles: Roles, p: nat, b: nat)
    requires Graph(d, roles) && p in roles && b !in roles
    ensures p < |d| <= TWO32 && b != 0 && p != b
    ensures InFile(roles[p]) ==> IsInode(roles, roles[p].ino) && roles[p].ino != b
  {
    assert RoleOk(roles, p);
  }

  lemma AdoptedHeld(d: Disk, m: Disk, roles: Roles, b: nat, c: Role)
    requires Graph(d, roles) && b !in roles && (forall q :: q in roles ==> Held(d, roles, q))
    requires forall r :: InFile(r) && IsInode(roles, r.ino) ==> Home(m, r) == Home(d, r)
    ensures forall q :: q in roles ==> Held(m, roles[b := c], q)
  {
    hide Word, Child, Slot, Home;
    forall q | q in roles
      ensures Held(m, roles[b := c], q)
    {
      assert Held(d, roles, q) && RoleOk(roles, q);
    }
  }

  lemma AdoptedSlot(d: Disk, roles: Roles, b: nat, c: Role, p: nat, j: nat)
    requires b < |d| && p in roles && p < |d| && p != b && j < Slots(roles[p])
    ensures Slot(Adopt(d, b), p, roles[p], j) == Slot(d, p, roles[p], j)
  {
  }

  lemma LinkAdopted(m: Disk, roles: Roles, p: nat, j: nat, b: nat)
    requires Graph(m, roles) && p in roles && InFile(roles[p]) && Held(m, roles, p) && j < Slots(roles[p])
    requires b != 0 && b in roles && roles[b] == Child(roles[p], j)
    requires Slot(m, p, roles[p], j) == 0 && b < |m| && m[b] == ZeroBlock()
    requires forall k :: 0 <= k < Slots(roles[b]) ==> Slot(m, b, roles[b], k) == 0
    ensures var e := PutSlot(m, p, roles[p], j, b);
            && Graph(e, roles) && SameContent(m, e, roles) && Slot(e, p, roles[p], j) == b
            && forall r :: InFile(r) && IsInode(roles, r.ino) ==>
                 Home(e, r) == if r == Child(roles[p], j) then b else Home(m, r)
  {
    hide Word, Child, Slot, Graph, Held, SameContent;
    RolesExist(m, roles, p, b);
    PutSlotGraph(m, roles, p, j, b);
    LinkContent(m, roles, p, j, b);
    PutSlotSlots(m, p, roles[p], j, b);
    forall r | InFile(r) && IsInode(roles, r.ino)
      ensures Home(PutSlot(m, p, roles[p], j, b), r) == if r == Child(roles[p], j) then b else Home(m, r)
    {
      PutSlotHome(m, roles, p, j, b, r);
    }
  }

  lemma LinkedHeld(d: Disk, m: Disk, e: Disk, roles: Roles, b: nat, c: Role, roles': Roles)
    requires Graph(d, roles) && b !in roles && Below(c) && IsInode(roles, c.ino)
    requires forall q :: q in roles ==> Held(d, roles, q)
    requires Home(d, c) == 0 && roles' == roles[b := c]
    requires forall r :: InFile(r) && IsInode(roles, r.ino) ==> Home(m, r) == Home(d, r)
    requires forall r :: InFile(r) && IsInode(roles', r.ino) ==> Home(e, r) == if r == c then b else Home(m, r)
    ensures forall q :: q in roles' ==> Held(e, roles', q)
    ensures forall r :: InFile(r) && IsInode(roles, r.ino) ==> Home(e, r) == if r == c then b else Home(d, r)
    ensures forall i :: IsInode(roles, i) <==> IsInode(roles', i)
  {
    hide Word, Child, Slot;
    assert forall i :: IsInode(roles, i) <==> IsInode(roles', i);
    forall q | q in roles'
      ensures Held(e, roles', q)
    {
      if q != b { assert Held(d, roles, q) && RoleOk(roles, q); }
    }
  }

  /** A new inode: a free block, cleared; its file is empty and no other file changes. */
  lemma CreateKeepsSound(d: Disk, free: seq<bool>, roles: Roles, b: nat)
    requires Sound(d, free, roles) && b < |d| && free[b]
    ensures var e, roles' := Adopt(d, b), roles[b := Inode(b)];
            && Sound(e, free[b := false], roles') && SameContent(d, e, roles)
            && SizeOf(e[b]) == 0 && !IsDir(e[b])
            && (forall n :: 0 <= n < MAXBLOCKS ==> FileBlock(e, b, n) == ZeroBlock())
  {
    hide Word, Child, Slot, Graph, Held, SameSlots, Home;
    var e, roles' := Adopt(d, b), roles[b := Inode(b)];
    assert b != 0 by { GraphZero(d, roles); }
    AdoptSlots(d, roles, b, Inode(b));
    AdoptContent(d, roles, b, Inode(b));
    NewInodeHeld(d, e, roles, b, roles');
    ZeroWord(SIZE);
    ZeroWord(MODE);
    forall n | 0 <= n < MAXBLOCKS
      ensures FileBlock(e, b, n) == ZeroBlock()
    {
      NewInodeEmpty(e, b, Data(b, n));
    }
  }

  lemma GraphZero(d: Disk, roles: Roles)
    requires Graph(d, roles)
    ensures 0 in roles
  {
  }

  lemma NewInodeHeld(d: Disk, e: Disk, roles: Roles, b: nat, roles': Roles)
    requires Graph(d, roles) && b !in roles && roles' == roles[b := Inode(b)]
    requires forall q :: q in roles ==> Held(d, roles, q)
    requires forall r :: InFile(r) && IsInode(roles, r.ino) ==> Home(e, r) == Home(d, r)
    ensures forall q :: q in roles' ==> Held(e, roles', q)
  {
    hide Word, Child, Slot;
    forall q | q in roles'
      ensures Held(e, roles', q)
    {
      if q != b { assert Held(d, roles, q) && RoleOk(roles, q); }
    }
  }

  /** Nothing hangs below an inode without pointers. */
  lemma {:induction false} NewInodeEmpty(e: Disk, b: nat, r: Role)
    requires 0 < b < |e| && InFile(r) && r.ino == b
    requires forall j :: 0 <= j < Slots(Inode(b)) ==> Slot(e, b, Inode(b), j) == 0
    ensures Home(e, r) == if r.Inode? then b else 0
    decreases Rank(r)
  {
    hide Word, Slot;
    if !r.Inode? {
      ParentRole(r);
      NewInodeEmpty(e, b, Parent(r));
    }
  }

  /** Freeing data block `b`, referenced from slot `j` of `p`. */
  lemma FreeKeepsSound(d: Disk, free: seq<bool>, roles: Roles, p: nat, j: nat, b: nat, roles': Roles)
    requires Sound(d, free, roles) && p in roles && InFile(roles[p]) && j < Slots(roles[p])
    requires b != 0 && Slot(d, p, roles[p], j) == b && Child(roles[p], j).Data? && roles' == roles - {b}
    ensures p < |d| && b < |d|
    ensures var e := PutSlot(d, p, roles[p], j, 0);
            && Sound(e, free[b := true], roles')
            && (forall i: nat :: IsInode(roles, i) && i < |d| ==> Attributes(e[i]) == Attributes(d[i]))
            && (forall i: nat, n: nat :: IsInode(roles, i) && n < MAXBLOCKS ==>
                  FileBlock(e, i, n) == if Data(i, n) == Child(roles[p], j) then ZeroBlock() else FileBlock(d, i, n))
  {
    hide Word, PutWord, Slot, Home, Graph, Child, FileBlock, Attributes;
    GraphOfSound(d, free, roles, p);
    RoleOfSlot(d, roles, p, j);
    var e := PutSlot(d, p, roles[p], j, 0);
    var c := Child(roles[p], j);
    PutSlotGraph(d, roles, p, j, 0);
    PutSlotSlots(d, p, roles[p], j, 0);
    SlotHome(d, roles, p, j);
    forall r | InFile(r) && IsInode(roles, r.ino)
      ensures Home(e, r) == if r == c then 0 else Home(d, r)
    {
      PutSlotHome(d, roles, p, j, 0, r);
    }
    FreedGraph(d, e, roles, p, j, b, roles');
    FreedHeld(d, e, roles, b, c, roles');
    forall i: nat, n: nat | IsInode(roles, i) && n < MAXBLOCKS
      ensures FileBlock(e, i, n) == if Data(i, n) == c then ZeroBlock() else FileBlock(d, i, n)
    {
      FreedBlock(d, e, roles, p, c, i, n);
    }
    SlotWriteAttributes(d, roles, p, j);
  }

  lemma GraphOfSound(d: Disk, free: seq<bool>, roles: Roles, p: nat)
    requires Sound(d, free, roles) && p in roles
    ensures Graph(d, roles) && Held(d, roles, p) && p < |d| <= TWO32
  {
    hide Home, Word;
  }

  lemma FreedHeld(d: Disk, e: Disk, roles: Roles, b: nat, c: Role, roles': Roles)
    requires Graph(d, roles) && (forall q :: q in roles ==> Held(d, roles, q))
    requires roles' == roles - {b} && b in roles && roles[b] == c && c.Data?
    requires forall r :: InFile(r) && IsInode(roles, r.ino) ==> Home(e, r) == if r == c then 0 else Home(d, r)
    ensures forall q :: q in roles' ==> Held(e, roles', q)
  {
    hide Word, Slot, Home;
    forall q | q in roles'
      ensures Held(e, roles', q)
    {
      assert Held(d, roles, q) && RoleOk(roles, q) && Held(d, roles, b) && RoleOk(roles, b);
    }
  }

  lemma FreedBlock(d: Disk, e: Disk, roles: Roles, p: nat, c: Role, i: nat, n: nat)
    requires Graph(d, roles) && IsInode(roles, i) && n < MAXBLOCKS && |d| == |e| && p in roles && !roles[p].Data?
    requires forall q: nat :: q < |d| && q != p ==> e[q] == d[q]
    requires Home(e, Data(i, n)) == if Data(i, n) == c then 0 else Home(d, Data(i, n))
    ensures FileBlock(e, i, n) == if Data(i, n) == c then ZeroBlock() else FileBlock(d, i, n)
  {
    hide Home, Graph;
    HomeRole(d, roles, Data(i, n));
  }

  lemma SlotWriteAttributes(d: Disk, roles: Roles, p: nat, j: nat)
    requires p in roles && p < |d| && j < Slots(roles[p]) && Graph(d, roles)
    ensures forall i: nat :: IsInode(roles, i) && i < |d| ==>
              Attributes(PutSlot(d, p, roles[p], j, 0)[i]) == Attributes(d[i])
  {
    hide Word, Home, Slot, Attributes;
    PutSlotSlots(d, p, roles[p], j, 0);
  }

  lemma RoleOfSlot(d: Disk, roles: Roles, p: nat, j: nat)
    requires Graph(d, roles) && p in roles && j < Slots(roles[p]) && Slot(d, p, roles[p], j) != 0
    ensures p < |d| && Slot(d, p, roles[p], j) in roles && Slot(d, p, roles[p], j) < |d|
    ensures roles[Slot(d, p, roles[p], j)] == Child(roles[p], j)
  {
    hide Word;
  }

  /** No other slot points to the freed block, because its role names the slot that did. */
  lemma FreedGraph(d: Disk, e: Disk, roles: Roles, p: nat, j: nat, b: nat, roles': Roles)
    requires Graph(d, roles) && Graph(e, roles) && p in roles && InFile(roles[p]) && j < Slots(roles[p])
    requires forall q :: q in roles ==> Held(d, roles, q)
    requires b in roles && roles[b] == Child(roles[p], j) && roles[b].Data? && roles' == roles - {b}
    requires |d| == |e| && Slot(e, p, roles[p], j) == 0
    ensures Graph(e, roles')
  {
    hide Word, Home, Slot;
    ChildRole(roles[p], j);
    forall q | q in roles'
      ensures RoleOk(roles', q)
    {
      assert RoleOk(roles, q);
    }
    forall q, k | q in roles' && 0 <= k < Slots(roles'[q]) && Slot(e, q, roles'[q], k) != 0
      ensures Slot(e, q, roles'[q], k) in roles'
    {
      ChildRole(roles[q], k);
      assert Held(d, roles, q) && Held(d, roles, p);
    }
  }

  /** Overwriting a data block changes that block of that file and nothing else. */
  lemma WriteDataKeepsSound(d: Disk, free: seq<bool>, roles: Roles, b: nat, blk: Block)
    requires Sound(d, free, roles) && b in roles && roles[b].Data?
    ensures b < |d|
    ensures var e: Disk := d[b := blk];
            && Sound(e, free, roles)
            && (forall i: nat :: IsInode(roles, i) && i < |d| ==> e[i] == d[i])
            && (forall i: nat, n: nat :: IsInode(roles, i) && n < MAXBLOCKS ==>
                  FileBlock(e, i, n) == if Data(i, n) == roles[b] then blk else FileBlock(d, i, n))
  {
    hide Word, Slot, Home;
    assert b < |d|;
    var e: Disk := d[b := blk];
    DataHasNoSlots(d, roles, b, blk);
    SlotsKeepSound(d, e, free, roles);
    forall i: nat, n: nat | IsInode(roles, i) && n < MAXBLOCKS
      ensures FileBlock(e, i, n) == if Data(i, n) == roles[b] then blk else FileBlock(d, i, n)
    {
      SameSlotsHome(d, e, roles, Data(i, n));
      HomeRole(d, roles, Data(i, n));
      assert Held(d, roles, b);
    }
  }

  lemma DataHasNoSlots(d: Disk, roles: Roles, b: nat, blk: Block)
    requires b in roles && roles[b].Data? && b < |d|
    ensures SameSlots(d, d[b := blk], roles)
  {
    hide Word;
  }

  lemma SlotsKeepSound(d: Disk, e: Disk, free: seq<bool>, roles: Roles)
    requires Sound(d, free, roles) && SameSlots(d, e, roles)
    ensures Sound(e, free, roles)
  {
    hide Word, Slot, Home;
    forall q | q in roles
      ensures Held(e, roles, q)
    {
      assert Held(d, roles, q) && RoleOk(roles, q);
      if InFile(roles[q]) { SameSlotsHome(d, e, roles, roles[q]); }
    }
  }

  /** Changing the attributes of inode `a` changes nothing else. */
  lemma WriteAttributesKeepsSound(d: Disk, free: seq<bool>, roles: Roles, a: nat, blk: Block)
    requires Sound(d, free, roles) && IsInode(roles, a) && a < |d|
    requires forall j :: 0 <= j < Slots(Inode(a)) ==>
               Word(blk, SlotOff(Inode(a), j)) == Word(d[a], SlotOff(Inode(a), j))
    ensures var e: Disk := d[a := blk];
            && Sound(e, free, roles)
            && (forall i: nat :: IsInode(roles, i) && i < |d| && i != a ==> e[i] == d[i])
            && (forall i: nat, n: nat ::
                  IsInode(roles, i) && n < MAXBLOCKS ==> FileBlock(e, i, n) == FileBlock(d, i, n))
  {
    hide Word, Home;
    var e: Disk := d[a := blk];
    assert SameSlots(d, e, roles);
    hide Slot;
    SlotsKeepSound(d, e, free, roles);
    forall i: nat, n: nat | IsInode(roles, i) && n < MAXBLOCKS
      ensures FileBlock(e, i, n) == FileBlock(d, i, n)
    {
      SameSlotsHome(d, e, roles, Data(i, n));
      HomeRole(d, roles, Data(i, n));
    }
  }
}
