/**
  The x86-64 four-level page table of the WeensyOS kernel as a value: physical
  memory, table walks, and what one mapped page does to every translation.
  Section 4.5 of the Intel SDM, volume 3A, describes the hardware format.
 */
module PageTable {
  import opened Util

  const PAGESIZE := 4096
  const NPAGES := 512
  const NPAGETABLEENTRIES := 512
  const MEMSIZE_PHYSICAL := 0x200000
  const VPNS := 0x10_0000_0000            // 2^36 pages of translated address bits

  /** Physical memory as page number, entry index -> 64-bit entry. */
  type Mem = m: seq<seq<nat>> | |m| == NPAGES && forall p :: 0 <= p < |m| ==> |m[p]| == NPAGETABLEENTRIES
    witness Repeat(ZeroPage(), NPAGES)

  // ----- entries and addresses

  predicate P(e: nat) { e % 2 == 1 }
  predicate W(e: nat) { (e / 2) % 2 == 1 }
  predicate U(e: nat) { (e / 4) % 2 == 1 }

  /** PTE_ADDR and PAGENUMBER of an entry; the entry's address is Pn(e) * PAGESIZE. */
  function Pn(e: nat): nat { e / PAGESIZE }

  function Shift(level: nat): nat
    requires level <= 3
  {
    if level == 0 then 0x80_0000_0000 else if level == 1 then 0x4000_0000 else if level == 2 then 0x20_0000 else 0x1000
  }

  /** PAGEINDEX(va, level). */
  function Index(va: nat, level: nat): (i: nat)
    requires level <= 3
    ensures i < NPAGETABLEENTRIES
  {
    (va / Shift(level)) % 512
  }

  /** The address bits the walk looks at; bits 48 and up are ignored by all four indices. */
  function Vpn(va: nat): nat { (va / PAGESIZE) % VPNS }

  lemma IndicesDetermineVpn(va: nat, wa: nat)
    ensures (Index(va, 0) == Index(wa, 0) && Index(va, 1) == Index(wa, 1) && Index(va, 2) == Index(wa, 2)
             && Index(va, 3) == Index(wa, 3))
       <==> Vpn(va) == Vpn(wa)
  {
    VpnDigits(va);
    VpnDigits(wa);
  }

  lemma VpnDigits(va: nat)
    ensures Vpn(va) == ((Index(va, 0) * 512 + Index(va, 1)) * 512 + Index(va, 2)) * 512 + Index(va, 3)
  {
    var q := va / 0x1000;
    var a := q / 512;
    var b := a / 512;
    var c := b / 512;
    DivDiv(va);
    var d3, d2, d1, d0 := q % 512, a % 512, b % 512, c % 512;
    assert Index(va, 0) == d0 && Index(va, 1) == d1 && Index(va, 2) == d2 && Index(va, 3) == d3;
    hide Index;
    assert b == c / 512 * 0x4_0000 + d0 * 512 + d1;
    assert a == c / 512 * 0x800_0000 + d0 * 0x4_0000 + d1 * 512 + d2;
    ModUnique(q, c / 512, ((d0 * 512 + d1) * 512 + d2) * 512 + d3);
  }

  lemma ModUnique(q: nat, e: nat, low: nat)
    requires q == e * VPNS + low && low < VPNS
    ensures q % VPNS == low
  {
  }

  lemma DivDiv(va: nat)
    ensures va / 0x20_0000 == va / 0x1000 / 512
    ensures va / 0x4000_0000 == va / 0x1000 / 512 / 512
    ensures va / 0x80_0000_0000 == va / 0x1000 / 512 / 512 / 512
  {
  }

  // ----- memory updates

  function WithEntry(page: seq<nat>, i: nat, e: nat): (r: seq<nat>)
    requires i < |page|
  {
    page[i := e]
  }

  function Set(m: Mem, p: nat, i: nat, e: nat): (r: Mem)
    requires p < NPAGES && i < NPAGETABLEENTRIES
  {
    m[p := WithEntry(m[p], i, e)]
  }

  function ZeroPage(): seq<nat> { Repeat(0, NPAGETABLEENTRIES) }

  function Clear(m: Mem, p: nat): (r: Mem)
    requires p < NPAGES
  {
    m[p := ZeroPage()]
  }

  // ----- translation

  /** The page reached after some levels of a walk, with the accumulated permissions. */
  datatype Node = Node(pn: nat, w: bool, u: bool)

  /** The page reached from table page `r` by following the first `k` indices of `va` through present entries. */
  function Path(m: Mem, r: nat, va: nat, k: nat): Option<Node>
    requires k <= 4
  {
    if k == 0 then Some(Node(r, true, true))
    else
      match Path(m, r, va, k - 1)
      case None => None
      case Some(n) =>
        if n.pn >= NPAGES then None
        else
          var e := m[n.pn][Index(va, k - 1)];
          if P(e) then Some(Node(Pn(e), n.w && W(e), n.u && U(e))) else None
  }

  /** A vamapping: unmapped, or the page number, address and the W and U permissions (P is implied). */
  datatype Mapping = Unmapped | Mapped(pn: nat, pa: nat, w: bool, u: bool)

  function Lookup(m: Mem, r: nat, va: nat): Mapping {
    match Path(m, r, va, 4)
    case None => Unmapped
    case Some(n) => Mapped(n.pn, n.pn * PAGESIZE + va % PAGESIZE, n.w, n.u)
  }

  // ----- the tree shape

  /** Where a table page hangs: its level, and the page and slot of the entry that points to it. */
  datatype Place = Place(level: nat, parent: nat, slot: nat)

  /** The tables form a tree: `lv` places every table page, and a present entry of the three
      upper levels points to a page placed exactly there, so no two entries share a target. */
  ghost predicate Tree(m: Mem, r: nat, lv: map<nat, Place>) {
    && r in lv && lv[r].level == 0
    && (forall p :: p in lv ==> p < NPAGES && lv[p].level <= 3 && (lv[p].level == 0 ==> p == r))
    && (forall p, i :: p in lv && lv[p].level < 3 && 0 <= i < NPAGETABLEENTRIES && P(m[p][i]) ==>
          Pn(m[p][i]) in lv && lv[Pn(m[p][i])] == Place(lv[p].level + 1, p, i))
  }

  lemma PathLevel(m: Mem, r: nat, lv: map<nat, Place>, va: nat, k: nat)
    requires Tree(m, r, lv) && k <= 3
    ensures Path(m, r, va, k).Some? ==> Path(m, r, va, k).value.pn in lv && lv[Path(m, r, va, k).value.pn].level == k
  {
  }

  /** In a tree, two addresses that reach one table share every index above it. */
  lemma {:induction false} PathInjective(m: Mem, r: nat, lv: map<nat, Place>, va: nat, wa: nat, k: nat)
    requires Tree(m, r, lv) && k <= 3
    requires Path(m, r, va, k).Some? && Path(m, r, wa, k).Some?
    requires Path(m, r, va, k).value.pn == Path(m, r, wa, k).value.pn
    ensures forall i :: 0 <= i < k ==> Index(va, i) == Index(wa, i)
  {
    if k > 0 {
      PathLevel(m, r, lv, va, k - 1);
      PathLevel(m, r, lv, wa, k - 1);
      var p, q := Path(m, r, va, k - 1).value.pn, Path(m, r, wa, k - 1).value.pn;
      assert P(m[p][Index(va, k - 1)]) && P(m[q][Index(wa, k - 1)]);
      PathInjective(m, r, lv, va, wa, k - 1);
    }
  }

  // ----- one leaf write

  lemma {:induction false} LeafWritePath(m: Mem, r: nat, lv: map<nat, Place>, q: nat, j: nat, e: nat, wa: nat, k: nat)
    requires Tree(m, r, lv) && q in lv && lv[q].level == 3 && j < NPAGETABLEENTRIES && k <= 3
    ensures Path(Set(m, q, j, e), r, wa, k) == Path(m, r, wa, k)
  {
    hide P, W, U, Pn, Index;
    if k > 0 {
      LeafWritePath(m, r, lv, q, j, e, wa, k - 1);
      PathLevel(m, r, lv, wa, k - 1);
    }
  }

  lemma LeafWriteTree(m: Mem, r: nat, lv: map<nat, Place>, q: nat, j: nat, e: nat)
    requires Tree(m, r, lv) && q in lv && lv[q].level == 3 && j < NPAGETABLEENTRIES
    ensures Tree(Set(m, q, j, e), r, lv)
  {
    var m' := Set(m, q, j, e);
    assert forall p :: p in lv && lv[p].level < 3 ==> m'[p] == m[p];
  }

  /** Writing the leaf slot of `va` leaves the translation of every other page alone. */
  lemma LeafWriteOthers(m: Mem, r: nat, lv: map<nat, Place>, va: nat, e: nat, wa: nat)
    requires Tree(m, r, lv) && Path(m, r, va, 3).Some?
    requires Vpn(wa) != Vpn(va)
    ensures Path(m, r, va, 3).value.pn < NPAGES
    ensures Path(Set(m, Path(m, r, va, 3).value.pn, Index(va, 3), e), r, wa, 4) == Path(m, r, wa, 4)
  {
    PathLevel(m, r, lv, va, 3);
    PathLevel(m, r, lv, wa, 3);
    var q := Path(m, r, va, 3).value.pn;
    LeafWritePath(m, r, lv, q, Index(va, 3), e, wa, 3);
    IndicesDetermineVpn(va, wa);
    if Path(m, r, wa, 3).Some? && Path(m, r, wa, 3).value.pn == q {
      PathInjective(m, r, lv, va, wa, 3);
      assert Index(va, 0) == Index(wa, 0) && Index(va, 1) == Index(wa, 1) && Index(va, 2) == Index(wa, 2);
    }
  }

  // ----- hanging a fresh zeroed table under an absent entry

  function Attach(m: Mem, p: nat, i: nat, np: nat): Mem
    requires p < NPAGES && i < NPAGETABLEENTRIES && np < NPAGES
  {
    Clear(Set(m, p, i, np * PAGESIZE + 7), np)
  }

  lemma EntryBits(np: nat)
    ensures P(np * PAGESIZE + 7) && W(np * PAGESIZE + 7) && U(np * PAGESIZE + 7) && Pn(np * PAGESIZE + 7) == np
  {
    var e := np * PAGESIZE + 7;
    assert P(e) by { assert e == 2 * (np * 2048 + 3) + 1; }
    assert W(e) by { HalfOf(e, np * 2048 + 3); assert np * 2048 + 3 == 2 * (np * 1024 + 1) + 1; }
    assert U(e) by { QuarterOf(e, np * 1024 + 1); assert np * 1024 + 1 == 2 * (np * 512) + 1; }
    assert Pn(e) == np;
  }

  lemma HalfOf(e: nat, h: nat)
    requires 2 * h <= e <= 2 * h + 1
    ensures e / 2 == h
  {
  }

  lemma QuarterOf(e: nat, q: nat)
    requires 4 * q <= e <= 4 * q + 3
    ensures e / 4 == q
  {
  }

  ghost predicate CanAttach(m: Mem, r: nat, lv: map<nat, Place>, p: nat, i: nat, np: nat) {
    && Tree(m, r, lv) && p in lv && lv[p].level < 3 && i < NPAGETABLEENTRIES && !P(m[p][i]) && np < NPAGES && np !in lv
  }

  lemma AttachTree(m: Mem, r: nat, lv: map<nat, Place>, p: nat, i: nat, np: nat)
    requires CanAttach(m, r, lv, p, i, np)
    ensures Tree(Attach(m, p, i, np), r, lv[np := Place(lv[p].level + 1, p, i)])
  {
    var m', lv' := Attach(m, p, i, np), lv[np := Place(lv[p].level + 1, p, i)];
    EntryBits(np);
    forall q, j | q in lv' && lv'[q].level < 3 && 0 <= j < NPAGETABLEENTRIES && P(m'[q][j])
      ensures q in lv && (m'[q][j] == m[q][j] || (q == p && j == i))
    {
    }
  }

  /** Entry by entry, what attaching table `np` at slot (p, i) does. */
  ghost predicate Attached(m: Mem, m': Mem, p: nat, i: nat, np: nat) {
    forall q, j :: 0 <= q < NPAGES && 0 <= j < NPAGETABLEENTRIES ==>
      if q == np then !P(m'[q][j])
      else if q == p && j == i then P(m'[q][j]) && Pn(m'[q][j]) == np
      else m'[q][j] == m[q][j]
  }

  lemma AttachEntries(m: Mem, p: nat, i: nat, np: nat)
    requires p < NPAGES && i < NPAGETABLEENTRIES && np < NPAGES && p != np
    ensures Attached(m, Attach(m, p, i, np), p, i, np)
  {
    EntryBits(np);
    assert forall j :: 0 <= j < NPAGETABLEENTRIES ==> ZeroPage()[j] == 0;
  }

  /** The tables on the way of `wa` avoid `np`, and meet `p` only at level `d`. */
  ghost predicate PathAvoids(m: Mem, r: nat, wa: nat, p: nat, d: nat, np: nat) {
    forall k :: 0 <= k <= 3 && Path(m, r, wa, k).Some? ==>
      Path(m, r, wa, k).value.pn < NPAGES && Path(m, r, wa, k).value.pn != np
      && (Path(m, r, wa, k).value.pn == p ==> k == d)
  }

  /** Every path that existed still does; a path that appears ends in the new, empty table. */
  lemma {:induction false} AttachPath(m: Mem, m': Mem, r: nat, p: nat, i: nat, d: nat, np: nat, wa: nat, k: nat)
    requires PathAvoids(m, r, wa, p, d, np) && Attached(m, m', p, i, np) && d < 3 && k <= 4
    requires p < NPAGES && i < NPAGETABLEENTRIES && np < NPAGES && !P(m[p][i])
    ensures Path(m, r, wa, k).Some? ==> Path(m', r, wa, k) == Path(m, r, wa, k)
    ensures Path(m, r, wa, k).None? && Path(m', r, wa, k).Some? ==> k <= 3 && Path(m', r, wa, k).value.pn == np
  {
    hide P, W, U, Pn, Index;
    if k > 0 {
      AttachPath(m, m', r, p, i, d, np, wa, k - 1);
    }
  }

  lemma AttachClear(m: Mem, r: nat, lv: map<nat, Place>, p: nat, i: nat, np: nat, wa: nat)
    requires CanAttach(m, r, lv, p, i, np)
    ensures PathAvoids(m, r, wa, p, lv[p].level, np)
  {
    forall k | 0 <= k <= 3
      ensures Path(m, r, wa, k).Some? ==> Path(m, r, wa, k).value.pn in lv && lv[Path(m, r, wa, k).value.pn].level == k
    {
      PathLevel(m, r, lv, wa, k);
    }
  }

  // ----- the walk that allocates missing tables

  datatype Out = Null | Table(pn: nat) | Panic
  datatype Walked = Walked(mem: Mem, supply: seq<nat>, out: Out)

  /** The checks made on an entry before descending through it. */
  predicate EntryAllows(pe: nat, perm: nat) {
    && Pn(pe) < NPAGES
    && (W(perm) ==> W(pe))
    && (U(perm) ==> U(pe))
  }

  /** lookup_l4pagetable from table page `pt` at level `i`. `supply` holds the addresses
      the allocator will return, 0 being NULL; running out also means NULL. */
  function Walk(m: Mem, supply: seq<nat>, pt: nat, i: nat, va: nat, perm: nat): Walked
    requires pt < NPAGES && i <= 3
    decreases 3 - i
  {
    if i == 3 then Walked(m, supply, Table(pt))
    else
      var pe := m[pt][Index(va, i)];
      if P(pe) then
        if EntryAllows(pe, perm) then Walk(m, supply, Pn(pe), i + 1, va, perm) else Walked(m, supply, Panic)
      else if !P(perm) || supply == [] then Walked(m, supply, Null)
      else if supply[0] == 0 then Walked(m, supply[1..], Null)
      else if supply[0] % PAGESIZE != 0 || supply[0] >= MEMSIZE_PHYSICAL then Walked(m, supply[1..], Panic)
      else Walk(Attach(m, pt, Index(va, i), supply[0] / PAGESIZE), supply[1..], supply[0] / PAGESIZE, i + 1, va, perm)
  }

  /** What the allocator owes its caller: page-aligned pages of physical memory,
      each one new and outside the tree. */
  ghost predicate Fresh(supply: seq<nat>, lv: map<nat, Place>) {
    && (forall k :: 0 <= k < |supply| && supply[k] != 0 ==>
          supply[k] % PAGESIZE == 0 && supply[k] < MEMSIZE_PHYSICAL && supply[k] / PAGESIZE !in lv)
    && (forall j, k :: 0 <= j < k < |supply| && supply[j] != 0 ==> supply[j] != supply[k])
  }

  predicate Suits(n: Node, perm: nat) {
    (W(perm) ==> n.w) && (U(perm) ==> n.u)
  }

  /** Every path stays, and no page gains or loses a translation. */
  ghost predicate Grown(m: Mem, m': Mem, r: nat) {
    && (forall wa, k :: 0 <= k <= 4 && Path(m, r, wa, k).Some? ==> Path(m', r, wa, k) == Path(m, r, wa, k))
    && (forall wa :: Path(m', r, wa, 4) == Path(m, r, wa, 4))
  }

  lemma AttachGrown(m: Mem, r: nat, lv: map<nat, Place>, p: nat, i: nat, np: nat)
    requires CanAttach(m, r, lv, p, i, np)
    ensures Grown(m, Attach(m, p, i, np), r)
  {
    var m' := Attach(m, p, i, np);
    AttachEntries(m, p, i, np);
    forall wa, k | 0 <= k <= 4
      ensures Path(m, r, wa, k).Some? ==> Path(m', r, wa, k) == Path(m, r, wa, k)
    {
      AttachClear(m, r, lv, p, i, np, wa);
      AttachPath(m, m', r, p, i, lv[p].level, np, wa, k);
    }
    forall wa
      ensures Path(m', r, wa, 4) == Path(m, r, wa, 4)
    {
      AttachClear(m, r, lv, p, i, np, wa);
      AttachPath(m, m', r, p, i, lv[p].level, np, wa, 4);
    }
  }

  lemma GrownTransitive(m: Mem, m1: Mem, m2: Mem, r: nat)
    requires Grown(m, m1, r) && Grown(m1, m2, r)
    ensures Grown(m, m2, r)
  {
  }

  /** The leaf tables of `lv` keep their contents, and `lv'` extends `lv`. */
  ghost predicate LeavesKept(m: Mem, m': Mem, lv: map<nat, Place>, lv': map<nat, Place>) {
    forall p :: p in lv ==> p in lv' && lv'[p] == lv[p] && (lv[p].level == 3 && p < NPAGES ==> m'[p] == m[p])
  }

  /** What a finished walk for `va` leaves behind. */
  ghost predicate WalkDone(m: Mem, supply: seq<nat>, r: nat, w: Walked, lv: map<nat, Place>, va: nat, perm: nat) {
    && Tree(w.mem, r, lv) && Fresh(w.supply, lv) && Grown(m, w.mem, r)
    && (!P(perm) ==> w.mem == m && w.supply == supply)
    && (w.out.Table? ==>
          var n := Path(w.mem, r, va, 3);
          n.Some? && n.value.pn == w.out.pn && w.out.pn in lv && lv[w.out.pn].level == 3 && Suits(n.value, perm))
  }

  /** The walk keeps the tree and every translation; when it returns a table, that is the
      leaf table of `va`, reached with at least the requested permissions. */
  lemma {:induction false} WalkEffect(m: Mem, supply: seq<nat>, r: nat, lv: map<nat, Place>, i: nat, va: nat, perm: nat)
    returns (lv': map<nat, Place>)
    requires Tree(m, r, lv) && Fresh(supply, lv) && i <= 3
    requires Path(m, r, va, i).Some? && Suits(Path(m, r, va, i).value, perm) && Path(m, r, va, i).value.pn < NPAGES
    ensures WalkDone(m, supply, r, Walk(m, supply, Path(m, r, va, i).value.pn, i, va, perm), lv', va, perm)
    ensures LeavesKept(m, Walk(m, supply, Path(m, r, va, i).value.pn, i, va, perm).mem, lv, lv')
    decreases 3 - i, 1
  {
    lv' := lv;
    var pt := Path(m, r, va, i).value.pn;
    PathLevel(m, r, lv, va, i);
    hide Tree;
    if i < 3 {
      var pe := m[pt][Index(va, i)];
      if P(pe) {
        if EntryAllows(pe, perm) {
          lv' := WalkEffect(m, supply, r, lv, i + 1, va, perm);
        }
      } else if P(perm) && supply != [] {
        lv' := WalkAttachEffect(m, supply, r, lv, i, va, perm);
      }
    }
  }

  lemma {:induction false} WalkAttachEffect(m: Mem, supply: seq<nat>, r: nat, lv: map<nat, Place>, i: nat, va: nat,
        perm: nat)
    returns (lv': map<nat, Place>)
    requires Tree(m, r, lv) && Fresh(supply, lv) && i < 3 && P(perm) && supply != []
    requires Path(m, r, va, i).Some? && Suits(Path(m, r, va, i).value, perm) && Path(m, r, va, i).value.pn < NPAGES
    requires !P(m[Path(m, r, va, i).value.pn][Index(va, i)])
    ensures WalkDone(m, supply, r, Walk(m, supply, Path(m, r, va, i).value.pn, i, va, perm), lv', va, perm)
    ensures LeavesKept(m, Walk(m, supply, Path(m, r, va, i).value.pn, i, va, perm).mem, lv, lv')
    decreases 3 - i, 0
  {
    var pt := Path(m, r, va, i).value.pn;
    FreshTail(supply, lv, Place(i + 1, pt, Index(va, i)));
    hide Tree;
    if supply[0] == 0 {
      lv' := lv;
    } else {
      FreshHead(supply, lv);
      hide Fresh;
      var np := supply[0] / PAGESIZE;
      var m1, lv1 := Attach(m, pt, Index(va, i), np), lv[np := Place(i + 1, Path(m, r, va, i).value.pn, Index(va, i))];
      AttachEffect(m, r, lv, i, va, np);
      hide Grown, LeavesKept;
      lv' := WalkEffect(m1, supply[1..], r, lv1, i + 1, va, perm);
      var w := Walk(m1, supply[1..], np, i + 1, va, perm);
      GrownTransitive(m, m1, w.mem, r);
      LeavesTransitive(m, m1, w.mem, lv, lv1, lv');
    }
  }

  /** Hanging one fresh table on the way of `va`. */
  lemma AttachEffect(m: Mem, r: nat, lv: map<nat, Place>, i: nat, va: nat, np: nat)
    requires Tree(m, r, lv) && i < 3 && np < NPAGES && np !in lv
    requires Path(m, r, va, i).Some? && Path(m, r, va, i).value.pn < NPAGES
    requires !P(m[Path(m, r, va, i).value.pn][Index(va, i)])
    ensures var m1 := Attach(m, Path(m, r, va, i).value.pn, Index(va, i), np);
            && Tree(m1, r, lv[np := Place(i + 1, Path(m, r, va, i).value.pn, Index(va, i))]) && Grown(m, m1, r)
            && LeavesKept(m, m1, lv, lv[np := Place(i + 1, Path(m, r, va, i).value.pn, Index(va, i))])
            && Path(m1, r, va, i + 1) == Some(Path(m, r, va, i).value.(pn := np))
  {
    var pt := Path(m, r, va, i).value.pn;
    PathLevel(m, r, lv, va, i);
    hide Tree;
    AttachTree(m, r, lv, pt, Index(va, i), np);
    AttachGrown(m, r, lv, pt, Index(va, i), np);
    AttachStep(m, r, lv, va, i, np);
  }

  lemma LevelsBound(m: Mem, r: nat, lv: map<nat, Place>)
    requires Tree(m, r, lv)
    ensures forall p :: p in lv ==> p < NPAGES
  {
  }

  lemma FreshHead(supply: seq<nat>, lv: map<nat, Place>)
    requires Fresh(supply, lv) && supply != [] && supply[0] != 0
    ensures supply[0] % PAGESIZE == 0 && supply[0] < MEMSIZE_PHYSICAL
    ensures supply[0] / PAGESIZE < NPAGES && supply[0] / PAGESIZE !in lv
  {
  }

  lemma LeavesTransitive(m: Mem, m1: Mem, m2: Mem, lv: map<nat, Place>, lv1: map<nat, Place>, lv2: map<nat, Place>)
    requires LeavesKept(m, m1, lv, lv1) && LeavesKept(m1, m2, lv1, lv2)
    ensures LeavesKept(m, m2, lv, lv2)
  {
  }

  lemma FreshTail(supply: seq<nat>, lv: map<nat, Place>, place: Place)
    requires Fresh(supply, lv) && supply != []
    ensures Fresh(supply[1..], lv)
    ensures supply[0] != 0 ==> Fresh(supply[1..], lv[supply[0] / PAGESIZE := place])
  {
    var rest := supply[1..];
    assert forall k :: 0 <= k < |rest| ==> rest[k] == supply[k + 1];
  }

  lemma AttachStep(m: Mem, r: nat, lv: map<nat, Place>, va: nat, i: nat, np: nat)
    requires i < 3 && Path(m, r, va, i).Some? && CanAttach(m, r, lv, Path(m, r, va, i).value.pn, Index(va, i), np)
    ensures Path(Attach(m, Path(m, r, va, i).value.pn, Index(va, i), np), r, va, i + 1)
         == Some(Path(m, r, va, i).value.(pn := np))
  {
    var pt := Path(m, r, va, i).value.pn;
    EntryBits(np);
    assert pt != np;
    AttachEntries(m, pt, Index(va, i), np);
    AttachClear(m, r, lv, pt, Index(va, i), np, va);
    AttachPath(m, Attach(m, pt, Index(va, i), np), r, pt, Index(va, i), lv[pt].level, np, va, i);
    assert Attach(m, pt, Index(va, i), np)[pt][Index(va, i)] == np * PAGESIZE + 7;
  }

  /** A walk over a path that is already there touches nothing and asks for nothing. */
  lemma {:induction false} WalkResolved(m: Mem, supply: seq<nat>, r: nat, lv: map<nat, Place>, i: nat, va: nat,
        perm: nat)
    requires Tree(m, r, lv) && i <= 3
    requires Path(m, r, va, 3).Some? && Suits(Path(m, r, va, 3).value, perm)
    requires Path(m, r, va, i).Some? && Path(m, r, va, i).value.pn < NPAGES
    ensures Walk(m, supply, Path(m, r, va, i).value.pn, i, va, perm) ==
              Walked(m, supply, Table(Path(m, r, va, 3).value.pn))
    decreases 3 - i
  {
    if i < 3 {
      PathLevel(m, r, lv, va, i);
      PathPrefix(m, r, va, i + 1, 3);
      PathLevel(m, r, lv, va, i + 1);
      WalkResolved(m, supply, r, lv, i + 1, va, perm);
    }
  }

  lemma {:induction false} PathPrefix(m: Mem, r: nat, va: nat, j: nat, k: nat)
    requires j <= k <= 4 && Path(m, r, va, k).Some?
    ensures Path(m, r, va, j).Some?
    ensures Path(m, r, va, k).value.w ==> Path(m, r, va, j).value.w
    ensures Path(m, r, va, k).value.u ==> Path(m, r, va, j).value.u
    decreases k
  {
    hide P, Pn, Index;
    if j < k { PathPrefix(m, r, va, j, k - 1); }
  }
}
