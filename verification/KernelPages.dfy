/**
  virtual_memory_init: the five statically allocated kernel page tables, and the identity
  map of physical memory they hold from then on.
 */
module KernelPages {
  import opened MapPages
  import opened Util
  import opened PageTable
  import opened VirtualMemory

  const PWU := 7

  /** A table page holding `e0` and `e1` in its first two slots and zeros elsewhere. */
  function Upper(e0: nat, e1: nat): (s: seq<nat>)
    ensures |s| == NPAGETABLEENTRIES && s[0] == e0 && s[1] == e1 && forall i :: 2 <= i < NPAGETABLEENTRIES ==> s[i] == 0
  {
    [e0, e1] + Repeat(0, NPAGETABLEENTRIES - 2)
  }

  function IdentityEntry(i: nat, n: nat): nat {
    if i < n then i * PAGESIZE + PWU else 0
  }

  /** A leaf table whose first `n` entries map page i to page i. */
  function Identity(n: nat): (s: seq<nat>)
    ensures |s| == NPAGETABLEENTRIES && forall i :: 0 <= i < NPAGETABLEENTRIES ==> s[i] == IdentityEntry(i, n)
  {
    seq(NPAGETABLEENTRIES, (i: nat) => IdentityEntry(i, n))
  }

  /** The tables at pages k..k+4 with the first `n` leaf entries filled in. */
  ghost predicate Tables(m: Mem, k: nat, n: nat) {
    && k + 5 <= NPAGES && n <= 512
    && m[k] == Upper((k + 1) * PAGESIZE + PWU, 0)
    && m[k + 1] == Upper((k + 2) * PAGESIZE + PWU, 0)
    && m[k + 2] == Upper((k + 3) * PAGESIZE + PWU, (k + 4) * PAGESIZE + PWU)
    && m[k + 3] == Identity(n)
    && m[k + 4] == Identity(0)
  }

  /** The state of the kernel's page tables once it runs. */
  ghost predicate KernelTables(m: Mem, k: nat) {
    Tables(m, k, 512)
  }

  ghost function KernelPlaces(k: nat): map<nat, Place> {
    map[k := Place(0, 0, 0), k + 1 := Place(1, k, 0), k + 2 := Place(2, k + 1, 0),
        k + 3 := Place(3, k + 2, 0), k + 4 := Place(3, k + 2, 1)]
  }

  /** Which slots of the upper tables are in use. */
  lemma TableEntry(m: Mem, k: nat, n: nat, p: nat, i: nat)
    requires Tables(m, k, n) && k <= p < k + 3 && i < NPAGETABLEENTRIES && P(m[p][i])
    ensures i == 0 || (i == 1 && p == k + 2)
    ensures Pn(m[p][i]) == p + 1 + i
  {
    hide Identity, P;
    ZeroAbsent();
    EntryBits(p + 1 + i);
  }

  lemma ZeroAbsent()
    ensures !P(0)
  {
  }

  lemma TablesTree(m: Mem, k: nat, n: nat)
    requires Tables(m, k, n)
    ensures Tree(m, k, KernelPlaces(k))
  {
    hide Upper, Identity, P, Pn, Tables;
    assert k + 5 <= NPAGES by { TablesBelow(m, k, n); }
    var lv := KernelPlaces(k);
    forall p, i | p in lv && lv[p].level < 3 && 0 <= i < NPAGETABLEENTRIES && P(m[p][i])
      ensures Pn(m[p][i]) in lv && lv[Pn(m[p][i])] == Place(lv[p].level + 1, p, i)
    {
      TableEntry(m, k, n, p, i);
    }
  }

  lemma TablesBelow(m: Mem, k: nat, n: nat)
    requires Tables(m, k, n)
    ensures k + 5 <= NPAGES
  {
  }

  lemma LowIndices(va: nat)
    requires va < MEMSIZE_PHYSICAL
    ensures Index(va, 0) == 0 && Index(va, 1) == 0 && Index(va, 2) == 0 && Index(va, 3) == va / PAGESIZE
  {
    assert va / 0x80_0000_0000 == 0 && va / 0x4000_0000 == 0 && va / 0x20_0000 == 0;
    assert va / 0x1000 < 512;
  }

  /** Every address of physical memory reaches the first leaf table with full permissions. */
  lemma TablesPath(m: Mem, k: nat, n: nat, va: nat)
    requires Tables(m, k, n) && va < MEMSIZE_PHYSICAL
    ensures Path(m, k, va, 3) == Some(Node(k + 3, true, true))
  {
    LowIndices(va);
    EntryBits(k + 1);
    EntryBits(k + 2);
    EntryBits(k + 3);
    assert Path(m, k, va, 0) == Some(Node(k, true, true));
    assert m[k][0] == (k + 1) * PAGESIZE + PWU;
    assert Path(m, k, va, 1) == Some(Node(k + 1, true, true));
    assert m[k + 1][0] == (k + 2) * PAGESIZE + PWU;
    assert Path(m, k, va, 2) == Some(Node(k + 2, true, true));
    assert m[k + 2][0] == (k + 3) * PAGESIZE + PWU;
  }

  /** All of physical memory is identity mapped, present, writable and user-accessible. */
  lemma IdentityMapped(m: Mem, k: nat, va: nat)
    requires KernelTables(m, k) && va < MEMSIZE_PHYSICAL
    ensures Lookup(m, k, va) == Mapped(va / PAGESIZE, va, true, true)
  {
    TablesPath(m, k, 512, va);
    LowIndices(va);
    EntryBits(va / PAGESIZE);
  }

  /** The second leaf table stays empty: the 2MB behind physical memory are unmapped. */
  lemma UpperUnmapped(m: Mem, k: nat, va: nat)
    requires KernelTables(m, k) && MEMSIZE_PHYSICAL <= va < 2 * MEMSIZE_PHYSICAL
    ensures Lookup(m, k, va) == Unmapped
  {
    assert va / 0x80_0000_0000 == 0 && va / 0x4000_0000 == 0 && va / 0x20_0000 == 1;
    assert Index(va, 0) == 0 && Index(va, 1) == 0 && Index(va, 2) == 1;
    EntryBits(k + 1);
    EntryBits(k + 2);
    EntryBits(k + 4);
    assert Path(m, k, va, 0) == Some(Node(k, true, true));
    assert m[k][0] == (k + 1) * PAGESIZE + PWU;
    assert Path(m, k, va, 1) == Some(Node(k + 1, true, true));
    assert m[k + 1][0] == (k + 2) * PAGESIZE + PWU;
    assert Path(m, k, va, 2) == Some(Node(k + 2, true, true));
    assert m[k + 2][1] == (k + 4) * PAGESIZE + PWU;
    assert Path(m, k, va, 3) == Some(Node(k + 4, true, true));
    assert m[k + 4][Index(va, 3)] == IdentityEntry(Index(va, 3), 0) == 0;
  }

  /** Mapping a page of physical memory to itself changes nothing once the tables are set up. */
  lemma IdentityMapIsNoop(m: Mem, supply: seq<nat>, k: nat, va: nat)
    requires KernelTables(m, k) && va < MEMSIZE_PHYSICAL && va % PAGESIZE == 0
    ensures CodeMap(m, supply, k, va, va, 1, PWU) == Ran(m, supply, Done)
  {
    TablesTree(m, k, 512);
    TablesPath(m, k, 512, va);
    LowIndices(va);
    assert m[k + 3][va / PAGESIZE] == IdentityEntry(va / PAGESIZE, 512);
    hide Path, Tree;
    SettledPresent(m, k, KernelPlaces(k), va, va, PWU);
    hide Tables;
    assert AllSettled(m, k, va + PAGESIZE, va + PAGESIZE, 0, PWU);
    SettledMapsToItself(m, supply, k, va, va, 1, PWU);
    LowRangesAreNotStarved(m, supply, k, va, va, 1, PWU);
  }

  // ----- building the tables

  /** The memset and the four entries written before the mapping call. */
  function EmptyTables(m: Mem, k: nat): Mem
    requires k + 5 <= NPAGES
  {
    m[k := Upper((k + 1) * PAGESIZE + PWU, 0)]
     [k + 1 := Upper((k + 2) * PAGESIZE + PWU, 0)]
     [k + 2 := Upper((k + 3) * PAGESIZE + PWU, (k + 4) * PAGESIZE + PWU)]
     [k + 3 := Identity(0)][k + 4 := Identity(0)]
  }

  /** virtual_memory_init as a function of the memory it starts from. */
  function InitTables(m: Mem, k: nat): Ran
    requires k + 5 <= NPAGES
  {
    CodeMap(EmptyTables(m, k), [], k, 0, 0, NPAGES, PWU)
  }

  lemma {:induction false} FillTables(m: Mem, k: nat, j: nat)
    requires Tables(m, k, j) && j <= NPAGES && k + 5 <= NPAGES
    ensures var ran := MapAll(m, [], k, j * PAGESIZE, j * PAGESIZE, NPAGES - j, PWU);
            && ran.out == Done && ran.supply == [] && KernelTables(ran.mem, k)
            && forall p :: 0 <= p < NPAGES && !(k <= p < k + 5) ==> ran.mem[p] == m[p]
    decreases NPAGES - j
  {
    hide Tables, MapPage, MapAll, Completed;
    if j < NPAGES {
      var va := j * PAGESIZE;
      FillStep(m, k, j);
      Unfold(m, [], k, va, va, NPAGES - j, PWU);
      assert va + PAGESIZE == (j + 1) * PAGESIZE;
      FillTables(Set(m, k + 3, j, va + PWU), k, j + 1);
    } else {
      Unfold(m, [], k, j * PAGESIZE, j * PAGESIZE, 0, PWU);
    }
  }

  lemma PathStart(m: Mem, r: nat, va: nat)
    ensures Path(m, r, va, 0) == Some(Node(r, true, true))
  {
  }

  lemma FillStep(m: Mem, k: nat, j: nat)
    requires Tables(m, k, j) && j < NPAGES
    ensures var m1 := Set(m, k + 3, j, j * PAGESIZE + PWU);
            Tables(m1, k, j + 1) && MapPage(m, [], k, j * PAGESIZE, j * PAGESIZE, PWU) == Ran(m1, [], Done)
  {
    hide Tree, Path, Walk, KernelPlaces;
    var va := j * PAGESIZE;
    TablesTree(m, k, j);
    TablesPath(m, k, j, va);
    LowIndices(va);
    PathStart(m, k, va);
    WalkResolved(m, [], k, KernelPlaces(k), 0, va, PWU);
    assert Identity(j)[j := va + PWU] == Identity(j + 1);
  }

  /** Whatever memory held at boot, virtual_memory_init succeeds without an allocator, builds
      the identity map, and touches only the five kernel tables. */
  lemma InitTablesCorrect(m: Mem, k: nat)
    requires k + 5 <= NPAGES
    ensures InitTables(m, k).out == Done && KernelTables(InitTables(m, k).mem, k)
    ensures forall p :: 0 <= p < NPAGES && !(k <= p < k + 5) ==> InitTables(m, k).mem[p] == m[p]
  {
    hide MapAll, Tables;
    EmptyTablesShape(m, k);
    hide EmptyTables;
    FillTables(EmptyTables(m, k), k, 0);
    LowRangesAreNotStarved(EmptyTables(m, k), [], k, 0, 0, NPAGES, PWU);
  }

  lemma EmptyTablesShape(m: Mem, k: nat)
    requires k + 5 <= NPAGES
    ensures Tables(EmptyTables(m, k), k, 0)
    ensures forall p :: 0 <= p < NPAGES && !(k <= p < k + 5) ==> EmptyTables(m, k)[p] == m[p]
  {
  }
}
