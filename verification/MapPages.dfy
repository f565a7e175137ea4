/**
  Mapping a range of pages: what the documentation of virtual_memory_map promises,
  stated page by page, and the exact effect on every translation.
 */
module MapPages {
  import opened Util
  import opened PageTable

  datatype Result = Done | Failed | Panicked
  datatype Ran = Ran(mem: Mem, supply: seq<nat>, out: Result)

  function LeafEntry(pa: nat, perm: nat): nat {
    if P(perm) then pa + perm else perm
  }

  /** One page, with a fresh walk. */
  function MapPage(m: Mem, supply: seq<nat>, r: nat, va: nat, pa: nat, perm: nat): Ran
    requires r < NPAGES
  {
    var w := Walk(m, supply, r, 0, va, perm);
    match w.out
    case Panic => Ran(w.mem, w.supply, Panicked)
    case Null => Ran(w.mem, w.supply, if P(perm) then Failed else Done)
    case Table(q) =>
      if q >= NPAGES then Ran(w.mem, w.supply, Panicked)
      else Ran(Set(w.mem, q, Index(va, 3), LeafEntry(pa, perm)), w.supply, Done)
  }

  /** `n` pages, each with its own walk, stopping at the first that is not done. */
  function MapAll(m: Mem, supply: seq<nat>, r: nat, va: nat, pa: nat, n: nat, perm: nat): Ran
    requires r < NPAGES
    decreases n
  {
    if n == 0 then Ran(m, supply, Done)
    else
      var one := MapPage(m, supply, r, va, pa, perm);
      if one.out != Done then one
      else MapAll(one.mem, one.supply, r, va + PAGESIZE, pa + PAGESIZE, n - 1, perm)
  }

  /** How many pages were finished. */
  function Completed(m: Mem, supply: seq<nat>, r: nat, va: nat, pa: nat, n: nat, perm: nat): (k: nat)
    requires r < NPAGES
    ensures k <= n && (k == n <==> MapAll(m, supply, r, va, pa, n, perm).out == Done)
    decreases n
  {
    if n == 0 then 0
    else
      var one := MapPage(m, supply, r, va, pa, perm);
      if one.out != Done then 0
      else 1 + Completed(one.mem, one.supply, r, va + PAGESIZE, pa + PAGESIZE, n - 1, perm)
  }

  lemma Unfold(m: Mem, supply: seq<nat>, r: nat, va: nat, pa: nat, n: nat, perm: nat)
    requires r < NPAGES
    ensures n == 0 ==> MapAll(m, supply, r, va, pa, n, perm) == Ran(m, supply, Done)
    ensures n == 0 ==> Completed(m, supply, r, va, pa, n, perm) == 0
    ensures n > 0 && MapPage(m, supply, r, va, pa, perm).out != Done ==>
              && MapAll(m, supply, r, va, pa, n, perm) == MapPage(m, supply, r, va, pa, perm)
              && Completed(m, supply, r, va, pa, n, perm) == 0
    ensures n > 0 && MapPage(m, supply, r, va, pa, perm).out == Done ==>
              && MapAll(m, supply, r, va, pa, n, perm) == Rest(m, supply, r, va, pa, n, perm)
              && Completed(m, supply, r, va, pa, n, perm) == 1 + RestCompleted(m, supply, r, va, pa, n, perm)
  {
  }

  /** What is left to do after the first page. */
  function Rest(m: Mem, supply: seq<nat>, r: nat, va: nat, pa: nat, n: nat, perm: nat): Ran
    requires r < NPAGES && n > 0
  {
    MapAll(MapPage(m, supply, r, va, pa, perm).mem, MapPage(m, supply, r, va, pa, perm).supply, r,
           va + PAGESIZE, pa + PAGESIZE, n - 1, perm)
  }

  function RestCompleted(m: Mem, supply: seq<nat>, r: nat, va: nat, pa: nat, n: nat, perm: nat): nat
    requires r < NPAGES && n > 0
  {
    Completed(MapPage(m, supply, r, va, pa, perm).mem, MapPage(m, supply, r, va, pa, perm).supply, r,
              va + PAGESIZE, pa + PAGESIZE, n - 1, perm)
  }

  /** Arguments that pass the assertions on `pa` and `perm`. */
  predicate GoodTarget(pa: nat, n: nat, perm: nat) {
    && perm < PAGESIZE
    && (P(perm) ==> pa % PAGESIZE == 0 && pa + n * PAGESIZE <= MEMSIZE_PHYSICAL)
  }

  lemma GoodTargetNext(pa: nat, n: nat, perm: nat)
    requires GoodTarget(pa, n, perm) && n > 0
    ensures GoodTarget(pa, 1, perm) && GoodTarget(pa + PAGESIZE, n - 1, perm)
    ensures P(perm) ==> n <= NPAGES
  {
  }

  /** How many pages `wa` lies above `va`, in the 2^36 pages a walk distinguishes. */
  function Offset(wa: nat, va: nat): (o: nat)
    ensures o < VPNS && (o == 0 <==> Vpn(wa) == Vpn(va))
  {
    OffsetZero(wa / PAGESIZE, va / PAGESIZE);
    (wa / PAGESIZE - va / PAGESIZE) % VPNS
  }

  lemma OffsetZero(a: int, b: int)
    ensures (a - b) % VPNS == 0 <==> a % VPNS == b % VPNS
  {
    assert a == a / VPNS * VPNS + a % VPNS && b == b / VPNS * VPNS + b % VPNS;
  }

  lemma OffsetNext(wa: nat, va: nat)
    ensures Offset(wa, va + PAGESIZE) == if Offset(wa, va) == 0 then VPNS - 1 else Offset(wa, va) - 1
  {
    assert (va + PAGESIZE) / PAGESIZE == va / PAGESIZE + 1;
  }

  /** The translation that mapping at `va` to `pa` asks for at `wa`. */
  function Wanted(wa: nat, va: nat, pa: nat, perm: nat): Option<Node> {
    if P(perm) then Some(Node(pa / PAGESIZE + Offset(wa, va), W(perm), U(perm))) else None
  }

  lemma {:induction false} PathVpn(m: Mem, r: nat, va: nat, wa: nat, k: nat)
    requires k <= 4 && Vpn(va) == Vpn(wa)
    ensures Path(m, r, va, k) == Path(m, r, wa, k)
  {
    hide P, W, U, Pn, Index, Vpn;
    if k > 0 {
      IndicesDetermineVpn(va, wa);
      PathVpn(m, r, va, wa, k - 1);
    }
  }

  lemma LeafEntryBits(pa: nat, perm: nat)
    requires GoodTarget(pa, 1, perm)
    ensures P(LeafEntry(pa, perm)) == P(perm)
    ensures P(perm) ==> Pn(LeafEntry(pa, perm)) == pa / PAGESIZE
                        && W(LeafEntry(pa, perm)) == W(perm) && U(LeafEntry(pa, perm)) == U(perm)
  {
    if P(perm) {
      var q := pa / PAGESIZE;
      assert pa + perm == q * PAGESIZE + perm;
      assert (pa + perm) / 2 == q * 2048 + perm / 2;
      assert (pa + perm) / 4 == q * 1024 + perm / 4;
    }
  }

  /** Only `va`'s page may have a new translation, and has it when `done`. */
  ghost predicate PageRetargeted(m: Mem, m': Mem, r: nat, va: nat, pa: nat, perm: nat, done: bool) {
    forall wa ::
      Path(m', r, wa, 4) == if Vpn(wa) == Vpn(va) && done then Wanted(va, va, pa, perm) else Path(m, r, wa, 4)
  }

  /** One page: the tree survives, `va` gets its translation, nothing else moves. */
  lemma MapPageEffect(m: Mem, supply: seq<nat>, r: nat, lv: map<nat, Place>, va: nat, pa: nat, perm: nat)
    returns (lv': map<nat, Place>)
    requires Tree(m, r, lv) && Fresh(supply, lv) && GoodTarget(pa, 1, perm)
    ensures var one := MapPage(m, supply, r, va, pa, perm);
            && Tree(one.mem, r, lv') && Fresh(one.supply, lv')
            && PageRetargeted(m, one.mem, r, va, pa, perm, one.out == Done)
  {
    lv' := WalkEffect(m, supply, r, lv, 0, va, perm);
    var w := Walk(m, supply, r, 0, va, perm);
    if w.out.Table? {
      LeafWriteTree(w.mem, r, lv', w.out.pn, Index(va, 3), LeafEntry(pa, perm));
      LeafWriteRetargets(w.mem, r, lv', va, pa, perm);
    } else if w.out.Null? && !P(perm) {
      NullMeansUnmapped(m, supply, r, lv, 0, va, perm);
      forall wa | Vpn(wa) == Vpn(va)
        ensures Path(m, r, wa, 4) == None
      {
        PathVpn(m, r, va, wa, 4);
      }
    }
  }

  lemma LeafWriteRetargets(m: Mem, r: nat, lv: map<nat, Place>, va: nat, pa: nat, perm: nat)
    requires Tree(m, r, lv) && GoodTarget(pa, 1, perm)
    requires Path(m, r, va, 3).Some? && Suits(Path(m, r, va, 3).value, perm) && Path(m, r, va, 3).value.pn < NPAGES
    ensures PageRetargeted(m, Set(m, Path(m, r, va, 3).value.pn, Index(va, 3), LeafEntry(pa, perm)), r, va, pa, perm,
                           true)
  {
    hide Tree;
    var q, e := Path(m, r, va, 3).value.pn, LeafEntry(pa, perm);
    var m' := Set(m, q, Index(va, 3), e);
    PathLevel(m, r, lv, va, 3);
    LeafWritePath(m, r, lv, q, Index(va, 3), e, va, 3);
    LeafEntryBits(pa, perm);
    forall wa
      ensures Path(m', r, wa, 4) == if Vpn(wa) == Vpn(va) then Wanted(va, va, pa, perm) else Path(m, r, wa, 4)
    {
      if Vpn(wa) == Vpn(va) {
        PathVpn(m', r, va, wa, 4);
      } else {
        LeafWriteOthers(m, r, lv, va, e, wa);
      }
    }
  }

  lemma {:induction false} NullMeansUnmapped(m: Mem, supply: seq<nat>, r: nat, lv: map<nat, Place>, i: nat, va: nat,
        perm: nat)
    requires Tree(m, r, lv) && i <= 3 && !P(perm)
    requires Path(m, r, va, i).Some? && Path(m, r, va, i).value.pn < NPAGES
    requires Walk(m, supply, Path(m, r, va, i).value.pn, i, va, perm).out == Null
    ensures Path(m, r, va, 4) == None
    decreases 3 - i
  {
    PathLevel(m, r, lv, va, i);
    if P(m[Path(m, r, va, i).value.pn][Index(va, i)]) {
      NullMeansUnmapped(m, supply, r, lv, i + 1, va, perm);
    } else if Path(m, r, va, 4).Some? {
      PathPrefix(m, r, va, i + 1, 4);
    }
  }

  /** The first `k` pages from `va` have their wanted translation in `m'`; every other page translates as in `m`. */
  ghost predicate Retargeted(m: Mem, m': Mem, r: nat, va: nat, pa: nat, k: nat, perm: nat) {
    forall wa :: Path(m', r, wa, 4) == if Offset(wa, va) < k then Wanted(wa, va, pa, perm) else Path(m, r, wa, 4)
  }

  /** The range theorem: exactly the first Completed pages change, each to its wanted
      translation, whatever the outcome, and the tables are still a tree. */
  lemma {:induction false} MapAllEffect(m: Mem, supply: seq<nat>, r: nat, lv: map<nat, Place>, va: nat, pa: nat,
        n: nat, perm: nat)
    returns (lv': map<nat, Place>)
    requires Tree(m, r, lv) && Fresh(supply, lv) && GoodTarget(pa, n, perm) && r < NPAGES
    ensures Tree(MapAll(m, supply, r, va, pa, n, perm).mem, r, lv')
    ensures Fresh(MapAll(m, supply, r, va, pa, n, perm).supply, lv')
    ensures Retargeted(m, MapAll(m, supply, r, va, pa, n, perm).mem, r, va, pa,
                       Completed(m, supply, r, va, pa, n, perm), perm)
    decreases n
  {
    hide Tree, Fresh, MapAll, Completed, MapPage, GoodTarget, Retargeted, PageRetargeted;
    Unfold(m, supply, r, va, pa, n, perm);
    RetargetedNone(m, r, va, pa, perm);
    if n > 0 { GoodTargetNext(pa, n, perm); }
    if n == 0 {
      lv' := lv;
    } else {
      var one := MapPage(m, supply, r, va, pa, perm);
      lv' := MapPageEffect(m, supply, r, lv, va, pa, perm);
      if one.out == Done {
        lv' := MapAllEffect(one.mem, one.supply, r, lv', va + PAGESIZE, pa + PAGESIZE, n - 1, perm);
        RangeJoin(m, one.mem, MapAll(m, supply, r, va, pa, n, perm).mem, r, va, pa, n, perm,
                  Completed(m, supply, r, va, pa, n, perm));
      } else {
        RetargetedSame(m, one.mem, r, va, pa, perm);
      }
    }
  }

  lemma RetargetedNone(m: Mem, r: nat, va: nat, pa: nat, perm: nat)
    ensures Retargeted(m, m, r, va, pa, 0, perm)
  {
  }

  lemma RetargetedSame(m: Mem, m': Mem, r: nat, va: nat, pa: nat, perm: nat)
    requires PageRetargeted(m, m', r, va, pa, perm, false)
    ensures Retargeted(m, m', r, va, pa, 0, perm)
  {
  }

  /** The first page and the rest, read together. */
  lemma RangeJoin(m: Mem, m1: Mem, m2: Mem, r: nat, va: nat, pa: nat, n: nat, perm: nat, done: nat)
    requires GoodTarget(pa, n, perm) && 1 <= done <= n
    requires PageRetargeted(m, m1, r, va, pa, perm, true)
    requires Retargeted(m1, m2, r, va + PAGESIZE, pa + PAGESIZE, done - 1, perm)
    ensures Retargeted(m, m2, r, va, pa, done, perm)
  {
    forall wa
      ensures Path(m2, r, wa, 4) == if Offset(wa, va) < done then Wanted(wa, va, pa, perm) else Path(m, r, wa, 4)
    {
      RangeStep(wa, va, pa, n, perm, done);
    }
  }

  lemma RangeStep(wa: nat, va: nat, pa: nat, n: nat, perm: nat, done: nat)
    requires GoodTarget(pa, n, perm) && 1 <= done <= n
    ensures Offset(wa, va + PAGESIZE) < done - 1 ==>
              Wanted(wa, va + PAGESIZE, pa + PAGESIZE, perm) == Wanted(wa, va, pa, perm)
    ensures Offset(wa, va) < done <==> Offset(wa, va) == 0 || Offset(wa, va + PAGESIZE) < done - 1
    ensures Offset(wa, va) == 0 ==> Wanted(va, va, pa, perm) == Wanted(wa, va, pa, perm)
  {
    OffsetNext(wa, va);
    assert (pa + PAGESIZE) / PAGESIZE == pa / PAGESIZE + 1;
    if P(perm) {
      assert n * PAGESIZE <= MEMSIZE_PHYSICAL;
    }
  }

  // ----- the documented promise, address by address

  lemma OffsetWithin(va: nat, x: nat, n: nat)
    requires va % PAGESIZE == 0 && x < n * PAGESIZE && n <= VPNS
    ensures Offset(va + x, va) == x / PAGESIZE && (va + x) % PAGESIZE == x % PAGESIZE
  {
    assert (va + x) / PAGESIZE == va / PAGESIZE + x / PAGESIZE;
  }

  /** Below 2^48 the pages at offsets under `n` are exactly the addresses of the range. */
  lemma OffsetOutside(va: nat, wa: nat, n: nat)
    requires va % PAGESIZE == 0 && va + n * PAGESIZE <= 0x1_0000_0000_0000 && wa < 0x1_0000_0000_0000 && n > 0
    ensures Offset(wa, va) < n <==> va <= wa < va + n * PAGESIZE
  {
    var d := wa / PAGESIZE - va / PAGESIZE;
    assert -VPNS < d < VPNS;
    assert Offset(wa, va) == if d >= 0 then d else d + VPNS;
  }

  /** virtual_memory_map on a tree: the finished prefix translates as requested with exactly
      the requested permissions, every other page as before, and the tables stay a tree.
      All of the range is finished exactly when the outcome is success. */
  lemma MapRange(m: Mem, supply: seq<nat>, r: nat, lv: map<nat, Place>, va: nat, pa: nat, n: nat, perm: nat)
    requires Tree(m, r, lv) && Fresh(supply, lv) && GoodTarget(pa, n, perm) && r < NPAGES
    requires va % PAGESIZE == 0 && n <= VPNS
    ensures var ran := MapAll(m, supply, r, va, pa, n, perm);
            var done := Completed(m, supply, r, va, pa, n, perm);
            && (ran.out == Done <==> done == n)
            && (forall wa: nat :: va <= wa < va + done * PAGESIZE ==>
                                  Lookup(ran.mem, r, wa) == WantedMapping(pa + (wa - va), perm))
            && (forall wa: nat :: Offset(wa, va) >= done ==> Lookup(ran.mem, r, wa) == Lookup(m, r, wa))
            && exists lv' :: Tree(ran.mem, r, lv') && Fresh(ran.supply, lv')
  {
    hide MapAll, Completed, Retargeted, Lookup, WantedMapping, Tree, Fresh, Offset;
    var ran := MapAll(m, supply, r, va, pa, n, perm);
    var done := Completed(m, supply, r, va, pa, n, perm);
    var lv' := MapAllEffect(m, supply, r, lv, va, pa, n, perm);
    assert P(perm) ==> pa % PAGESIZE == 0;
    RetargetedElsewhere(m, ran.mem, r, va, pa, done, perm);
    forall wa: nat | va <= wa < va + done * PAGESIZE
      ensures Lookup(ran.mem, r, wa) == WantedMapping(pa + (wa - va), perm)
    {
      RetargetedAt(m, ran.mem, r, va, pa, done, perm, wa - va);
    }
  }

  lemma RetargetedElsewhere(m: Mem, m': Mem, r: nat, va: nat, pa: nat, done: nat, perm: nat)
    requires Retargeted(m, m', r, va, pa, done, perm)
    ensures forall wa: nat :: Offset(wa, va) >= done ==> Lookup(m', r, wa) == Lookup(m, r, wa)
  {
    hide Offset, Path, Wanted;
  }

  function WantedMapping(pa: nat, perm: nat): Mapping {
    if P(perm) then Mapped(pa / PAGESIZE, pa, W(perm), U(perm)) else Unmapped
  }

  lemma RetargetedAt(m: Mem, m': Mem, r: nat, va: nat, pa: nat, done: nat, perm: nat, x: nat)
    requires Retargeted(m, m', r, va, pa, done, perm) && va % PAGESIZE == 0 && done <= VPNS && x < done * PAGESIZE
    requires P(perm) ==> pa % PAGESIZE == 0
    ensures Lookup(m', r, va + x) == WantedMapping(pa + x, perm)
  {
    OffsetWithin(va, x, done);
    assert Path(m', r, va + x, 4) == Wanted(va + x, va, pa, perm);
    hide Retargeted;
    if P(perm) { AddressSplit(pa, x); }
  }

  lemma AddressSplit(pa: nat, x: nat)
    requires pa % PAGESIZE == 0
    ensures (pa + x) / PAGESIZE == pa / PAGESIZE + x / PAGESIZE
    ensures (pa / PAGESIZE + x / PAGESIZE) * PAGESIZE + x % PAGESIZE == pa + x
  {
  }

  // ----- mapping again changes nothing

  /** Mapping this page now would change no memory and ask for no table. */
  ghost predicate Settled(m: Mem, r: nat, va: nat, pa: nat, perm: nat)
    requires r < NPAGES
  {
    forall supply :: MapPage(m, supply, r, va, pa, perm) == Ran(m, supply, Done)
  }

  lemma SettledPresent(m: Mem, r: nat, lv: map<nat, Place>, va: nat, pa: nat, perm: nat)
    requires Tree(m, r, lv) && r < NPAGES
    requires Path(m, r, va, 3).Some? && Suits(Path(m, r, va, 3).value, perm) && Path(m, r, va, 3).value.pn < NPAGES
    requires m[Path(m, r, va, 3).value.pn][Index(va, 3)] == LeafEntry(pa, perm)
    ensures Settled(m, r, va, pa, perm)
  {
    var q := Path(m, r, va, 3).value.pn;
    forall supply
      ensures MapPage(m, supply, r, va, pa, perm) == Ran(m, supply, Done)
    {
      WalkResolved(m, supply, r, lv, 0, va, perm);
      assert WithEntry(m[q], Index(va, 3), m[q][Index(va, 3)]) == m[q];
    }
  }

  /** A finished page is settled: the leaf case and, for unmapping, the missing-table case. */
  lemma DoneSettles(m: Mem, supply: seq<nat>, r: nat, lv: map<nat, Place>, va: nat, pa: nat, perm: nat)
    requires Tree(m, r, lv) && Fresh(supply, lv) && GoodTarget(pa, 1, perm) && r < NPAGES
    requires MapPage(m, supply, r, va, pa, perm).out == Done
    ensures Settled(MapPage(m, supply, r, va, pa, perm).mem, r, va, pa, perm)
  {
    var lv' := WalkEffect(m, supply, r, lv, 0, va, perm);
    var w := Walk(m, supply, r, 0, va, perm);
    var one := MapPage(m, supply, r, va, pa, perm);
    if w.out.Table? {
      LeafWriteTree(w.mem, r, lv', w.out.pn, Index(va, 3), LeafEntry(pa, perm));
      LeafWritePath(w.mem, r, lv', w.out.pn, Index(va, 3), LeafEntry(pa, perm), va, 3);
      hide Tree;
      SettledPresent(one.mem, r, lv', va, pa, perm);
    } else {
      forall s
        ensures MapPage(m, s, r, va, pa, perm) == Ran(m, s, Done)
      {
        WalkNoSupply(m, supply, s, r, 0, va, perm);
      }
    }
  }

  /** Without PTE_P the walk never consults the allocator. */
  lemma WalkNoSupply(m: Mem, s: seq<nat>, t: seq<nat>, pt: nat, i: nat, va: nat, perm: nat)
    requires pt < NPAGES && i <= 3 && !P(perm)
    ensures Walk(m, s, pt, i, va, perm).out == Walk(m, t, pt, i, va, perm).out
    ensures Walk(m, t, pt, i, va, perm).mem == m && Walk(m, t, pt, i, va, perm).supply == t
    decreases 3 - i
  {
  }

  lemma {:induction false} WalkLeafWrite(m: Mem, s: seq<nat>, r: nat, lv: map<nat, Place>, q: nat, j: nat, e: nat,
        i: nat, va: nat, perm: nat)
    requires Tree(m, r, lv) && q in lv && lv[q].level == 3 && j < NPAGETABLEENTRIES && !P(perm) && i <= 3
    requires Path(m, r, va, i).Some? && Path(m, r, va, i).value.pn < NPAGES
    ensures Walk(Set(m, q, j, e), s, Path(m, r, va, i).value.pn, i, va, perm).out
         == Walk(m, s, Path(m, r, va, i).value.pn, i, va, perm).out
    decreases 3 - i
  {
    PathLevel(m, r, lv, va, i);
    if i < 3 && P(m[Path(m, r, va, i).value.pn][Index(va, i)])
    && EntryAllows(m[Path(m, r, va, i).value.pn][Index(va, i)], perm) {
      WalkLeafWrite(m, s, r, lv, q, j, e, i + 1, va, perm);
    }
  }

  /** How a settled page looks: its leaf entry is in place, or (unmapping only) its path is broken. */
  lemma SettledShape(m: Mem, r: nat, va: nat, pa: nat, perm: nat)
    requires r < NPAGES && Settled(m, r, va, pa, perm)
    ensures var w := Walk(m, [], r, 0, va, perm);
            && w.mem == m
            && (w.out.Table? ==> w.out.pn < NPAGES && m[w.out.pn][Index(va, 3)] == LeafEntry(pa, perm))
            && (w.out.Table? || (w.out.Null? && !P(perm)))
  {
    var w := Walk(m, [], r, 0, va, perm);
    assert MapPage(m, [], r, va, pa, perm) == Ran(m, [], Done);
    WalkEmptyKeeps(m, r, 0, va, perm);
    if w.out.Table? {
      assert Set(m, w.out.pn, Index(va, 3), LeafEntry(pa, perm))[w.out.pn][Index(va, 3)] == LeafEntry(pa, perm);
    }
  }

  lemma WalkEmptyKeeps(m: Mem, pt: nat, i: nat, va: nat, perm: nat)
    requires pt < NPAGES && i <= 3
    ensures Walk(m, [], pt, i, va, perm).mem == m
    decreases 3 - i
  {
  }

  /** Mapping one page leaves a settled other page settled. */
  lemma SettledKept(m: Mem, supply: seq<nat>, r: nat, lv: map<nat, Place>, va: nat, pa: nat, ua: nat, qa: nat,
        perm: nat)
    requires Tree(m, r, lv) && Fresh(supply, lv) && GoodTarget(pa, 1, perm) && r < NPAGES
    requires Settled(m, r, ua, qa, perm) && (Vpn(ua) != Vpn(va) || !P(perm))
    ensures Settled(MapPage(m, supply, r, va, pa, perm).mem, r, ua, qa, perm)
  {
    SettledShape(m, r, ua, qa, perm);
    if Walk(m, [], r, 0, ua, perm).out.Table? {
      SettledKeptLeaf(m, supply, r, lv, va, pa, ua, qa, perm);
    } else {
      SettledKeptBroken(m, supply, r, lv, va, pa, ua, qa, perm);
    }
  }

  lemma SettledKeptLeaf(m: Mem, supply: seq<nat>, r: nat, lv: map<nat, Place>, va: nat, pa: nat, ua: nat, qa: nat,
        perm: nat)
    requires Tree(m, r, lv) && Fresh(supply, lv) && GoodTarget(pa, 1, perm) && r < NPAGES
    requires Vpn(ua) != Vpn(va) || !P(perm)
    requires var u := Walk(m, [], r, 0, ua, perm);
             u.mem == m && u.out.Table? && u.out.pn < NPAGES && m[u.out.pn][Index(ua, 3)] == LeafEntry(qa, perm)
    ensures Settled(MapPage(m, supply, r, va, pa, perm).mem, r, ua, qa, perm)
  {
    hide Tree, Walk, Settled, Set;
    var q := Walk(m, [], r, 0, ua, perm).out.pn;
    var lvu := WalkEffect(m, [], r, lv, 0, ua, perm);
    PathLevel(m, r, lv, ua, 3);
    var lv' := WalkEffect(m, supply, r, lv, 0, va, perm);
    var w := Walk(m, supply, r, 0, va, perm);
    assert w.mem[q] == m[q] && Path(w.mem, r, ua, 3) == Path(m, r, ua, 3);
    LevelsBound(w.mem, r, lv');
    if w.out.Table? {
      if Vpn(ua) != Vpn(va) { SlotsDiffer(w.mem, r, lv', va, ua); }
      SettledAfterLeafWrite(w.mem, r, lv', w.out.pn, Index(va, 3), LeafEntry(pa, perm), ua, qa, perm);
    } else {
      SettledPresent(w.mem, r, lv', ua, qa, perm);
    }
  }

  lemma SettledAfterLeafWrite(m: Mem, r: nat, lv: map<nat, Place>, q: nat, j: nat, e: nat, ua: nat, qa: nat, perm: nat)
    requires Tree(m, r, lv) && r < NPAGES && q in lv && q < NPAGES && lv[q].level == 3 && j < NPAGETABLEENTRIES
    requires Path(m, r, ua, 3).Some? && Suits(Path(m, r, ua, 3).value, perm) && Path(m, r, ua, 3).value.pn < NPAGES
    requires m[Path(m, r, ua, 3).value.pn][Index(ua, 3)] == LeafEntry(qa, perm)
    requires Path(m, r, ua, 3).value.pn != q || Index(ua, 3) != j || e == LeafEntry(qa, perm)
    ensures Settled(Set(m, q, j, e), r, ua, qa, perm)
  {
    hide Tree, Settled;
    LeafWriteTree(m, r, lv, q, j, e);
    LeafWritePath(m, r, lv, q, j, e, ua, 3);
    SettledPresent(Set(m, q, j, e), r, lv, ua, qa, perm);
  }

  lemma SettledKeptBroken(m: Mem, supply: seq<nat>, r: nat, lv: map<nat, Place>, va: nat, pa: nat, ua: nat, qa: nat,
        perm: nat)
    requires Tree(m, r, lv) && Fresh(supply, lv) && r < NPAGES && !P(perm)
    requires Walk(m, [], r, 0, ua, perm).out == Null
    ensures Settled(MapPage(m, supply, r, va, pa, perm).mem, r, ua, qa, perm)
  {
    var lv' := WalkEffect(m, supply, r, lv, 0, va, perm);
    var w := Walk(m, supply, r, 0, va, perm);
    var m' := MapPage(m, supply, r, va, pa, perm).mem;
    hide Grown, LeavesKept, Fresh;
    assert Path(m, r, ua, 0) == Some(Node(r, true, true));
    forall s
      ensures MapPage(m', s, r, ua, qa, perm) == Ran(m', s, Done)
    {
      if w.out.Table? {
        WalkLeafWrite(m, s, r, lv', w.out.pn, Index(va, 3), LeafEntry(pa, perm), 0, ua, perm);
      }
      hide Tree;
      WalkNoSupply(m, [], s, r, 0, ua, perm);
      WalkNoSupply(m', s, s, r, 0, ua, perm);
    }
  }

  lemma SlotsDiffer(m: Mem, r: nat, lv: map<nat, Place>, va: nat, ua: nat)
    requires Tree(m, r, lv) && Path(m, r, va, 3).Some? && Path(m, r, ua, 3).Some? && Vpn(va) != Vpn(ua)
    ensures Path(m, r, va, 3).value.pn != Path(m, r, ua, 3).value.pn || Index(va, 3) != Index(ua, 3)
  {
    if Path(m, r, va, 3).value.pn == Path(m, r, ua, 3).value.pn {
      PathInjective(m, r, lv, va, ua, 3);
      hide Tree;
      assert Index(va, 0) == Index(ua, 0) && Index(va, 1) == Index(ua, 1) && Index(va, 2) == Index(ua, 2);
      IndicesDetermineVpn(va, ua);
    }
  }

  ghost predicate AllSettled(m: Mem, r: nat, va: nat, pa: nat, n: nat, perm: nat)
    requires r < NPAGES
    decreases n
  {
    n == 0 || (Settled(m, r, va, pa, perm) && AllSettled(m, r, va + PAGESIZE, pa + PAGESIZE, n - 1, perm))
  }

  lemma {:induction false} SettledKeptAll(m: Mem, supply: seq<nat>, r: nat, lv: map<nat, Place>, va: nat, pa: nat,
        n: nat, ua: nat, qa: nat, perm: nat)
    requires Tree(m, r, lv) && Fresh(supply, lv) && GoodTarget(pa, n, perm) && r < NPAGES
    requires Settled(m, r, ua, qa, perm)
    requires P(perm) ==> Offset(ua, va) >= n
    ensures Settled(MapAll(m, supply, r, va, pa, n, perm).mem, r, ua, qa, perm)
    decreases n
  {
    hide Tree, Fresh, MapAll, Completed, MapPage, GoodTarget, Settled, Offset;
    Unfold(m, supply, r, va, pa, n, perm);
    if n > 0 { GoodTargetNext(pa, n, perm); }
    if n > 0 {
      SettledKept(m, supply, r, lv, va, pa, ua, qa, perm);
      var lv' := MapPageEffect(m, supply, r, lv, va, pa, perm);
      OffsetNext(ua, va);
      var one := MapPage(m, supply, r, va, pa, perm);
      if one.out == Done {
        SettledKeptAll(one.mem, one.supply, r, lv', va + PAGESIZE, pa + PAGESIZE, n - 1, ua, qa, perm);
      }
    }
  }

  lemma {:induction false} DoneSettlesAll(m: Mem, supply: seq<nat>, r: nat, lv: map<nat, Place>, va: nat, pa: nat,
        n: nat, perm: nat)
    requires Tree(m, r, lv) && Fresh(supply, lv) && GoodTarget(pa, n, perm) && r < NPAGES
    requires MapAll(m, supply, r, va, pa, n, perm).out == Done
    ensures AllSettled(MapAll(m, supply, r, va, pa, n, perm).mem, r, va, pa, n, perm)
    decreases n
  {
    hide Tree, Fresh, MapAll, Completed, MapPage, GoodTarget, Settled, Offset;
    if n > 0 {
      Unfold(m, supply, r, va, pa, n, perm);
      GoodTargetNext(pa, n, perm);
      OffsetNext(va, va);
      assert Offset(va, va) == 0;
      DoneSettles(m, supply, r, lv, va, pa, perm);
      var lv' := MapPageEffect(m, supply, r, lv, va, pa, perm);
      var one := MapPage(m, supply, r, va, pa, perm);
      SettledKeptAll(one.mem, one.supply, r, lv', va + PAGESIZE, pa + PAGESIZE, n - 1, va, pa, perm);
      DoneSettlesAll(one.mem, one.supply, r, lv', va + PAGESIZE, pa + PAGESIZE, n - 1, perm);
    }
  }

  lemma {:induction false} SettledMapsToItself(m: Mem, supply: seq<nat>, r: nat, va: nat, pa: nat, n: nat, perm: nat)
    requires r < NPAGES && AllSettled(m, r, va, pa, n, perm)
    ensures MapAll(m, supply, r, va, pa, n, perm) == Ran(m, supply, Done)
    decreases n
  {
    if n > 0 {
      SettledMapsToItself(m, supply, r, va + PAGESIZE, pa + PAGESIZE, n - 1, perm);
    }
  }

  /** After a success, the same call again allocates nothing and changes no memory. */
  lemma MapTwice(m: Mem, supply: seq<nat>, again: seq<nat>, r: nat, lv: map<nat, Place>, va: nat, pa: nat, n: nat,
        perm: nat)
    requires Tree(m, r, lv) && Fresh(supply, lv) && GoodTarget(pa, n, perm) && r < NPAGES
    requires MapAll(m, supply, r, va, pa, n, perm).out == Done
    ensures var m1 := MapAll(m, supply, r, va, pa, n, perm).mem;
            MapAll(m1, again, r, va, pa, n, perm) == Ran(m1, again, Done)
  {
    DoneSettlesAll(m, supply, r, lv, va, pa, n, perm);
    SettledMapsToItself(MapAll(m, supply, r, va, pa, n, perm).mem, again, r, va, pa, n, perm);
  }
}
