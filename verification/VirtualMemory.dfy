/**
  virtual_memory_map, lookup_l4pagetable and virtual_memory_lookup as the code runs them:
  loops over table entries in memory, with the leaf table of the last 2MB region kept
  between iterations. The mapping loop is proved equal to a fresh walk for every page.
 */
module VirtualMemory {
  import opened CInts
  import opened MapPages
  import opened Util
  import opened PageTable

  /** The 2MB region number of `va`, truncated to int, is the loop's initial "no region" value -1. */
  predicate Starved(va: nat) {
    (va / 0x20_0000) % 0x1_0000_0000 == 0xFFFF_FFFF
  }

  lemma StarvedIsMinusOne(va: nat)
    ensures Starved(va) <==> ToInt32(va / 0x20_0000) == -1
  {
  }

  /** What the loop computes. A starved range keeps the NULL leaf table for the rest of its
      first region: with PTE_P it fails at once, without it those pages are skipped. */
  function CodeMap(m: Mem, supply: seq<nat>, r: nat, va: nat, pa: nat, n: nat, perm: nat): Ran
    requires r < NPAGES
  {
    if n == 0 || !Starved(va) then MapAll(m, supply, r, va, pa, n, perm)
    else if P(perm) then Ran(m, supply, Failed)
    else
      var k := Min(n, 512 - Index(va, 3));
      MapAll(m, supply, r, va + k * PAGESIZE, pa + k * PAGESIZE, n - k, perm)
  }

  /** No range below 2^53 - 2^21, in particular none below 2^48, is starved. */
  lemma LowRangesAreNotStarved(m: Mem, supply: seq<nat>, r: nat, va: nat, pa: nat, n: nat, perm: nat)
    requires r < NPAGES && va < 0x1F_FFFF_FFE0_0000
    ensures CodeMap(m, supply, r, va, pa, n, perm) == MapAll(m, supply, r, va, pa, n, perm)
  {
  }

  /** When every table exists with the needed permissions, mapping at least one page succeeds
      exactly when the range is not starved. */
  lemma SucceedsIffNotStarved(m: Mem, supply: seq<nat>, r: nat, va: nat, pa: nat, n: nat, perm: nat)
    requires r < NPAGES && n > 0 && P(perm) && MapAll(m, supply, r, va, pa, n, perm).out == Done
    ensures CodeMap(m, supply, r, va, pa, n, perm).out == Done <==> !Starved(va)
  {
  }

  /** The last 2MB below 2^53 is such a range: the documented success never happens there. */
  lemma StarvedExample(m: Mem, supply: seq<nat>, r: nat)
    requires r < NPAGES
    ensures CodeMap(m, supply, r, 0x1F_FFFF_FFE0_0000, 0, 1, 7) == Ran(m, supply, Failed)
  {
  }

  /** How many pages at the start of a starved range are skipped when unmapping. */
  function Skipped(va: nat, n: nat): nat {
    if Starved(va) then Min(n, 512 - Index(va, 3)) else 0
  }

  /** Unmapping: the whole range ends up unmapped exactly when the skipped pages, if any, were
      unmapped to begin with; they always translate as before. */
  lemma UnmapPromise(m: Mem, supply: seq<nat>, r: nat, lv: map<nat, Place>, va: nat, pa: nat, n: nat, perm: nat)
    requires Tree(m, r, lv) && Fresh(supply, lv) && GoodTarget(pa, n, perm) && r < NPAGES && !P(perm)
    requires va % PAGESIZE == 0 && n <= VPNS && CodeMap(m, supply, r, va, pa, n, perm).out == Done
    ensures var m1, k := CodeMap(m, supply, r, va, pa, n, perm).mem, Skipped(va, n);
            && k <= n
            && (forall wa: nat :: va <= wa < va + k * PAGESIZE ==> Lookup(m1, r, wa) == Lookup(m, r, wa))
            && (forall wa: nat :: va + k * PAGESIZE <= wa < va + n * PAGESIZE ==> Lookup(m1, r, wa) == Unmapped)
            && ((forall wa: nat :: va <= wa < va + n * PAGESIZE ==> Lookup(m1, r, wa) == Unmapped)
                <==> forall wa: nat :: va <= wa < va + k * PAGESIZE ==> Lookup(m, r, wa) == Unmapped)
  {
    hide Tree, Fresh, MapAll, Lookup, Offset, Index, Starved, Completed;
    var k := Skipped(va, n);
    var va1, m1 := va + k * PAGESIZE, CodeMap(m, supply, r, va, pa, n, perm).mem;
    MapRange(m, supply, r, lv, va1, pa + k * PAGESIZE, n - k, perm);
    forall wa: nat | va <= wa < va1
      ensures Lookup(m1, r, wa) == Lookup(m, r, wa)
    {
      OffsetBehind(wa, va1, k, n);
    }
  }

  /** Addresses less than `k` pages below `va` are not among the `n - k` pages from `va` on. */
  lemma OffsetBehind(wa: nat, va: nat, k: nat, n: nat)
    requires va % PAGESIZE == 0 && k <= n <= VPNS && wa < va <= wa + k * PAGESIZE
    ensures Offset(wa, va) >= n - k
  {
    var up := va / PAGESIZE - wa / PAGESIZE;
    assert 0 < up <= k;
    assert Offset(wa, va) == if up == VPNS then 0 else VPNS - up;
  }

  // ----- the kept leaf table

  /** `l4` is what a walk for `va` finds, with nothing left to allocate. */
  ghost predicate CacheOk(m: Mem, r: nat, va: nat, perm: nat, l4: Option<nat>)
    requires r < NPAGES
  {
    match l4
    case Some(q) => Path(m, r, va, 3).Some? && Path(m, r, va, 3).value.pn == q && Suits(Path(m, r, va, 3).value, perm)
    case None => !P(perm) && Walk(m, [], r, 0, va, perm).out == Null
  }

  function AsOut(l4: Option<nat>): Out {
    if l4.Some? then Table(l4.value) else Null
  }

  lemma RegionIndices(va: nat, wa: nat)
    requires va / 0x20_0000 == wa / 0x20_0000
    ensures Index(va, 0) == Index(wa, 0) && Index(va, 1) == Index(wa, 1) && Index(va, 2) == Index(wa, 2)
  {
    DivDiv(va);
    DivDiv(wa);
  }

  lemma {:induction false} RegionPath(m: Mem, r: nat, va: nat, wa: nat, k: nat)
    requires k <= 3 && va / 0x20_0000 == wa / 0x20_0000
    ensures Path(m, r, va, k) == Path(m, r, wa, k)
  {
    RegionIndices(va, wa);
    if k > 0 { RegionPath(m, r, va, wa, k - 1); }
  }

  lemma {:induction false} RegionWalk(m: Mem, s: seq<nat>, pt: nat, i: nat, va: nat, wa: nat, perm: nat)
    requires pt < NPAGES && i <= 3 && !P(perm) && va / 0x20_0000 == wa / 0x20_0000
    ensures Walk(m, s, pt, i, va, perm) == Walk(m, s, pt, i, wa, perm)
    decreases 3 - i
  {
    RegionIndices(va, wa);
    if i < 3 && P(m[pt][Index(va, i)]) && EntryAllows(m[pt][Index(va, i)], perm) {
      RegionWalk(m, s, Pn(m[pt][Index(va, i)]), i + 1, va, wa, perm);
    }
  }

  /** Within one region the kept table is what a fresh walk would return. */
  lemma CacheHit(m: Mem, s: seq<nat>, r: nat, lv: map<nat, Place>, prev: nat, va: nat, perm: nat, l4: Option<nat>)
    requires Tree(m, r, lv) && r < NPAGES && CacheOk(m, r, prev, perm, l4) && prev / 0x20_0000 == va / 0x20_0000
    ensures Walk(m, s, r, 0, va, perm) == Walked(m, s, AsOut(l4))
  {
    hide Tree;
    RegionPath(m, r, prev, va, 3);
    if l4.Some? {
      WalkResolved(m, s, r, lv, 0, va, perm);
    } else {
      WalkNoSupply(m, [], s, r, 0, va, perm);
      RegionWalk(m, [], r, 0, prev, va, perm);
    }
  }

  /** After a page is done, the table its walk returned is worth keeping. */
  lemma CacheFilled(m: Mem, s: seq<nat>, r: nat, lv: map<nat, Place>, va: nat, pa: nat, perm: nat, l4: Option<nat>)
    requires Tree(m, r, lv) && Fresh(s, lv) && r < NPAGES
    requires Walk(m, s, r, 0, va, perm).out == AsOut(l4) && (l4.None? ==> !P(perm))
    ensures CacheOk(MapPage(m, s, r, va, pa, perm).mem, r, va, perm, l4)
    ensures l4.Some? ==> l4.value < NPAGES
    ensures MapPage(m, s, r, va, pa, perm).out == Done
  {
    hide Tree, Fresh;
    var lv' := WalkEffect(m, s, r, lv, 0, va, perm);
    if l4.Some? {
      var w := Walk(m, s, r, 0, va, perm);
      LevelsBound(w.mem, r, lv');
      LeafWritePath(w.mem, r, lv', l4.value, Index(va, 3), LeafEntry(pa, perm), va, 3);
    } else {
      WalkNoSupply(m, s, [], r, 0, va, perm);
    }
  }

  // ----- skipping a starved region

  lemma StarvedSkip(m: Mem, s: seq<nat>, r: nat, va: nat, pa: nat, n: nat, perm: nat)
    requires r < NPAGES && n > 0 && va % PAGESIZE == 0 && Starved(va) && !P(perm)
    ensures CodeMap(m, s, r, va, pa, n, perm) == CodeMap(m, s, r, va + PAGESIZE, pa + PAGESIZE, n - 1, perm)
  {
    var i := Index(va, 3);
    var q := va / PAGESIZE;
    DivDiv(va);
    DivDiv(va + PAGESIZE);
    assert (va + PAGESIZE) / PAGESIZE == q + 1;
    if i == 511 {
      assert (q + 1) / 512 == q / 512 + 1;
      assert !Starved(va + PAGESIZE);
    } else {
      assert (q + 1) / 512 == q / 512 && (q + 1) % 512 == i + 1;
      assert Starved(va + PAGESIZE);
    }
  }

  lemma NextRegion(va: nat)
    requires va % PAGESIZE == 0
    ensures ToInt32(va / 0x20_0000) == ToInt32((va + PAGESIZE) / 0x20_0000) <==>
              va / 0x20_0000 == (va + PAGESIZE) / 0x20_0000
  {
    var a, b := va / 0x20_0000, (va + PAGESIZE) / 0x20_0000;
    assert b == a || b == a + 1;
  }

  // ----- the code

  /** A page allocator: a queue of addresses to hand out, 0 standing for NULL. */
  class Allocator {
    var supply: seq<nat>

    constructor (supply: seq<nat>)
      ensures this.supply == supply
    {
      this.supply := supply;
    }

    method Alloc() returns (page: nat)
      modifies this
      ensures if old(supply) == [] then page == 0 && supply == []
              else page == old(supply)[0] && supply == old(supply)[1..]
    {
      if supply == [] {
        page := 0;
      } else {
        page, supply := supply[0], supply[1..];
      }
    }
  }

  /** The addresses still to come; a NULL allocator behaves like an exhausted one. */
  function Supply(allocator: Allocator?): seq<nat>
    reads allocator
  {
    if allocator == null then [] else allocator.supply
  }

  /** The assertions on entry to virtual_memory_map. */
  predicate ArgsOk(pagetable: nat, va: nat, pa: nat, sz: nat, perm: int) {
    && va % PAGESIZE == 0 && sz % PAGESIZE == 0 && va + sz <= TWO64
    && 0 <= perm < PAGESIZE
    && (P(perm) ==> pa % PAGESIZE == 0 && pa + sz <= MEMSIZE_PHYSICAL)
    && pagetable % PAGESIZE == 0
  }

  class PhysicalMemory {
    var mem: Mem

    constructor (mem: Mem)
      ensures this.mem == mem
    {
      this.mem := mem;
    }

    method LookupL4PageTable(root: nat, va: nat, perm: nat, allocator: Allocator?) returns (out: Out)
      requires root < NPAGES
      modifies this, allocator
      ensures Walked(mem, Supply(allocator), out) == Walk(old(mem), old(Supply(allocator)), root, 0, va, perm)
    {
      hide Walk, P, W, U, Pn;
      var pt: nat, i: nat := root, 0;
      while i <= 2
        invariant 0 <= i <= 3 && pt < NPAGES
        invariant Walk(mem, Supply(allocator), pt, i, va, perm) ==
                    Walk(old(mem), old(Supply(allocator)), root, 0, va, perm)
      {
        var pe := mem[pt][Index(va, i)];
        WalkStep(mem, Supply(allocator), pt, i, va, perm);
        if !P(pe) {
          // no table at this slot yet
          if !P(perm) || allocator == null {
            return Null;
          }
          var newPt := allocator.Alloc();
          if newPt == 0 {
            return Null;
          }
          if newPt % PAGESIZE != 0 || newPt >= MEMSIZE_PHYSICAL {
            return Panic;
          }
          pe := newPt / PAGESIZE * PAGESIZE + 7;
          mem := Set(mem, pt, Index(va, i), pe);
          mem := Clear(mem, newPt / PAGESIZE);
          EntryBits(newPt / PAGESIZE);
        } else if !EntryAllows(pe, perm) {
          return Panic;
        }
        pt := Pn(pe);
        i := i + 1;
      }
      WalkStep(mem, Supply(allocator), pt, i, va, perm);
      return Table(pt);
    }

    /** Loop of virtual_memory_map, after its assertions. */
    method VirtualMemoryMap(pagetable: nat, va: nat, pa: nat, sz: nat, perm: int, allocator: Allocator?,
          ghost lv: map<nat, Place>)
      returns (out: Result)
      requires pagetable < MEMSIZE_PHYSICAL
      requires Tree(mem, pagetable / PAGESIZE, lv) && Fresh(Supply(allocator), lv)
      modifies this, allocator
      ensures !ArgsOk(pagetable, va, pa, sz, perm) ==>
                out == Panicked && mem == old(mem) && Supply(allocator) == old(Supply(allocator))
      ensures ArgsOk(pagetable, va, pa, sz, perm) ==>
                Ran(mem, Supply(allocator), out)
                == CodeMap(old(mem), old(Supply(allocator)), pagetable / PAGESIZE, va, pa, sz / PAGESIZE, perm)
    {
      if !ArgsOk(pagetable, va, pa, sz, perm) {
        return Panicked;
      }
      out := MapLoop(pagetable / PAGESIZE, va, pa, sz, perm, allocator, lv);
    }

    method MapLoop(r: nat, va0: nat, pa0: nat, sz0: nat, perm: nat, allocator: Allocator?, ghost lv0: map<nat, Place>)
      returns (out: Result)
      requires r < NPAGES && Tree(mem, r, lv0) && Fresh(Supply(allocator), lv0)
      requires va0 % PAGESIZE == 0 && sz0 % PAGESIZE == 0 && GoodTarget(pa0, sz0 / PAGESIZE, perm)
      modifies this, allocator
      ensures Ran(mem, Supply(allocator), out)
           == CodeMap(old(mem), old(Supply(allocator)), r, va0, pa0, sz0 / PAGESIZE, perm)
    {
      hide Tree, Fresh, MapAll, CodeMap, MapPage, Walk, GoodTarget, CacheOk, Starved, Path;
      var va: nat, pa: nat, sz: nat := va0, pa0, sz0;
      var lastIndex123 := -1;
      var l4: Option<nat> := None;
      ghost var lv, warm := lv0, false;
      ghost var prev: nat := 0;
      ghost var target := CodeMap(mem, Supply(allocator), r, va, pa, sz / PAGESIZE, perm);
      while sz != 0
        invariant va % PAGESIZE == 0 && sz % PAGESIZE == 0 && GoodTarget(pa, sz / PAGESIZE, perm)
        invariant Tree(mem, r, lv) && Fresh(Supply(allocator), lv)
        invariant !warm ==> lastIndex123 == -1 && l4 == None
                            && CodeMap(mem, Supply(allocator), r, va, pa, sz / PAGESIZE, perm) == target
        invariant warm ==> prev % PAGESIZE == 0 && va == prev + PAGESIZE && lastIndex123 == ToInt32(prev / 0x20_0000)
                           && CacheOk(mem, r, prev, perm, l4) && (l4.Some? ==> l4.value < NPAGES)
                           && MapAll(mem, Supply(allocator), r, va, pa, sz / PAGESIZE, perm) == target
        decreases sz
      {
        var curIndex123 := ToInt32(va / 0x20_0000);
        ghost var n := sz / PAGESIZE;
        ghost var before, supply := mem, Supply(allocator);
        ghost var one := MapPage(before, supply, r, va, pa, perm);
        StarvedIsMinusOne(va);
        CodeMapCases(before, supply, r, va, pa, n, perm);
        GoodTargetNext(pa, n, perm);
        if curIndex123 != lastIndex123 {
          var found := LookupL4PageTable(r, va, perm, allocator);
          PageCases(before, supply, r, va, pa, n, perm);
          if found == Panic {
            return Panicked;
          }
          l4 := if found.Table? then Some(found.pn) else None;
          lastIndex123 := curIndex123;
          warm := true;
        } else if warm {
          NextRegion(prev);
          CacheHit(before, supply, r, lv, prev, va, perm, l4);
          PageCases(before, supply, r, va, pa, n, perm);
        }
        if warm && (l4.Some? || !P(perm)) {
          CacheFilled(before, supply, r, lv, va, pa, perm, l4);
        }
        if P(perm) && l4.Some? {
          mem := Set(mem, l4.value, Index(va, 3), pa + perm);
        } else if l4.Some? {
          mem := Set(mem, l4.value, Index(va, 3), perm);
        } else if P(perm) {
          return Failed;
        }
        if warm {
          lv := MapPageEffect(before, supply, r, lv, va, pa, perm);
        } else {
          StarvedSkip(before, supply, r, va, pa, n, perm);
        }
        prev := va;
        va, pa, sz := va + PAGESIZE, pa + PAGESIZE, sz - PAGESIZE;
        assert sz / PAGESIZE == n - 1;
      }
      CodeMapEmpty(mem, Supply(allocator), r, va, pa, perm);
      return Done;
    }

    /** virtual_memory_lookup: walk at most four levels while the entry is present. */
    method VirtualMemoryLookup(root: nat, va: nat) returns (vam: Mapping)
      requires root < NPAGES
      requires exists lv :: Tree(mem, root, lv)
      ensures vam == Lookup(mem, root, va)
    {
      ghost var lv :| Tree(mem, root, lv);
      var pt: nat, i: nat := root, 0;
      var p, w, u := true, true, true;
      while i <= 3 && p
        invariant 0 <= i <= 4
        invariant p ==> Path(mem, root, va, i) == Some(Node(pt, w, u)) && (i <= 3 ==> pt < NPAGES)
        invariant !p ==> Path(mem, root, va, 4) == None
        decreases 4 - i
      {
        PathLevel(mem, root, lv, va, i);
        var pe := mem[pt][Index(va, i)];
        p, w, u := P(pe), w && W(pe), u && U(pe);
        if !p && Path(mem, root, va, 4).Some? {
          PathPrefix(mem, root, va, i + 1, 4);
        }
        pt := Pn(pe);
        i := i + 1;
        if p && i <= 3 {
          PathLevel(mem, root, lv, va, i);
        }
      }
      vam := if p then Mapped(pt, pt * PAGESIZE + va % PAGESIZE, w, u) else Unmapped;
    }
  }

  // ----- one iteration, as equations

  lemma WalkStep(m: Mem, s: seq<nat>, pt: nat, i: nat, va: nat, perm: nat)
    requires pt < NPAGES && i <= 3
    ensures i == 3 ==> Walk(m, s, pt, i, va, perm) == Walked(m, s, Table(pt))
    ensures i < 3 ==>
            var pe := m[pt][Index(va, i)];
            var w := Walk(m, s, pt, i, va, perm);
            && (P(pe) && !EntryAllows(pe, perm) ==> w == Walked(m, s, Panic))
            && (P(pe) && EntryAllows(pe, perm) ==> w == Walk(m, s, Pn(pe), i + 1, va, perm))
            && (!P(pe) && (!P(perm) || s == []) ==> w == Walked(m, s, Null))
            && (!P(pe) && P(perm) && s != [] ==>
                  && (s[0] == 0 ==> w == Walked(m, s[1..], Null))
                  && (s[0] != 0 && (s[0] % PAGESIZE != 0 || s[0] >= MEMSIZE_PHYSICAL) ==> w == Walked(m, s[1..], Panic))
                  && (s[0] != 0 && s[0] % PAGESIZE == 0 && s[0] < MEMSIZE_PHYSICAL ==>
                        w == Walk(Attach(m, pt, Index(va, i), s[0] / PAGESIZE), s[1..], s[0] / PAGESIZE, i + 1, va,
                                  perm)))
  {
  }

  lemma CodeMapCases(m: Mem, s: seq<nat>, r: nat, va: nat, pa: nat, n: nat, perm: nat)
    requires r < NPAGES && n > 0
    ensures !Starved(va) ==> CodeMap(m, s, r, va, pa, n, perm) == MapAll(m, s, r, va, pa, n, perm)
    ensures Starved(va) && P(perm) ==> CodeMap(m, s, r, va, pa, n, perm) == Ran(m, s, Failed)
  {
  }

  lemma CodeMapEmpty(m: Mem, s: seq<nat>, r: nat, va: nat, pa: nat, perm: nat)
    requires r < NPAGES
    ensures CodeMap(m, s, r, va, pa, 0, perm) == Ran(m, s, Done)
    ensures MapAll(m, s, r, va, pa, 0, perm) == Ran(m, s, Done)
  {
  }

  lemma PageCases(m: Mem, s: seq<nat>, r: nat, va: nat, pa: nat, n: nat, perm: nat)
    requires r < NPAGES && n > 0
    ensures var w := Walk(m, s, r, 0, va, perm);
            var one := MapPage(m, s, r, va, pa, perm);
            var all := MapAll(m, s, r, va, pa, n, perm);
            && (w.out.Panic? ==> all == Ran(w.mem, w.supply, Panicked))
            && (w.out.Null? && P(perm) ==> all == Ran(w.mem, w.supply, Failed))
            && (w.out.Null? && !P(perm) ==> one == Ran(w.mem, w.supply, Done))
            && (w.out.Table? && w.out.pn < NPAGES ==>
                  one == Ran(Set(w.mem, w.out.pn, Index(va, 3), LeafEntry(pa, perm)), w.supply, Done))
            && (one.out == Done ==> all == MapAll(one.mem, one.supply, r, va + PAGESIZE, pa + PAGESIZE, n - 1, perm))
  {
  }
}
