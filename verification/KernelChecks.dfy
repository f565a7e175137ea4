/**
  What passing check_virtual_memory means for the pages of the machine, and which process the memory
  viewer shows.
 */
module KernelChecks {
  import opened Kernel
  import opened KernelState
  import opened PageTable

  // ----- check_virtual_memory

  /** The table reached from table `pn` through the entries with these indices. */
  function Follow(m: Mem, pn: nat, path: seq<nat>): nat
    decreases |path|
  {
    if path == [] || pn >= NPAGES || path[0] >= NPAGETABLEENTRIES then pn else Follow(m, Pn(m[pn][path[0]]), path[1..])
  }

  /** All the entries on the way are there. */
  predicate Linked(m: Mem, pn: nat, path: seq<nat>)
    decreases |path|
  {
    path == []
    || (pn < NPAGES && path[0] < NPAGETABLEENTRIES && m[pn][path[0]] != 0 && Linked(m, Pn(m[pn][path[0]]), path[1..]))
  }

  lemma {:induction false} OwnershipReaches(info: seq<PageInfo>, m: Mem, pn: nat, level: nat, owner: int, refcount: int,
        path: seq<nat>)
    requires |info| == NPAGES && level + |path| <= 3 && OwnershipOk(info, m, pn, level, owner, refcount)
    requires Linked(m, pn, path)
    ensures Follow(m, pn, path) < NPAGES
    ensures info[Follow(m, pn, path)] == PageInfo(owner, if path == [] then refcount else 1)
    decreases |path|
  {
    if path != [] {
      OwnershipReaches(info, m, Pn(m[pn][path[0]]), level + 1, owner, 1, path[1..]);
    }
  }

  /** The live processes that run on the page table at `root`. */
  ghost function Users(procs: seq<Proc>, root: nat): set<nat> {
    set p: nat | p < |procs| && procs[p].state != P_FREE && procs[p].pagetable == root
  }

  lemma {:induction false} SharersAreUsers(procs: seq<Proc>, root: nat, n: nat)
    requires n <= |procs|
    ensures Sharers(procs, root, n) == |Users(procs[..n], root)|
  {
    if n > 0 {
      SharersAreUsers(procs, root, n - 1);
      var before, after := Users(procs[..n - 1], root), Users(procs[..n], root);
      assert after == if procs[n - 1].state != P_FREE && procs[n - 1].pagetable == root then before + {n - 1}
      else before;
    }
  }

  /** The tables of the page table at `root`, up to three entries below it, belong to `owner`; the
      lower ones have reference count 1 and the top one has `refcount`. */
  ghost predicate TablesOwned(k: K, root: nat, owner: int, refcount: int)
    requires Shaped(k)
  {
    forall path: seq<nat> :: |path| <= 3 && Linked(k.mem, root, path) ==>
      && Follow(k.mem, root, path) < NPAGES
      && k.pageinfo[Follow(k.mem, root, path)] == PageInfo(owner, if path == [] then refcount else 1)
  }

  /** The kernel is mapped to itself in the page table at `root`, its data and its stack writable. */
  ghost predicate KernelMapped(L: Layout, m: Mem, root: nat) {
    && (forall va :: va % 0x1000 == 0 && 0x4_0000 <= va < L.end ==>
          && Lookup(m, root, va).Mapped? && Lookup(m, root, va).pa == va
          && (va >= L.startData ==> Lookup(m, root, va).w))
    && Lookup(m, root, 0x7_F000).Mapped? && Lookup(m, root, 0x7_F000).pa == 0x7_F000 && Lookup(m, root, 0x7_F000).w
  }

  /** A state that passes check_virtual_memory: process 0 is unused; every page table in use maps the
      kernel; the kernel's own is referenced once for itself and once for each process that runs on
      it; a page table of a process is its own; all lower tables are referenced once; and no page in
      use belongs to a dead process. */
  lemma ChecksMean(L: Layout, k: K)
    requires Shaped(k) && VirtualMemoryOk(L, k)
    ensures k.procs[0].state == P_FREE && KernelMapped(L, k.mem, L.Root() / PAGESIZE)
    ensures TablesOwned(k, L.Root() / PAGESIZE, PO_KERNEL, 1 + |Users(k.procs, L.Root())|)
    ensures forall p :: 0 <= p < NPROC && k.procs[p].state != P_FREE && k.procs[p].pagetable != L.Root() ==>
              KernelMapped(L, k.mem, k.procs[p].pagetable / PAGESIZE)
              && TablesOwned(k, k.procs[p].pagetable / PAGESIZE, p, 1)
    ensures forall pn :: 0 <= pn < NPAGES && k.pageinfo[pn].refcount > 0 && k.pageinfo[pn].owner >= 0 ==>
              k.pageinfo[pn].owner < NPROC && k.procs[k.pageinfo[pn].owner].state != P_FREE
  {
    hide MappingsOk, OwnershipOk, KernelMapped, TablesOwned, Sharers, Users;
    assert k.procs[..NPROC] == k.procs;
    SharersAreUsers(k.procs, L.Root(), NPROC);
    MappingsMean(L, k.mem, L.Root());
    OwnershipMeans(k, L.Root() / PAGESIZE, PO_KERNEL, 1 + Sharers(k.procs, L.Root(), NPROC));
    forall p | 0 <= p < NPROC && k.procs[p].state != P_FREE && k.procs[p].pagetable != L.Root()
      ensures KernelMapped(L, k.mem, k.procs[p].pagetable / PAGESIZE)
      ensures TablesOwned(k, k.procs[p].pagetable / PAGESIZE, p, 1)
    {
      assert ProcessTableOk(L, k, p);
      MappingsMean(L, k.mem, k.procs[p].pagetable);
      OwnershipMeans(k, k.procs[p].pagetable / PAGESIZE, p, 1);
    }
    forall pn | 0 <= pn < NPAGES && k.pageinfo[pn].refcount > 0 && k.pageinfo[pn].owner >= 0
      ensures k.pageinfo[pn].owner < NPROC && k.procs[k.pageinfo[pn].owner].state != P_FREE
    {
      assert OwnerLive(k.procs, k.pageinfo[pn]);
    }
  }

  lemma MappingsMean(L: Layout, m: Mem, pagetable: nat)
    requires MappingsOk(L, m, pagetable)
    ensures KernelMapped(L, m, pagetable / PAGESIZE)
  {
    hide Lookup;
    forall va | va % 0x1000 == 0 && 0x4_0000 <= va < L.end
      ensures Lookup(m, pagetable / PAGESIZE, va).Mapped? && Lookup(m, pagetable / PAGESIZE, va).pa == va
      ensures va >= L.startData ==> Lookup(m, pagetable / PAGESIZE, va).w
    {
      assert KernelPageMapped(L, m, pagetable, va);
    }
  }

  lemma OwnershipMeans(k: K, root: nat, owner: int, refcount: int)
    requires Shaped(k) && OwnershipOk(k.pageinfo, k.mem, root, 0, owner, refcount)
    ensures TablesOwned(k, root, owner, refcount)
  {
    hide OwnershipOk, Linked, Follow;
    forall path: seq<nat> | |path| <= 3 && Linked(k.mem, root, path)
      ensures Follow(k.mem, root, path) < NPAGES
      ensures k.pageinfo[Follow(k.mem, root, path)] == PageInfo(owner, if path == [] then refcount else 1)
    {
      OwnershipReaches(k.pageinfo, k.mem, root, 0, owner, refcount, path);
    }
  }

  // ----- memshow_virtual_animate

  /** Starting from `from`, the viewer settles on the first live process in cyclic order; it gives up
      after two rounds. */
  ghost predicate Settles(procs: seq<Proc>, from: nat, shown: nat)
    requires |procs| == 16
  {
    exists n: nat :: from <= n && SettlesAt(procs, from, n) && shown == n % 16
  }

  predicate Skipped(procs: seq<Proc>, i: nat)
    requires |procs| == 16
  {
    i <= 32 && procs[i % 16].state == P_FREE
  }

  ghost predicate SettlesAt(procs: seq<Proc>, from: nat, n: nat)
    requires |procs| == 16
  {
    && (forall i: nat :: from <= i < n ==> Skipped(procs, i))
    && (n > 32 || procs[n % 16].state != P_FREE)
  }

  lemma {:induction false} ShownSettles(procs: seq<Proc>, showing: nat)
    requires |procs| == NPROC
    ensures Settles(procs, showing, Shown(procs, showing))
    decreases if showing <= 2 * NPROC then 2 * NPROC + 1 - showing else 0
  {
    if showing <= 2 * NPROC && procs[showing % NPROC].state == P_FREE {
      ShownSettles(procs, showing + 1);
      var n: nat :| showing + 1 <= n && SettlesAt(procs, showing + 1, n) && Shown(procs, showing + 1) == n % 16;
      assert Skipped(procs, showing);
      assert SettlesAt(procs, showing, n);
    } else {
      assert SettlesAt(procs, showing, showing);
    }
  }

  /** The viewer moves on to the next process the first time, and then whenever 50 ticks have passed
      since it last did; otherwise it stays while the process lives. */
  lemma AnimationSteps(k: K)
    requires Shaped(k)
    ensures var v, a := k.view, Animated(k);
            var due := v.lastTicks == 0 || (k.ticks - v.lastTicks) % 0x1_0000_0000 >= 50;
            && a.view.lastTicks == (if due then k.ticks else v.lastTicks)
            && Settles(k.procs, if due then v.showing + 1 else v.showing, a.view.showing)
            && a == k.(view := a.view)
  {
    hide Shown, Settles;
    ShownSettles(k.procs, k.view.showing + 1);
    ShownSettles(k.procs, k.view.showing);
  }
}
