/**
  The kernel's global state, its constants, and the assertions of check_virtual_memory
  as predicates over that state.
 */
module KernelState {
  import opened PageTable
  import opened KernelPages

  const NPROC := 16
  const MEMSIZE_VIRTUAL := 0x300000
  const HZ := 100                      // timer interrupts per second
  const KERNEL_START_ADDR := 0x40000
  const KERNEL_STACK_TOP := 0x80000
  const PROC_START_ADDR := 0x100000
  const PROC_SIZE := 0x40000
  const IOPHYSMEM := 0xA0000
  const EXTPHYSMEM := 0x100000

  const PO_FREE := 0
  const PO_RESERVED := -1
  const PO_KERNEL := -2

  const INT_TIMER := 32
  const INT_PAGEFAULT := 14
  const INT_SYS_GETPID := 49
  const INT_SYS_YIELD := 50
  const INT_SYS_PAGE_ALLOC := 51
  const PFERR_USER := 4

  datatype PageInfo = PageInfo(owner: int, refcount: int)
  datatype ProcState = P_FREE | P_RUNNABLE | P_BLOCKED | P_BROKEN
  datatype Registers = Registers(rax: nat, rdi: nat, rip: nat, rsp: nat, intno: nat, err: nat)
  datatype Proc = Proc(pid: nat, regs: Registers, state: ProcState, pagetable: nat)

  const ZERO_REGISTERS := Registers(0, 0, 0, 0, 0, 0)

  /** Addresses the linker decides: where kernel data starts and ends, the page number of
      kernel_pagetables[0], and two code addresses that set_pagetable looks up. */
  datatype Layout = Layout(startData: nat, end: nat, tables: nat, handler: nat, mapper: nat) {
    ghost predicate Valid() {
      && startData % PAGESIZE == 0 && KERNEL_START_ADDR <= startData <= tables * PAGESIZE
      && (tables + 5) * PAGESIZE <= end <= KERNEL_STACK_TOP - PAGESIZE
      && KERNEL_START_ADDR <= handler < startData && KERNEL_START_ADDR <= mapper < startData
    }

    /** The address held by `kernel_pagetable`. */
    function Root(): nat { tables * PAGESIZE }
  }

  /** The static variables of memshow_virtual_animate. */
  datatype View = View(lastTicks: nat, showing: nat)

  const FIRST_VIEW := View(0, 1)

  /** Kernel state. `mem` holds memory as table words, `ram` the bytes of pages that are not tables. */
  datatype K = K(pageinfo: seq<PageInfo>, procs: seq<Proc>, current: nat, ticks: nat, mem: Mem, ram: seq<nat>,
                 view: View)

  ghost predicate Shaped(k: K) {
    |k.pageinfo| == NPAGES && |k.procs| == NPROC && k.current < NPROC && |k.ram| == MEMSIZE_PHYSICAL
  }

  // ----- physical pages

  predicate IsReserved(pa: nat) {
    pa == 0 || (pa >= IOPHYSMEM && pa < EXTPHYSMEM)
  }

  predicate IsKernelPage(L: Layout, pa: nat) {
    (pa >= KERNEL_START_ADDR && pa < L.end) || pa == KERNEL_STACK_TOP - PAGESIZE
  }

  function InitialInfo(L: Layout, pn: nat): PageInfo {
    if IsReserved(pn * PAGESIZE) then PageInfo(PO_RESERVED, 1)
    else if IsKernelPage(L, pn * PAGESIZE) then PageInfo(PO_KERNEL, 1)
    else PageInfo(PO_FREE, 0)
  }

  /** The condition under which assign_physical_page succeeds. */
  predicate Assignable(info: seq<PageInfo>, addr: nat)
    requires |info| == NPAGES
  {
    addr % PAGESIZE == 0 && addr < MEMSIZE_PHYSICAL && info[addr / PAGESIZE].refcount == 0
  }

  function Assign(info: seq<PageInfo>, addr: nat, owner: int): (r: seq<PageInfo>)
    requires |info| == NPAGES
    ensures |r| == NPAGES
  {
    if Assignable(info, addr) then info[addr / PAGESIZE := PageInfo(owner, 1)] else info
  }

  // ----- the checks

  /** virtual_memory_lookup(r, va).pa == va, where an unmapped address yields pa == -1. */
  predicate MapsToSelf(m: Mem, r: nat, va: nat) {
    Lookup(m, r, va).Mapped? && Lookup(m, r, va).pa == va
  }

  /** The assertions of set_pagetable. */
  predicate PagetableUsable(L: Layout, m: Mem, pagetable: nat) {
    && pagetable % PAGESIZE == 0
    && MapsToSelf(m, pagetable / PAGESIZE, L.handler)
    && MapsToSelf(m, L.tables, pagetable)
    && MapsToSelf(m, pagetable / PAGESIZE, L.Root())
    && MapsToSelf(m, pagetable / PAGESIZE, L.mapper)
  }

  /** The assertion made for one kernel page by check_page_table_mappings. */
  predicate KernelPageMapped(L: Layout, m: Mem, pagetable: nat, va: nat) {
    && MapsToSelf(m, pagetable / PAGESIZE, va)
    && (va >= L.startData ==> Lookup(m, pagetable / PAGESIZE, va).w)
  }

  ghost predicate MappingsOk(L: Layout, m: Mem, pagetable: nat) {
    && pagetable % PAGESIZE == 0
    && (forall va :: KERNEL_START_ADDR <= va < L.end && va % PAGESIZE == 0 ==> KernelPageMapped(L, m, pagetable, va))
    && MapsToSelf(m, pagetable / PAGESIZE, KERNEL_STACK_TOP - PAGESIZE)
    && Lookup(m, pagetable / PAGESIZE, KERNEL_STACK_TOP - PAGESIZE).w
  }

  /** check_page_table_ownership_level. */
  predicate OwnershipOk(info: seq<PageInfo>, m: Mem, pn: nat, level: nat, owner: int, refcount: int)
    requires |info| == NPAGES && level <= 3
    decreases 3 - level
  {
    && pn < NPAGES
    && info[pn] == PageInfo(owner, refcount)
    && (level < 3 ==> forall i :: 0 <= i < NPAGETABLEENTRIES && m[pn][i] != 0 ==>
          OwnershipOk(info, m, Pn(m[pn][i]), level + 1, owner, 1))
  }

  /** How many of the first `n` processes are live and use the page table at `root`. */
  function Sharers(procs: seq<Proc>, root: nat, n: nat): (c: nat)
    requires n <= |procs|
    ensures c <= n
  {
    if n == 0 then 0
    else Sharers(procs, root, n - 1) + if procs[n - 1].state != P_FREE && procs[n - 1].pagetable == root then 1 else 0
  }

  predicate PagetableOwnershipOk(L: Layout, k: K, pagetable: nat, pid: int)
    requires |k.pageinfo| == NPAGES && |k.procs| == NPROC
  {
    if pagetable == L.Root()
    then OwnershipOk(k.pageinfo, k.mem, pagetable / PAGESIZE, 0, PO_KERNEL, 1 + Sharers(k.procs, L.Root(), NPROC))
    else OwnershipOk(k.pageinfo, k.mem, pagetable / PAGESIZE, 0, pid, 1)
  }

  /** A referenced page owned by a process has a live owner. */
  predicate OwnerLive(procs: seq<Proc>, info: PageInfo)
    requires |procs| == NPROC
  {
    info.refcount > 0 && info.owner >= 0 ==> info.owner < NPROC && procs[info.owner].state != P_FREE
  }

  ghost predicate ProcessTableOk(L: Layout, k: K, pid: nat)
    requires |k.pageinfo| == NPAGES && |k.procs| == NPROC && pid < NPROC
  {
    k.procs[pid].state != P_FREE && k.procs[pid].pagetable != L.Root() ==>
      MappingsOk(L, k.mem, k.procs[pid].pagetable) && PagetableOwnershipOk(L, k, k.procs[pid].pagetable, pid)
  }

  /** Every assertion of check_virtual_memory holds. */
  ghost predicate VirtualMemoryOk(L: Layout, k: K)
    requires Shaped(k)
  {
    && k.procs[0].state == P_FREE
    && MappingsOk(L, k.mem, L.Root())
    && PagetableOwnershipOk(L, k, L.Root(), -1)
    && (forall pid :: 0 <= pid < NPROC ==> ProcessTableOk(L, k, pid))
    && (forall pn :: 0 <= pn < NPAGES ==> OwnerLive(k.procs, k.pageinfo[pn]))
  }

  /** The assertion of memshow_virtual for one page. */
  predicate PageShowable(m: Mem, pagetable: nat, va: nat) {
    Lookup(m, pagetable / PAGESIZE, va).Mapped? ==> Lookup(m, pagetable / PAGESIZE, va).pa < MEMSIZE_PHYSICAL
  }

  /** The assertions of memshow_virtual. */
  ghost predicate Showable(m: Mem, pagetable: nat) {
    && pagetable % PAGESIZE == 0
    && forall va :: 0 <= va < MEMSIZE_VIRTUAL && va % PAGESIZE == 0 ==> PageShowable(m, pagetable, va)
  }

  /** The page table of every live process can be shown. */
  ghost predicate AllShowable(k: K)
    requires Shaped(k)
  {
    forall pid :: 0 <= pid < NPROC && k.procs[pid].state != P_FREE ==> Showable(k.mem, k.procs[pid].pagetable)
  }

  // ----- the invariant behind the checks

  /** Every live process uses the kernel page table. */
  ghost predicate ProcsInv(L: Layout, procs: seq<Proc>) {
    && |procs| == NPROC
    && procs[0].state == P_FREE
    && (forall i :: 0 <= i < NPROC ==>
          procs[i].pid == i && (procs[i].state != P_FREE ==> procs[i].pagetable == L.Root()))
  }

  /** Owners and reference counts of the kernel's and the reserved pages; the root table is
      referenced once by the kernel and once by every live process. */
  ghost predicate PagesInv(L: Layout, info: seq<PageInfo>, procs: seq<Proc>)
    requires |procs| == NPROC
  {
    && |info| == NPAGES && L.tables + 5 <= NPAGES
    && info[L.tables] == PageInfo(PO_KERNEL, 1 + Sharers(procs, L.Root(), NPROC))
    && (forall pn :: L.tables < pn < L.tables + 5 ==> info[pn] == PageInfo(PO_KERNEL, 1))
    && (forall pn :: 0 <= pn < NPAGES ==> info[pn].refcount >= 0)
    && (forall pn :: 0 <= pn < NPAGES && InitialInfo(L, pn).refcount > 0 ==>
          info[pn].owner == InitialInfo(L, pn).owner && info[pn].refcount > 0)
  }

  ghost predicate OwnersLive(procs: seq<Proc>, info: seq<PageInfo>)
    requires |procs| == NPROC && |info| == NPAGES
  {
    forall pn :: 0 <= pn < NPAGES ==> OwnerLive(procs, info[pn])
  }

  ghost predicate Inv(L: Layout, k: K) {
    && L.Valid() && Shaped(k)
    && ProcsInv(L, k.procs) && PagesInv(L, k.pageinfo, k.procs) && OwnersLive(k.procs, k.pageinfo)
    && KernelTables(k.mem, L.tables)
  }

  /** Kernel pages and tables are identity mapped and usable by every process. */
  lemma KernelTablesUsable(L: Layout, m: Mem)
    requires L.Valid() && KernelTables(m, L.tables)
    ensures PagetableUsable(L, m, L.Root()) && MappingsOk(L, m, L.Root())
  {
    IdentityMapped(m, L.tables, L.handler);
    IdentityMapped(m, L.tables, L.mapper);
    IdentityMapped(m, L.tables, L.Root());
    IdentityMapped(m, L.tables, KERNEL_STACK_TOP - PAGESIZE);
    forall va | KERNEL_START_ADDR <= va < L.end && va % PAGESIZE == 0
      ensures KernelPageMapped(L, m, L.Root(), va)
    {
      IdentityMapped(m, L.tables, va);
    }
  }

  lemma KernelOwnership(L: Layout, info: seq<PageInfo>, m: Mem, refcount: int)
    requires L.Valid() && KernelTables(m, L.tables) && |info| == NPAGES
    requires info[L.tables] == PageInfo(PO_KERNEL, refcount)
    requires forall pn :: L.tables < pn < L.tables + 5 ==> info[pn] == PageInfo(PO_KERNEL, 1)
    ensures OwnershipOk(info, m, L.tables, 0, PO_KERNEL, refcount)
  {
    var t := L.tables;
    EntryBits(t + 1);
    EntryBits(t + 2);
    EntryBits(t + 3);
    EntryBits(t + 4);
    assert OwnershipOk(info, m, t + 3, 3, PO_KERNEL, 1) && OwnershipOk(info, m, t + 4, 3, PO_KERNEL, 1);
    assert OwnershipOk(info, m, t + 2, 2, PO_KERNEL, 1);
    assert OwnershipOk(info, m, t + 1, 1, PO_KERNEL, 1);
  }

  /** What the kernel's tables map lies in physical memory; the rest of the picture is unmapped. */
  lemma KernelTablesShowable(L: Layout, m: Mem)
    requires L.Valid() && KernelTables(m, L.tables)
    ensures Showable(m, L.Root())
  {
    hide KernelTables, Lookup;
    assert L.Root() / PAGESIZE == L.tables;
    forall va | 0 <= va < MEMSIZE_VIRTUAL && va % PAGESIZE == 0
      ensures PageShowable(m, L.Root(), va)
    {
      if va < MEMSIZE_PHYSICAL { IdentityMapped(m, L.tables, va); } else { UpperUnmapped(m, L.tables, va); }
    }
  }

  /** The invariant implies every assertion of check_virtual_memory, and those of memshow_virtual
      for every live process. */
  lemma InvPassesChecks(L: Layout, k: K)
    requires Inv(L, k)
    ensures VirtualMemoryOk(L, k) && AllShowable(k)
  {
    KernelTablesUsable(L, k.mem);
    KernelTablesShowable(L, k.mem);
    hide Showable;
    KernelOwnership(L, k.pageinfo, k.mem, 1 + Sharers(k.procs, L.Root(), NPROC));
    hide MappingsOk, OwnershipOk, KernelTables;
    assert L.Root() / PAGESIZE == L.tables;
  }
}
