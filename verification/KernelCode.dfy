/**
  kernel.c and k-loader.c as they are written: a class over the kernel's globals whose
  methods loop and assign, each proved equal to the step machine's function of the old state.
 */
module KernelCode {
  import opened CInts
  import opened Kernel
  import opened KernelPages
  import KernelRuns
  import opened KernelState
  import opened Loader
  import opened MapPages
  import opened Util
  import opened PageTable
  import opened VirtualMemory

  /** How a call into the kernel ends. */
  datatype Exit = Resumes | Spins | Panics(why: Why)

  function AsOutcome(e: Exit, k: K): Outcome {
    match e
    case Resumes => Running(k)
    case Spins => Spinning(k)
    case Panics(why) => Panicking(why)
  }

  /** The table at address `pt` is a tree, so walking it stays inside physical memory. */
  ghost predicate IsTree(m: Mem, pt: nat) {
    pt < MEMSIZE_PHYSICAL && exists lv :: Tree(m, pt / PAGESIZE, lv)
  }

  /** Processes are numbered, and every page table in use can be walked. */
  ghost predicate Walkable(L: Layout, k: K) {
    && Shaped(k) && IsTree(k.mem, L.Root())
    && forall p :: 0 <= p < NPROC ==>
         k.procs[p].pid == p && (k.procs[p].state != P_FREE ==> IsTree(k.mem, k.procs[p].pagetable))
  }

  class KernelGlobals {
    const layout: Layout
    const memory: PhysicalMemory
    var pageinfo: seq<PageInfo>
    var processes: seq<Proc>
    var current: nat
    var ticks: nat
    var ram: seq<nat>
    var lastTicks: nat             // static variables of memshow_virtual_animate
    var showing: nat

    constructor (layout: Layout, memory: PhysicalMemory, ram: seq<nat>)
      ensures this.layout == layout && this.memory == memory && this.ram == ram
      ensures |pageinfo| == NPAGES && |processes| == NPROC && current == 0 && ticks == 0
      ensures View(lastTicks, showing) == FIRST_VIEW
    {
      this.layout, this.memory, this.ram := layout, memory, ram;
      pageinfo := seq(NPAGES, (i: nat) => PageInfo(0, 0));
      processes := seq(NPROC, (i: nat) => Proc(0, ZERO_REGISTERS, P_FREE, 0));
      current, ticks, lastTicks, showing := 0, 0, 0, 1;
    }

    function State(): K
      reads this, memory
    {
      K(pageinfo, processes, current, ticks, memory.mem, ram, View(lastTicks, showing))
    }

    // ----- pages

    method PageinfoInit()
      requires |pageinfo| == NPAGES
      modifies this`pageinfo
      ensures pageinfo == InitialInfos(layout, NPAGES)
    {
      var addr: nat := 0;
      while addr < MEMSIZE_PHYSICAL
        invariant addr % PAGESIZE == 0 && addr <= MEMSIZE_PHYSICAL && |pageinfo| == NPAGES
        invariant forall pn :: 0 <= pn < addr / PAGESIZE ==> pageinfo[pn] == InitialInfo(layout, pn)
      {
        var owner;
        if IsReserved(addr) {
          owner := PO_RESERVED;
        } else if (addr >= KERNEL_START_ADDR && addr < layout.end) || addr == KERNEL_STACK_TOP - PAGESIZE {
          owner := PO_KERNEL;
        } else {
          owner := PO_FREE;
        }
        pageinfo := pageinfo[addr / PAGESIZE := PageInfo(owner, if owner != PO_FREE then 1 else 0)];
        addr := addr + PAGESIZE;
      }
    }

    method AssignPhysicalPage(addr: nat, owner: int) returns (r: int)
      requires |pageinfo| == NPAGES
      modifies this`pageinfo
      ensures r == (if Assignable(old(pageinfo), addr) then 0 else -1)
      ensures pageinfo == Assign(old(pageinfo), addr, owner)
    {
      if addr % PAGESIZE != 0 || addr >= MEMSIZE_PHYSICAL || pageinfo[addr / PAGESIZE].refcount != 0 {
        return -1;
      }
      var pn := addr / PAGESIZE;
      pageinfo := pageinfo[pn := pageinfo[pn].(refcount := 1)];
      pageinfo := pageinfo[pn := pageinfo[pn].(owner := owner)];
      assert pageinfo == old(pageinfo)[pn := PageInfo(owner, 1)];
      return 0;
    }

    // ----- set_pagetable and the checks; false means a failed assertion

    method SetPagetable(pt: nat) returns (ok: bool)
      requires IsTree(memory.mem, pt) && IsTree(memory.mem, layout.Root())
      ensures ok <==> PagetableUsable(layout, memory.mem, pt)
    {
      hide Tree, Lookup;
      if pt % PAGESIZE != 0 {
        return false;
      }
      var handler := memory.VirtualMemoryLookup(pt / PAGESIZE, layout.handler);
      var self := memory.VirtualMemoryLookup(layout.tables, pt);
      var root := memory.VirtualMemoryLookup(pt / PAGESIZE, layout.Root());
      var mapper := memory.VirtualMemoryLookup(pt / PAGESIZE, layout.mapper);
      return handler.Mapped? && handler.pa == layout.handler && self.Mapped? && self.pa == pt
             && root.Mapped? && root.pa == layout.Root() && mapper.Mapped? && mapper.pa == layout.mapper;
    }

    method CheckPageTableMappings(pt: nat) returns (ok: bool)
      requires IsTree(memory.mem, pt)
      ensures ok <==> MappingsOk(layout, memory.mem, pt)
    {
      hide Tree, Lookup;
      if pt % PAGESIZE != 0 {
        return false;
      }
      // every page from the load address to the end of the kernel's data
      var va: nat := KERNEL_START_ADDR;
      while va < layout.end
        invariant va % PAGESIZE == 0 && va >= KERNEL_START_ADDR
        invariant forall v :: KERNEL_START_ADDR <= v < va && v < layout.end && v % PAGESIZE == 0 ==>
                    KernelPageMapped(layout, memory.mem, pt, v)
        decreases layout.end - va
      {
        var vam := memory.VirtualMemoryLookup(pt / PAGESIZE, va);
        if !(vam.Mapped? && vam.pa == va) || (va >= layout.startData && !vam.w) {
          assert !KernelPageMapped(layout, memory.mem, pt, va);
          return false;
        }
        va := va + PAGESIZE;
      }
      // and the page below the stack top
      var kstack := KERNEL_STACK_TOP - PAGESIZE;
      var vam := memory.VirtualMemoryLookup(pt / PAGESIZE, kstack);
      return vam.Mapped? && vam.pa == kstack && vam.w;
    }

    method CheckPageTableOwnershipLevel(pn: nat, level: nat, owner: int, refcount: int) returns (ok: bool)
      requires |pageinfo| == NPAGES && level <= 3
      ensures ok <==> OwnershipOk(pageinfo, memory.mem, pn, level, owner, refcount)
      decreases 3 - level
    {
      if pn >= NPAGES || pageinfo[pn].owner != owner || pageinfo[pn].refcount != refcount {
        return false;
      }
      if level < 3 {
        for index := 0 to NPAGETABLEENTRIES
          invariant forall i :: 0 <= i < index && memory.mem[pn][i] != 0 ==>
                      OwnershipOk(pageinfo, memory.mem, Pn(memory.mem[pn][i]), level + 1, owner, 1)
        {
          if memory.mem[pn][index] != 0 {
            var sub := CheckPageTableOwnershipLevel(Pn(memory.mem[pn][index]), level + 1, owner, 1);
            if !sub {
              return false;
            }
          }
        }
      }
      return true;
    }

    method CheckPageTableOwnership(pt: nat, pid: int) returns (ok: bool)
      requires |pageinfo| == NPAGES && |processes| == NPROC
      ensures ok <==> PagetableOwnershipOk(layout, State(), pt, pid)
    {
      hide OwnershipOk;
      var owner, expectedRefcount := pid, 1;
      if pt == layout.Root() {
        owner := PO_KERNEL;
        for xpid := 0 to NPROC
          invariant expectedRefcount == 1 + Sharers(processes, layout.Root(), xpid)
        {
          if processes[xpid].state != P_FREE && processes[xpid].pagetable == layout.Root() {
            expectedRefcount := expectedRefcount + 1;
          }
        }
      }
      ok := CheckPageTableOwnershipLevel(pt / PAGESIZE, 0, owner, expectedRefcount);
    }

    method CheckVirtualMemory() returns (ok: bool)
      requires Walkable(layout, State())
      ensures ok <==> VirtualMemoryOk(layout, State())
    {
      hide MappingsOk, PagetableOwnershipOk, IsTree;
      if processes[0].state != P_FREE {
        return false;
      }
      ok := CheckPageTableMappings(layout.Root());
      if !ok { return; }
      ok := CheckPageTableOwnership(layout.Root(), -1);
      if !ok { return; }
      for pid := 0 to NPROC
        invariant forall p :: 0 <= p < pid ==> ProcessTableOk(layout, State(), p)
      {
        if processes[pid].state != P_FREE && processes[pid].pagetable != layout.Root() {
          ok := CheckPageTableMappings(processes[pid].pagetable);
          if !ok { assert !ProcessTableOk(layout, State(), pid); return; }
          ok := CheckPageTableOwnership(processes[pid].pagetable, pid);
          if !ok { assert !ProcessTableOk(layout, State(), pid); return; }
        }
      }
      // whoever owns a page in use must be alive
      for pn := 0 to NPAGES
        invariant forall q :: 0 <= q < pn ==> OwnerLive(processes, pageinfo[q])
      {
        if pageinfo[pn].refcount > 0 && pageinfo[pn].owner >= 0 {
          if pageinfo[pn].owner >= NPROC || processes[pageinfo[pn].owner].state == P_FREE {
            assert !OwnerLive(processes, pageinfo[pn]);
            return false;
          }
        }
      }
      return true;
    }

    // ----- showing memory; what is drawn on the console is left out

    method MemshowVirtual(pt: nat) returns (ok: bool)
      requires IsTree(memory.mem, pt)
      ensures ok <==> Showable(memory.mem, pt)
    {
      hide Tree, Lookup;
      if pt % PAGESIZE != 0 {
        return false;
      }
      var va: nat := 0;
      while va < MEMSIZE_VIRTUAL
        invariant va % PAGESIZE == 0
        invariant forall v :: 0 <= v < va && v < MEMSIZE_VIRTUAL && v % PAGESIZE == 0 ==>
                    PageShowable(memory.mem, pt, v)
        decreases MEMSIZE_VIRTUAL - va
      {
        var vam := memory.VirtualMemoryLookup(pt / PAGESIZE, va);
        if vam.Mapped? && vam.pa >= MEMSIZE_PHYSICAL {
          assert !PageShowable(memory.mem, pt, va);
          return false;
        }
        va := va + PAGESIZE;
      }
      return true;
    }

    method MemshowVirtualAnimate() returns (ok: bool)
      requires Walkable(layout, State())
      modifies this`lastTicks, this`showing
      ensures State() == Animated(old(State())) && (ok <==> ShownOk(State()))
    {
      hide IsTree, Showable, Tree, Lookup;
      if lastTicks == 0 || (ticks - lastTicks) % TWO32 >= HZ / 2 {
        lastTicks := ticks;
        showing := showing + 1;
      }
      ghost var start, last := showing, lastTicks;
      // pass over processes that are gone
      while showing <= 2 * NPROC && processes[showing % NPROC].state == P_FREE
        invariant Shown(processes, showing) == Shown(processes, start) && lastTicks == last
        decreases 2 * NPROC + 1 - showing
      {
        showing := showing + 1;
      }
      showing := showing % NPROC;
      assert showing == Shown(processes, start);
      assert State() == Animated(old(State()));
      ok := true;
      if processes[showing].state != P_FREE {
        ok := MemshowVirtual(processes[showing].pagetable);
      }
    }

    // ----- run and schedule

    method RunProcess(pid: nat) returns (e: Exit)
      requires Walkable(layout, State()) && pid < NPROC
      modifies this`current
      ensures AsOutcome(e, State()) == RunProc(layout, old(State()), pid)
    {
      hide IsTree, PagetableUsable;
      if processes[pid].state != P_RUNNABLE {
        return Panics(AssertFailed);
      }
      current := pid;
      var ok := SetPagetable(processes[pid].pagetable);
      return if ok then Resumes else Panics(AssertFailed);
    }

    /** The scan goes round for ever; after NPROC candidates it can only repeat itself. */
    method ScheduleNext() returns (e: Exit)
      requires Walkable(layout, State())
      modifies this`current
      ensures AsOutcome(e, State()) == Schedule(layout, old(State()))
    {
      hide IsTree, RunProc;
      var pid: nat := processes[current].pid;
      var looked: nat := 0;
      while looked < NPROC
        invariant looked <= NPROC && pid < NPROC && unchanged(this) && unchanged(memory)
        invariant NextFrom(processes, pid, NPROC - looked) == NextFrom(processes, current, NPROC)
      {
        ghost var steps := NPROC - looked;
        assert NextFrom(processes, pid, steps)
            == if processes[(pid + 1) % NPROC].state == P_RUNNABLE then Some((pid + 1) % NPROC)
               else NextFrom(processes, (pid + 1) % NPROC, steps - 1);
        pid := (pid + 1) % NPROC;
        if processes[pid].state == P_RUNNABLE {
          e := RunProcess(pid);
          return;
        }
        looked := looked + 1;
      }
      return Spins;
    }

    // ----- exception()

    /** User code runs, then traps: memory and registers as `ev` says. */
    method Trap(ev: Event)
      requires Shaped(State()) && EventOk(ev)
      modifies this`processes, this`ram, memory
      ensures State() == Entered(old(State()), ev)
    {
      memory.mem := Overlay(State(), ev.mem);
      ram := ev.ram;
      processes := processes[current := processes[current].(regs := ev.regs)];
    }

    method ReturnValue(rax: nat)
      requires Shaped(State())
      modifies this`processes
      ensures State() == SetRax(old(State()), rax)
    {
      var p := processes[current];
      processes := processes[current := p.(regs := p.regs.(rax := rax))];
    }

    method SysPageAlloc() returns (e: Exit)
      requires Walkable(layout, State()) && processes[current].state == P_RUNNABLE
      modifies this`pageinfo, this`processes, memory
      ensures AsOutcome(e, State()) == PageAlloc(layout, old(State()))
    {
      hide Tree, CodeMap, SetRax;
      var addr := processes[current].regs.rdi;
      var root := processes[current].pagetable;
      ghost var lv :| Tree(memory.mem, root / PAGESIZE, lv);
      var r := AssignPhysicalPage(addr, processes[current].pid);
      if r >= 0 {
        var mapped := memory.VirtualMemoryMap(root, addr, addr, PAGESIZE, PWU, null, lv);
        if mapped == Panicked {
          return Panics(AssertFailed);
        }
      }
      ReturnValue(if r >= 0 then 0 else MINUS_ONE);
      return Resumes;
    }

    method HandleException(ev: Event) returns (e: Exit)
      requires KernelRuns.Ready(layout, State()) && EventOk(ev)
      modifies this, memory
      ensures AsOutcome(e, State()) == Exception(layout, old(State()), ev)
    {
      hide KernelRuns.Ready, Entered, Animated, ShownOk, VirtualMemoryOk, PagetableUsable, Schedule, RunProc,
        PageAlloc, SetRax, IsTree, Tree, KernelTables;
      ghost var k := State();
      ReadyShape(layout, k);
      Trap(ev);
      TrapFacts(layout, k, ev);
      var ok := SetPagetable(layout.Root());
      if !ok {
        return Panics(AssertFailed);
      }
      if ev.regs.intno != INT_PAGEFAULT || IsUserFault(ev.regs) {
        ok := CheckVirtualMemory();
        if !ok {
          return Panics(AssertFailed);
        }
        ok := MemshowVirtualAnimate();
        if !ok {
          return Panics(AssertFailed);
        }
      }
      CheckedFacts(layout, k, ev);
      if ev.regs.intno == INT_SYS_GETPID {
        KernelRuns.SetRaxShape(State(), processes[current].pid);
        ReturnValue(processes[current].pid);
      } else if ev.regs.intno == INT_SYS_YIELD {
        e := ScheduleNext();
        return;
      } else if ev.regs.intno == INT_SYS_PAGE_ALLOC {
        KernelRuns.PageAllocEffect(layout, State());
        e := SysPageAlloc();
        if !e.Resumes? {
          return;
        }
      } else if ev.regs.intno == INT_TIMER {
        ticks := (ticks + 1) % 0x1_0000_0000;
        WalkableKept(layout, KernelRuns.Checked(k, ev), State());
        e := ScheduleNext();
        return;
      } else if ev.regs.intno == INT_PAGEFAULT && IsUserFault(ev.regs) {
        processes := processes[current := processes[current].(state := P_BROKEN)];
      } else {
        return Panics(Explicit);
      }
      WalkableKept(layout, KernelRuns.Checked(k, ev), State());
      if processes[current].state == P_RUNNABLE {
        e := RunProcess(current);
      } else {
        e := ScheduleNext();
      }
    }

    // ----- loading and starting processes

    method Memcpy(at: nat, bytes: seq<nat>)
      requires |bytes| > 0 ==> at + |bytes| <= |ram|
      modifies this`ram
      ensures ram == CopyIn(old(ram), at, bytes)
    {
      for n := 0 to |bytes|
        invariant |ram| == |old(ram)|
        invariant forall a :: 0 <= a < |ram| ==> ram[a] == if at <= a < at + n then bytes[a - at] else old(ram)[a]
      {
        ram := ram[at + n := bytes[n]];
      }
    }

    function Loaded(): Store
      reads this, memory
    {
      Store(pageinfo, memory.mem, ram)
    }

    method ProgramLoadSegment(seg: Segment, pid: nat) returns (out: Result)
      requires Shaped(State()) && layout.Valid() && KernelTables(memory.mem, layout.tables) && seg.Good()
      requires pid < NPROC && processes[pid].pagetable == layout.Root() && processes[pid].pid == pid
      modifies this`pageinfo, this`ram, memory
      ensures Loader.Loaded(Loaded(), out) == LoadSegment(layout, old(Loaded()), seg, pid, layout.tables)
      ensures memory.mem == old(memory.mem)
    {
      hide KernelTables, LoadPages, CopyIn, PagetableUsable, IsTree, Tree, CodeMap, Assign, Assignable;
      assert layout.Root() / PAGESIZE == layout.tables && layout.Root() < MEMSIZE_PHYSICAL;
      TableWalkable(layout, memory.mem);
      var r := layout.tables;
      var endFile, endMem := seg.va + |seg.data|, seg.va + seg.memsz;
      var addr: nat := seg.va;
      while addr < endMem
        invariant addr % PAGESIZE == 0 && |pageinfo| == NPAGES && ram == old(ram) && memory.mem == old(memory.mem)
        invariant LoadPages(Loaded(), addr, endMem, pid, r) == LoadPages(old(Loaded()), seg.va, endMem, pid, r)
        decreases if addr < endMem then endMem - addr else 0
      {
        LoadPagesStep(Loaded(), addr, endMem, pid, r);
        var a := AssignPhysicalPage(addr, processes[pid].pid);
        if a < 0 {
          return Failed;
        }
        var mapped := memory.VirtualMemoryMap(processes[pid].pagetable, addr, addr, PAGESIZE, PWU, null,
                                              KernelPlaces(r));
        if mapped == Panicked {
          return Panicked;
        } else if mapped == Failed {
          return Failed;
        }
        addr := addr + PAGESIZE;
      }
      LoadPagesDone(Loaded(), addr, endMem, pid, r);
      // switch to the table just extended
      var ok := SetPagetable(processes[pid].pagetable);
      if !ok {
        return Panicked;
      }
      // file bytes, then the zeroed tail
      Memcpy(seg.va, seg.data);
      Memcpy(endFile, Repeat(0, endMem - endFile));
      // and back to the kernel's own table
      ok := SetPagetable(layout.Root());
      return if ok then Done else Panicked;
    }

    /** program_load; on success the entry point is in rip. */
    method ProgramLoad(prog: Program, pid: nat) returns (out: Result)
      requires Shaped(State()) && layout.Valid() && KernelTables(memory.mem, layout.tables) && prog.Good()
      requires pid < NPROC && processes[pid].pagetable == layout.Root() && processes[pid].pid == pid
      modifies this`pageinfo, this`processes, this`ram, memory
      ensures Loader.Loaded(Loaded(), out) == LoadProgram(layout, old(Loaded()), prog, pid, layout.tables)
      ensures memory.mem == old(memory.mem)
      ensures processes == if out != Done then old(processes)
                           else old(processes)[pid := old(processes)[pid].(
                                  regs := old(processes)[pid].regs.(rip := prog.entry))]
    {
      hide KernelTables, LoadSegment;
      if prog.magic != ELF_MAGIC {
        return Panicked;
      }
      var i := 0;
      while i < |prog.segments|
        invariant 0 <= i <= |prog.segments|
        invariant Shaped(State()) && processes == old(processes) && memory.mem == old(memory.mem)
        invariant LoadSegments(layout, Loaded(), prog.segments[i..], pid, layout.tables)
               == LoadSegments(layout, old(Loaded()), prog.segments, pid, layout.tables)
      {
        var seg := prog.segments[i];
        LoadSegmentsStep(layout, Loaded(), prog.segments[i..], pid, layout.tables);
        assert prog.segments[i..][0] == seg && prog.segments[i..][1..] == prog.segments[i + 1..];
        if seg.ptype == ELF_PTYPE_LOAD {
          out := ProgramLoadSegment(seg, pid);
          if out != Done {
            return;
          }
        }
        i := i + 1;
      }
      LoadSegmentsStep(layout, Loaded(), prog.segments[i..], pid, layout.tables);
      var p := processes[pid];
      processes := processes[pid := p.(regs := p.regs.(rip := prog.entry))];
      return Done;
    }

    /** process_setup; false means its assertion failed. */
    method SetupProcess(pid: nat, prog: Program) returns (ok: bool)
      requires Shaped(State()) && layout.Valid() && KernelTables(memory.mem, layout.tables) && prog.Good()
      requires 1 <= pid <= 4 && processes[pid].pid == pid
      modifies this`pageinfo, this`processes, this`ram, memory
      ensures (if ok then Some(State()) else None) == ProcessSetup(layout, old(State()), pid, prog)
      ensures memory.mem == old(memory.mem) && Shaped(State())
    {
      hide KernelTables, LoadProgram, CodeMap, Assign, Tree;
      ghost var before := Loaded();
      TableWalkable(layout, memory.mem);
      processes := processes[pid := processes[pid].(regs := ZERO_REGISTERS)];
      processes := processes[pid := processes[pid].(pagetable := layout.Root())];
      var root := layout.Root() / PAGESIZE;
      pageinfo := pageinfo[root := pageinfo[root].(refcount := pageinfo[root].refcount + 1)];
      var r := ProgramLoad(prog, pid);
      if r != Done {
        return false;
      }
      var rsp := PROC_START_ADDR + PROC_SIZE * pid;
      processes := processes[pid := processes[pid].(regs := processes[pid].regs.(rsp := rsp))];
      var stackPage: nat := rsp - PAGESIZE;
      var _ := AssignPhysicalPage(stackPage, pid);
      IdentityMapIsNoop(memory.mem, [], layout.tables, stackPage);
      var mapped := memory.VirtualMemoryMap(processes[pid].pagetable, stackPage, stackPage, PAGESIZE, PWU, null,
                                            KernelPlaces(layout.tables));
      if mapped == Panicked {
        return false;
      }
      processes := processes[pid := processes[pid].(state := P_RUNNABLE)];
      ghost var regs := ZERO_REGISTERS.(rip := prog.entry, rsp := rsp);
      assert processes == old(processes)[pid := Proc(pid, regs, P_RUNNABLE, layout.Root())];
      return true;
    }

    /** virtual_memory_init. */
    method VirtualMemoryInit()
      requires layout.Valid()
      modifies memory
      ensures memory.mem == InitTables(old(memory.mem), layout.tables).mem
    {
      hide Tables, Tree, CodeMap;
      var k := layout.tables;
      var zeros := Repeat(0, NPAGETABLEENTRIES);
      memory.mem := memory.mem[k := zeros][k + 1 := zeros][k + 2 := zeros][k + 3 := zeros][k + 4 := zeros];
      memory.mem := Set(memory.mem, k, 0, (k + 1) * PAGESIZE + PWU);
      memory.mem := Set(memory.mem, k + 1, 0, (k + 2) * PAGESIZE + PWU);
      memory.mem := Set(memory.mem, k + 2, 0, (k + 3) * PAGESIZE + PWU);
      memory.mem := Set(memory.mem, k + 2, 1, (k + 4) * PAGESIZE + PWU);
      FourEntries(old(memory.mem), memory.mem, k);
      EmptyTablesShape(old(memory.mem), k);
      TablesTree(memory.mem, k, 0);
      assert layout.Root() / PAGESIZE == k;
      var _ := memory.VirtualMemoryMap(layout.Root(), 0, 0, MEMSIZE_PHYSICAL, PWU, null, KernelPlaces(k));
    }

    /** The descriptor loop of kernel(). */
    method ProcessDescriptorsInit()
      requires |processes| == NPROC
      modifies this`processes
      ensures processes == FreeProcs(NPROC)
    {
      processes := seq(NPROC, (i: nat) => Proc(0, ZERO_REGISTERS, P_FREE, 0));
      for i := 0 to NPROC
        invariant |processes| == NPROC
        invariant forall p :: 0 <= p < i ==> processes[p] == Proc(p, ZERO_REGISTERS, P_FREE, 0)
        invariant forall p :: i <= p < NPROC ==> processes[p].regs == ZERO_REGISTERS && processes[p].pagetable == 0
      {
        processes := processes[i := processes[i].(pid := i, state := P_FREE)];
      }
    }

    /** The process_setup calls of kernel(). */
    method SetupProcesses(progs: seq<Program>) returns (ok: bool)
      requires layout.Valid() && Starting(layout, State()) && |progs| <= 4
      requires forall i :: 0 <= i < |progs| ==> progs[i].Good()
      modifies this`pageinfo, this`processes, this`ram, memory
      ensures Shaped(old(State())) && (if ok then Some(State()) else None) == SetupAll(layout, old(State()), 1, progs)
      ensures ok ==> Walkable(layout, State())
    {
      hide KernelTables, ProcessSetup, SetupAll, Walkable, Starting, Program.Good;
      ghost var start := State();
      StartingShape(layout, start);
      assert progs[0..] == progs;
      for i := 0 to |progs|
        invariant Starting(layout, State()) && Shaped(State())
        invariant SetupAll(layout, State(), i + 1, progs[i..]) == SetupAll(layout, start, 1, progs)
      {
        SetupsGoOn(layout, State(), progs, i);
        ok := SetupProcess(i + 1, progs[i]);
        if !ok {
          return;
        }
      }
      SetupsEnd(layout, State(), progs);
      ok := true;
    }

    /** kernel(): `progs` are the programs the command selects. */
    method KernelMain(progs: seq<Program>) returns (e: Exit)
      requires layout.Valid() && |pageinfo| == NPAGES && |processes| == NPROC
      requires |ram| == MEMSIZE_PHYSICAL && 1 <= |progs| <= 4 && View(lastTicks, showing) == FIRST_VIEW
      requires forall i :: 0 <= i < |progs| ==> progs[i].Good()
      modifies this, memory
      ensures AsOutcome(e, State()) == Boot(layout, old(memory.mem), old(ram), progs)
    {
      hide InitTables, SetupAll, InitialState, Boot, Walkable, RunProc, Starting, Shaped, Program.Good;
      VirtualMemoryInit();
      PageinfoInit();
      ProcessDescriptorsInit();
      current, ticks := 0, 0;
      Starts(layout, old(memory.mem), old(ram), State(), progs);
      var ok := SetupProcesses(progs);
      if !ok {
        return Panics(AssertFailed);
      }
      e := RunProcess(1);
    }
  }

  /** The kernel's tables, and the descriptors of processes that are set up or not yet in use. */
  ghost predicate Starting(L: Layout, k: K) {
    && Shaped(k) && KernelTables(k.mem, L.tables)
    && forall p :: 0 <= p < NPROC ==>
         k.procs[p].pid == p && (k.procs[p].state != P_FREE ==> k.procs[p].pagetable == L.Root())
  }

  lemma StartingShape(L: Layout, k: K)
    requires Starting(L, k)
    ensures Shaped(k)
  {
    hide KernelTables;
  }

  lemma Starts(L: Layout, m: Mem, ram: seq<nat>, start: K, progs: seq<Program>)
    requires L.Valid() && |ram| == MEMSIZE_PHYSICAL && start.mem == InitTables(m, L.tables).mem && start.ram == ram
    requires start.pageinfo == InitialInfos(L, NPAGES) && start.procs == FreeProcs(NPROC)
    requires start.current == 0 == start.ticks
    requires start.view == FIRST_VIEW
    requires 1 <= |progs| <= 4 && forall i :: 0 <= i < |progs| ==> progs[i].Good()
    ensures Starting(L, start) && Shaped(start)
    ensures Boot(L, m, ram, progs) == match SetupAll(L, start, 1, progs)
                                      case None => Panicking(AssertFailed)
                                      case Some(k) => RunProc(L, k, 1)
  {
    hide KernelTables, InitTables, SetupAll, RunProc, Program.Good;
    InitTablesCorrect(m, L.tables);
  }

  /** One process_setup. */
  lemma SetupsGoOn(L: Layout, k: K, progs: seq<Program>, i: nat)
    requires Starting(L, k) && L.Valid() && i < |progs| <= 4 && forall j :: 0 <= j < |progs| ==> progs[j].Good()
    ensures Shaped(k) && KernelTables(k.mem, L.tables) && k.procs[i + 1].pid == i + 1
    ensures match ProcessSetup(L, k, i + 1, progs[i])
            case None => SetupAll(L, k, i + 1, progs[i..]) == None
            case Some(k1) =>
              k1.mem == k.mem && Shaped(k1) ==>
                Starting(L, k1) && SetupAll(L, k1, i + 2, progs[i + 1..]) == SetupAll(L, k, i + 1, progs[i..])
  {
    hide KernelTables, ProcessSetup, Program.Good;
    assert progs[i..][0] == progs[i] && progs[i..][1..] == progs[i + 1..];
    SetupShape(L, k, i + 1, progs[i]);
  }

  lemma SetupsEnd(L: Layout, k: K, progs: seq<Program>)
    requires Starting(L, k) && L.Valid() && |progs| <= 4
    ensures Walkable(L, k) && SetupAll(L, k, |progs| + 1, progs[|progs|..]) == Some(k)
  {
    hide KernelTables, IsTree;
    TableWalkable(L, k.mem);
  }

  lemma LoadSegmentsStep(L: Layout, s: Store, segs: seq<Segment>, pid: nat, r: nat)
    requires StoreOk(s) && r < NPAGES && forall i :: 0 <= i < |segs| ==> segs[i].Good()
    ensures var l := LoadSegments(L, s, segs, pid, r);
            if segs == [] then l == Loader.Loaded(s, Done)
            else if segs[0].ptype != ELF_PTYPE_LOAD then l == LoadSegments(L, s, segs[1..], pid, r)
            else
              var one := LoadSegment(L, s, segs[0], pid, r);
              l == if one.out != Done then one else LoadSegments(L, one.store, segs[1..], pid, r)
  {
    hide LoadSegment;
  }

  lemma FourEntries(m: Mem, m': Mem, k: nat)
    requires k + 5 <= NPAGES
    requires var zeros := Repeat(0, NPAGETABLEENTRIES);
             var cleared: Mem := m[k := zeros][k + 1 := zeros][k + 2 := zeros][k + 3 := zeros][k + 4 := zeros];
             m' == Set(Set(Set(Set(cleared, k, 0, (k + 1) * PAGESIZE + PWU), k + 1, 0, (k + 2) * PAGESIZE + PWU),
                           k + 2, 0, (k + 3) * PAGESIZE + PWU), k + 2, 1, (k + 4) * PAGESIZE + PWU)
    ensures m' == EmptyTables(m, k)
  {
    hide Upper, Identity, EmptyTables;
    UpperFromZeros((k + 1) * PAGESIZE + PWU, 0);
    UpperFromZeros((k + 2) * PAGESIZE + PWU, 0);
    UpperFromZeros((k + 3) * PAGESIZE + PWU, (k + 4) * PAGESIZE + PWU);
    EmptyTablesShape(m, k);
    assert Tables(m', k, 0);
    assert forall p :: 0 <= p < NPAGES && !(k <= p < k + 5) ==> m'[p] == m[p];
  }

  lemma UpperFromZeros(e: nat, f: nat)
    ensures var one: seq<nat> := Repeat(0, NPAGETABLEENTRIES)[0 := e];
            one == Upper(e, 0) && one[1 := f] == Upper(e, f)
    ensures Repeat(0, NPAGETABLEENTRIES) == Identity(0)
  {
  }

  lemma SetupShape(L: Layout, k: K, pid: nat, prog: Program)
    requires Shaped(k) && L.Valid() && 1 <= pid <= 4 && prog.Good() && k.procs[pid].pid == pid
    ensures var o := ProcessSetup(L, k, pid, prog);
            o.Some? ==>
              && o.value.procs == k.procs[pid := o.value.procs[pid]]
              && o.value.procs[pid].pid == pid && o.value.procs[pid].pagetable == L.Root()
  {
    hide LoadProgram, CodeMap, Assign;
  }

  lemma TableWalkable(L: Layout, m: Mem)
    requires L.Valid() && KernelTables(m, L.tables)
    ensures IsTree(m, L.Root()) && Tree(m, L.Root() / PAGESIZE, KernelPlaces(L.tables))
  {
    hide Tables, Tree;
    TablesTree(m, L.tables, 512);
    assert L.Root() / PAGESIZE == L.tables && L.Root() < MEMSIZE_PHYSICAL;
    assert Tree(m, L.Root() / PAGESIZE, KernelPlaces(L.tables));
  }

  /** One turn of the page loop. */
  lemma LoadPagesStep(s: Store, addr: nat, endMem: nat, pid: nat, r: nat)
    requires StoreOk(s) && addr % PAGESIZE == 0 && KernelTables(s.mem, r) && addr < endMem
    ensures var l := LoadPages(s, addr, endMem, pid, r);
            if !Assignable(s.info, addr) then l == Loader.Loaded(s, Failed) && Assign(s.info, addr, pid) == s.info
            else
              && addr < MEMSIZE_PHYSICAL && CodeMap(s.mem, [], r, addr, addr, 1, PWU) == Ran(s.mem, [], Done)
              && l == LoadPages(Store(Assign(s.info, addr, pid), s.mem, s.ram), addr + PAGESIZE, endMem, pid, r)
  {
    hide KernelTables, CodeMap;
    if Assignable(s.info, addr) { IdentityMapIsNoop(s.mem, [], r, addr); }
  }

  lemma LoadPagesDone(s: Store, addr: nat, endMem: nat, pid: nat, r: nat)
    requires StoreOk(s) && addr % PAGESIZE == 0 && r < NPAGES && addr >= endMem
    ensures LoadPages(s, addr, endMem, pid, r) == Loader.Loaded(s, Done)
  {
  }

  lemma ReadyShape(L: Layout, k: K)
    requires KernelRuns.Ready(L, k)
    ensures Shaped(k) && k.procs[k.current].state == P_RUNNABLE
  {
  }

  /** What is known on entry to exception(). */
  lemma TrapFacts(L: Layout, k: K, ev: Event)
    requires KernelRuns.Ready(L, k) && EventOk(ev)
    ensures var k1 := Entered(k, ev);
            && KernelRuns.Ready(L, k1) && Walkable(L, k1)
            && k1.procs[k1.current].regs == ev.regs && k1.procs[k1.current].state == P_RUNNABLE
  {
    hide KernelTables;
    KernelRuns.EnteredKeepsInv(L, k, ev);
    ReadyTrees(L, Entered(k, ev));
  }

  /** What is known when the switch of exception() starts. */
  lemma CheckedFacts(L: Layout, k: K, ev: Event)
    requires KernelRuns.Ready(L, k) && EventOk(ev)
    ensures var k1 := KernelRuns.Checked(k, ev);
            && KernelRuns.Ready(L, k1) && Walkable(L, k1)
            && k1.procs[k1.current].regs == ev.regs && k1.procs[k1.current].state == P_RUNNABLE
  {
    hide KernelTables;
    KernelRuns.ChecksPass(L, k, ev);
    ReadyTrees(L, KernelRuns.Checked(k, ev));
  }

  lemma ReadyTrees(L: Layout, k: K)
    requires Inv(L, k)
    ensures Walkable(L, k)
  {
    hide KernelTables;
    KernelRuns.InvFacts(L, k);
    TablesTree(k.mem, L.tables, 512);
    assert Tree(k.mem, L.Root() / PAGESIZE, KernelPlaces(L.tables));
  }

  lemma WalkableKept(L: Layout, k: K, k': K)
    requires Walkable(L, k) && Shaped(k') && k'.mem == k.mem && k'.current == k.current
    requires forall p :: 0 <= p < NPROC && p != k.current ==> k'.procs[p] == k.procs[p]
    requires k'.procs[k.current].pid == k.procs[k.current].pid
    requires k'.procs[k.current].pagetable == k.procs[k.current].pagetable
    requires k.procs[k.current].state != P_FREE
    ensures Walkable(L, k')
  {
    hide IsTree;
    forall p | 0 <= p < NPROC
      ensures k'.procs[p].pid == p && (k'.procs[p].state != P_FREE ==> IsTree(k'.mem, k'.procs[p].pagetable))
    {
      assert k.procs[p].pid == p;
    }
  }
}
