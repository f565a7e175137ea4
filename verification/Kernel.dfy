/**
  The kernel as a step machine: boot, exceptions, the scheduler. One step is one stretch
  of user-mode execution followed by the exception that ends it.
 */
module Kernel {
  import opened CInts
  import opened KernelPages
  import opened KernelState
  import opened Loader
  import opened MapPages
  import opened Util
  import opened PageTable
  import opened VirtualMemory

  datatype Why = AssertFailed | Explicit

  /** What the kernel does next: return to user mode, spin in schedule() because no process
      is runnable, or stay in panic(). */
  datatype Outcome = Running(k: K) | Spinning(k: K) | Panicking(why: Why)

  // ----- scheduling

  /** The first runnable process after `pid` in cyclic order, looking at `steps` candidates. */
  function NextFrom(procs: seq<Proc>, pid: nat, steps: nat): (r: Option<nat>)
    requires |procs| == NPROC && pid < NPROC
    ensures r.Some? ==> r.value < NPROC && procs[r.value].state == P_RUNNABLE
    decreases steps
  {
    if steps == 0 then None
    else
      var q := (pid + 1) % NPROC;
      if procs[q].state == P_RUNNABLE then Some(q) else NextFrom(procs, q, steps - 1)
  }

  /** run(&processes[pid]). */
  function RunProc(L: Layout, k: K, pid: nat): Outcome
    requires Shaped(k) && pid < NPROC
  {
    if k.procs[pid].state != P_RUNNABLE || !PagetableUsable(L, k.mem, k.procs[pid].pagetable) then
      Panicking(AssertFailed)
    else Running(k.(current := pid))
  }

  function Schedule(L: Layout, k: K): Outcome
    requires Shaped(k)
  {
    match NextFrom(k.procs, k.current, NPROC)
    case None => Spinning(k)
    case Some(q) => RunProc(L, k, q)
  }

  // ----- exceptions

  /** What user code did before the exception: the registers it left, the faulting address
      register's error bits included, and arbitrary contents for all memory. */
  datatype Event = Event(regs: Registers, mem: Mem, ram: seq<nat>)

  predicate EventOk(ev: Event) { |ev.ram| == MEMSIZE_PHYSICAL }

  /** User code may overwrite any page the kernel does not own. */
  function Overlay(k: K, user: Mem): Mem
    requires Shaped(k)
  {
    seq(NPAGES, (p: nat) requires p < NPAGES => if k.pageinfo[p].owner == PO_KERNEL then k.mem[p] else user[p])
  }

  function SetRegs(k: K, regs: Registers): K
    requires Shaped(k)
  {
    k.(procs := k.procs[k.current := k.procs[k.current].(regs := regs)])
  }

  /** State on entry to exception(), the saved registers copied to `current`. */
  function Entered(k: K, ev: Event): (r: K)
    requires Shaped(k) && EventOk(ev)
    ensures Shaped(r)
  {
    SetRegs(k.(mem := Overlay(k, ev.mem), ram := ev.ram), ev.regs)
  }

  predicate IsUserFault(regs: Registers) { (regs.err / PFERR_USER) % 2 == 1 }

  function SetRax(k: K, rax: nat): (r: K)
    requires Shaped(k)
    ensures Shaped(r)
  {
    SetRegs(k, k.procs[k.current].regs.(rax := rax))
  }

  const MINUS_ONE := TWO64 - 1

  /** INT_SYS_PAGE_ALLOC: the result in rax, and the pages. A failed assertion inside
      virtual_memory_map would panic; its return value is ignored. */
  function PageAlloc(L: Layout, k: K): (o: Outcome)
    requires Shaped(k)
    ensures o.Running? ==> Shaped(o.k)
  {
    var addr := k.procs[k.current].regs.rdi;
    var root := k.procs[k.current].pagetable;
    if !Assignable(k.pageinfo, addr) then Running(SetRax(k, MINUS_ONE))
    else if root >= MEMSIZE_PHYSICAL || root % PAGESIZE != 0 then Panicking(AssertFailed)
    else
      var ran := CodeMap(k.mem, [], root / PAGESIZE, addr, addr, 1, PWU);
      if ran.out == Panicked then Panicking(AssertFailed)
      else Running(SetRax(k.(pageinfo := Assign(k.pageinfo, addr, k.procs[k.current].pid), mem := ran.mem), 0))
  }

  /** The scan of memshow_virtual_animate for a process to show. */
  function Shown(procs: seq<Proc>, showing: nat): (r: nat)
    requires |procs| == NPROC
    ensures r < NPROC
    decreases if showing <= 2 * NPROC then 2 * NPROC + 1 - showing else 0
  {
    if showing <= 2 * NPROC && procs[showing % NPROC].state == P_FREE then Shown(procs, showing + 1)
    else showing % NPROC
  }

  /** memshow_virtual_animate moves on to another process every half second. */
  function Animated(k: K): (r: K)
    requires Shaped(k)
    ensures r == k.(view := r.view) && r.view.showing < NPROC
  {
    var v := k.view;
    if v.lastTicks == 0 || (k.ticks - v.lastTicks) % TWO32 >= HZ / 2
    then k.(view := View(k.ticks, Shown(k.procs, v.showing + 1)))
    else k.(view := v.(showing := Shown(k.procs, v.showing)))
  }

  /** The assertions of memshow_virtual hold for the process being shown. */
  ghost predicate ShownOk(k: K)
    requires Shaped(k) && k.view.showing < NPROC
  {
    var p := k.procs[k.view.showing];
    p.state != P_FREE ==> Showable(k.mem, p.pagetable)
  }

  /** exception() checks and shows memory unless the kernel itself faulted. */
  predicate ShowsMemory(regs: Registers) { regs.intno != INT_PAGEFAULT || IsUserFault(regs) }

  /** The switch on the interrupt number; Running means "fall out of the switch". */
  function Handle(L: Layout, k: K): (o: Outcome)
    requires Shaped(k)
    ensures o.Running? ==> Shaped(o.k)
  {
    var regs := k.procs[k.current].regs;
    if regs.intno == INT_SYS_GETPID then Running(SetRax(k, k.procs[k.current].pid))
    else if regs.intno == INT_SYS_PAGE_ALLOC then PageAlloc(L, k)
    else if regs.intno == INT_PAGEFAULT && IsUserFault(regs) then
      Running(k.(procs := k.procs[k.current := k.procs[k.current].(state := P_BROKEN)]))
    else Panicking(Explicit)
  }

  /** What exception() does after its checks. */
  function Dispatch(L: Layout, k1: K, ev: Event): (o: Outcome)
    requires Shaped(k1)
  {
    if ev.regs.intno == INT_SYS_YIELD then Schedule(L, k1)
    else if ev.regs.intno == INT_TIMER then Schedule(L, k1.(ticks := (k1.ticks + 1) % 0x1_0000_0000))
    else
      match Handle(L, k1)
      case Running(k2) =>
        if k2.procs[k2.current].state == P_RUNNABLE then RunProc(L, k2, k2.current) else Schedule(L, k2)
      case other => other
  }

  /** exception(). */
  ghost function Exception(L: Layout, k: K, ev: Event): (o: Outcome)
    requires Shaped(k) && EventOk(ev)
  {
    var k1 := Entered(k, ev);
    if !PagetableUsable(L, k1.mem, L.Root()) then Panicking(AssertFailed)
    else if !ShowsMemory(ev.regs) then Dispatch(L, k1, ev)
    else if !VirtualMemoryOk(L, k1) || !ShownOk(Animated(k1)) then Panicking(AssertFailed)
    else Dispatch(L, Animated(k1), ev)
  }

  /** The interrupts for which exception() calls panic itself. */
  predicate AsksForPanic(regs: Registers) {
    && regs.intno != INT_SYS_GETPID && regs.intno != INT_SYS_YIELD && regs.intno != INT_SYS_PAGE_ALLOC
    && regs.intno != INT_TIMER && !(regs.intno == INT_PAGEFAULT && IsUserFault(regs))
  }

  // ----- boot

  /** process_setup. None: an assertion failed (the program did not load). */
  function ProcessSetup(L: Layout, k: K, pid: nat, prog: Program): (o: Option<K>)
    requires Shaped(k) && L.tables + 5 <= NPAGES && 1 <= pid <= 4 && prog.Good()
    ensures o.Some? ==> Shaped(o.value)
  {
    var root := k.pageinfo[L.tables];
    var info := k.pageinfo[L.tables := root.(refcount := root.refcount + 1)];
    var loaded := LoadProgram(L, Store(info, k.mem, k.ram), prog, pid, L.tables);
    if loaded.out != Done then None
    else
      var rsp := PROC_START_ADDR + PROC_SIZE * pid;
      var stackPage := rsp - PAGESIZE;
      var ran := CodeMap(loaded.store.mem, [], L.tables, stackPage, stackPage, 1, PWU);
      if ran.out == Panicked then None
      else
        var regs := ZERO_REGISTERS.(rip := prog.entry, rsp := rsp);
        var p := k.procs[pid].(regs := regs, pagetable := L.Root(), state := P_RUNNABLE);
        Some(k.(pageinfo := Assign(loaded.store.info, stackPage, pid), procs := k.procs[pid := p],
                mem := ran.mem, ram := loaded.store.ram))
  }

  /** Set up processes `pid`, pid+1, ... with the given programs. */
  function SetupAll(L: Layout, k: K, pid: nat, progs: seq<Program>): (o: Option<K>)
    requires Shaped(k) && L.tables + 5 <= NPAGES && 1 <= pid && pid + |progs| <= 5
    requires forall i :: 0 <= i < |progs| ==> progs[i].Good()
    ensures o.Some? ==> Shaped(o.value)
    decreases |progs|
  {
    if progs == [] then Some(k)
    else
      match ProcessSetup(L, k, pid, progs[0])
      case None => None
      case Some(k1) => SetupAll(L, k1, pid + 1, progs[1..])
  }

  function InitialInfos(L: Layout, n: nat): (s: seq<PageInfo>)
    ensures |s| == n && forall pn :: 0 <= pn < n ==> s[pn] == InitialInfo(L, pn)
  {
    if n == 0 then [] else InitialInfos(L, n - 1) + [InitialInfo(L, n - 1)]
  }

  function FreeProcs(n: nat): (s: seq<Proc>)
    ensures |s| == n && forall i :: 0 <= i < n ==> s[i] == Proc(i, ZERO_REGISTERS, P_FREE, 0)
  {
    if n == 0 then [] else FreeProcs(n - 1) + [Proc(n - 1, ZERO_REGISTERS, P_FREE, 0)]
  }

  /** Kernel state after hardware_init, pageinfo_init and the descriptor loop. */
  function InitialState(L: Layout, m: Mem, ram: seq<nat>): K
    requires L.tables + 5 <= NPAGES
  {
    K(InitialInfos(L, NPAGES), FreeProcs(NPROC), 0, 0, InitTables(m, L.tables).mem, ram, FIRST_VIEW)
  }

  /** kernel(): whatever memory holds, with the programs the command selects (four
      allocators, or a single program for "fork" and "forkexit"). */
  function Boot(L: Layout, m: Mem, ram: seq<nat>, progs: seq<Program>): Outcome
    requires L.tables + 5 <= NPAGES && |ram| == MEMSIZE_PHYSICAL && 1 <= |progs| <= 4
    requires forall i :: 0 <= i < |progs| ==> progs[i].Good()
  {
    match SetupAll(L, InitialState(L, m, ram), 1, progs)
    case None => Panicking(AssertFailed)
    case Some(k) => RunProc(L, k, 1)
  }
}
