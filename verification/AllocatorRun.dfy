/**
  The four default processes (p-allocator.c) as clients of the kernel's step machine,
  interleaved with each other and with timer interrupts in any order.
 */
module AllocatorRun {
  import opened CInts
  import opened Kernel
  import opened KernelBoot
  import opened KernelPages
  import opened KernelRuns
  import opened KernelState
  import opened Loader
  import opened Util
  import opened PageTable
  import Rand

  const ALLOC_SLOWDOWN := 100
  const NCLIENTS := 4

  /** Where process_main will resume: before sys_getpid, with its answer, at the top of the
      loop, with the answer of sys_page_alloc, or in the final yield loop. */
  datatype Pc = Start | GotPid | Loop | Allocating | Finished

  /** The variables of process_main; `draws` counts its calls of rand(). */
  datatype Client = Client(pc: Pc, p: int, heapTop: nat, stackBottom: nat, seed: nat, draws: nat)

  /** A stretch of user execution, up to and including the instruction that traps. */
  datatype Stretch = Stretch(client: Client, intno: nat, rdi: nat)

  // ----- process_main

  /** One pass through the loop body, up to its first trap. */
  function Iteration(c: Client): Stretch {
    var c1 := c.(seed := Rand.Next(c.seed), draws := c.draws + 1);
    if (c1.seed % Rand.TWO31) % ALLOC_SLOWDOWN < c1.p then
      if c1.heapTop == c1.stackBottom then Stretch(c1.(pc := Finished), INT_SYS_YIELD, 0)
      else Stretch(c1.(pc := Allocating), INT_SYS_PAGE_ALLOC, c1.heapTop)
    else Stretch(c1.(pc := Loop), INT_SYS_YIELD, 0)
  }

  /** Resume with `rax` in the result register. `end` is the linker symbol rounded up to a
      page, `rsp` the stack pointer read by read_rsp(), and `writable` whether a store through
      heap_top succeeds. */
  function Resume(c: Client, rax: nat, end: nat, rsp: nat, writable: bool): Stretch
    requires rsp > 0
  {
    match c.pc
    case Start => Stretch(c.(pc := GotPid), INT_SYS_GETPID, 0)
    case GotPid =>
      Iteration(Client(Loop, ToInt32(rax), end, (rsp - 1) / PAGESIZE * PAGESIZE, rax % TWO32, 0))
    case Loop => Iteration(c)
    case Allocating =>
      if ToInt32(rax) < 0 then Stretch(c.(pc := Finished), INT_SYS_YIELD, 0)
      else if !writable then Stretch(c, INT_PAGEFAULT, 0)
      else Stretch(c.(pc := Loop, heapTop := c.heapTop + PAGESIZE), INT_SYS_YIELD, 0)
    case Finished => Stretch(c, INT_SYS_YIELD, 0)
  }

  // ----- the system

  datatype System = System(k: K, clients: seq<Client>)

  /** What the environment decides about one step: whether the timer strikes before the process
      reaches its trap, the registers the model does not follow, and what user code writes. */
  datatype Move = Move(timer: bool, rsp: nat, rip: nat, mem: Mem, ram: seq<nat>)

  predicate FourClients(s: System) {
    s.k.current < NPROC && |s.k.procs| == NPROC && |s.clients| == NCLIENTS && 1 <= s.k.current <= NCLIENTS
  }

  /** The process's stack pointer stays within its one stack page. */
  predicate MoveOk(s: System, mv: Move) {
    |mv.ram| == MEMSIZE_PHYSICAL && StackPage(s.k.current) < mv.rsp <= StackPage(s.k.current) + PAGESIZE
  }

  function Writable(L: Layout, m: Mem, va: nat): bool {
    Lookup(m, L.tables, va).Mapped? && Lookup(m, L.tables, va).w && Lookup(m, L.tables, va).u
  }

  function StretchOf(L: Layout, s: System, ends: seq<nat>, mv: Move): Stretch
    requires FourClients(s) && |ends| == NCLIENTS && MoveOk(s, mv)
  {
    var c := s.clients[s.k.current - 1];
    Resume(c, s.k.procs[s.k.current].regs.rax, ends[s.k.current - 1], mv.rsp, Writable(L, s.k.mem, c.heapTop))
  }

  /** The trap the kernel sees. A timer interrupt keeps rax and leaves the client where it was. */
  function EventOf(L: Layout, s: System, ends: seq<nat>, mv: Move): Event
    requires FourClients(s) && |ends| == NCLIENTS && MoveOk(s, mv)
  {
    var rax := s.k.procs[s.k.current].regs.rax;
    var g := StretchOf(L, s, ends, mv);
    if mv.timer then Event(Registers(rax, 0, mv.rip, mv.rsp, INT_TIMER, 0), mv.mem, mv.ram)
    else Event(Registers(rax, g.rdi, mv.rip, mv.rsp, g.intno, PFERR_USER), mv.mem, mv.ram)
  }

  function ClientsAfter(L: Layout, s: System, ends: seq<nat>, mv: Move): seq<Client>
    requires FourClients(s) && |ends| == NCLIENTS && MoveOk(s, mv)
  {
    if mv.timer then s.clients else s.clients[s.k.current - 1 := StretchOf(L, s, ends, mv).client]
  }

  /** One step of the whole system. None: the kernel stopped, or chose some other process. */
  ghost function Step(L: Layout, s: System, ends: seq<nat>, mv: Move): (r: Option<System>)
    requires Shaped(s.k) && FourClients(s) && |ends| == NCLIENTS && MoveOk(s, mv)
    ensures r.Some? ==> Shaped(r.value.k) && FourClients(r.value)
  {
    match Exception(L, s.k, EventOf(L, s, ends, mv))
    case Running(k1) =>
      var s1 := System(k1, ClientsAfter(L, s, ends, mv));
      if Shaped(k1) && FourClients(s1) then Some(s1) else None
    case other => None
  }

  // ----- the invariant

  /** The end of the pages the client holds: heap_top, or one page more while the answer of a
      granted sys_page_alloc is on its way. */
  function HeldTop(c: Client, end: nat): nat {
    if c.pc == Start || c.pc == GotPid then end
    else if c.pc == Allocating then c.heapTop + PAGESIZE
    else c.heapTop
  }

  /** The process owns [end, top) and its stack page, and the pages between are free. */
  ghost predicate HeapOwned(info: seq<PageInfo>, pid: nat, end: nat, top: nat)
    requires |info| == NPAGES
  {
    forall pn :: 0 <= pn < NPAGES ==>
      && (end <= pn * PAGESIZE < top ==> info[pn] == PageInfo(pid, 1))
      && (top <= pn * PAGESIZE < StackPage(pid) ==> info[pn].refcount == 0)
      && (pn * PAGESIZE == StackPage(pid) ==> info[pn] == PageInfo(pid, 1))
  }

  predicate InLoop(c: Client) { c.pc == Loop || c.pc == Allocating || c.pc == Finished }

  /** The calls of rand(), among the first `draws` after srand(pid), that select the allocation
      branch of process `pid`. */
  ghost function LuckyDraws(pid: nat, draws: nat): set<nat> {
    set n: nat | 1 <= n <= draws && IsLucky(pid, n)
  }

  predicate IsLucky(pid: nat, n: nat) { Rand.Output(pid, n) % 100 < pid }

  /** The client holds one heap page for each lucky draw it has made, the one asked for included. Once
      finished it is at its stack page, and its last draw was a lucky one that found the heap full. */
  ghost predicate HeapAccounted(c: Client, pid: nat, end: nat) {
    if c.pc == Finished then
      && c.draws >= 1 && c.draws in LuckyDraws(pid, c.draws) && c.heapTop == StackPage(pid)
      && HeldTop(c, end) == end + PAGESIZE * (|LuckyDraws(pid, c.draws)| - 1)
    else InLoop(c) ==> HeldTop(c, end) == end + PAGESIZE * |LuckyDraws(pid, c.draws)|
  }

  lemma LuckyStep(pid: nat, n: nat)
    ensures LuckyDraws(pid, 0) == {}
    ensures var before, after := LuckyDraws(pid, n), LuckyDraws(pid, n + 1);
            if IsLucky(pid, n + 1) then n + 1 in after && |after| == |before| + 1 else after == before
  {
    hide IsLucky;
    var before, after := LuckyDraws(pid, n), LuckyDraws(pid, n + 1);
    if IsLucky(pid, n + 1) {
      assert after == before + {n + 1};
    } else {
      assert after == before;
    }
  }

  /** One client: its variables, its pending answer, and its pages. */
  ghost predicate ClientInv(c: Client, pid: nat, end: nat, p: Proc, info: seq<PageInfo>)
    requires |info| == NPAGES
  {
    && p.state == P_RUNNABLE
    && (c.pc == GotPid ==> p.regs.rax == pid)
    && (c.pc == Allocating ==> p.regs.rax == 0)
    && (InLoop(c) ==> c.p == pid && c.seed == Rand.State(pid, c.draws) && c.stackBottom == StackPage(pid))
    && end % PAGESIZE == 0 && HeldTop(c, end) % PAGESIZE == 0
    && StackPage(pid) + PAGESIZE - PROC_SIZE <= end <= HeldTop(c, end) <= StackPage(pid)
    && (c.pc == Allocating ==> end <= c.heapTop)
    && (c.pc == Finished ==> c.heapTop == c.stackBottom)
    && HeapOwned(info, pid, end, HeldTop(c, end)) && HeapAccounted(c, pid, end)
  }

  ghost predicate SystemInv(L: Layout, s: System, ends: seq<nat>) {
    && Ready(L, s.k) && FourClients(s) && |ends| == NCLIENTS
    && SetUpTo(s.k.procs, NCLIENTS + 1)
    && forall i :: 0 <= i < NCLIENTS ==> ClientInv(s.clients[i], i + 1, ends[i], s.k.procs[i + 1], s.k.pageinfo)
  }

  // ----- the kernel's answers

  predicate IsClientTrap(intno: nat) {
    intno == INT_TIMER || intno == INT_SYS_YIELD || intno == INT_SYS_GETPID || intno == INT_SYS_PAGE_ALLOC
  }

  /** The registers a process is resumed with. */
  function Answer(k: K, ev: Event): Registers
    requires Shaped(k)
  {
    if ev.regs.intno == INT_SYS_GETPID then ev.regs.(rax := k.current)
    else if ev.regs.intno == INT_SYS_PAGE_ALLOC then
      ev.regs.(rax := if Assignable(k.pageinfo, ev.regs.rdi) then 0 else MINUS_ONE)
    else ev.regs
  }

  /** What a client's trap does: only the caller's registers and the granted page change. */
  ghost predicate Served(L: Layout, k: K, ev: Event, k1: K)
    requires Shaped(k)
  {
    && Ready(L, k1) && k1.pageinfo == InfoAfter(k, ev)
    && k1.procs == k.procs[k.current := k.procs[k.current].(regs := Answer(k, ev))]
    && (ev.regs.intno == INT_SYS_GETPID || ev.regs.intno == INT_SYS_PAGE_ALLOC ==> k1.current == k.current)
    && (ev.regs.intno == INT_TIMER || ev.regs.intno == INT_SYS_YIELD ==>
          NextFrom(k1.procs, k.current, NPROC) == Some(k1.current))
  }

  lemma ClientTrapServed(L: Layout, k: K, ev: Event)
    requires Ready(L, k) && EventOk(ev) && IsClientTrap(ev.regs.intno)
    ensures Exception(L, k, ev).Running? && Served(L, k, ev, Exception(L, k, ev).k)
  {
    hide Inv, Exception, Checked, Schedule, RunProc, PageAlloc, SetRax, NextFrom, Assignable;
    InvFacts(L, k);
    ChecksPass(L, k, ev);
    var k1 := Checked(k, ev);
    InvFacts(L, k1);
    if ev.regs.intno == INT_SYS_YIELD {
      RotateServed(L, k, ev, k1);
    } else if ev.regs.intno == INT_TIMER {
      var k2 := k1.(ticks := (k1.ticks + 1) % 0x1_0000_0000);
      TicksKeepInv(L, k1, k2);
      RotateServed(L, k, ev, k2);
    } else if ev.regs.intno == INT_SYS_GETPID {
      SetRaxKeepsReady(L, k1, k1.procs[k1.current].pid);
      SetRaxShape(k1, k1.procs[k1.current].pid);
      RunKeepsInv(L, SetRax(k1, k1.procs[k1.current].pid), k1.current);
    } else {
      PageAllocEffect(L, k1);
      var k2 := PageAlloc(L, k1).k;
      RunKeepsInv(L, k2, k2.current);
      assert k2.procs == k1.procs[k1.current := k2.procs[k1.current]];
    }
  }

  lemma RotateServed(L: Layout, k: K, ev: Event, k1: K)
    requires Ready(L, k) && Inv(L, k1) && k1.pageinfo == k.pageinfo && k1.current == k.current
    requires k1.procs == k.procs[k.current := k.procs[k.current].(regs := ev.regs)]
    requires ev.regs.intno == INT_TIMER || ev.regs.intno == INT_SYS_YIELD
    ensures Schedule(L, k1).Running? && Served(L, k, ev, Schedule(L, k1).k)
  {
    hide Inv, Schedule, NextFrom;
    InvFacts(L, k);
    assert k1.procs[k.current].state == P_RUNNABLE;
    InvFacts(L, k1);
    ScheduleKeepsInv(L, k1);
    ScheduleFindsRunnable(k1.procs, k1.current);
  }

  // ----- one step keeps the invariant

  lemma StackPages(pid: nat)
    requires 1 <= pid <= NCLIENTS
    ensures StackPage(pid) % PAGESIZE == 0 && StackPage(pid) + PAGESIZE <= MEMSIZE_PHYSICAL
  {
  }

  /** The pages after the client's trap. */
  function InfoAfterTrap(info: seq<PageInfo>, pid: nat, intno: nat, rdi: nat): (r: seq<PageInfo>)
    requires |info| == NPAGES
    ensures |r| == NPAGES
  {
    if intno == INT_SYS_PAGE_ALLOC then Assign(info, rdi, pid) else info
  }

  /** One stretch of a client that is served: what it asks for, and how many draws it makes. */
  ghost predicate Behaves(c: Client, pid: nat, end: nat, g: Stretch) {
    match c.pc
    case Start => g == Stretch(c.(pc := GotPid), INT_SYS_GETPID, 0)
    case Allocating => g == Stretch(c.(pc := Loop, heapTop := c.heapTop + PAGESIZE), INT_SYS_YIELD, 0)
    case Finished => g == Stretch(c, INT_SYS_YIELD, 0)
    case _ =>
      var n, top := if c.pc == Loop then c.draws + 1 else 1, if c.pc == Loop then c.heapTop else end;
      && g.client.draws == n && g.client.heapTop == top
      && if Rand.Output(pid, n) % 100 >= pid then g.intno == INT_SYS_YIELD && g.client.pc == Loop
         else if top == StackPage(pid) then g.intno == INT_SYS_YIELD && g.client.pc == Finished
         else g.intno == INT_SYS_PAGE_ALLOC && g.rdi == top && g.client.pc == Allocating
  }

  /** process_main, in terms of the outputs of rand(): every pass of the loop makes one draw; a lucky
      one asks for the page at heap_top, or ends the loop when the heap is full; then it yields. */
  lemma ClientBehaves(c: Client, pid: nat, end: nat, p: Proc, info: seq<PageInfo>, rsp: nat, writable: bool)
    requires |info| == NPAGES && ClientInv(c, pid, end, p, info) && 1 <= pid <= NCLIENTS
    requires StackPage(pid) < rsp <= StackPage(pid) + PAGESIZE && (c.pc == Allocating ==> writable)
    ensures Behaves(c, pid, end, Resume(c, p.regs.rax, end, rsp, writable))
  {
    hide HeapOwned, HeapAccounted, Rand.Next;
    if c.pc == GotPid {
      assert Rand.State(pid, 0) == pid && (rsp - 1) / PAGESIZE * PAGESIZE == StackPage(pid);
      assert Rand.State(pid, 1) == Rand.Next(Rand.State(pid, 0));
    } else if c.pc == Loop {
      assert Rand.State(pid, c.draws + 1) == Rand.Next(Rand.State(pid, c.draws));
    }
  }

  /** The running client always traps with a call the kernel serves; in particular its store
      through heap_top does not fault. */
  lemma StretchTraps(L: Layout, s: System, ends: seq<nat>, mv: Move)
    requires SystemInv(L, s, ends) && MoveOk(s, mv)
    ensures Behaves(s.clients[s.k.current - 1], s.k.current, ends[s.k.current - 1], StretchOf(L, s, ends, mv))
    ensures IsClientTrap(EventOf(L, s, ends, mv).regs.intno)
    ensures s.clients[s.k.current - 1].pc == Allocating ==> Writable(L, s.k.mem, s.clients[s.k.current - 1].heapTop)
  {
    hide KernelTables, PagesInv, OwnersLive, ProcsInv, HeapOwned, HeapAccounted, Resume, Rand.Output, Writable;
    var c := s.clients[s.k.current - 1];
    assert ClientInv(c, s.k.current, ends[s.k.current - 1], s.k.procs[s.k.current], s.k.pageinfo);
    StackPages(s.k.current);
    if c.pc == Allocating {
      WritableBelow(L, s.k.mem, c.heapTop);
    }
    ClientBehaves(c, s.k.current, ends[s.k.current - 1], s.k.procs[s.k.current], s.k.pageinfo, mv.rsp,
                  Writable(L, s.k.mem, c.heapTop));
  }

  lemma WritableBelow(L: Layout, m: Mem, va: nat)
    requires KernelTables(m, L.tables) && va < MEMSIZE_PHYSICAL
    ensures Writable(L, m, va)
  {
    hide Tables, Tree;
    IdentityMapped(m, L.tables, va);
  }

  lemma HeapCounted(c: Client, pid: nat, end: nat, g: Stretch)
    requires HeapAccounted(c, pid, end) && Behaves(c, pid, end, g)
    ensures HeapAccounted(g.client, pid, end)
  {
    hide LuckyDraws, Rand.Output;
    LuckyStep(pid, c.draws);
    LuckyStep(pid, 0);
  }

  /** The client's view of one stretch: its trap, and the answer it is resumed with. */
  lemma ResumeKept(c: Client, pid: nat, end: nat, p: Proc, info: seq<PageInfo>, rsp: nat, writable: bool, p1: Proc)
    requires |info| == NPAGES && ClientInv(c, pid, end, p, info) && 1 <= pid <= NCLIENTS
    requires StackPage(pid) < rsp <= StackPage(pid) + PAGESIZE && (c.pc == Allocating ==> writable)
    requires var g := Resume(c, p.regs.rax, end, rsp, writable);
             && p1.state == P_RUNNABLE
             && (g.intno == INT_SYS_GETPID ==> p1.regs.rax == pid)
             && (g.intno == INT_SYS_PAGE_ALLOC && Assignable(info, g.rdi) ==> p1.regs.rax == 0)
    ensures var g := Resume(c, p.regs.rax, end, rsp, writable);
            ClientInv(g.client, pid, end, p1, InfoAfterTrap(info, pid, g.intno, g.rdi))
  {
    hide HeapOwned, HeapAccounted, Behaves, Rand.Next, Assign, Assignable;
    ClientBehaves(c, pid, end, p, info, rsp, writable);
    StackPages(pid);
    var g := Resume(c, p.regs.rax, end, rsp, writable);
    if c.pc == GotPid {
      assert Rand.State(pid, 0) == pid;
      assert (rsp - 1) / PAGESIZE * PAGESIZE == StackPage(pid);
    }
    HeapCounted(c, pid, end, g);
    if g.intno == INT_SYS_PAGE_ALLOC {
      HeapGrows(info, pid, end, g.rdi);
    }
  }

  /** What a step does to the running client. */
  lemma ActiveClientKept(L: Layout, s: System, ends: seq<nat>, mv: Move)
    requires SystemInv(L, s, ends) && MoveOk(s, mv)
    ensures var ev := EventOf(L, s, ends, mv);
            var pid := s.k.current;
            ClientInv(ClientsAfter(L, s, ends, mv)[pid - 1], pid, ends[pid - 1],
                      s.k.procs[pid].(regs := Answer(s.k, ev)), InfoAfter(s.k, ev))
  {
    hide KernelTables, PagesInv, OwnersLive, ProcsInv, Writable, Resume, HeapOwned, Assignable;
    StretchTraps(L, s, ends, mv);
    var pid := s.k.current;
    var c, end, p := s.clients[pid - 1], ends[pid - 1], s.k.procs[pid];
    assert ClientInv(c, pid, end, p, s.k.pageinfo);
    if !mv.timer {
      ResumeKept(c, pid, end, p, s.k.pageinfo, mv.rsp, Writable(L, s.k.mem, c.heapTop),
                 p.(regs := Answer(s.k, EventOf(L, s, ends, mv))));
      assert InfoAfter(s.k, EventOf(L, s, ends, mv)) ==
        InfoAfterTrap(s.k.pageinfo, pid, StretchOf(L, s, ends, mv).intno, StretchOf(L, s, ends, mv).rdi);
    }
  }

  /** The page at the heap top is free, so the kernel grants it and the heap grows by it. */
  lemma HeapGrows(info: seq<PageInfo>, pid: nat, end: nat, top: nat)
    requires |info| == NPAGES && HeapOwned(info, pid, end, top) && 1 <= pid <= NCLIENTS
    requires top % PAGESIZE == 0 && end <= top < StackPage(pid)
    ensures Assignable(info, top) && HeapOwned(Assign(info, top, pid), pid, end, top + PAGESIZE)
  {
    StackPages(pid);
    assert top / PAGESIZE * PAGESIZE == top;
  }

  /** A page granted in one slot leaves the other slots alone. */
  lemma OtherSlotKept(info: seq<PageInfo>, pid: nat, end: nat, top: nat, other: nat, addr: nat)
    requires |info| == NPAGES && HeapOwned(info, pid, end, top)
    requires 1 <= pid <= NCLIENTS && 1 <= other <= NCLIENTS && pid != other
    requires StackPage(pid) + PAGESIZE - PROC_SIZE <= end <= top <= StackPage(pid)
    requires StackPage(other) + PAGESIZE - PROC_SIZE <= addr < StackPage(other)
    ensures HeapOwned(Assign(info, addr, other), pid, end, top)
  {
  }

  /** A step never stops the system, and keeps every client's invariant. */
  lemma StepKeepsInv(L: Layout, s: System, ends: seq<nat>, mv: Move)
    requires SystemInv(L, s, ends) && MoveOk(s, mv)
    ensures Step(L, s, ends, mv).Some? && SystemInv(L, Step(L, s, ends, mv).value, ends)
    ensures Step(L, s, ends, mv).value.clients == ClientsAfter(L, s, ends, mv)
  {
    hide Inv, Exception, ClientInv, StretchOf, Answer, InfoAfter, NextFrom;
    InvFacts(L, s.k);
    var ev := EventOf(L, s, ends, mv);
    StretchTraps(L, s, ends, mv);
    ClientTrapServed(L, s.k, ev);
    var k1 := Exception(L, s.k, ev).k;
    InvFacts(L, k1);
    ActiveClientKept(L, s, ends, mv);
    var after := ClientsAfter(L, s, ends, mv);
    forall i | 0 <= i < NCLIENTS
      ensures ClientInv(after[i], i + 1, ends[i], k1.procs[i + 1], k1.pageinfo)
    {
      if i + 1 != s.k.current { OtherClientKept(L, s, ends, mv, i); }
    }
    CurrentIsClient(L, s, ev, k1);
  }

  lemma CurrentIsClient(L: Layout, s: System, ev: Event, k1: K)
    requires Shaped(s.k) && FourClients(s) && SetUpTo(s.k.procs, NCLIENTS + 1) && Served(L, s.k, ev, k1)
    requires IsClientTrap(ev.regs.intno)
    ensures 1 <= k1.current <= NCLIENTS && SetUpTo(k1.procs, NCLIENTS + 1)
  {
    hide Inv, Answer, InfoAfter;
  }

  lemma OtherClientKept(L: Layout, s: System, ends: seq<nat>, mv: Move, i: nat)
    requires SystemInv(L, s, ends) && MoveOk(s, mv) && i < NCLIENTS && i + 1 != s.k.current
    ensures ClientInv(s.clients[i], i + 1, ends[i], s.k.procs[i + 1], InfoAfter(s.k, EventOf(L, s, ends, mv)))
  {
    hide KernelTables, PagesInv, OwnersLive, ProcsInv, Writable, HeapOwned, Rand.Next, Assignable;
    var pid := s.k.current;
    var c := s.clients[pid - 1];
    assert ClientInv(s.clients[i], i + 1, ends[i], s.k.procs[i + 1], s.k.pageinfo);
    assert ClientInv(c, pid, ends[pid - 1], s.k.procs[pid], s.k.pageinfo);
    var ev := EventOf(L, s, ends, mv);
    if ev.regs.intno == INT_SYS_PAGE_ALLOC {
      RequestInSlot(c, pid, ends[pid - 1], s.k.procs[pid], s.k.pageinfo, mv.rsp, Writable(L, s.k.mem, c.heapTop));
      OtherSlotKept(s.k.pageinfo, i + 1, ends[i], HeldTop(s.clients[i], ends[i]), pid, ev.regs.rdi);
    }
  }

  /** A client only ever asks for pages of its own slot below its stack page. */
  lemma RequestInSlot(c: Client, pid: nat, end: nat, p: Proc, info: seq<PageInfo>, rsp: nat, writable: bool)
    requires |info| == NPAGES && ClientInv(c, pid, end, p, info) && 1 <= pid <= NCLIENTS
    requires StackPage(pid) < rsp <= StackPage(pid) + PAGESIZE
    requires Resume(c, p.regs.rax, end, rsp, writable).intno == INT_SYS_PAGE_ALLOC
    ensures end <= Resume(c, p.regs.rax, end, rsp, writable).rdi < StackPage(pid)
  {
    hide HeapOwned, Rand.Next;
    StackPages(pid);
    assert (rsp - 1) / PAGESIZE * PAGESIZE == StackPage(pid);
  }

  // ----- whole runs

  ghost predicate MovesOk(L: Layout, s: System, ends: seq<nat>, mvs: seq<Move>)
    requires Shaped(s.k) && FourClients(s) && |ends| == NCLIENTS
    decreases |mvs|
  {
    mvs == [] || (MoveOk(s, mvs[0])
                  && (Step(L, s, ends, mvs[0]).Some? ==> MovesOk(L, Step(L, s, ends, mvs[0]).value, ends, mvs[1..])))
  }

  ghost function RunSystem(L: Layout, s: System, ends: seq<nat>, mvs: seq<Move>): (r: Option<System>)
    requires Shaped(s.k) && FourClients(s) && |ends| == NCLIENTS && MovesOk(L, s, ends, mvs)
    ensures r.Some? ==> Shaped(r.value.k) && FourClients(r.value)
    decreases |mvs|
  {
    if mvs == [] then Some(s)
    else
      match Step(L, s, ends, mvs[0])
      case None => None
      case Some(s1) => RunSystem(L, s1, ends, mvs[1..])
  }

  lemma InvShape(L: Layout, s: System, ends: seq<nat>)
    requires SystemInv(L, s, ends)
    ensures Shaped(s.k) && FourClients(s) && |ends| == NCLIENTS
  {
  }

  /** In any interleaving the four processes run for ever, and every client keeps its invariant. */
  lemma {:induction false} RunKeepsSystemInv(L: Layout, s: System, ends: seq<nat>, mvs: seq<Move>)
    requires SystemInv(L, s, ends) && MovesOk(L, s, ends, mvs)
    ensures RunSystem(L, s, ends, mvs).Some? && SystemInv(L, RunSystem(L, s, ends, mvs).value, ends)
    decreases |mvs|
  {
    hide SystemInv, Step, FourClients, MoveOk;
    InvShape(L, s, ends);
    if mvs != [] {
      StepKeepsInv(L, s, ends, mvs[0]);
      RunKeepsSystemInv(L, Step(L, s, ends, mvs[0]).value, ends, mvs[1..]);
    }
  }

  // ----- progress

  /** Since `c0` the client has allocated, is allocating, or has stopped. */
  predicate Advanced(c0: Client, c: Client) {
    c.pc == Finished || c.heapTop > c0.heapTop || (c.pc == Allocating && c.heapTop == c0.heapTop)
  }

  predicate Unlucky(pid: nat, n: nat) { Rand.Output(pid, n) % ALLOC_SLOWDOWN >= pid }

  /** Since `c0` the client has only made draws that did not select the allocation branch. */
  ghost predicate Waiting(pid: nat, c0: Client, c: Client) {
    && c.pc == Loop && c.heapTop == c0.heapTop && c0.draws <= c.draws
    && forall n: nat :: c0.draws < n <= c.draws ==> Unlucky(pid, n)
  }

  /** No process waits through 2^31 draws. */
  lemma WaitIsBounded(pid: nat, c0: Client, c: Client)
    requires Waiting(pid, c0, c) && pid >= 1
    ensures c.draws < c0.draws + Rand.TWO31
  {
    hide Rand.Output;
    Rand.OutputsOnce(pid, c0.draws, 0);
    var n: nat :| c0.draws < n <= c0.draws + Rand.TWO31 && Rand.Output(pid, n) == 0;
    assert !Unlucky(pid, n);
  }

  lemma ClientProgress(L: Layout, s: System, ends: seq<nat>, mv: Move, i: nat, c0: Client)
    requires SystemInv(L, s, ends) && MoveOk(s, mv) && i < NCLIENTS
    requires Advanced(c0, s.clients[i]) || Waiting(i + 1, c0, s.clients[i])
    requires InLoop(s.clients[i])
    ensures var c := ClientsAfter(L, s, ends, mv)[i];
            InLoop(c) && (Advanced(c0, c) || Waiting(i + 1, c0, c))
  {
    hide KernelTables, PagesInv, OwnersLive, ProcsInv, HeapOwned, Rand.Next, Writable;
    var c := s.clients[i];
    assert ClientInv(c, i + 1, ends[i], s.k.procs[i + 1], s.k.pageinfo);
    StretchTraps(L, s, ends, mv);
    assert Rand.State(i + 1, c.draws + 1) == Rand.Next(Rand.State(i + 1, c.draws));
    var c1 := ClientsAfter(L, s, ends, mv)[i];
    if Waiting(i + 1, c0, c) && c1.pc == Loop && c1.draws == c.draws + 1 {
      assert Rand.Output(i + 1, c.draws + 1) == c1.seed % Rand.TWO31;
      assert Unlucky(i + 1, c.draws + 1);
    }
  }

  /** Over a run, a client in its loop is either further on or still waiting for a draw. */
  lemma {:induction false} RunProgress(L: Layout, s: System, ends: seq<nat>, mvs: seq<Move>, i: nat, c0: Client)
    requires SystemInv(L, s, ends) && MovesOk(L, s, ends, mvs) && i < NCLIENTS && InLoop(s.clients[i])
    requires Advanced(c0, s.clients[i]) || Waiting(i + 1, c0, s.clients[i])
    ensures RunSystem(L, s, ends, mvs).Some?
    ensures var c := RunSystem(L, s, ends, mvs).value.clients[i];
            Advanced(c0, c) || Waiting(i + 1, c0, c)
    decreases |mvs|
  {
    hide SystemInv, Step, MoveOk, ClientsAfter, Advanced, Waiting;
    InvShape(L, s, ends);
    if mvs != [] {
      StepKeepsInv(L, s, ends, mvs[0]);
      ClientProgress(L, s, ends, mvs[0], i, c0);
      RunProgress(L, Step(L, s, ends, mvs[0]).value, ends, mvs[1..], i, c0);
    }
  }

  /** What holds of one client at the end of a run that began with it as `c0`. */
  ghost predicate ClientOutcome(s: System, i: nat, end: nat, c0: Client)
    requires Shaped(s.k) && FourClients(s) && i < NCLIENTS
  {
    var c, pid := s.clients[i], i + 1;
    // it owns exactly the pages below heap_top, one for each lucky draw
    && HeapOwned(s.k.pageinfo, pid, end, HeldTop(c, end)) && HeapAccounted(c, pid, end)
    // a pending answer is a success
    && (c.pc == Allocating ==> s.k.procs[pid].regs.rax == 0)
    // it stops exactly at its stack page
    && (c.pc == Finished ==> c.heapTop == c.stackBottom == StackPage(pid))
    // 2^31 draws do not pass without an allocation
    && (c0.pc == Loop && c.draws >= c0.draws + Rand.TWO31 ==> Advanced(c0, c))
  }

  /** In every interleaving of the four processes with each other and with timer interrupts:
      the kernel never stops, no sys_page_alloc fails, each process owns exactly the heap pages
      below its heap_top, one for each lucky draw, stops exactly at its stack page, and allocates
      within 2^31 draws. */
  lemma AllocatorsRun(L: Layout, s: System, ends: seq<nat>, mvs: seq<Move>)
    requires SystemInv(L, s, ends) && MovesOk(L, s, ends, mvs)
    ensures RunSystem(L, s, ends, mvs).Some?
    ensures forall i :: 0 <= i < NCLIENTS ==> ClientOutcome(RunSystem(L, s, ends, mvs).value, i, ends[i], s.clients[i])
  {
    hide KernelTables, PagesInv, OwnersLive, ProcsInv, MovesOk, RunSystem, HeapOwned;
    RunKeepsSystemInv(L, s, ends, mvs);
    var t := RunSystem(L, s, ends, mvs).value;
    forall i | 0 <= i < NCLIENTS
      ensures ClientOutcome(t, i, ends[i], s.clients[i])
    {
      var c0, c := s.clients[i], t.clients[i];
      assert ClientInv(c, i + 1, ends[i], t.k.procs[i + 1], t.k.pageinfo);
      if c0.pc == Loop {
        RunProgress(L, s, ends, mvs, i, c0);
        if Waiting(i + 1, c0, c) { WaitIsBounded(i + 1, c0, c); }
      }
    }
  }

  const NEW_CLIENT := Client(Start, 0, 0, 0, 0, 0)

  function BootedSystem(k: K): System { System(k, [NEW_CLIENT, NEW_CLIENT, NEW_CLIENT, NEW_CLIENT]) }

  /** Booting the four allocators starts such a run: with images that fit their slots, have the
      magic number, and whose segments share no page, the kernel reaches process 1. */
  lemma BootStartsAllocators(L: Layout, m: Mem, ram: seq<nat>, progs: seq<Program>, ends: seq<nat>)
    requires L.Valid() && |ram| == MEMSIZE_PHYSICAL && |progs| == NCLIENTS && AllFit(progs, ends)
    requires forall i :: 0 <= i < |progs| ==> progs[i].Good()
    requires forall i :: 0 <= i < |progs| ==> ImageOk(progs[i])
    ensures Boot(L, m, ram, progs).Running?
    ensures SystemInv(L, BootedSystem(Boot(L, m, ram, progs).k), ends)
  {
    hide Boot, ImageOk, AllSetUp, AllFit, SystemInv, Ready;
    BootSucceeds(L, m, ram, progs, ends);
    BootIsReady(L, m, ram, progs, ends);
    ClientsReady(L, Boot(L, m, ram, progs).k, progs, ends);
  }

  /** In the booted system every client is about to start, with its stack page and a free heap. */
  lemma ClientsReady(L: Layout, k: K, progs: seq<Program>, ends: seq<nat>)
    requires Ready(L, k) && k.current == 1 && |progs| == NCLIENTS && AllFit(progs, ends) && AllSetUp(L, k, progs, ends)
    ensures SystemInv(L, BootedSystem(k), ends)
  {
    hide Inv, FitsSlot, SlotOpen, ClientInv, UpperFree;
    InvFacts(L, k);
    forall i | 0 <= i < NCLIENTS
      ensures ClientInv(NEW_CLIENT, i + 1, ends[i], k.procs[i + 1], k.pageinfo)
    {
      ClientReady(progs[i], i + 1, ends[i], k.procs[i + 1], k.pageinfo);
    }
  }

  lemma ClientReady(prog: Program, pid: nat, end: nat, p: Proc, info: seq<PageInfo>)
    requires FitsSlot(prog, pid, end) && |info| == NPAGES && SlotOpen(info, pid, end) && p.state == P_RUNNABLE
    ensures ClientInv(NEW_CLIENT, pid, end, p, info)
  {
    hide Covered;
  }
}
