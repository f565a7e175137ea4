/**
  Properties of whole kernel runs: every assertion of check_virtual_memory holds in every
  reachable state, physical pages are accounted for, and the scheduler bypasses nobody for long.
 */
module KernelRuns {
  import opened Kernel
  import opened KernelPages
  import opened KernelState
  import opened Util
  import opened PageTable
  import opened VirtualMemory

  // ----- the scheduler

  /** How far `p` is ahead of `cur` in the cyclic scan; 0 is the next candidate. */
  function Distance(cur: nat, p: nat): (d: nat)
    requires cur < NPROC && p < NPROC
    ensures d < NPROC
  {
    (p + NPROC - cur - 1) % NPROC
  }

  /** The scan finds the nearest runnable process among its candidates. */
  lemma {:induction false} NextIsNearest(procs: seq<Proc>, cur: nat, steps: nat)
    requires |procs| == NPROC && cur < NPROC && steps <= NPROC
    ensures var r := NextFrom(procs, cur, steps);
            && (r.Some? ==> Distance(cur, r.value) < steps)
            && (r.Some? ==>
                  forall p :: 0 <= p < NPROC && procs[p].state == P_RUNNABLE ==>
                    Distance(cur, r.value) <= Distance(cur, p))
            && (r.None? ==> forall p :: 0 <= p < NPROC && procs[p].state == P_RUNNABLE ==> Distance(cur, p) >= steps)
    decreases steps
  {
    hide Distance;
    if steps > 0 {
      var q := (cur + 1) % NPROC;
      forall p | 0 <= p < NPROC
        ensures Distance(cur, p) == if p == q then 0 else Distance(q, p) + 1
      {
        DistanceStep(cur, p);
      }
      if procs[q].state != P_RUNNABLE {
        NextIsNearest(procs, q, steps - 1);
      }
    }
  }

  lemma DistanceIs(cur: nat, p: nat)
    requires cur < NPROC && p < NPROC
    ensures Distance(cur, p) == if p > cur then p - cur - 1 else p + NPROC - cur - 1
  {
  }

  lemma DistanceStep(cur: nat, p: nat)
    requires cur < NPROC && p < NPROC
    ensures Distance(cur, p) == if p == (cur + 1) % NPROC then 0 else Distance((cur + 1) % NPROC, p) + 1
  {
  }

  /** schedule() runs some process exactly when one is runnable. */
  lemma ScheduleFindsRunnable(procs: seq<Proc>, cur: nat)
    requires |procs| == NPROC && cur < NPROC
    ensures NextFrom(procs, cur, NPROC).Some? <==> exists p :: 0 <= p < NPROC && procs[p].state == P_RUNNABLE
  {
    NextIsNearest(procs, cur, NPROC);
  }

  /** The processes chosen by successive calls of schedule(), the i-th seeing process table tables[i]. */
  function Picks(tables: seq<seq<Proc>>, cur: nat): seq<nat>
    requires (forall i :: 0 <= i < |tables| ==> |tables[i]| == NPROC) && cur < NPROC
  {
    if tables == [] then []
    else
      match NextFrom(tables[0], cur, NPROC)
      case None => []
      case Some(q) => [q] + Picks(tables[1..], q)
  }

  /** Bounded bypass: however the other processes change between calls, a process that stays
      runnable is chosen within Distance + 1 <= NPROC calls. */
  lemma {:induction false} BoundedBypass(tables: seq<seq<Proc>>, cur: nat, p: nat)
    requires cur < NPROC && p < NPROC && |tables| > Distance(cur, p)
    requires forall i :: 0 <= i < |tables| ==> |tables[i]| == NPROC && tables[i][p].state == P_RUNNABLE
    ensures p in Picks(tables, cur)
    decreases |tables|
  {
    NextIsNearest(tables[0], cur, NPROC);
    var q := NextFrom(tables[0], cur, NPROC).value;
    if q != p {
      CloserAfterPick(cur, q, p);
      BoundedBypass(tables[1..], q, p);
    }
  }

  lemma CloserAfterPick(cur: nat, q: nat, p: nat)
    requires cur < NPROC && q < NPROC && p < NPROC && q != p && Distance(cur, q) <= Distance(cur, p)
    ensures Distance(q, p) < Distance(cur, p)
  {
    hide Distance;
    DistanceIs(cur, q);
    DistanceIs(cur, p);
    DistanceIs(q, p);
  }

  // ----- keeping the invariant

  /** Nothing that the page accounting depends on changed. */
  ghost predicate SameLive(a: seq<Proc>, b: seq<Proc>) {
    && |a| == |b| == NPROC
    && forall i :: 0 <= i < NPROC ==>
         a[i].pid == b[i].pid && a[i].pagetable == b[i].pagetable && (a[i].state == P_FREE <==> b[i].state == P_FREE)
  }

  lemma {:induction false} SharersSame(a: seq<Proc>, b: seq<Proc>, root: nat, n: nat)
    requires SameLive(a, b) && n <= NPROC
    ensures Sharers(a, root, n) == Sharers(b, root, n)
  {
    if n > 0 { SharersSame(a, b, root, n - 1); }
  }

  lemma InvTransfer(L: Layout, k: K, k': K)
    requires Inv(L, k) && SameLive(k.procs, k'.procs) && k'.pageinfo == k.pageinfo
    requires Shaped(k') && KernelTables(k'.mem, L.tables)
    ensures Inv(L, k')
  {
    hide KernelTables;
    SharersSame(k.procs, k'.procs, L.Root(), NPROC);
  }

  /** Kernel state between exceptions: the invariant, and a running process. */
  ghost predicate Ready(L: Layout, k: K) {
    Inv(L, k) && k.procs[k.current].state == P_RUNNABLE
  }

  lemma OverlayKeepsTables(L: Layout, k: K, user: Mem)
    requires Inv(L, k)
    ensures KernelTables(Overlay(k, user), L.tables)
  {
    hide Tree;
    var m := Overlay(k, user);
    forall p | L.tables <= p < L.tables + 5
      ensures m[p] == k.mem[p]
    {
    }
  }

  lemma EnteredKeepsInv(L: Layout, k: K, ev: Event)
    requires Ready(L, k) && EventOk(ev)
    ensures Ready(L, Entered(k, ev)) && VirtualMemoryOk(L, Entered(k, ev)) && AllShowable(Entered(k, ev))
    ensures PagetableUsable(L, Entered(k, ev).mem, L.Root())
  {
    hide KernelTables, VirtualMemoryOk, PagetableUsable, AllShowable;
    OverlayKeepsTables(L, k, ev.mem);
    InvTransfer(L, k, Entered(k, ev));
    InvPassesChecks(L, Entered(k, ev));
    KernelTablesUsable(L, Entered(k, ev).mem);
  }

  lemma RunKeepsInv(L: Layout, k: K, pid: nat)
    requires Inv(L, k) && pid < NPROC && k.procs[pid].state == P_RUNNABLE
    ensures RunProc(L, k, pid) == Running(k.(current := pid)) && Ready(L, k.(current := pid))
  {
    hide KernelTables, PagetableUsable;
    KernelTablesUsable(L, k.mem);
  }

  lemma ScheduleKeepsInv(L: Layout, k: K)
    requires Inv(L, k) && Shaped(k)
    ensures var o := Schedule(L, k);
            match NextFrom(k.procs, k.current, NPROC)
            case None => o == Spinning(k)
            case Some(q) => o == Running(k.(current := q)) && Ready(L, k.(current := q))
  {
    hide Inv, Ready, RunProc, NextFrom;
    match NextFrom(k.procs, k.current, NPROC)
    case None =>
    case Some(q) => RunKeepsInv(L, k, q);
  }

  /** The pages after PAGE_ALLOC of `addr` by `pid`. */
  lemma AssignKeepsInv(L: Layout, k: K, addr: nat)
    requires Ready(L, k) && Assignable(k.pageinfo, addr)
    ensures Ready(L, k.(pageinfo := Assign(k.pageinfo, addr, k.current)))
  {
    hide KernelTables, Sharers;
    assert k.pageinfo[L.tables].refcount >= 1;
    var info := Assign(k.pageinfo, addr, k.current);
    forall pn | 0 <= pn < NPAGES
      ensures OwnerLive(k.procs, info[pn])
    {
      assert OwnerLive(k.procs, k.pageinfo[pn]);
    }
  }

  lemma SetRaxKeepsReady(L: Layout, k: K, rax: nat)
    requires Ready(L, k)
    ensures Ready(L, SetRax(k, rax))
  {
    hide KernelTables;
    InvTransfer(L, k, SetRax(k, rax));
  }

  /** PAGE_ALLOC never panics; it grants exactly the assignable pages and answers 0 for them, -1 otherwise. */
  lemma PageAllocEffect(L: Layout, k: K)
    requires Ready(L, k)
    ensures var o := PageAlloc(L, k);
            var addr := k.procs[k.current].regs.rdi;
            && o.Running? && Ready(L, o.k) && o.k.current == k.current && o.k.mem == k.mem && o.k.ram == k.ram
            && o.k.pageinfo == Assign(k.pageinfo, addr, k.current)
            && (forall i :: 0 <= i < NPROC && i != k.current ==> o.k.procs[i] == k.procs[i])
            && o.k.procs[k.current]
               == k.procs[k.current].(
                  regs := k.procs[k.current].regs.(rax := if Assignable(k.pageinfo, addr) then 0 else MINUS_ONE))
  {
    hide KernelTables, CodeMap, Inv, Tree;
    InvFacts(L, k);
    var addr := k.procs[k.current].regs.rdi;
    if Assignable(k.pageinfo, addr) {
      IdentityMapIsNoop(k.mem, [], L.tables, addr);
      AssignKeepsInv(L, k, addr);
      SetRaxKeepsReady(L, k.(pageinfo := Assign(k.pageinfo, addr, k.current)), 0);
    } else {
      SetRaxKeepsReady(L, k, MINUS_ONE);
    }
  }

  lemma InvFacts(L: Layout, k: K)
    requires Inv(L, k)
    ensures L.Valid() && KernelTables(k.mem, L.tables) && Shaped(k)
    ensures L.Root() / PAGESIZE == L.tables && L.Root() < MEMSIZE_PHYSICAL
    ensures forall i :: 0 <= i < NPROC ==>
              k.procs[i].pid == i && (k.procs[i].state != P_FREE ==> k.procs[i].pagetable == L.Root())
  {
  }

  // ----- one exception

  /** The state in which the switch of exception() starts. */
  function Checked(k: K, ev: Event): (r: K)
    requires Shaped(k) && EventOk(ev)
    ensures Shaped(r) && r == Entered(k, ev).(view := r.view)
  {
    if ShowsMemory(ev.regs) then Animated(Entered(k, ev)) else Entered(k, ev)
  }

  lemma ViewKeepsReady(L: Layout, k: K, view: View)
    requires Ready(L, k)
    ensures Ready(L, k.(view := view))
  {
    hide KernelTables;
  }

  /** Between exceptions no assertion fails before the switch. */
  lemma ChecksPass(L: Layout, k: K, ev: Event)
    requires Ready(L, k) && EventOk(ev)
    ensures Exception(L, k, ev) == Dispatch(L, Checked(k, ev), ev) && Ready(L, Checked(k, ev))
    ensures var k1 := Checked(k, ev);
            && k1.procs[k1.current].regs == ev.regs && k1.current == k.current && k1.pageinfo == k.pageinfo
            && k1.procs == k.procs[k.current := k.procs[k.current].(regs := ev.regs)]
  {
    EnteredKeepsInv(L, k, ev);
    var k1 := Entered(k, ev);
    assert k1.procs[k1.current].regs == ev.regs && k1.current == k.current && k1.pageinfo == k.pageinfo;
    hide Ready, Inv, VirtualMemoryOk, PagetableUsable, Dispatch, Entered, Animated, Showable;
    ViewKeepsReady(L, k1, Checked(k, ev).view);
  }

  /** The page a PAGE_ALLOC exception grants: none, or the address asked for. */
  function Granted(k: K, ev: Event): Option<nat>
    requires Shaped(k)
  {
    if ev.regs.intno == INT_SYS_PAGE_ALLOC && Assignable(k.pageinfo, ev.regs.rdi) then Some(ev.regs.rdi) else None
  }

  function InfoAfter(k: K, ev: Event): (r: seq<PageInfo>)
    requires Shaped(k)
    ensures |r| == NPAGES
  {
    match Granted(k, ev)
    case None => k.pageinfo
    case Some(addr) => Assign(k.pageinfo, addr, k.current)
  }

  lemma BreakKeepsInv(L: Layout, k: K)
    requires Ready(L, k)
    ensures Inv(L, k.(procs := k.procs[k.current := k.procs[k.current].(state := P_BROKEN)]))
  {
    hide KernelTables;
    InvTransfer(L, k, k.(procs := k.procs[k.current := k.procs[k.current].(state := P_BROKEN)]));
  }

  /** What one exception leads to. The kernel panics exactly on the interrupts that ask for it;
      otherwise it keeps the invariant and changes only the granted page. */
  ghost predicate GoodOutcome(L: Layout, k: K, ev: Event, o: Outcome)
    requires Shaped(k)
  {
    match o
    case Running(k2) => !AsksForPanic(ev.regs) && Ready(L, k2) && k2.pageinfo == InfoAfter(k, ev)
    case Spinning(k2) => !AsksForPanic(ev.regs) && Inv(L, k2) && k2.pageinfo == InfoAfter(k, ev)
                         && forall p :: 0 <= p < NPROC ==> k2.procs[p].state != P_RUNNABLE
    case Panicking(why) => AsksForPanic(ev.regs) && why == Explicit
  }

  lemma ScheduleOutcome(L: Layout, k: K, ev: Event, k1: K)
    requires Shaped(k) && Shaped(k1) && Inv(L, k1) && k1.pageinfo == InfoAfter(k, ev) && !AsksForPanic(ev.regs)
    ensures GoodOutcome(L, k, ev, Schedule(L, k1))
  {
    hide Inv, Ready, InfoAfter, AsksForPanic, Schedule, NextFrom;
    ScheduleKeepsInv(L, k1);
    ScheduleFindsRunnable(k1.procs, k1.current);
  }

  lemma ExceptionOutcome(L: Layout, k: K, ev: Event)
    requires Ready(L, k) && EventOk(ev)
    ensures GoodOutcome(L, k, ev, Exception(L, k, ev))
  {
    hide Inv, Exception, Checked, Schedule, RunProc, PageAlloc, SetRax;
    InvFacts(L, k);
    ChecksPass(L, k, ev);
    var k1 := Checked(k, ev);
    InvFacts(L, k1);
    if ev.regs.intno == INT_SYS_YIELD {
      ScheduleOutcome(L, k, ev, k1);
    } else if ev.regs.intno == INT_TIMER {
      var k2 := k1.(ticks := (k1.ticks + 1) % 0x1_0000_0000);
      TicksKeepInv(L, k1, k2);
      ScheduleOutcome(L, k, ev, k2);
    } else if ev.regs.intno == INT_SYS_GETPID {
      SetRaxKeepsReady(L, k1, k1.procs[k1.current].pid);
      SetRaxShape(k1, k1.procs[k1.current].pid);
      RunKeepsInv(L, SetRax(k1, k1.procs[k1.current].pid), k1.current);
    } else if ev.regs.intno == INT_SYS_PAGE_ALLOC {
      PageAllocEffect(L, k1);
      var k2 := PageAlloc(L, k1).k;
      RunKeepsInv(L, k2, k2.current);
    } else if ev.regs.intno == INT_PAGEFAULT && IsUserFault(ev.regs) {
      BreakKeepsInv(L, k1);
      ScheduleOutcome(L, k, ev, k1.(procs := k1.procs[k1.current := k1.procs[k1.current].(state := P_BROKEN)]));
    }
  }

  // ----- the whole effect of one exception

  /** The registers the caller finds when it runs again: those it trapped with, and the answer of a
      call in rax. */
  function RegsAfter(k: K, regs: Registers): Registers
    requires Shaped(k)
  {
    if regs.intno == INT_SYS_GETPID then regs.(rax := k.current)
    else if regs.intno == INT_SYS_PAGE_ALLOC then
      regs.(rax := if regs.rdi % PAGESIZE == 0 && regs.rdi < MEMSIZE_PHYSICAL
                      && k.pageinfo[regs.rdi / PAGESIZE].refcount == 0 then 0 else 0xFFFF_FFFF_FFFF_FFFF)
    else regs
  }

  /** A page fault raised in user mode. */
  predicate UserPageFault(regs: Registers) { regs.intno == INT_PAGEFAULT && (regs.err / 4) % 2 == 1 }

  /** What an exception that does not panic leaves behind, whoever runs next: the caller with its
      answer, broken exactly by a page fault of its own; all other processes as they were; the tick
      count one higher exactly after a timer interrupt; memory as user code left it, but for the
      kernel's pages; and the page that was granted. */
  ghost predicate Effect(k: K, ev: Event, k2: K)
    requires Shaped(k)
  {
    var caller := k.procs[k.current].(regs := RegsAfter(k, ev.regs));
    && Shaped(k2)
    && k2.procs == k.procs[k.current := if UserPageFault(ev.regs) then caller.(state := P_BROKEN) else caller]
    && k2.ticks == (if ev.regs.intno == INT_TIMER then (k.ticks + 1) % 0x1_0000_0000 else k.ticks)
    && (forall p :: 0 <= p < NPAGES ==> k2.mem[p] == if k.pageinfo[p].owner == PO_KERNEL then k.mem[p] else ev.mem[p])
    && k2.ram == ev.ram && k2.pageinfo == InfoAfter(k, ev)
  }

  /** The state in which the switch starts, as an effect in the making: registers and memory are in,
      nothing else has happened. */
  ghost predicate Arrived(k: K, ev: Event, k1: K)
    requires Shaped(k)
  {
    && Shaped(k1) && k1.current == k.current && k1.ticks == k.ticks && k1.ram == ev.ram && k1.pageinfo == k.pageinfo
    && k1.procs == k.procs[k.current := k.procs[k.current].(regs := ev.regs)]
    && forall p :: 0 <= p < NPAGES ==> k1.mem[p] == if k.pageinfo[p].owner == PO_KERNEL then k.mem[p] else ev.mem[p]
  }

  lemma CheckedArrives(L: Layout, k: K, ev: Event)
    requires Ready(L, k) && EventOk(ev)
    ensures Shaped(k) && Arrived(k, ev, Checked(k, ev))
  {
    hide Inv, Animated, Exception, Dispatch;
    InvFacts(L, k);
    ChecksPass(L, k, ev);
  }

  /** Traps without an answer of their own. */
  lemma PlainEffect(k: K, ev: Event, k1: K, k2: K)
    requires Shaped(k) && Arrived(k, ev, k1) && (ev.regs.intno == INT_SYS_YIELD || ev.regs.intno == INT_TIMER)
    requires k2 == k1.(ticks := if ev.regs.intno == INT_TIMER then (k1.ticks + 1) % 0x1_0000_0000 else k1.ticks)
    ensures Effect(k, ev, k2)
  {
  }

  lemma BrokenEffect(k: K, ev: Event, k1: K)
    requires Shaped(k) && Arrived(k, ev, k1) && UserPageFault(ev.regs)
    ensures Effect(k, ev, k1.(procs := k1.procs[k1.current := k1.procs[k1.current].(state := P_BROKEN)]))
  {
  }

  lemma GetpidEffect(L: Layout, k: K, ev: Event, k1: K)
    requires Ready(L, k1) && Shaped(k) && Arrived(k, ev, k1) && ev.regs.intno == INT_SYS_GETPID
    ensures Effect(k, ev, SetRax(k1, k1.procs[k1.current].pid))
  {
    hide KernelTables, PagesInv, OwnersLive;
  }

  lemma PageAllocAnswers(L: Layout, k: K, ev: Event, k1: K)
    requires Ready(L, k1) && Shaped(k) && Arrived(k, ev, k1) && ev.regs.intno == INT_SYS_PAGE_ALLOC
    ensures PageAlloc(L, k1).Running? && Effect(k, ev, PageAlloc(L, k1).k)
  {
    hide Inv, PageAlloc;
    PageAllocEffect(L, k1);
    PageAllocRest(L, k1);
    var k2 := PageAlloc(L, k1).k;
    InvFacts(L, k2);
    assert k2.procs == k1.procs[k1.current := k2.procs[k1.current]];
  }

  /** schedule() and run() change only which process is current. */
  lemma CurrentEffect(k: K, ev: Event, k1: K, p: nat)
    requires Shaped(k) && Effect(k, ev, k1) && p < NPROC
    ensures Effect(k, ev, k1.(current := p))
  {
    hide InfoAfter, RegsAfter;
  }

  ghost predicate Ends(k: K, ev: Event, o: Outcome)
    requires Shaped(k)
  {
    match o
    case Panicking(_) => AsksForPanic(ev.regs)
    case Running(k2) => Effect(k, ev, k2)
    case Spinning(k2) => Effect(k, ev, k2)
  }

  lemma ScheduleEnds(L: Layout, k: K, ev: Event, k1: K)
    requires Shaped(k) && Shaped(k1) && Inv(L, k1) && Effect(k, ev, k1)
    ensures Ends(k, ev, Schedule(L, k1))
  {
    hide Inv, Ready, Effect, Schedule, NextFrom;
    ScheduleKeepsInv(L, k1);
    match NextFrom(k1.procs, k1.current, NPROC)
    case None =>
    case Some(q) => CurrentEffect(k, ev, k1, q);
  }

  lemma RunEnds(L: Layout, k: K, ev: Event, k1: K)
    requires Shaped(k) && Ready(L, k1) && Effect(k, ev, k1)
    ensures Shaped(k1) && Ends(k, ev, RunProc(L, k1, k1.current))
  {
    hide Inv, Effect, RunProc;
    InvFacts(L, k1);
    RunKeepsInv(L, k1, k1.current);
    CurrentEffect(k, ev, k1, k1.current);
  }

  /** The cases that end in schedule(). */
  lemma RescheduleEnds(L: Layout, k: K, ev: Event, k1: K)
    requires Shaped(k) && Ready(L, k1) && Arrived(k, ev, k1) && Reschedules(ev.regs)
    ensures Ends(k, ev, Dispatch(L, k1, ev))
  {
    hide Inv, Schedule, Effect, AsksForPanic, Ends, PageAlloc, SetRax;
    InvFacts(L, k1);
    if ev.regs.intno == INT_SYS_YIELD {
      PlainEffect(k, ev, k1, k1);
      ScheduleEnds(L, k, ev, k1);
    } else if ev.regs.intno == INT_TIMER {
      var k2 := k1.(ticks := (k1.ticks + 1) % 0x1_0000_0000);
      TicksKeepInv(L, k1, k2);
      PlainEffect(k, ev, k1, k2);
      ScheduleEnds(L, k, ev, k2);
    } else {
      BrokenEffect(k, ev, k1);
      BreakKeepsInv(L, k1);
      ScheduleEnds(L, k, ev, k1.(procs := k1.procs[k1.current := k1.procs[k1.current].(state := P_BROKEN)]));
    }
  }

  /** The cases that go back to the caller. */
  lemma ReturnEnds(L: Layout, k: K, ev: Event, k1: K)
    requires Shaped(k) && Ready(L, k1) && Arrived(k, ev, k1)
    requires ev.regs.intno == INT_SYS_GETPID || ev.regs.intno == INT_SYS_PAGE_ALLOC
    ensures Ends(k, ev, Dispatch(L, k1, ev))
  {
    hide Inv, RunProc, Effect, AsksForPanic, Ends, PageAlloc, SetRax, Schedule;
    InvFacts(L, k1);
    if ev.regs.intno == INT_SYS_GETPID {
      GetpidEffect(L, k, ev, k1);
      SetRaxKeepsReady(L, k1, k1.procs[k1.current].pid);
      RunEnds(L, k, ev, SetRax(k1, k1.procs[k1.current].pid));
    } else {
      PageAllocAnswers(L, k, ev, k1);
      PageAllocEffect(L, k1);
      RunEnds(L, k, ev, PageAlloc(L, k1).k);
    }
  }

  lemma ExceptionEffect(L: Layout, k: K, ev: Event)
    requires Ready(L, k) && EventOk(ev)
    ensures match Exception(L, k, ev)
            case Panicking(_) => AsksForPanic(ev.regs)
            case Running(k2) => Effect(k, ev, k2)
            case Spinning(k2) => Effect(k, ev, k2)
  {
    hide Inv, Exception, Checked, Effect, Arrived, Dispatch, Reschedules, IsUserFault;
    InvFacts(L, k);
    ChecksPass(L, k, ev);
    CheckedArrives(L, k, ev);
    var k1 := Checked(k, ev);
    if ev.regs.intno == INT_SYS_GETPID || ev.regs.intno == INT_SYS_PAGE_ALLOC {
      ReturnEnds(L, k, ev, k1);
    } else if Reschedules(ev.regs) {
      RescheduleEnds(L, k, ev, k1);
    } else {
      RefusedEnds(L, k, ev, k1);
    }
  }

  lemma RefusedEnds(L: Layout, k: K, ev: Event, k1: K)
    requires Shaped(k) && Arrived(k, ev, k1) && !Reschedules(ev.regs)
    requires ev.regs.intno != INT_SYS_GETPID && ev.regs.intno != INT_SYS_PAGE_ALLOC
    ensures Ends(k, ev, Dispatch(L, k1, ev))
  {
    hide PageAlloc, SetRax, Schedule, Effect;
    assert k1.procs[k1.current].regs == ev.regs;
  }

  lemma PageAllocRest(L: Layout, k: K)
    requires Shaped(k) && PageAlloc(L, k).Running?
    ensures PageAlloc(L, k).k.ticks == k.ticks
  {
    hide CodeMap, Assign;
  }

  lemma TicksKeepInv(L: Layout, k: K, k': K)
    requires Inv(L, k) && k' == k.(ticks := k'.ticks)
    ensures Inv(L, k')
  {
    hide KernelTables;
  }

  lemma SetRaxShape(k: K, rax: nat)
    requires Shaped(k)
    ensures var r := SetRax(k, rax);
            && r.current == k.current && r.pageinfo == k.pageinfo && r.mem == k.mem && r.ticks == k.ticks
            && r.ram == k.ram
            && r.procs == k.procs[k.current := k.procs[k.current].(regs := k.procs[k.current].regs.(rax := rax))]
  {
  }

  // ----- whole runs

  /** Exceptions in sequence, until the kernel panics or spins. */
  ghost function Run(L: Layout, k: K, evs: seq<Event>): Outcome
    requires Shaped(k) && forall i :: 0 <= i < |evs| ==> EventOk(evs[i])
    decreases |evs|
  {
    if evs == [] then Running(k)
    else
      match Exception(L, k, evs[0])
      case Running(k1) => if Shaped(k1) then Run(L, k1, evs[1..]) else Panicking(AssertFailed)
      case other => other
  }

  /** Where a safe run may end: a state that passes every check, or a panic some event asked for. */
  ghost predicate SafeEnd(L: Layout, evs: seq<Event>, o: Outcome) {
    match o
    case Running(k) => Ready(L, k) && VirtualMemoryOk(L, k) && AllShowable(k)
    case Spinning(k) =>
      && Inv(L, k) && VirtualMemoryOk(L, k) && AllShowable(k)
      && forall p :: 0 <= p < NPROC ==> k.procs[p].state != P_RUNNABLE
    case Panicking(why) => why == Explicit && exists i :: 0 <= i < |evs| && AsksForPanic(evs[i].regs)
  }

  /** In every state reachable through any user behaviour, check_virtual_memory finds nothing
      wrong; the kernel never fails an assertion, and panics only when asked to. */
  lemma {:induction false} RunIsSafe(L: Layout, k: K, evs: seq<Event>)
    requires Ready(L, k) && forall i :: 0 <= i < |evs| ==> EventOk(evs[i])
    ensures SafeEnd(L, evs, Run(L, k, evs))
    decreases |evs|
  {
    hide Exception, VirtualMemoryOk, AllShowable, InfoAfter, AsksForPanic;
    if evs == [] {
      InvPassesChecks(L, k);
    } else {
      ExceptionOutcome(L, k, evs[0]);
      match Exception(L, k, evs[0])
      case Running(k1) =>
        RunIsSafe(L, k1, evs[1..]);
      case Spinning(k1) =>
        InvPassesChecks(L, k1);
      case Panicking(_) =>
    }
  }

  // ----- a broken process never runs again

  /** Once broken, a process stays broken in every run, and is never current. */
  lemma {:induction false} BrokenForever(L: Layout, k: K, evs: seq<Event>, p: nat)
    requires Ready(L, k) && forall i :: 0 <= i < |evs| ==> EventOk(evs[i])
    requires p < NPROC && k.procs[p].state == P_BROKEN
    ensures match Run(L, k, evs)
            case Panicking(_) => true
            case Running(k2) => Shaped(k2) && k2.procs[p].state == P_BROKEN && k2.current != p
            case Spinning(k2) => Shaped(k2) && k2.procs[p].state == P_BROKEN
    decreases |evs|
  {
    hide Exception, Inv, InfoAfter, RegsAfter, AsksForPanic;
    InvFacts(L, k);
    if evs != [] {
      ExceptionOutcome(L, k, evs[0]);
      ExceptionEffect(L, k, evs[0]);
      match Exception(L, k, evs[0])
      case Running(k1) => BrokenForever(L, k1, evs[1..], p);
      case other =>
    }
  }

  /** A process that faults in user mode never runs again, whatever happens afterwards. */
  lemma FaultIsFinal(L: Layout, k: K, evs: seq<Event>)
    requires Ready(L, k) && |evs| > 0 && UserPageFault(evs[0].regs)
    requires forall i :: 0 <= i < |evs| ==> EventOk(evs[i])
    ensures match Run(L, k, evs)
            case Panicking(_) => true
            case Running(k2) => Shaped(k2) && k2.procs[k.current].state == P_BROKEN && k2.current != k.current
            case Spinning(k2) => Shaped(k2) && k2.procs[k.current].state == P_BROKEN
  {
    hide Exception, Inv, InfoAfter, RegsAfter, AsksForPanic;
    InvFacts(L, k);
    ExceptionOutcome(L, k, evs[0]);
    ExceptionEffect(L, k, evs[0]);
    match Exception(L, k, evs[0])
    case Running(k1) => BrokenForever(L, k1, evs[1..], k.current);
    case other =>
  }

  // ----- every runnable process gets its turn

  /** The events whose handling ends in schedule(). */
  predicate Reschedules(regs: Registers) {
    regs.intno == INT_SYS_YIELD || regs.intno == INT_TIMER || (regs.intno == INT_PAGEFAULT && IsUserFault(regs))
  }

  function Reschedulings(evs: seq<Event>): nat {
    if evs == [] then 0 else (if Reschedules(evs[0].regs) then 1 else 0) + Reschedulings(evs[1..])
  }

  /** One event leaves the other processes alone, and changes the current one only through the scan. */
  ghost predicate TurnTaken(k: K, ev: Event, o: Outcome)
    requires Shaped(k)
  {
    match o
    case Panicking(_) => true
    case Spinning(k1) => Shaped(k1) && forall p :: 0 <= p < NPROC && p != k.current ==> k1.procs[p] == k.procs[p]
    case Running(k1) =>
      && Shaped(k1) && (forall p :: 0 <= p < NPROC && p != k.current ==> k1.procs[p] == k.procs[p])
      && if Reschedules(ev.regs) then NextFrom(k1.procs, k.current, NPROC) == Some(k1.current)
         else k1.current == k.current
  }

  lemma ScheduleTurn(L: Layout, k: K, k1: K, ev: Event)
    requires Shaped(k) && Shaped(k1) && Inv(L, k1) && k1.current == k.current && Reschedules(ev.regs)
    requires forall p :: 0 <= p < NPROC && p != k.current ==> k1.procs[p] == k.procs[p]
    ensures TurnTaken(k, ev, Schedule(L, k1))
  {
    hide Inv, Ready, NextFrom, Schedule;
    ScheduleKeepsInv(L, k1);
  }

  lemma EventTurn(L: Layout, k: K, ev: Event)
    requires Ready(L, k) && EventOk(ev)
    ensures TurnTaken(k, ev, Exception(L, k, ev))
  {
    hide Inv, Exception, Checked, Schedule, RunProc, PageAlloc, SetRax, NextFrom;
    InvFacts(L, k);
    ChecksPass(L, k, ev);
    var k1 := Checked(k, ev);
    InvFacts(L, k1);
    if ev.regs.intno == INT_SYS_YIELD {
      ScheduleTurn(L, k, k1, ev);
    } else if ev.regs.intno == INT_TIMER {
      var k2 := k1.(ticks := (k1.ticks + 1) % 0x1_0000_0000);
      TicksKeepInv(L, k1, k2);
      ScheduleTurn(L, k, k2, ev);
    } else if ev.regs.intno == INT_SYS_GETPID {
      SetRaxKeepsReady(L, k1, k1.procs[k1.current].pid);
      SetRaxShape(k1, k1.procs[k1.current].pid);
      RunKeepsInv(L, SetRax(k1, k1.procs[k1.current].pid), k1.current);
    } else if ev.regs.intno == INT_SYS_PAGE_ALLOC {
      PageAllocEffect(L, k1);
      var k2 := PageAlloc(L, k1).k;
      RunKeepsInv(L, k2, k2.current);
    } else if ev.regs.intno == INT_PAGEFAULT && IsUserFault(ev.regs) {
      BreakKeepsInv(L, k1);
      ScheduleTurn(L, k, k1.(procs := k1.procs[k1.current := k1.procs[k1.current].(state := P_BROKEN)]), ev);
    }
  }

  /** In any run that does not panic, a runnable process becomes current within its cyclic distance
      plus one, at most NPROC, events that reach schedule(), whatever user code does meanwhile. */
  lemma {:induction false} TurnComes(L: Layout, k: K, evs: seq<Event>, p: nat)
    requires Ready(L, k) && forall i :: 0 <= i < |evs| ==> EventOk(evs[i])
    requires p < NPROC && k.procs[p].state == P_RUNNABLE && Reschedulings(evs) > Distance(k.current, p)
    requires !Run(L, k, evs).Panicking?
    ensures exists i :: 0 <= i <= |evs| && Run(L, k, evs[..i]).Running? && Run(L, k, evs[..i]).k.current == p
    decreases |evs|
  {
    hide Exception, NextFrom, Distance, Inv, InfoAfter, Reschedules, AsksForPanic;
    InvFacts(L, k);
    if k.current == p {
      assert evs[..0] == [] && Run(L, k, evs[..0]) == Running(k);
    } else {
      EventTurn(L, k, evs[0]);
      ExceptionOutcome(L, k, evs[0]);
      match Exception(L, k, evs[0])
      case Running(k1) =>
        if Reschedules(evs[0].regs) {
          NextIsNearest(k1.procs, k.current, NPROC);
          if k1.current != p { CloserAfterPick(k.current, k1.current, p); }
        }
        if k1.current == p && Reschedules(evs[0].regs) {
          var one: seq<Event> := [evs[0]];
          assert evs[..1] == one && one[1..] == [] && Run(L, k, one) == Run(L, k1, []);
        } else {
          TurnComes(L, k1, evs[1..], p);
          var i :| 0 <= i <= |evs[1..]| && Run(L, k1, evs[1..][..i]).Running?
                   && Run(L, k1, evs[1..][..i]).k.current == p;
          assert evs[..i + 1][0] == evs[0] && evs[..i + 1][1..] == evs[1..][..i];
          assert Run(L, k, evs[..i + 1]) == Run(L, k1, evs[1..][..i]);
        }
      case Spinning(k1) =>
        assert false;
      case Panicking(_) =>
    }
  }

  /** A granted page: who asked and which address. */
  datatype Grant = Grant(pid: nat, addr: nat)

  /** The page_alloc calls of a run that returned 0, in order. */
  ghost function Grants(L: Layout, k: K, evs: seq<Event>): seq<Grant>
    requires Shaped(k) && forall i :: 0 <= i < |evs| ==> EventOk(evs[i])
    decreases |evs|
  {
    if evs == [] then []
    else
      var first := match Granted(k, evs[0]) case None => [] case Some(addr) => [Grant(k.current, addr)];
      match Exception(L, k, evs[0])
      case Running(k1) => if Shaped(k1) then first + Grants(L, k1, evs[1..]) else []
      case Spinning(k1) => first
      case Panicking(_) => []
  }

  /** How many of the first `n` pages are free. */
  function FreePages(info: seq<PageInfo>, n: nat): (c: nat)
    requires n <= |info|
    ensures c <= n
  {
    if n == 0 then 0 else FreePages(info, n - 1) + if info[n - 1].refcount == 0 then 1 else 0
  }

  lemma {:induction false} FreePagesUpdate(info: seq<PageInfo>, pn: nat, e: PageInfo, n: nat)
    requires n <= |info| && pn < |info| && info[pn].refcount == 0 && e.refcount != 0
    ensures FreePages(info[pn := e], n) == FreePages(info, n) - if pn < n then 1 else 0
  {
    if n > 0 { FreePagesUpdate(info, pn, e, n - 1); }
  }

  ghost predicate GrantsDistinct(g: seq<Grant>) {
    forall i, j :: 0 <= i < j < |g| ==> g[i].addr != g[j].addr
  }

  /** Each grant was a free page before the run and belongs to the asker after it. */
  ghost predicate GrantOk(before: seq<PageInfo>, after: seq<PageInfo>, g: Grant)
    requires |before| == NPAGES && |after| == NPAGES
  {
    && g.addr % PAGESIZE == 0 && g.addr < MEMSIZE_PHYSICAL
    && before[g.addr / PAGESIZE].refcount == 0 && after[g.addr / PAGESIZE] == PageInfo(g.pid, 1)
  }

  /** Pages in use keep their owner and reference count. */
  ghost predicate UsedKept(before: seq<PageInfo>, after: seq<PageInfo>)
    requires |before| == NPAGES && |after| == NPAGES
  {
    forall pn :: 0 <= pn < NPAGES && before[pn].refcount != 0 ==> after[pn] == before[pn]
  }

  ghost predicate Accounted(before: seq<PageInfo>, after: seq<PageInfo>, g: seq<Grant>)
    requires |before| == NPAGES && |after| == NPAGES
  {
    && |g| + FreePages(after, NPAGES) == FreePages(before, NPAGES)
    && GrantsDistinct(g) && UsedKept(before, after)
    && (forall i :: 0 <= i < |g| ==> GrantOk(before, after, g[i]))
  }

  lemma AccountedEmpty(info: seq<PageInfo>)
    requires |info| == NPAGES
    ensures Accounted(info, info, [])
  {
  }

  /** One grant followed by accounted-for ones. */
  lemma AccountedCons(info: seq<PageInfo>, after: seq<PageInfo>, pid: nat, addr: nat, g: seq<Grant>)
    requires |info| == NPAGES && |after| == NPAGES && Assignable(info, addr)
    requires Accounted(Assign(info, addr, pid), after, g)
    ensures Accounted(info, after, [Grant(pid, addr)] + g)
  {
    var pn := addr / PAGESIZE;
    var mid := Assign(info, addr, pid);
    FreePagesUpdate(info, pn, PageInfo(pid, 1), NPAGES);
    hide FreePages;
    var all := [Grant(pid, addr)] + g;
    forall i | 0 <= i < |all|
      ensures GrantOk(info, after, all[i]) && (i > 0 ==> all[i].addr != addr)
    {
      if i > 0 { assert GrantOk(mid, after, g[i - 1]); }
    }
    forall i, j | 0 <= i < j < |all|
      ensures all[i].addr != all[j].addr
    {
      if i > 0 { assert g[i - 1].addr != g[j - 1].addr; }
    }
  }

  /** Over every run that does not panic: the pages handed out are pairwise distinct, were free
      at the start, stay with their owner, and with the free pages left make up the free pages
      there were. Pages in use at the start (kernel, reserved, images) are never handed out. */
  lemma {:induction false} PagesAccounted(L: Layout, k: K, evs: seq<Event>)
    requires Ready(L, k) && forall i :: 0 <= i < |evs| ==> EventOk(evs[i])
    ensures match Run(L, k, evs)
            case Panicking(_) => true
            case Running(k1) => |k1.pageinfo| == NPAGES && Accounted(k.pageinfo, k1.pageinfo, Grants(L, k, evs))
            case Spinning(k1) => |k1.pageinfo| == NPAGES && Accounted(k.pageinfo, k1.pageinfo, Grants(L, k, evs))
    decreases |evs|
  {
    hide Exception, Accounted, Assign, AsksForPanic;
    AccountedEmpty(k.pageinfo);
    if evs != [] {
      ExceptionOutcome(L, k, evs[0]);
      match Exception(L, k, evs[0])
      case Running(k1) =>
        PagesAccounted(L, k1, evs[1..]);
        match Run(L, k1, evs[1..]) {
          case Panicking(_) =>
          case Running(k2) => AccountStep(k, evs[0], k1, k2.pageinfo, Grants(L, k1, evs[1..]));
          case Spinning(k2) => AccountStep(k, evs[0], k1, k2.pageinfo, Grants(L, k1, evs[1..]));
        }
      case Spinning(k1) =>
        AccountedEmpty(k1.pageinfo);
        AccountStep(k, evs[0], k1, k1.pageinfo, []);
        assert Grants(L, k, evs) + [] == Grants(L, k, evs);
      case Panicking(_) =>
    }
  }

  lemma AccountStep(k: K, ev: Event, k1: K, after: seq<PageInfo>, g: seq<Grant>)
    requires Shaped(k) && k1.pageinfo == InfoAfter(k, ev) && |after| == NPAGES && Accounted(k1.pageinfo, after, g)
    ensures var first := match Granted(k, ev) case None => [] case Some(addr) => [Grant(k.current, addr)];
            Accounted(k.pageinfo, after, first + g)
  {
    hide Accounted;
    match Granted(k, ev)
    case None => assert [] + g == g;
    case Some(addr) => AccountedCons(k.pageinfo, after, k.current, addr, g);
  }
}
