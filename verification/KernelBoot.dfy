/**
  kernel() and process_setup: booting establishes the invariant, loads every image intact,
  and hands each process its stack page.
 */
module KernelBoot {
  import opened Kernel
  import opened KernelPages
  import opened KernelRuns
  import opened KernelState
  import opened Loader
  import opened MapPages
  import opened Util
  import opened PageTable
  import opened VirtualMemory

  function StackPage(pid: nat): nat { PROC_START_ADDR + PROC_SIZE * pid - PAGESIZE }

  /** One more process sharing the root, once process `pid` leaves the free state. */
  lemma {:induction false} SharersJoin(procs: seq<Proc>, root: nat, pid: nat, p: Proc, n: nat)
    requires n <= |procs| && pid < |procs| && procs[pid].state == P_FREE && p.state != P_FREE && p.pagetable == root
    ensures Sharers(procs[pid := p], root, n) == Sharers(procs, root, n) + if pid < n then 1 else 0
  {
    if n > 0 { SharersJoin(procs, root, pid, p, n - 1); }
  }

  // ----- process_setup in steps

  function Referenced(L: Layout, info: seq<PageInfo>): (r: seq<PageInfo>)
    requires |info| == NPAGES && L.tables < NPAGES
    ensures |r| == NPAGES
  {
    info[L.tables := info[L.tables].(refcount := info[L.tables].refcount + 1)]
  }

  function LoadedStore(L: Layout, k: K, pid: nat, prog: Program): Loaded
    requires Shaped(k) && L.tables + 5 <= NPAGES && prog.Good()
  {
    LoadProgram(L, Store(Referenced(L, k.pageinfo), k.mem, k.ram), prog, pid, L.tables)
  }

  function NewProc(L: Layout, pid: nat, prog: Program): Proc {
    Proc(pid, ZERO_REGISTERS.(rip := prog.entry, rsp := PROC_START_ADDR + PROC_SIZE * pid), P_RUNNABLE, L.Root())
  }

  function ReadyState(L: Layout, k: K, pid: nat, prog: Program): K
    requires Shaped(k) && L.tables + 5 <= NPAGES && prog.Good() && pid < NPROC
  {
    var s := LoadedStore(L, k, pid, prog).store;
    k.(pageinfo := Assign(s.info, StackPage(pid), pid), procs := k.procs[pid := NewProc(L, pid, prog)], ram := s.ram)
  }

  lemma LoadProgramEffect(L: Layout, s: Store, prog: Program, pid: nat)
    requires StoreOk(s) && L.Valid() && KernelTables(s.mem, L.tables) && prog.Good()
    ensures var l := LoadProgram(L, s, prog, pid, L.tables);
            && l.store.mem == s.mem && Claims(s.info, l.store.info, pid) && UsedBytesKept(s, l.store)
            && (l.out == Done ==> ImageInPlace(s.info, l.store, prog, pid))
  {
    hide KernelTables, Covered, Claims, UsedBytesKept, InPlace;
    SegmentsEffect(L, s, prog.segments, pid);
    ClaimsRefl(s, pid);
  }

  lemma ClaimsRefl(s: Store, pid: nat)
    requires StoreOk(s)
    ensures Claims(s.info, s.info, pid) && UsedBytesKept(s, s)
  {
  }

  /** Every loadable segment of `prog` is in place in pairwise distinct pages that were free in
      `before`, and no other page was taken. */
  ghost predicate ImageInPlace(before: seq<PageInfo>, t: Store, prog: Program, pid: nat)
    requires StoreOk(t)
  {
    var segs := prog.segments;
    && |before| == NPAGES
    && (forall i :: 0 <= i < |segs| && IsLoad(segs[i]) ==> InPlace(t, segs[i], pid))
    && (forall i, j :: 0 <= i < j < |segs| && IsLoad(segs[i]) && IsLoad(segs[j]) ==> PageDisjoint(segs[i], segs[j]))
    && (forall i, pn :: 0 <= i < |segs| && IsLoad(segs[i]) && 0 <= pn < NPAGES && segs[i].HasPage(pn) ==>
          before[pn].refcount == 0)
    && (forall pn :: 0 <= pn < NPAGES && !Covered(segs, pn) ==> t.info[pn] == before[pn])
  }

  /** process_setup fails exactly when the program does not load. */
  lemma SetupUnfold(L: Layout, k: K, pid: nat, prog: Program)
    requires Inv(L, k) && 1 <= pid <= 4 && prog.Good()
    ensures ProcessSetup(L, k, pid, prog)
         == if LoadedStore(L, k, pid, prog).out != Done then None else Some(ReadyState(L, k, pid, prog))
  {
    hide KernelTables, CodeMap, LoadProgram, Inv;
    InvFacts(L, k);
    LoadProgramEffect(L, Store(Referenced(L, k.pageinfo), k.mem, k.ram), prog, pid);
    hide Claims, UsedBytesKept, ImageInPlace;
    IdentityMapIsNoop(k.mem, [], L.tables, StackPage(pid));
    assert k.procs[pid].pid == pid;
  }

  /** Pages and owners after one process is set up. */
  lemma SetupKeepsInv(L: Layout, k: K, pid: nat, prog: Program)
    requires Inv(L, k) && 1 <= pid <= 4 && prog.Good() && k.procs[pid].state == P_FREE
    requires LoadedStore(L, k, pid, prog).out == Done
    ensures Inv(L, ReadyState(L, k, pid, prog))
  {
    hide KernelTables, LoadProgram;
    var r := ReadyState(L, k, pid, prog);
    var p := NewProc(L, pid, prog);
    LoadProgramEffect(L, Store(Referenced(L, k.pageinfo), k.mem, k.ram), prog, pid);
    hide UsedBytesKept, ImageInPlace, Sharers;
    SharersJoin(k.procs, L.Root(), pid, p, NPROC);
    ClaimsAssign(Referenced(L, k.pageinfo), LoadedStore(L, k, pid, prog).store.info, pid, StackPage(pid));
    hide Assign, Assignable;
    forall pn | 0 <= pn < NPAGES
      ensures OwnerLive(r.procs, r.pageinfo[pn])
    {
      assert OwnerLive(k.procs, k.pageinfo[pn]);
    }
  }

  lemma ClaimsAssign(s: seq<PageInfo>, t: seq<PageInfo>, pid: nat, addr: nat)
    requires Claims(s, t, pid)
    ensures Claims(s, Assign(t, addr, pid), pid)
  {
  }

  // ----- the allocator slots

  /** The image of process `pid` lies in its slot, below `heap`, which is at most its stack page. */
  ghost predicate FitsSlot(prog: Program, pid: nat, heap: nat) {
    && heap % PAGESIZE == 0 && StackPage(pid) + PAGESIZE - PROC_SIZE <= heap <= StackPage(pid)
    && forall pn: nat :: Covered(prog.segments, pn) ==> StackPage(pid) + PAGESIZE - PROC_SIZE <= pn * PAGESIZE < heap
  }

  /** Process `pid` owns its stack page, and everything from `heap` up to it is free. */
  ghost predicate SlotOpen(info: seq<PageInfo>, pid: nat, heap: nat)
    requires |info| == NPAGES
  {
    forall pn :: 0 <= pn < NPAGES ==>
      && (heap <= pn * PAGESIZE < StackPage(pid) ==> info[pn].refcount == 0)
      && (pn * PAGESIZE == StackPage(pid) ==> info[pn] == PageInfo(pid, 1))
  }

  /** All pages from slot `pid` up are free. */
  ghost predicate UpperFree(info: seq<PageInfo>, pid: nat)
    requires |info| == NPAGES
  {
    forall pn :: 0 <= pn < NPAGES && PROC_START_ADDR + PROC_SIZE * (pid - 1) <= pn * PAGESIZE ==> info[pn].refcount == 0
  }

  predicate InSlot(pn: nat, pid: nat) {
    StackPage(pid) + PAGESIZE - PROC_SIZE <= pn * PAGESIZE < StackPage(pid) + PAGESIZE
  }

  /** Only pages of slot `pid` change. */
  ghost predicate SlotOnly(L: Layout, a: seq<PageInfo>, b: seq<PageInfo>, pid: nat)
    requires |a| == NPAGES && |b| == NPAGES
  {
    forall pn :: 0 <= pn < NPAGES && pn != L.tables && !InSlot(pn, pid) ==> a[pn] == b[pn]
  }

  lemma SetupSlot(L: Layout, k: K, pid: nat, prog: Program, heap: nat)
    requires Inv(L, k) && 1 <= pid <= 4 && prog.Good() && FitsSlot(prog, pid, heap) && UpperFree(k.pageinfo, pid)
    requires LoadedStore(L, k, pid, prog).out == Done
    ensures SlotOpen(ReadyState(L, k, pid, prog).pageinfo, pid, heap)
    ensures UpperFree(ReadyState(L, k, pid, prog).pageinfo, pid + 1)
    ensures SlotOnly(L, k.pageinfo, ReadyState(L, k, pid, prog).pageinfo, pid)
  {
    hide KernelTables, LoadProgram, Covered, InPlace;
    assert L.tables * PAGESIZE < KERNEL_STACK_TOP;
    LoadProgramEffect(L, Store(Referenced(L, k.pageinfo), k.mem, k.ram), prog, pid);
    hide PagesInv, OwnersLive, ProcsInv, Claims, UsedBytesKept;
  }

  lemma SlotOpenKept(L: Layout, a: seq<PageInfo>, b: seq<PageInfo>, pid: nat, other: nat, heap: nat)
    requires |a| == NPAGES && |b| == NPAGES && SlotOnly(L, a, b, other) && SlotOpen(a, pid, heap) && L.Valid()
    requires 1 <= pid < other && StackPage(pid) + PAGESIZE - PROC_SIZE <= heap
    ensures SlotOpen(b, pid, heap)
  {
  }

  // ----- all processes

  /** Processes 1..n-1 are set up, the others free. */
  ghost predicate SetUpTo(procs: seq<Proc>, n: nat) {
    && |procs| == NPROC
    && forall i :: 0 <= i < NPROC ==> procs[i].state == if 1 <= i < n then P_RUNNABLE else P_FREE
  }

  /** Slots below `pid` are open from their heap starts, the rest still free. */
  ghost predicate SlotsOpen(info: seq<PageInfo>, heaps: seq<nat>, pid: nat)
    requires |info| == NPAGES
  {
    && UpperFree(info, pid)
    && forall i :: 0 <= i < |heaps| && i + 1 < pid ==> SlotOpen(info, i + 1, heaps[i])
  }

  ghost predicate AllFit(progs: seq<Program>, heaps: seq<nat>) {
    |heaps| == |progs| && forall i :: 0 <= i < |progs| ==> FitsSlot(progs[i], i + 1, heaps[i])
  }

  lemma FreshInv(L: Layout, m: Mem, ram: seq<nat>)
    requires L.Valid() && |ram| == MEMSIZE_PHYSICAL
    ensures Inv(L, InitialState(L, m, ram)) && SetUpTo(InitialState(L, m, ram).procs, 1)
    ensures UpperFree(InitialState(L, m, ram).pageinfo, 1)
  {
    hide KernelTables, Tables, InitTables;
    InitTablesCorrect(m, L.tables);
    var k := InitialState(L, m, ram);
    FreeProcsShareNothing(k.procs, L.Root(), NPROC);
    hide Sharers;
    forall pn | L.tables <= pn < L.tables + 5
      ensures InitialInfo(L, pn) == PageInfo(PO_KERNEL, 1)
    {
    }
    FreeProcsInv(L);
    assert PagesInv(L, k.pageinfo, k.procs);
    assert OwnersLive(k.procs, k.pageinfo);
    assert KernelTables(k.mem, L.tables);
  }

  lemma FreeProcsInv(L: Layout)
    ensures ProcsInv(L, FreeProcs(NPROC))
  {
    var procs := FreeProcs(NPROC);
    assert |procs| == NPROC && procs[0] == Proc(0, ZERO_REGISTERS, P_FREE, 0);
  }

  lemma {:induction false} FreeProcsShareNothing(procs: seq<Proc>, root: nat, n: nat)
    requires n <= |procs| && forall i :: 0 <= i < n ==> procs[i].state == P_FREE
    ensures Sharers(procs, root, n) == 0
  {
    if n > 0 { FreeProcsShareNothing(procs, root, n - 1); }
  }

  /** The images of the first `done` programs are in memory as they were loaded: every loadable
      segment holds its file bytes and then zeros, in pages owned by its process. */
  ghost predicate ImagesInPlace(k: K, progs: seq<Program>, done: nat) {
    && Shaped(k) && done <= |progs|
    && forall i: nat, j: nat :: i < done && j < |progs[i].segments| && IsLoad(progs[i].segments[j]) ==>
         InPlace(Store(k.pageinfo, k.mem, k.ram), progs[i].segments[j], i + 1)
  }

  /** A loaded segment outlives the set-up of another process. */
  lemma ImageOutlives(L: Layout, k: K, pid: nat, prog: Program, seg: Segment, owner: nat)
    requires Inv(L, k) && 1 <= pid <= 4 && prog.Good() && LoadedStore(L, k, pid, prog).out == Done
    requires seg.Good() && InPlace(Store(k.pageinfo, k.mem, k.ram), seg, owner)
    ensures var r := ReadyState(L, k, pid, prog); InPlace(Store(r.pageinfo, r.mem, r.ram), seg, owner)
  {
    hide KernelTables, LoadProgram, UsedBytesKept, OwnersLive, ProcsInv;
    assert k.pageinfo[L.tables].owner == PO_KERNEL;
    var before := Store(Referenced(L, k.pageinfo), k.mem, k.ram);
    LoadProgramEffect(L, before, prog, pid);
    hide PagesInv, ImageInPlace, Claims;
    InPlaceKept(before, LoadedStore(L, k, pid, prog).store, seg, owner, pid);
    InPlaceAssigned(LoadedStore(L, k, pid, prog).store, seg, owner, StackPage(pid), pid);
  }

  lemma InPlaceAssigned(s: Store, seg: Segment, owner: nat, addr: nat, pid: nat)
    requires StoreOk(s) && InPlace(s, seg, owner)
    ensures InPlace(s.(info := Assign(s.info, addr, pid)), seg, owner)
  {
  }

  lemma ImagesGrow(L: Layout, k: K, progs: seq<Program>, done: nat)
    requires Inv(L, k) && done < |progs| <= 4 && forall i :: 0 <= i < |progs| ==> progs[i].Good()
    requires ImagesInPlace(k, progs, done) && LoadedStore(L, k, done + 1, progs[done]).out == Done
    ensures ImagesInPlace(ReadyState(L, k, done + 1, progs[done]), progs, done + 1)
  {
    hide KernelTables, LoadProgram, InPlace, ProcsInv, PagesInv, OwnersLive, UsedBytesKept, Claims, ReadyState;
    var r := ReadyState(L, k, done + 1, progs[done]);
    NewImage(L, k, done + 1, progs[done]);
    forall i: nat, j: nat | i < done + 1 && j < |progs[i].segments| && IsLoad(progs[i].segments[j])
      ensures InPlace(Store(r.pageinfo, r.mem, r.ram), progs[i].segments[j], i + 1)
    {
      if i < done { ImageOutlives(L, k, done + 1, progs[done], progs[i].segments[j], i + 1); }
    }
  }

  lemma NewImage(L: Layout, k: K, pid: nat, prog: Program)
    requires Inv(L, k) && 1 <= pid <= 4 && prog.Good() && LoadedStore(L, k, pid, prog).out == Done
    ensures var r := ReadyState(L, k, pid, prog);
            && Shaped(r)
            && forall j: nat :: j < |prog.segments| && IsLoad(prog.segments[j]) ==>
                 InPlace(Store(r.pageinfo, r.mem, r.ram), prog.segments[j], pid)
  {
    hide KernelTables, LoadProgram, InPlace, ProcsInv, PagesInv, OwnersLive, UsedBytesKept, Claims, Assign, Covered;
    var s := LoadedStore(L, k, pid, prog).store;
    LoadProgramEffect(L, Store(Referenced(L, k.pageinfo), k.mem, k.ram), prog, pid);
    forall j: nat | j < |prog.segments| && IsLoad(prog.segments[j])
      ensures InPlace(s.(info := Assign(s.info, StackPage(pid), pid)), prog.segments[j], pid)
    {
      InPlaceAssigned(s, prog.segments[j], pid, StackPage(pid), pid);
    }
  }

  /** The first `done` processes will start at their entry points with an empty stack just below the
      end of their 0x40000-byte slots, and pages that none of them got are as pageinfo_init left
      them. */
  ghost predicate Launched(L: Layout, k: K, progs: seq<Program>, done: nat) {
    && Shaped(k) && done <= |progs| <= 4 && k.ticks == 0
    && (forall i :: 0 <= i < done ==>
          k.procs[i + 1].regs.rip == progs[i].entry && k.procs[i + 1].regs.rsp == 0x14_0000 + 0x4_0000 * i)
    && forall pn: nat :: pn < NPAGES && pn != L.tables && !Claimed(progs, done, pn) ==>
         k.pageinfo[pn] == InitialInfo(L, pn)
  }

  /** Page `pn` belongs to the image or is the stack page of one of the first `done` processes. */
  ghost predicate Claimed(progs: seq<Program>, done: nat, pn: nat)
    requires done <= |progs|
  {
    exists i: nat :: i < done && ClaimedBy(progs[i], i + 1, pn)
  }

  ghost predicate ClaimedBy(prog: Program, pid: nat, pn: nat) {
    Covered(prog.segments, pn) || pn * PAGESIZE == StackPage(pid)
  }

  lemma LaunchedGrows(L: Layout, k: K, progs: seq<Program>, done: nat)
    requires Inv(L, k) && done < |progs| <= 4 && forall i :: 0 <= i < |progs| ==> progs[i].Good()
    requires Launched(L, k, progs, done) && LoadedStore(L, k, done + 1, progs[done]).out == Done
    ensures Launched(L, ReadyState(L, k, done + 1, progs[done]), progs, done + 1)
  {
    hide KernelTables, LoadProgram, InPlace, ProcsInv, PagesInv, OwnersLive, UsedBytesKept, Claims, Covered,
      InitialInfo;
    var prog, r := progs[done], ReadyState(L, k, done + 1, progs[done]);
    LoadProgramEffect(L, Store(Referenced(L, k.pageinfo), k.mem, k.ram), prog, done + 1);
    forall pn: nat | pn < NPAGES && pn != L.tables && !Claimed(progs, done + 1, pn)
      ensures r.pageinfo[pn] == InitialInfo(L, pn)
    {
      assert !ClaimedBy(progs[done], done + 1, pn);
      forall i: nat | i < done
        ensures !ClaimedBy(progs[i], i + 1, pn)
      {
      }
    }
  }

  /** The pages that are free when the first process is about to be set up, by page number: all but
      the first, the kernel's from 0x40000 on, its stack page at 0x7F000, and those from 0xA0000 to
      0x100000 that belong to devices. */
  lemma FreshPages(L: Layout, pn: nat)
    requires pn < NPAGES
    ensures var info := InitialInfo(L, pn);
            && (info.refcount == 0 <==>
                  !(pn == 0 || 0xA0 <= pn < 0x100 || (0x40 <= pn && pn * 0x1000 < L.end) || pn == 0x7F))
            && (info.refcount != 0 ==> info.refcount == 1)
            && (info.owner == PO_RESERVED <==> pn == 0 || 0xA0 <= pn < 0x100)
            && (info.owner == PO_FREE <==> info.refcount == 0)
  {
  }

  /** The state once every program is set up: the images are in place, the processes are ready to
      start, and the slots are open when the images fit them. */
  ghost predicate AllSetUp(L: Layout, k: K, progs: seq<Program>, heaps: seq<nat>) {
    && Inv(L, k) && SetUpTo(k.procs, |progs| + 1) && ImagesInPlace(k, progs, |progs|)
    && Launched(L, k, progs, |progs|)
    && (AllFit(progs, heaps) ==> SlotsOpen(k.pageinfo, heaps, |progs| + 1))
  }

  /** Setting up the remaining programs, with the slots as an optional extra. */
  lemma {:induction false} SetupAllKeepsInv(L: Layout, k: K, progs: seq<Program>, heaps: seq<nat>, done: nat)
    requires Inv(L, k) && done <= |progs| <= 4 && SetUpTo(k.procs, done + 1)
    requires forall i :: 0 <= i < |progs| ==> progs[i].Good()
    requires AllFit(progs, heaps) ==> SlotsOpen(k.pageinfo, heaps, done + 1)
    requires ImagesInPlace(k, progs, done) && Launched(L, k, progs, done)
    ensures SetupAll(L, k, done + 1, progs[done..]).Some? ==>
              AllSetUp(L, SetupAll(L, k, done + 1, progs[done..]).value, progs, heaps)
    decreases |progs| - done
  {
    hide Inv, ProcessSetup, SlotsOpen, ImagesInPlace, Launched, LoadedStore, ReadyState;
    InvFacts(L, k);
    if done < |progs| {
      var pid, prog := done + 1, progs[done];
      assert progs[done..][0] == prog && progs[done..][1..] == progs[done + 1..];
      SetupUnfold(L, k, pid, prog);
      if LoadedStore(L, k, pid, prog).out == Done {
        var k1 := ReadyState(L, k, pid, prog);
        SetupKeepsInv(L, k, pid, prog);
        if AllFit(progs, heaps) { SlotsGrow(L, k, progs, heaps, done); }
        ReadyProcs(L, k, pid, prog);
        ImagesGrow(L, k, progs, done);
        LaunchedGrows(L, k, progs, done);
        SetupAllKeepsInv(L, k1, progs, heaps, done + 1);
      }
    }
  }

  lemma SlotsGrow(L: Layout, k: K, progs: seq<Program>, heaps: seq<nat>, done: nat)
    requires Inv(L, k) && done < |progs| <= 4 && AllFit(progs, heaps) && SlotsOpen(k.pageinfo, heaps, done + 1)
    requires forall i :: 0 <= i < |progs| ==> progs[i].Good()
    requires LoadedStore(L, k, done + 1, progs[done]).out == Done
    ensures SlotsOpen(ReadyState(L, k, done + 1, progs[done]).pageinfo, heaps, done + 2)
  {
    var k1 := ReadyState(L, k, done + 1, progs[done]);
    assert L.Valid();
    hide Inv, ReadyState, LoadedStore, SlotOpen, SlotOnly;
    SetupSlot(L, k, done + 1, progs[done], heaps[done]);
    forall i | 0 <= i < |heaps| && i + 1 < done + 2
      ensures SlotOpen(k1.pageinfo, i + 1, heaps[i])
    {
      if i < done {
        assert FitsSlot(progs[i], i + 1, heaps[i]);
        SlotOpenKept(L, k.pageinfo, k1.pageinfo, i + 1, done + 1, heaps[i]);
      }
    }
  }

  /** Booting either panics because a program does not load, or enters process 1 with the
      invariant, exactly the requested processes runnable, every image intact in memory, and, when
      the images fit their slots, every heap page free and every stack page owned. */
  lemma BootIsReady(L: Layout, m: Mem, ram: seq<nat>, progs: seq<Program>, heaps: seq<nat>)
    requires L.Valid() && |ram| == MEMSIZE_PHYSICAL && 1 <= |progs| <= 4
    requires forall i :: 0 <= i < |progs| ==> progs[i].Good()
    ensures var o := Boot(L, m, ram, progs);
            && (o.Running? <==> SetupAll(L, InitialState(L, m, ram), 1, progs).Some?)
            && (o.Running? ==> Ready(L, o.k) && o.k.current == 1 && AllSetUp(L, o.k, progs, heaps))
            && !o.Spinning?
  {
    hide Inv, SlotsOpen, SetupAll, InitialState, Ready, RunProc;
    FreshInv(L, m, ram);
    FreshSlots(L, m, ram, heaps);
    NothingLaunched(L, m, ram, progs);
    SetupAllKeepsInv(L, InitialState(L, m, ram), progs, heaps, 0);
    assert progs[0..] == progs;
    if SetupAll(L, InitialState(L, m, ram), 1, progs).Some? {
      var k := SetupAll(L, InitialState(L, m, ram), 1, progs).value;
      RunKeepsInv(L, k, 1);
      InvCurrent(L, k, 1);
    }
  }

  lemma NothingLaunched(L: Layout, m: Mem, ram: seq<nat>, progs: seq<Program>)
    requires L.Valid() && |ram| == MEMSIZE_PHYSICAL && |progs| <= 4
    ensures Launched(L, InitialState(L, m, ram), progs, 0)
  {
    hide InitialInfo, InitTables;
  }

  // ----- when booting succeeds

  /** The magic number is right and no two loadable segments share a page. */
  ghost predicate ImageOk(prog: Program) { prog.magic == ELF_MAGIC && SegmentsDisjoint(prog.segments) }

  /** An image that fits its free slot loads exactly when it is a proper image. */
  lemma ImageLoads(L: Layout, k: K, pid: nat, prog: Program, heap: nat)
    requires Inv(L, k) && 1 <= pid <= 4 && prog.Good() && FitsSlot(prog, pid, heap) && UpperFree(k.pageinfo, pid)
    ensures LoadedStore(L, k, pid, prog).out == Done <==> ImageOk(prog)
  {
    hide KernelTables, Covered, LoadSegments, Loadable, ProcsInv, PagesInv, OwnersLive, UpperFree, FitsSlot;
    var info := Referenced(L, k.pageinfo);
    SegmentsSucceed(L, Store(info, k.mem, k.ram), prog.segments, pid);
    SlotLoadable(L, k.pageinfo, prog, pid, heap);
  }

  lemma SlotLoadable(L: Layout, info: seq<PageInfo>, prog: Program, pid: nat, heap: nat)
    requires L.Valid() && |info| == NPAGES && L.tables < NPAGES
    requires 1 <= pid <= 4 && prog.Good() && FitsSlot(prog, pid, heap) && UpperFree(info, pid)
    ensures Loadable(Referenced(L, info), prog.segments) <==> SegmentsDisjoint(prog.segments)
  {
    hide SegmentsDisjoint;
    var info1, segs := Referenced(L, info), prog.segments;
    assert L.tables * PAGESIZE < KERNEL_STACK_TOP;
    forall i | 0 <= i < |segs| && IsLoad(segs[i])
      ensures SegmentFree(info1, segs[i])
    {
      SlotSegmentFree(L, info1, prog, pid, heap, i);
    }
  }

  lemma SlotSegmentFree(L: Layout, info: seq<PageInfo>, prog: Program, pid: nat, heap: nat, i: nat)
    requires 1 <= pid <= 4 && prog.Good() && FitsSlot(prog, pid, heap) && i < |prog.segments|
    requires IsLoad(prog.segments[i])
    requires |info| == NPAGES && UpperFree(info, pid)
    ensures SegmentFree(info, prog.segments[i])
  {
    var seg := prog.segments[i];
    forall pn: nat | seg.HasPage(pn)
      ensures StackPage(pid) + PAGESIZE - PROC_SIZE <= pn * PAGESIZE < heap
    {
      assert Covered(prog.segments, pn);
    }
    forall pn | 0 <= pn < NPAGES && seg.va <= pn * PAGESIZE < seg.va + seg.memsz
      ensures info[pn].refcount == 0
    {
      assert seg.HasPage(pn);
    }
    if seg.memsz > 0 {
      var last := (seg.va + seg.memsz - 1) / PAGESIZE;
      assert seg.HasPage(last);
    }
  }

  /** With images that fit their slots, set-up succeeds exactly when all are proper images. */
  lemma {:induction false} SetupAllSucceeds(L: Layout, k: K, progs: seq<Program>, heaps: seq<nat>, done: nat)
    requires Inv(L, k) && done <= |progs| <= 4 && SetUpTo(k.procs, done + 1)
    requires forall i :: 0 <= i < |progs| ==> progs[i].Good()
    requires AllFit(progs, heaps) && SlotsOpen(k.pageinfo, heaps, done + 1)
    ensures SetupAll(L, k, done + 1, progs[done..]).Some? <==> forall i :: done <= i < |progs| ==> ImageOk(progs[i])
    decreases |progs| - done
  {
    hide Inv, ProcessSetup, FitsSlot, SlotOpen, UpperFree, ImageOk, LoadedStore, ReadyState;
    InvFacts(L, k);
    if done < |progs| {
      var pid, prog := done + 1, progs[done];
      assert progs[done..][0] == prog && progs[done..][1..] == progs[done + 1..];
      SetupUnfold(L, k, pid, prog);
      assert FitsSlot(prog, pid, heaps[done]);
      ImageLoads(L, k, pid, prog, heaps[done]);
      if LoadedStore(L, k, pid, prog).out == Done {
        var k1 := ReadyState(L, k, pid, prog);
        SetupKeepsInv(L, k, pid, prog);
        SlotsGrow(L, k, progs, heaps, done);
        ReadyProcs(L, k, pid, prog);
        SetupAllSucceeds(L, k1, progs, heaps, done + 1);
      }
    }
  }

  lemma ReadyProcs(L: Layout, k: K, pid: nat, prog: Program)
    requires Shaped(k) && L.tables + 5 <= NPAGES && prog.Good() && pid < NPROC
    ensures ReadyState(L, k, pid, prog).procs == k.procs[pid := NewProc(L, pid, prog)]
  {
    hide LoadedStore;
  }

  /** Booting with images that fit their slots reaches process 1 exactly when every image has the
      magic number and segments that share no page. */
  lemma BootSucceeds(L: Layout, m: Mem, ram: seq<nat>, progs: seq<Program>, heaps: seq<nat>)
    requires L.Valid() && |ram| == MEMSIZE_PHYSICAL && 1 <= |progs| <= 4 && AllFit(progs, heaps)
    requires forall i :: 0 <= i < |progs| ==> progs[i].Good()
    ensures Boot(L, m, ram, progs).Running? <==> forall i :: 0 <= i < |progs| ==> ImageOk(progs[i])
  {
    hide Inv, SlotsOpen, SetupAll, InitialState, Boot, ImageOk, AllFit;
    BootIsReady(L, m, ram, progs, heaps);
    FreshInv(L, m, ram);
    FreshSlots(L, m, ram, heaps);
    SetupAllSucceeds(L, InitialState(L, m, ram), progs, heaps, 0);
    assert progs[0..] == progs;
  }

  lemma InvCurrent(L: Layout, k: K, pid: nat)
    requires Inv(L, k) && pid < NPROC
    ensures Inv(L, k.(current := pid))
  {
    hide KernelTables;
  }

  lemma FreshSlots(L: Layout, m: Mem, ram: seq<nat>, heaps: seq<nat>)
    requires L.Valid() && |ram| == MEMSIZE_PHYSICAL
    ensures Shaped(InitialState(L, m, ram)) && SlotsOpen(InitialState(L, m, ram).pageinfo, heaps, 1)
  {
    FreshInv(L, m, ram);
  }

  /** From power-on: no user behaviour makes the kernel fail an assertion, and in every state
      it reaches check_virtual_memory is satisfied. */
  lemma KernelIsSafe(L: Layout, m: Mem, ram: seq<nat>, progs: seq<Program>, evs: seq<Event>)
    requires L.Valid() && |ram| == MEMSIZE_PHYSICAL && 1 <= |progs| <= 4
    requires forall i :: 0 <= i < |progs| ==> progs[i].Good()
    requires forall i :: 0 <= i < |evs| ==> EventOk(evs[i])
    requires Boot(L, m, ram, progs).Running?
    ensures Shaped(Boot(L, m, ram, progs).k)
    ensures SafeEnd(L, evs, Run(L, Boot(L, m, ram, progs).k, evs))
  {
    hide SafeEnd, Boot;
    BootIsReady(L, m, ram, progs, []);
    RunIsSafe(L, Boot(L, m, ram, progs).k, evs);
  }
}
