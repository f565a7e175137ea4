/**
  program_load and program_load_segment: assign and map the pages of every loadable
  segment, copy the file bytes, clear the rest.
 */
module Loader {
  import opened CInts
  import opened PageTable
  import opened Util
  import opened MapPages
  import opened VirtualMemory
  import opened KernelPages
  import opened KernelState

  const ELF_MAGIC := 0x464C457F
  const ELF_PTYPE_LOAD := 1

  /** An elf_program with its file contents. */
  datatype Segment = Segment(ptype: nat, va: nat, data: seq<nat>, memsz: nat) {
    /** Page-aligned start, no more file bytes than memory, no address wrap. */
    predicate Good() {
      va % PAGESIZE == 0 && |data| <= memsz && va + memsz + PAGESIZE <= TWO64
    }

    predicate HasPage(pn: nat) {
      va <= pn * PAGESIZE < va + memsz
    }
  }

  datatype Program = Program(magic: nat, segments: seq<Segment>, entry: nat) {
    predicate Good() {
      forall i :: 0 <= i < |segments| ==> segments[i].Good()
    }
  }

  /** The part of the kernel state that loading changes. */
  datatype Store = Store(info: seq<PageInfo>, mem: Mem, ram: seq<nat>)
  datatype Loaded = Loaded(store: Store, out: Result)

  ghost predicate StoreOk(s: Store) {
    |s.info| == NPAGES && |s.ram| == MEMSIZE_PHYSICAL
  }

  // ----- the code as functions

  /** The page loop of program_load_segment. */
  function LoadPages(s: Store, addr: nat, endMem: nat, pid: nat, r: nat): (l: Loaded)
    requires StoreOk(s) && r < NPAGES && addr % PAGESIZE == 0
    ensures StoreOk(l.store) && l.store.ram == s.ram
    ensures l.out == Done && addr < endMem ==> endMem <= MEMSIZE_PHYSICAL
    decreases if addr < endMem then endMem - addr else 0
  {
    if addr >= endMem then Loaded(s, Done)
    else if !Assignable(s.info, addr) then Loaded(s, Failed)
    else
      var ran := CodeMap(s.mem, [], r, addr, addr, 1, PWU);
      var s1 := Store(Assign(s.info, addr, pid), ran.mem, s.ram);
      if ran.out != Done then Loaded(s1, ran.out) else LoadPages(s1, addr + PAGESIZE, endMem, pid, r)
  }

  /** memcpy of `bytes` to address `at`. */
  function CopyIn(ram: seq<nat>, at: nat, bytes: seq<nat>): (r: seq<nat>)
    requires |bytes| > 0 ==> at + |bytes| <= |ram|
    ensures |r| == |ram|
    ensures forall a :: 0 <= a < |ram| ==> r[a] == if at <= a < at + |bytes| then bytes[a - at] else ram[a]
  {
    if |bytes| == 0 then ram else ram[..at] + bytes + ram[at + |bytes|..]
  }

  function LoadSegment(L: Layout, s: Store, seg: Segment, pid: nat, r: nat): (l: Loaded)
    requires StoreOk(s) && seg.Good() && r < NPAGES
    ensures StoreOk(l.store)
  {
    var p := LoadPages(s, seg.va, seg.va + seg.memsz, pid, r);
    if p.out != Done then p
    else if !PagetableUsable(L, p.store.mem, r * PAGESIZE) || !PagetableUsable(L, p.store.mem, L.Root())
    then Loaded(p.store, Panicked)
    else
      var copied := CopyIn(p.store.ram, seg.va, seg.data);
      var cleared := CopyIn(copied, seg.va + |seg.data|, Repeat(0, seg.memsz - |seg.data|));
      Loaded(p.store.(ram := cleared), Done)
  }

  function LoadSegments(L: Layout, s: Store, segs: seq<Segment>, pid: nat, r: nat): (l: Loaded)
    requires StoreOk(s) && r < NPAGES && forall i :: 0 <= i < |segs| ==> segs[i].Good()
    ensures StoreOk(l.store)
    decreases |segs|
  {
    if segs == [] then Loaded(s, Done)
    else if segs[0].ptype != ELF_PTYPE_LOAD then LoadSegments(L, s, segs[1..], pid, r)
    else
      var l := LoadSegment(L, s, segs[0], pid, r);
      if l.out != Done then l else LoadSegments(L, l.store, segs[1..], pid, r)
  }

  /** program_load; a bad magic number fails its assertion. */
  function LoadProgram(L: Layout, s: Store, prog: Program, pid: nat, r: nat): (l: Loaded)
    requires StoreOk(s) && r < NPAGES && prog.Good()
    ensures StoreOk(l.store)
  {
    if prog.magic != ELF_MAGIC then Loaded(s, Panicked) else LoadSegments(L, s, prog.segments, pid, r)
  }

  // ----- what loading does

  /** Between `s` and `t` every page kept its pageinfo, or went from free to `pid`. */
  ghost predicate Claims(s: seq<PageInfo>, t: seq<PageInfo>, pid: nat) {
    && |s| == |t| == NPAGES
    && forall pn :: 0 <= pn < NPAGES ==> t[pn] == s[pn] || (s[pn].refcount == 0 && t[pn] == PageInfo(pid, 1))
  }

  /** Bytes of pages that were already in use are untouched. */
  ghost predicate UsedBytesKept(s: Store, t: Store)
    requires StoreOk(s) && StoreOk(t)
  {
    forall a :: 0 <= a < MEMSIZE_PHYSICAL && s.info[a / PAGESIZE].refcount != 0 ==> t.ram[a] == s.ram[a]
  }

  lemma {:induction false} LoadPagesEffect(s: Store, addr: nat, endMem: nat, pid: nat, r: nat)
    requires StoreOk(s) && addr % PAGESIZE == 0 && KernelTables(s.mem, r)
    ensures var l := LoadPages(s, addr, endMem, pid, r);
            && l.out != Panicked && l.store.mem == s.mem && Claims(s.info, l.store.info, pid)
            && (l.out == Done ==> forall pn :: 0 <= pn < NPAGES ==>
                  if addr <= pn * PAGESIZE < endMem then
                    s.info[pn].refcount == 0 && l.store.info[pn] == PageInfo(pid, 1)
                  else l.store.info[pn] == s.info[pn])
    decreases if addr < endMem then endMem - addr else 0
  {
    hide KernelTables, CodeMap;
    if addr < endMem && Assignable(s.info, addr) {
      IdentityMapIsNoop(s.mem, [], r, addr);
      var s1 := Store(Assign(s.info, addr, pid), s.mem, s.ram);
      LoadPagesEffect(s1, addr + PAGESIZE, endMem, pid, r);
    }
  }

  /** A loaded segment: its pages belong to `pid`, its bytes are the file's, then zeros. */
  ghost predicate InPlace(t: Store, seg: Segment, pid: nat)
    requires StoreOk(t)
  {
    && (forall pn :: 0 <= pn < NPAGES && seg.HasPage(pn) ==> t.info[pn] == PageInfo(pid, 1))
    && (seg.memsz > 0 ==> seg.va + seg.memsz <= MEMSIZE_PHYSICAL)
    && (forall a :: seg.va <= a < seg.va + seg.memsz ==>
          t.ram[a] == if a - seg.va < |seg.data| then seg.data[a - seg.va] else 0)
  }

  /** The bytes after the memcpy and the memset. */
  function Filled(ram: seq<nat>, seg: Segment): (r: seq<nat>)
    requires seg.Good() && (seg.memsz > 0 ==> seg.va + seg.memsz <= |ram|)
    ensures |r| == |ram|
    ensures forall a :: 0 <= a < |ram| ==>
              r[a] == (if seg.va <= a < seg.va + |seg.data| then seg.data[a - seg.va]
                       else if seg.va + |seg.data| <= a < seg.va + seg.memsz then 0 else ram[a])
  {
    CopyIn(CopyIn(ram, seg.va, seg.data), seg.va + |seg.data|, Repeat(0, seg.memsz - |seg.data|))
  }

  lemma SegmentUnfold(L: Layout, s: Store, seg: Segment, pid: nat)
    requires StoreOk(s) && seg.Good() && L.Valid() && KernelTables(s.mem, L.tables)
    ensures var p := LoadPages(s, seg.va, seg.va + seg.memsz, pid, L.tables);
            LoadSegment(L, s, seg, pid, L.tables) ==
              if p.out != Done then p else Loaded(p.store.(ram := Filled(s.ram, seg)), Done)
  {
    hide KernelTables, PagetableUsable, LoadPages, CopyIn;
    LoadPagesEffect(s, seg.va, seg.va + seg.memsz, pid, L.tables);
    KernelTablesUsable(L, s.mem);
  }

  lemma FilledKeepsUsed(s: Store, t: Store, seg: Segment)
    requires StoreOk(s) && StoreOk(t) && seg.Good() && (seg.memsz > 0 ==> seg.va + seg.memsz <= MEMSIZE_PHYSICAL)
    requires forall pn :: 0 <= pn < NPAGES && seg.HasPage(pn) ==> s.info[pn].refcount == 0
    requires t.ram == Filled(s.ram, seg)
    ensures UsedBytesKept(s, t)
  {
    hide Filled;
    forall a | 0 <= a < MEMSIZE_PHYSICAL && s.info[a / PAGESIZE].refcount != 0
      ensures t.ram[a] == s.ram[a]
    {
      PageOfAddress(seg, a);
    }
  }

  lemma SegmentEffect(L: Layout, s: Store, seg: Segment, pid: nat)
    requires StoreOk(s) && seg.Good() && L.Valid() && KernelTables(s.mem, L.tables)
    ensures var l := LoadSegment(L, s, seg, pid, L.tables);
            && l.out != Panicked && l.store.mem == s.mem
            && Claims(s.info, l.store.info, pid) && UsedBytesKept(s, l.store)
            && (l.out == Done ==> InPlace(l.store, seg, pid))
            && (l.out == Done ==> forall pn :: 0 <= pn < NPAGES ==>
                  if seg.HasPage(pn) then s.info[pn].refcount == 0 else l.store.info[pn] == s.info[pn])
  {
    hide KernelTables, LoadPages, LoadSegment, Filled;
    LoadPagesEffect(s, seg.va, seg.va + seg.memsz, pid, L.tables);
    SegmentUnfold(L, s, seg, pid);
    var l := LoadSegment(L, s, seg, pid, L.tables);
    if l.out == Done {
      FilledKeepsUsed(s, l.store, seg);
    }
  }

  lemma PageOfAddress(seg: Segment, a: nat)
    requires seg.va % PAGESIZE == 0
    ensures seg.va <= a < seg.va + seg.memsz ==> seg.HasPage(a / PAGESIZE)
  {
  }

  lemma InPlaceKept(s: Store, t: Store, seg: Segment, pid: nat, other: nat)
    requires StoreOk(s) && StoreOk(t) && InPlace(s, seg, pid) && seg.Good()
    requires Claims(s.info, t.info, other) && UsedBytesKept(s, t)
    ensures InPlace(t, seg, pid)
  {
    forall a | seg.va <= a < seg.va + seg.memsz
      ensures t.ram[a] == s.ram[a]
    {
      PageOfAddress(seg, a);
    }
  }

  /** Page `pn` belongs to some loadable segment. */
  ghost predicate Covered(segs: seq<Segment>, pn: nat) {
    exists i :: 0 <= i < |segs| && IsLoad(segs[i]) && segs[i].HasPage(pn)
  }

  lemma CoveredCons(segs: seq<Segment>)
    requires segs != []
    ensures forall pn :: Covered(segs, pn) <==> (IsLoad(segs[0]) && segs[0].HasPage(pn)) || Covered(segs[1..], pn)
  {
    forall pn | Covered(segs, pn)
      ensures (IsLoad(segs[0]) && segs[0].HasPage(pn)) || Covered(segs[1..], pn)
    {
      var i :| 0 <= i < |segs| && IsLoad(segs[i]) && segs[i].HasPage(pn);
      assert i > 0 ==> segs[i] == segs[1..][i - 1];
    }
    forall pn | Covered(segs[1..], pn)
      ensures Covered(segs, pn)
    {
      var i :| 0 <= i < |segs[1..]| && IsLoad(segs[1..][i]) && segs[1..][i].HasPage(pn);
      assert segs[i + 1] == segs[1..][i];
    }
  }

  predicate IsLoad(seg: Segment) { seg.ptype == ELF_PTYPE_LOAD }

  /** Two segments that share no page. */
  ghost predicate PageDisjoint(a: Segment, b: Segment) {
    forall pn :: 0 <= pn < NPAGES ==> !(a.HasPage(pn) && b.HasPage(pn))
  }

  lemma ClaimsTransitive(s: seq<PageInfo>, t: seq<PageInfo>, u: seq<PageInfo>, pid: nat)
    requires Claims(s, t, pid) && Claims(t, u, pid)
    ensures Claims(s, u, pid)
  {
  }

  /** If program_load returns 0, the loadable segments share no page, each holds its file bytes
      followed by zeros in pages owned by the process, and nothing in use before was touched. */
  lemma {:induction false} SegmentsEffect(L: Layout, s: Store, segs: seq<Segment>, pid: nat)
    requires StoreOk(s) && L.Valid() && KernelTables(s.mem, L.tables)
    requires forall i :: 0 <= i < |segs| ==> segs[i].Good()
    ensures var l := LoadSegments(L, s, segs, pid, L.tables);
            && l.out != Panicked && l.store.mem == s.mem
            && Claims(s.info, l.store.info, pid) && UsedBytesKept(s, l.store)
    ensures var l := LoadSegments(L, s, segs, pid, L.tables);
            l.out == Done ==>
              && (forall i :: 0 <= i < |segs| && IsLoad(segs[i]) ==> InPlace(l.store, segs[i], pid))
              && (forall i, j :: 0 <= i < j < |segs| && IsLoad(segs[i]) && IsLoad(segs[j]) ==>
                    PageDisjoint(segs[i], segs[j]))
              && (forall i, pn :: 0 <= i < |segs| && IsLoad(segs[i]) && 0 <= pn < NPAGES && segs[i].HasPage(pn) ==>
                    s.info[pn].refcount == 0)
              && (forall pn :: 0 <= pn < NPAGES && !Covered(segs, pn) ==> l.store.info[pn] == s.info[pn])
    decreases |segs|
  {
    hide KernelTables, InPlace, LoadSegment, Covered;
    if segs != [] {
      CoveredCons(segs);
      var rest := segs[1..];
      if !IsLoad(segs[0]) {
        SegmentsEffect(L, s, rest, pid);
        SegmentsShift(segs);
      } else {
        SegmentEffect(L, s, segs[0], pid);
        var m := LoadSegment(L, s, segs[0], pid, L.tables);
        if m.out == Done {
          SegmentsEffect(L, m.store, rest, pid);
          var l := LoadSegments(L, m.store, rest, pid, L.tables);
          ClaimsTransitive(s.info, m.store.info, l.store.info, pid);
          if l.out == Done {
            InPlaceKept(m.store, l.store, segs[0], pid, pid);
            HeadDisjoint(m.store, segs, pid);
          }
        }
      }
    }
  }

  lemma SegmentsShift(segs: seq<Segment>)
    requires segs != []
    ensures forall i :: 0 < i < |segs| ==> segs[i] == segs[1..][i - 1]
  {
  }

  lemma HeadDisjoint(m: Store, segs: seq<Segment>, pid: nat)
    requires StoreOk(m) && segs != [] && InPlace(m, segs[0], pid)
    requires forall i, pn :: 0 <= i < |segs[1..]| && IsLoad(segs[1..][i]) && 0 <= pn < NPAGES
                             && segs[1..][i].HasPage(pn) ==>
               m.info[pn].refcount == 0
    ensures forall j :: 0 < j < |segs| && IsLoad(segs[j]) ==> PageDisjoint(segs[0], segs[j])
  {
    forall j | 0 < j < |segs| && IsLoad(segs[j])
      ensures PageDisjoint(segs[0], segs[j])
    {
      assert segs[1..][j - 1] == segs[j];
    }
  }

  // ----- when loading succeeds

  /** Everything from `addr` to `endMem` lies in free pages of physical memory. */
  ghost predicate RangeFree(info: seq<PageInfo>, addr: nat, endMem: nat) {
    && |info| == NPAGES
    && (addr < endMem ==> endMem <= MEMSIZE_PHYSICAL)
    && forall pn :: 0 <= pn < NPAGES && addr <= pn * PAGESIZE < endMem ==> info[pn].refcount == 0
  }

  lemma {:induction false} LoadPagesSucceeds(s: Store, addr: nat, endMem: nat, pid: nat, r: nat)
    requires StoreOk(s) && addr % PAGESIZE == 0 && KernelTables(s.mem, r)
    ensures LoadPages(s, addr, endMem, pid, r).out == Done <==> RangeFree(s.info, addr, endMem)
    decreases if addr < endMem then endMem - addr else 0
  {
    hide KernelTables, CodeMap;
    if addr < endMem {
      if Assignable(s.info, addr) {
        IdentityMapIsNoop(s.mem, [], r, addr);
        var s1 := Store(Assign(s.info, addr, pid), s.mem, s.ram);
        LoadPagesSucceeds(s1, addr + PAGESIZE, endMem, pid, r);
        FreeFrom(s.info, s1.info, addr, endMem, pid);
      } else {
        FirstPage(s.info, addr, endMem);
      }
    }
  }

  lemma FirstPage(info: seq<PageInfo>, addr: nat, endMem: nat)
    requires |info| == NPAGES && addr % PAGESIZE == 0 && addr < endMem
    ensures RangeFree(info, addr, endMem) ==> Assignable(info, addr)
  {
    assert addr / PAGESIZE * PAGESIZE == addr;
  }

  lemma FreeFrom(info: seq<PageInfo>, info1: seq<PageInfo>, addr: nat, endMem: nat, pid: nat)
    requires |info| == NPAGES && Assignable(info, addr) && info1 == Assign(info, addr, pid) && addr < endMem
    ensures RangeFree(info, addr, endMem) <==> RangeFree(info1, addr + PAGESIZE, endMem)
  {
    forall pn | 0 <= pn < NPAGES && addr <= pn * PAGESIZE
      ensures pn == addr / PAGESIZE || (addr + PAGESIZE <= pn * PAGESIZE && info1[pn] == info[pn])
    {
    }
  }

  /** The pages of one segment are free. */
  ghost predicate SegmentFree(info: seq<PageInfo>, seg: Segment) { RangeFree(info, seg.va, seg.va + seg.memsz) }

  ghost predicate SegmentsDisjoint(segs: seq<Segment>) {
    forall i, j :: 0 <= i < j < |segs| && IsLoad(segs[i]) && IsLoad(segs[j]) ==> PageDisjoint(segs[i], segs[j])
  }

  /** Every loadable segment lies in free pages of physical memory, and no two share a page. */
  ghost predicate Loadable(info: seq<PageInfo>, segs: seq<Segment>) {
    SegmentsDisjoint(segs) && forall i :: 0 <= i < |segs| && IsLoad(segs[i]) ==> SegmentFree(info, segs[i])
  }

  /** Taking the pages of the first segment leaves the others loadable when they do not touch it. */
  lemma LoadableCons(info: seq<PageInfo>, info1: seq<PageInfo>, segs: seq<Segment>, pid: nat)
    requires segs != [] && |info| == |info1| == NPAGES
    requires IsLoad(segs[0]) ==> SegmentFree(info, segs[0])
    requires forall pn :: 0 <= pn < NPAGES ==>
               info1[pn] == if IsLoad(segs[0]) && segs[0].HasPage(pn) then PageInfo(pid, 1) else info[pn]
    ensures Loadable(info, segs) <==> Loadable(info1, segs[1..])
  {
    var rest := segs[1..];
    SegmentsShift(segs);
    if Loadable(info, segs) {
      forall i, j | 0 <= i < j < |rest| && IsLoad(rest[i]) && IsLoad(rest[j])
        ensures PageDisjoint(rest[i], rest[j])
      {
        assert rest[i] == segs[i + 1] && rest[j] == segs[j + 1];
      }
      forall i | 0 <= i < |rest| && IsLoad(rest[i])
        ensures SegmentFree(info1, rest[i])
      {
        assert rest[i] == segs[i + 1];
        assert SegmentFree(info, segs[i + 1]) && (IsLoad(segs[0]) ==> PageDisjoint(segs[0], segs[i + 1]));
      }
    }
    if Loadable(info1, rest) {
      forall i, j | 0 <= i < j < |segs| && IsLoad(segs[i]) && IsLoad(segs[j])
        ensures PageDisjoint(segs[i], segs[j])
      {
        assert segs[j] == rest[j - 1] && SegmentFree(info1, rest[j - 1]);
        if i > 0 { assert segs[i] == rest[i - 1]; }
      }
      forall i | 0 <= i < |segs| && IsLoad(segs[i])
        ensures SegmentFree(info, segs[i])
      {
        if i > 0 { assert segs[i] == rest[i - 1] && SegmentFree(info1, rest[i - 1]); }
      }
    }
  }

  lemma SegmentSucceeds(L: Layout, s: Store, seg: Segment, pid: nat)
    requires StoreOk(s) && seg.Good() && L.Valid() && KernelTables(s.mem, L.tables)
    ensures var l := LoadSegment(L, s, seg, pid, L.tables);
            && (l.out == Done <==> SegmentFree(s.info, seg))
            && (l.out == Done ==> forall pn :: 0 <= pn < NPAGES ==>
                  l.store.info[pn] == if seg.HasPage(pn) then PageInfo(pid, 1) else s.info[pn])
  {
    hide KernelTables, LoadPages, LoadSegment;
    LoadPagesSucceeds(s, seg.va, seg.va + seg.memsz, pid, L.tables);
    SegmentUnfold(L, s, seg, pid);
    SegmentEffect(L, s, seg, pid);
  }

  /** program_load's segments load exactly when they fit free pages of physical memory and share
      no page. */
  lemma {:induction false} SegmentsSucceed(L: Layout, s: Store, segs: seq<Segment>, pid: nat)
    requires StoreOk(s) && L.Valid() && KernelTables(s.mem, L.tables)
    requires forall i :: 0 <= i < |segs| ==> segs[i].Good()
    ensures LoadSegments(L, s, segs, pid, L.tables).out == Done <==> Loadable(s.info, segs)
    decreases |segs|
  {
    hide KernelTables, LoadSegment, Loadable, SegmentFree;
    if segs == [] {
      NothingToLoad(s.info);
    } else if !IsLoad(segs[0]) {
      LoadableCons(s.info, s.info, segs, pid);
      SegmentsSucceed(L, s, segs[1..], pid);
    } else {
      SegmentSucceeds(L, s, segs[0], pid);
      var m := LoadSegment(L, s, segs[0], pid, L.tables);
      if m.out == Done {
        SegmentEffect(L, s, segs[0], pid);
        LoadableCons(s.info, m.store.info, segs, pid);
        SegmentsSucceed(L, m.store, segs[1..], pid);
      } else {
        FirstMustBeFree(s.info, segs);
      }
    }
  }

  lemma NothingToLoad(info: seq<PageInfo>)
    ensures Loadable(info, [])
  {
  }

  lemma FirstMustBeFree(info: seq<PageInfo>, segs: seq<Segment>)
    requires segs != [] && IsLoad(segs[0])
    ensures Loadable(info, segs) ==> SegmentFree(info, segs[0])
  {
  }
}
