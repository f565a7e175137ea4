# A verified model of the WeensyOS memory kernel and the CS202 file system

The project models two programs and proves what they promise.

**The WeensyOS kernel (lab4).** Physical memory is a value: 512 pages of 512 64-bit words.
`PageTable` and `MapPages` give the four-level page table its meaning (section 4.5 of the Intel
SDM, volume 3A): a walk, a translation, and a tree shape in which every interior table has exactly
one place. `VirtualMemory` holds the code of `virtual_memory_map`, whose loop keeps the leaf table
while the 2MB region stays the same, and proves it equal to one walk per page. `KernelPages` sets
up the kernel's own tables. `KernelState`, `Loader`, `Kernel` describe the kernel's globals,
program loading, and one exception as a step; `KernelRuns` and `KernelBoot` prove what every run
from power-on keeps, `KernelChecks` what its checks mean; `KernelCode` is kernel.c and k-loader.c as they are written, method by
method, proved equal to those steps. `AllocatorRun` runs the four default processes against the
kernel in any interleaving; it rests on `Rand`, the full-period proof for the generator of lib.c.
`Printf` and `Printer` are the formatted-output engine; `FormatText` says what a format prints,
directive by directive.

**The CS202 file system (lab5).** `Blocks` reads and writes words, inodes and directory entries
inside 4096-byte blocks. `Volume` gives every block in use one role; a role names the only slot
that may point to the block, so a graph in which every slot leads to the role that belongs there
has no shared blocks. The bitmap's blocks are those behind the superblock and no others, and every
inode but the root is named by exactly one directory entry, so no block in use is unreferenced
either (`UsedIffReferenced`). `BlockBitmap` is the free map. `Files` says what it means to read and
write a file as a flat byte array with holes as zeros, and `Inode` (module `InodeCode`) does so
block by block. `Directory` treats directories as finite maps and paths as folds of lookup;
`DirectoryCode` is dir.c and `inode_create`, `OpenFiles` reads, writes and shrinks an open file in
the mounted tree. `Allocation` and `DirectorySpace` say which blocks an operation may take and
exactly when the free ones suffice: an operation runs out of space if and only if more blocks are
missing on its way (`Lacking`) than are free. `Paths` shows that every file has exactly one path.
`FileTree` is the view from outside, a map from paths to directories and byte arrays with the steps
that the calls may take on it; `FileView` reads that map off the disk, and `FileRuns` proves that
every sequence of calls (making files and directories, writing, reading, removing blocks) keeps the
file system mounted and answers from the map. `Building` and `Format` are fsformat; `Image` connects
the two: format, mount, open, read; `ImageRuns` starts whole runs from a formatted image. `CInts`
and `Util` hold C integer conversions and three small generic definitions.

Functions describe one step as a value; a class method in the form of the C code is proved equal
to the function or to a stated change of the old state; lemmas prove the promises about the
functions. A failed C assertion and `panic` are terminal outcomes (`Panicked`, `Panicking`, a
`false` result), never preconditions. `hide` statements in proofs only keep definitions out of the
solver's sight.

Three documented promises do not hold in general, and the exact conditions are proved.

* `virtual_memory_map` promises to map the range or to fail for want of a table page. Its loop
  starts with "no region" coded as -1 and truncates the region number to `int`, so for a first page
  whose region number ends in 32 one bits (`Starved`, for instance 0x1FFFFFFFE00000) no walk is
  made. Mapping then fails although every table exists (`SucceedsIffNotStarved`, `StarvedExample`),
  and unmapping skips the rest of the first region (`UnmapPromise`). Below 2^48 this cannot happen
  (`LowRangesAreNotStarved`).
* A printed field is as wide as the larger of the requested width and its body, except when their
  difference wraps around in an `int` to a positive number (`FieldLength`); `%*c` with the least
  `int` prints 2^31 - 1 spaces (`WidthWraps`).
* `dir_lookup` promises ENOENT for a name that is not there. It allocates directory blocks that are
  missing, so on a full disk it answers ENOSPC instead, exactly when a block of the directory is
  missing (`FullSearch`). Images have no such directories, and every operation keeps it so, but for
  one: `dir_alloc_dirent` grows the directory before it knows whether there is a block for it, and
  leaves it longer when there is none (`CreateInode`, `HalfExtendedUnmapped`).

Assumptions that the model makes explicit: user code does not write pages owned by the kernel
(`Overlay`); an allocator passed to `virtual_memory_map` returns NULL or a fresh aligned page below
the end of memory (`Fresh`); program images have page-aligned segments with no more file bytes than
memory (`Good`); the default processes' images lie in their 0x40000-byte slots (`AllFit`) and each
stays within its one stack page; a new file block is cleared when it is allocated; an image is
smaller than 4 GiB, because fsformat and the driver multiply block numbers by the block size in 32
bits; the operating system does not pass reads and writes of directories to the driver; the statics of `memshow_virtual_animate` hold their initial values when `kernel` starts.

## Model

| member | source | states |
|---|---|---|
| PageTable.PathInjective | lab4/k-hardware.c:345-377 | in a tree, two addresses that reach one table agree on every index above it, so no two regions share a leaf table |
| PageTable.LeafWriteOthers | lab4/k-hardware.c:334-337 | writing one leaf slot leaves the translation of every other page alone |
| PageTable.WalkEffect | lab4/k-hardware.c:345-377 | the walk, whatever it allocates and however it ends, keeps the tree and every translation; a returned table is the leaf table of the address with at least the requested permissions |
| PageTable.WalkResolved | lab4/k-hardware.c:345-377 | a walk over tables that exist touches nothing and asks the allocator for nothing |
| MapPages.MapPageEffect | lab4/k-hardware.c:328-341 | one page: the tree survives, that page gets its translation, no other page moves |
| MapPages.MapAllEffect | lab4/k-hardware.c:312-343 | a range with one walk per page: exactly the finished prefix is retargeted, also when a table cannot be allocated or an assertion fails, and the tables stay a tree |
| MapPages.MapRange | lab4/k-hardware.c:290-343 | on a tree, `va+X` then translates to `pa+X` with exactly the requested P, W, U for every X in the finished prefix, every other page as before, and the prefix is the whole range exactly on success |
| MapPages.OffsetOutside | lab4/k-hardware.c:290-307 | below 2^48 "every other page" means exactly the addresses outside the range |
| MapPages.MapTwice | lab4/k-hardware.c:312-343 | after a success the same call allocates nothing and changes no memory, whatever the allocator offers |
| VirtualMemory.CacheHit | lab4/k-hardware.c:326-333 | within one region the kept leaf table is what a fresh walk returns |
| VirtualMemory.CacheFilled | lab4/k-hardware.c:330-337 | the table a walk returned stays the right one after its page is written |
| VirtualMemory.LowRangesAreNotStarved | lab4/k-hardware.c:326-333 | below 2^53 - 2^21 the loop with the kept table equals one walk per page |
| VirtualMemory.SucceedsIffNotStarved | lab4/k-hardware.c:326-340 | where one walk per page would succeed, the code succeeds exactly when the first region number does not truncate to -1 |
| VirtualMemory.StarvedExample | lab4/k-hardware.c:326-340 | a concrete address for which mapping fails on every memory |
| VirtualMemory.UnmapPromise | lab4/k-hardware.c:326-341 | without PTE_P the range ends up unmapped exactly when the skipped first pages were unmapped before; skipped pages translate as before |
| VirtualMemory.PhysicalMemory.LookupL4PageTable | lab4/k-hardware.c:345-377 | the loop computes the recursive walk: memory, allocator and result |
| VirtualMemory.PhysicalMemory.VirtualMemoryMap | lab4/k-hardware.c:312-324 | the entry assertions, then the mapping loop; a failed assertion changes nothing |
| VirtualMemory.PhysicalMemory.MapLoop | lab4/k-hardware.c:326-343 | the loop that walks only when the region number changes ends with the memory, the allocator state and the result of one walk per page, starved ranges excepted |
| VirtualMemory.PhysicalMemory.VirtualMemoryLookup | lab4/k-hardware.c:384-401 | returns the translation of the address, unmapped if any level is absent |
| KernelPages.IdentityMapped | lab4/k-hardware.c:271-287 | the kernel's tables map all of physical memory to itself, writable and user-accessible |
| KernelPages.UpperUnmapped | lab4/k-hardware.c:271-287 | the 2MB behind physical memory are unmapped, although a leaf table exists for them |
| KernelPages.InitTablesCorrect | lab4/k-hardware.c:271-287 | from any memory contents virtual_memory_init succeeds without an allocator, builds the identity map, and touches only its five pages |
| KernelPages.IdentityMapIsNoop | lab4/kernel.c:219-223 | mapping a page of physical memory to itself then changes nothing and cannot fail |
| KernelState.InvPassesChecks | lab4/kernel.c:401-429 | the run invariant implies every assertion of check_virtual_memory, and those of memshow_virtual for every live process |
| KernelState.KernelTablesUsable | lab4/k-hardware.c:409-420 | set_pagetable's assertions and the kernel mapping checks hold for the kernel's tables |
| KernelState.KernelTablesShowable | lab4/kernel.c:469-501 | memshow_virtual's assertions hold for the kernel's tables: below 3MB every page is unmapped or maps into physical memory |
| KernelChecks.ChecksMean | lab4/kernel.c:326-429 | a state that passes check_virtual_memory has what its comment asks for: process 0 unused, the kernel mapped in every page table in use, the kernel's table referenced once for itself and once per process on it, all lower tables once, and no page in use owned by a dead process |
| KernelChecks.AnimationSteps | lab4/kernel.c:508-530 | the memory viewer moves on when 50 ticks have passed, and shows the first live process from there on in cyclic order |
| Loader.LoadPagesEffect | lab4/k-loader.c:87-95 | the page loop gives exactly the segment's pages, all free before, to the process |
| Loader.LoadPagesSucceeds | lab4/k-loader.c:87-95 | the page loop succeeds exactly when the range lies in free pages of physical memory |
| Loader.SegmentEffect | lab4/k-loader.c:80-107 | one segment: in place on success, nothing in use touched |
| Loader.SegmentsEffect | lab4/k-loader.c:41-107 | if program_load returns 0, segments are page-disjoint, each holds its file bytes and then zeros in pages owned by the process, and nothing in use before was touched |
| Loader.SegmentsSucceed | lab4/k-loader.c:41-107 | the segments load exactly when each lies in free pages of physical memory and no two share a page |
| KernelRuns.NextIsNearest | lab4/kernel.c:272-282 | the scan finds the runnable process nearest after the current one |
| KernelRuns.ScheduleFindsRunnable | lab4/kernel.c:272-282 | one round of the scan ends with a process exactly when one is runnable |
| KernelRuns.BoundedBypass | lab4/kernel.c:272-298 | a process that stays runnable is chosen within its cyclic distance plus one, at most NPROC, calls, however the others change |
| KernelRuns.PageAllocEffect | lab4/kernel.c:217-226 | page_alloc never panics, answers 0 and assigns exactly when the page is aligned, exists and is free, and answers -1 otherwise |
| KernelRuns.ChecksPass | lab4/kernel.c:168-199 | between exceptions none of the assertions made before the switch fails, the memory viewer included |
| KernelRuns.ExceptionOutcome | lab4/kernel.c:168-265 | one exception keeps the invariant, changes only the granted page, spins only when nothing is runnable, and panics exactly on the interrupts that ask for it |
| KernelRuns.ExceptionEffect | lab4/kernel.c:168-265 | everything an exception that does not panic leaves: the caller has the registers it trapped with and the answer of its call, and is broken exactly by a page fault of its own; no other process changed; ticks rose by one modulo 2^32 exactly after a timer interrupt; memory is as user code left it but for the kernel's pages |
| KernelRuns.BrokenForever | lab4/kernel.c:248-298 | in every run a broken process stays broken and is never current |
| KernelRuns.FaultIsFinal | lab4/kernel.c:234-265 | so a process that faults in user mode never runs again |
| KernelRuns.RunIsSafe | lab4/kernel.c:168-298 | after any sequence of exceptions with any user behaviour, every assertion of check_virtual_memory holds, every live process can be shown by memshow_virtual, and no assertion of the kernel has failed |
| KernelRuns.TurnComes | lab4/kernel.c:168-298 | in a run that does not panic, a runnable process becomes current within its cyclic distance plus one, at most NPROC, of the events that end in schedule(), whatever user code does |
| KernelRuns.FreePagesUpdate | lab4/kernel.c:144-154 | assigning a free page lowers the number of free pages by one |
| KernelRuns.PagesAccounted | lab4/kernel.c:144-154 | over a run the granted addresses are pairwise distinct, were free before, stay with their owner, and with the free pages left make up the free pages there were |
| KernelBoot.SetupUnfold | lab4/kernel.c:124-136 | process_setup fails exactly when its program does not load |
| KernelBoot.SetupKeepsInv | lab4/kernel.c:124-136 | a process joins: the root's reference count and the owners stay in order |
| KernelBoot.SetupSlot | lab4/kernel.c:124-136 | with an image inside its slot, the stack page is owned, everything from the heap start to it is free, and only pages of the slot changed |
| KernelBoot.FreshPages | lab4/kernel.c:309-325 | by page number, which pages are free, reserved and the kernel's after pageinfo_init |
| KernelBoot.LaunchedGrows | lab4/kernel.c:124-136 | one more process starts at its entry point, with its stack pointer at the end of its slot; pages of no image and no stack stay as pageinfo_init left them |
| KernelBoot.BootIsReady | lab4/kernel.c:86-136 | booting ends in process 1 with the invariant, the requested processes runnable at their entry points with empty stacks, every loadable segment of every program in place in pages its process owns, all unclaimed pages as pageinfo_init left them, and the slots open, or panics because a program does not load |
| KernelBoot.BootSucceeds | lab4/kernel.c:86-136 | with images that fit their slots, boot enters process 1 exactly when every image has the magic number and segments that share no page |
| KernelBoot.KernelIsSafe | lab4/kernel.c:86-265 | from power-on: no user behaviour makes the kernel fail an assertion, those of the memory viewer included, and check_virtual_memory is satisfied in every state |
| KernelCode.KernelGlobals.PageinfoInit | lab4/kernel.c:309-325 | the loop gives each page its initial owner and reference count |
| KernelCode.KernelGlobals.AssignPhysicalPage | lab4/kernel.c:144-154 | 0 exactly for an assignable page, which then belongs to the owner; no change otherwise |
| KernelCode.KernelGlobals.SetPagetable | lab4/k-hardware.c:409-420 | true exactly when its assertions hold |
| KernelCode.KernelGlobals.CheckPageTableMappings | lab4/kernel.c:332-354 | true exactly when every kernel page is identity mapped and kernel data and stack are writable |
| KernelCode.KernelGlobals.CheckPageTableOwnershipLevel | lab4/kernel.c:380-394 | true exactly when every table below has the owner and reference count it should |
| KernelCode.KernelGlobals.CheckPageTableOwnership | lab4/kernel.c:364-378 | the same with the count derived from the live sharers |
| KernelCode.KernelGlobals.CheckVirtualMemory | lab4/kernel.c:401-429 | true exactly when all its assertions hold |
| KernelCode.KernelGlobals.MemshowVirtual | lab4/kernel.c:469-501 | true exactly when its assertions hold |
| KernelCode.KernelGlobals.MemshowVirtualAnimate | lab4/kernel.c:508-530 | picks the process to show as the step machine does; true exactly when it can be shown |
| KernelCode.KernelGlobals.RunProcess | lab4/kernel.c:291-303 | makes the process current and resumes it, or panics |
| KernelCode.KernelGlobals.ScheduleNext | lab4/kernel.c:272-282 | the scanning loop equals the step machine's scheduler |
| KernelCode.KernelGlobals.SysPageAlloc | lab4/kernel.c:217-226 | equals the step machine's page allocation |
| KernelCode.KernelGlobals.HandleException | lab4/kernel.c:168-265 | in every state of a run, the code's outcome and final globals are those of the step machine |
| KernelCode.KernelGlobals.ProgramLoadSegment | lab4/k-loader.c:80-107 | pages, bytes and result are those of the loading function |
| KernelCode.KernelGlobals.ProgramLoad | lab4/k-loader.c:48-70 | the same over all segments, with the entry point set exactly on success |
| KernelCode.KernelGlobals.SetupProcess | lab4/kernel.c:124-136 | the final globals are those of the setup function, or its assertion fails |
| KernelCode.KernelGlobals.VirtualMemoryInit | lab4/k-hardware.c:271-287 | memory ends up as the initialization function says |
| KernelCode.KernelGlobals.KernelMain | lab4/kernel.c:86-116 | from any memory, kernel() ends as the boot function says |
| AllocatorRun.ClientTrapServed | lab4/kernel.c:168-265 | a timer, yield, getpid or page_alloc trap changes only the caller's registers and the granted page |
| AllocatorRun.ClientBehaves | lab4/p-allocator.c:11-45 | in terms of the outputs of rand(): every pass of the loop makes one draw; process p asks for the page at heap_top exactly when the draw modulo 100 is below p and the heap is not full; it stops when it is full, and otherwise yields |
| AllocatorRun.ResumeKept | lab4/p-allocator.c:11-45 | one stretch of process_main keeps the client's invariant |
| AllocatorRun.StretchTraps | lab4/p-allocator.c:26-39 | in any state of a run the process behaves so, and the store through heap_top never faults |
| AllocatorRun.WaitIsBounded | lab4/p-allocator.c:26-39 | no process makes 2^31 draws without one that selects the allocation branch |
| AllocatorRun.AllocatorsRun | lab4/p-allocator.c:11-45 | in any interleaving with each other and with timers, no sys_page_alloc fails, each process owns exactly the heap pages below its heap_top, one for each of its draws that was below its number modulo 100, stops exactly at its stack page on such a draw, and allocates within 2^31 iterations |
| AllocatorRun.BootStartsAllocators | lab4/kernel.c:107-115 | booting the four allocators succeeds and starts such a run, when their images fit their slots and are proper images |
| Rand.Generator.Rand | lab4/lib.c:92-98 | returns the next output and advances the seed by the multiplier and increment of lib.c modulo 2^32, from the default seed first if need be |
| Rand.Generator.Srand | lab4/lib.c:100-103 | sets the seed |
| Rand.Jump | lab4/lib.c:96 | 2^k steps add 2^k times an odd number |
| Rand.Reach | lab4/lib.c:96 | fewer than 2^k steps reach every residue modulo 2^k |
| Rand.Unique | lab4/lib.c:96 | within 2^k steps no residue modulo 2^k occurs twice |
| Rand.StatePeriod | lab4/lib.c:92-98 | from any seed the state takes every 32-bit value exactly once and then returns to the seed |
| Rand.OutputsOnce | lab4/lib.c:92-98 | any 2^31 consecutive calls return every value of [0, 2^31) exactly once |
| Printf.FieldLength | lab4/lib.c:267-298 | a field is as wide as the larger of width and body, exactly when their difference does not wrap to a positive int |
| Printf.BodyBound | lab4/lib.c:252-282 | for int widths and precisions and strings of at most INT_MAX characters the body is never longer than that statement assumes |
| Printf.WidthWraps | lab4/lib.c:283-286 | the witness: "%*c" with width INT_MIN prints 2^31 characters |
| Printf.NoLeadingZero | lab4/lib.c:112-128 | nonzero values have no leading zero digit |
| Printf.DigitCount | lab4/lib.c:112-128 | a value has at most k digits exactly when it is below base^k |
| Printf.DigitsFit | lab4/lib.c:112-144 | every unsigned long fits the 24-byte buffer with its NUL |
| Printf.DigitsValue | lab4/lib.c:112-128 | the digits, after any number of zeros, read back as the value |
| Printf.SignedRoundTrip | lab4/lib.c:196-298 | for every format, flags, width and precision, the text of a %d, %i, %ld or %li conversion reads back as its argument |
| Printf.UnsignedRoundTrip | lab4/lib.c:206-298 | so does that of a %u, %x, %X or %p conversion, of any size |
| FormatText.ScanWritten | lab4/lib.c:152-202 | a directive written with any flags in any order, a width, a precision and size letters is read as exactly these |
| FormatText.TextPrinted | lab4/lib.c:227-298 | %s prints the first `precision` characters of its argument, %c its character, any other character itself and a trailing '%' itself, with the spaces all in front, or all behind with '-' |
| FormatText.NumberPrinted | lab4/lib.c:204-298 | numbers print as spaces, sign or "0x" as the flags ask, zeros, the shortest numeral in the right letters, spaces; the zeros reach the precision, or with '0' the width, and then no space is in front |
| FormatText.ColorChanged | lab4/lib.c:230-232 | %C prints nothing and sets the color |
| FormatText.OutputPieces | lab4/lib.c:146-299 | characters up to the next '%' appear as they are, then the text of the directive, then the output of the rest |
| Printer.FillNumbuf | lab4/lib.c:112-128 | leaves the digits before the NUL at the end of the buffer, never leaving it |
| Printer.ReadDirective | lab4/lib.c:152-202 | scans flags, width, precision and length, reading at most up to the NUL |
| Printer.SelectConversion | lab4/lib.c:191-250 | the conversion switch selects the content of the field |
| Printer.Measure | lab4/lib.c:252-282 | computes prefix, zero padding and data length of the field |
| Printer.Printer.PutField | lab4/lib.c:283-298 | prints padding, prefix, zeros, data, padding |
| Printer.Printer.PrintDirective | lab4/lib.c:152-299 | one directive prints its field and ends inside the format, including the step back from a trailing '%' |
| Printer.Printer.VPrintf | lab4/lib.c:142-301 | terminates on every format and prints exactly its output |
| Printer.Printer.ConsolePutc | lab4/lib.c:309-322 | newline, wrap-around and ordinary characters change the screen as described, never outside it |
| Printer.LineShown | lab4/lib.c:309-322 | a text without newlines that fits appears at the cursor, and no other cell changes |
| Printer.NewlineShown | lab4/lib.c:309-322 | a newline blanks the rest of its row of 80 cells and moves to the next; past the last cell the cursor starts over |
| Printer.VSNPrintf | lab4/lib.c:350-368 | the buffer receives exactly the first size - 1 characters of the unbounded output and a NUL; everything else in it is unchanged |
| Printer.ConsoleVPrintf | lab4/lib.c:324-333 | the screen and the returned position are those after printing the output from `cpos` |
| BlockBitmap.TestUpdated | lab5/bitmap.c:30 | setting or clearing one bit of a word changes that bit only |
| BlockBitmap.CountChange | lab5/fsdriver.c:478-480 | freeing a block in use raises the free count by exactly one, taking one lowers it by one |
| BlockBitmap.FreeMap.BlockIsFree | lab5/bitmap.c:7-17 | true exactly for free blocks of the disk |
| BlockBitmap.FreeMap.FreeBlock | lab5/bitmap.c:19-31 | marks the block free and no other; does nothing for block 0 |
| BlockBitmap.FreeMap.AllocBlock | lab5/bitmap.c:33-51 | takes a free block, or reports that there is none |
| BlockBitmap.FreeMap.CountFreeBlocks | lab5/fsdriver.c:478-481 | counts the free blocks |
| Volume.HomeRole | lab5/fs_types.h:36-52 | following pointers leads to a block of the role that belongs there, so two places never lead to one block |
| Volume.ReferencedOnce | lab5/fs_types.h:36-52 | slots that point to the same block are the same slot |
| Volume.PointedIffBelow | lab5/fs_types.h:36-52 | a block hangs below an inode exactly when some slot points to it |
| Volume.AllocateKeepsSound | lab5/inode.c:13-57 | taking a free block, clearing it and linking it keeps "every block is free or in use for one purpose, and below an inode held by exactly one slot", and changes no file |
| Volume.CreateKeepsSound | lab5/inode.c:81-86 | the same for a new inode, whose file is empty |
| Volume.FreeKeepsSound | lab5/inode.c:184-187 | unlinking and freeing a data block keeps it too, and turns exactly that file block into zeros |
| Volume.WriteDataKeepsSound | lab5/inode.c:160 | overwriting a data block changes that block of that file and nothing else |
| Volume.WriteAttributesKeepsSound | lab5/inode.c:227 | changing an inode's attributes moves no block |
| Files.BlockWritten | lab5/inode.c:156-163 | copying into one block is a write of those bytes to the file |
| Files.ReadAfterWrite | lab5/inode.c:102-166 | reading back what was written gives it |
| Files.ReadElsewhere | lab5/inode.c:102-166 | a range the write does not touch, and any range of another file, reads as before |
| Files.WrittenAppend | lab5/inode.c:156-163 | successive writes of adjacent ranges are one write |
| Allocation.PlacedIsHome | lab5/fs_types.h:36-52 | following pointers to a place finds a block exactly when some block has that place as its role |
| Allocation.Sufficed | lab5/inode.c:13-63 | an operation that took blocks for places on its way only, and found none missing at the end, had at least as many free blocks as places were missing |
| Allocation.FellShort | lab5/inode.c:13-63 | one that ended on a full disk with a place still missing had fewer |
| Allocation.HomesKept | lab5/inode.c:13-63 | while blocks in use keep their roles, every place leads to the block it led to |
| InodeCode.FileSystem.AllocAt | lab5/inode.c:13-57 | a cleared block in an empty slot, or ENOSPC with no free block; no file changes |
| InodeCode.FileSystem.BlockWalk | lab5/inode.c:13-44 | the documented contract: the slot of file block n; ENOENT exactly without `alloc` when a pointer block is missing, nothing changed when none is; ENOSPC only on a full disk, EINVAL exactly out of range; only pointer blocks of this inode are added |
| InodeCode.FileSystem.GetBlock | lab5/inode.c:46-63 | the documented contract: the block of file block n, allocated and clear if need be; nothing changes when it exists; blocks in use keep their roles; fails exactly when fewer blocks are free than are missing on the way |
| InodeCode.FileSystem.Read | lab5/inode.c:99-138 | returns exactly the available bytes of the range, holes as zeros, and changes nothing |
| InodeCode.FileSystem.Grow | lab5/inode.c:221-230 | growing sets the size and changes no byte |
| InodeCode.FileSystem.Write | lab5/inode.c:140-166 | on success the file is the old one with the buffer written at the offset and the size extended; on ENOSPC, which comes exactly when fewer blocks are free than the range misses, exactly the bytes in front of the first block that could not be had are written; every other file is unchanged; blocks in use keep their roles, and added ones belong to this inode and its written range |
| InodeCode.FileSystem.FreeFileBlock | lab5/inode.c:168-189 | a mapped block becomes free and no other, raising the free count by exactly one, and reads as zeros; inodes, attributes and other blocks are unchanged |
| Directory.LookupIsMap | lab5/dir.c:11-41 | in a well-formed directory lookup finds exactly the binding of a name |
| Directory.UsedIffReferenced | lab5/fs_types.h:36-58 | nothing is leaked or lost: a block is in use exactly when it is the superblock, a bitmap block or the root inode, or a pointer or directory entry leads to it; and never two of these |
| Directory.ComponentsNonEmpty | lab5/dir.c:116-127 | walk_path never looks up an empty name |
| Directory.ComponentsAreNonEmptyPieces | lab5/dir.c:75-82 | the components are the nonempty slash-separated pieces, so repeated, leading and trailing slashes do not matter |
| Directory.SameWalk | lab5/dir.c:92-154 | allocation during a walk does not change where it leads |
| Directory.EntryFilled | lab5/inode.c:84-85 | filling a free entry binds one name, changes no other entry and keeps all other bindings |
| Directory.Extended | lab5/dir.c:67-71 | growing a directory by an unallocated block binds and unbinds nothing |
| Directory.ExtendedNamed | lab5/dir.c:67-71 | nor does it change which entry names which inode |
| Directory.NameAdded | lab5/inode.c:81-86 | the last steps of inode_create add one name bound to an empty inode, and every inode but the root is still named exactly once |
| Directory.WalkAfterBound | lab5/inode.c:68-89 | the path that missed only that name then leads to the new inode |
| Directory.OthersTree | lab5/inode.c:140-189 | changing a file that is no directory keeps every directory well-formed and every inode named once |
| Directory.OthersWalk | lab5/inode.c:140-189 | and leaves every path leading where it led |
| DirectorySpace.SpentExactly | lab5/dir.c:11-73 | a search or walk that took only places on its way runs out of space exactly when more of them were missing than blocks were free |
| DirectorySpace.FullSearch | lab5/dir.c:11-41 | on a full disk a search for a name that is not there ends in ENOSPC instead of ENOENT exactly when a block of the directory is missing |
| DirectorySpace.HalfExtendedUnmapped | lab5/dir.c:67-69 | a failed extension leaves a directory with a missing block |
| DirectorySpace.DirsStayMapped | lab5/dir.c:43-73 | directories that keep their sizes and their blocks stay fully allocated |
| DirectoryCode.SearchBlock | lab5/dir.c:33-38 | the first entry of the block with the name |
| DirectoryCode.DirLookup | lab5/dir.c:16-41 | finds the first entry of that name, reports ENOENT exactly when there is none, changes nothing when every block is allocated; takes blocks only for the directory blocks it looks at and answers ENOSPC exactly when too few are free for the missing ones; panics only for the empty name, on a free entry whose number is no block |
| DirectoryCode.MappedFit | lab5/dir.c:54-68 | an inode has fewer allocated file blocks than the disk has blocks, so the size of a directory whose blocks are all allocated can grow without wrapping around |
| DirectoryCode.DirAllocDirent | lab5/dir.c:43-73 | the first free entry, in a new block exactly when there is none; no name appears or disappears and no byte of any file changes, also on ENOSPC, which comes exactly when the blocks to look at and the new one need more than are free; directories stay fully allocated unless the extension fails |
| DirectoryCode.SkipSlashes | lab5/dir.c:75-82 | stops at the first character that is no slash |
| DirectoryCode.WalkPath | lab5/dir.c:84-154 | equals the fold of lookup over the components; ENOENT carries the parent and the last name exactly when only the last component is missing from a directory; allocates only directory blocks on the way and answers ENOSPC exactly when too few are free for them |
| DirectoryCode.CreateInode | lab5/inode.c:65-89 | success adds exactly one name bound to a fresh inode in a cleared block, to which the path then leads; on any failure the names, the inodes and the contents of every file are as before, and at most the parent directory is a block longer; takes only blocks on the way and the new inode, answers ENOSPC exactly when more are needed than are free, and keeps directories fully allocated unless an extension fails |
| OpenFiles.WriteFile | lab5/fsdriver.c:459-465 | a write to an open file keeps the mounted file system in order, every path leads where it led, and directories stay fully allocated; bytes, size, blocks taken and the exact condition for ENOSPC are those of the write |
| OpenFiles.FreeBlockOf | lab5/inode.c:168-189 | so does removing one of its blocks, which becomes free, the only one, and reads as zeros |
| Paths.OnePath | lab5/dir.c:84-154 | no two paths lead to the same inode |
| Paths.GraftedWalk | lab5/inode.c:65-89 | when a new empty inode gets a name, every path that led somewhere leads there still, and every other path that leads somewhere now leads to the new inode |
| FileView.WalkStatus | lab5/dir.c:84-154 | the map of paths decides the outcome of every walk: found, too long an element met, only the last element missing, or gone |
| FileView.FileUpdated | lab5/inode.c:140-189 | what happens to one file shows under its path and nowhere else |
| FileTree.Undisturbed | lab5/fsdriver.c:201-465 | over any sequence of calls no path disappears, files stay files, directories stay directories, and a file keeps its bytes while no call writes to it or removes its blocks |
| FileTree.ReadAfterRun | lab5/fsdriver.c:451-465 | a read delivers what an earlier write put there, whatever other calls came in between, as long as none of them changed that file |
| FileRuns.Open | lab5/inode.c:91-97 | inode_open answers what the map says and changes nothing in it; on a tree with all directory blocks allocated it never fails for want of space |
| FileRuns.MakeAt | lab5/fsdriver.c:201-254 | fs_mknod and fs_mkdir add an empty file or directory with the given attributes exactly where the parent is a directory and the name is new, or change nothing in the map |
| FileRuns.WriteAt | lab5/fsdriver.c:439-465 | opening and writing changes the map at this path only: the bytes that arrived, zeros in a gap, and the new size; on a full disk the bytes in front of the first block that could not be had arrive |
| FileRuns.ReadAt | lab5/fsdriver.c:439-457 | opening and reading delivers exactly the part of the map's bytes asked for |
| FileRuns.ReleaseAt | lab5/inode.c:168-189 | removing a block turns its bytes in the map into zeros |
| FileRuns.PerformAll | lab5/fsdriver.c:201-465 | after any sequence of these calls the file system is mounted in order, with zeros behind every file, and every reply is a step of the map |
| Building.LinkData | lab5/fsformat.c:143-151 | writing one data pointer links that block and moves no other |
| Building.LinkPointer | lab5/fsformat.c:146-161 | linking a clear pointer block links no data and moves nothing |
| Format.Formatter.Alloc | lab5/fsformat.c:74-82 | advances by whole blocks and fails when the last block would be reached |
| Format.Formatter.OpenDisk | lab5/fsformat.c:84-121 | superblock, bitmap and an empty root directory of mode 0777, each block with its role; succeeds exactly when they leave a block of the disk over |
| Format.Formatter.FinishInode | lab5/fsformat.c:135-175 | through all three levels, the file's blocks are the data blocks in order; only this inode's pointers and new pointer blocks change; takes exactly `PointerBlocks` blocks and succeeds exactly when they leave one over |
| Format.Formatter.IDirAdd | lab5/fsformat.c:185-225 | adds a name and an empty file, for exactly one block |
| Format.Formatter.WriteInode | lab5/fsformat.c:238-265 | adds a file of mode 0600 with exactly the given bytes under its base name; earlier files are unchanged; succeeds exactly when inode, data and pointer blocks leave a block over |
| Format.BaseNameIs | lab5/fsformat.c:254-260 | a file is listed under what follows the last slash of its path, and under the whole path when there is none |
| Format.Formatter.FinishIDir | lab5/fsformat.c:227-236 | the root directory's blocks hold the collected entries and then zeros; succeeds exactly when they leave a block over |
| Format.Formatter.FinishDisk | lab5/fsformat.c:123-133 | exactly the blocks from diskpos on are free |
| Format.PointersDone | lab5/fsformat.c:135-175 | after the last pointer every block is held by its own slot |
| Image.FormatDisk | lab5/fsformat.c:274-300 | panics exactly when the image needs all blocks of the disk or more (`Needed`); otherwise exactly the first `Needed` blocks are in use, each for one purpose and referenced from exactly one place, inodes included, block_is_free holds exactly from there on, and every file is complete |
| Image.FormattedTree | lab5/fsformat.c:227-236 | with distinct names the image is a well-formed tree of one directory that names every other inode once |
| Image.FormattedLookup | lab5/fsformat.c:220-222 | each base name is bound to its file's inode |
| Image.RoundTrip | lab5/fsformat.c:238-265 | walking "/name" in the image leads to the file's inode, whose size and bytes are the file's |
| Image.ReadBack | lab5/inode.c:91-138 | the same through walk_path and inode_read, which returns exactly the original bytes |
| Image.FormatAndRead | lab5/fsformat.c:274-300 | for every list of files that fits, formatting, mounting and reading any of them returns its bytes; the file given as "dir/name" or "name" is opened as "/name" |
| ImageRuns.FormattedView | lab5/fsformat.c:274-300 | a formatted image, seen as a map, is one directory with exactly the given files, all directory blocks allocated |
| ImageRuns.FormatAndRun | lab5/fsformat.c:274-300 | for every list of files that fits, and every sequence of calls: format, mount, and each reply is a step of the map that starts with exactly those files, each given as "dir/name" or "name" listed under "name" |

## Left out

- Byte view of page tables: tables are arrays of words; loading and user code write bytes of pages that are not tables.
- Addresses: `virtual_memory_map` is modelled on unbounded addresses after its wrap-around assertion; upper-half virtual addresses are not treated specially.
- Allocator: `virtual_memory_map`'s allocator is the list of addresses it will return; an exhausted list stands for NULL.
- An assertion of `lookup_l4pagetable` that fails after a table page was attached ends the run; the page it leaves behind is not described further.
- check_virtual_memory on an owner of NPROC or more: the C code would read past `processes`; the model counts it as a failed assertion.
- schedule(): after one unsuccessful round the model stops with `Spinning`; the C loop repeats the same round for ever.
- What the kernel's memory viewer draws (its assertions are modelled), and its log dumps under TICK_LIMIT; console cursor, log output, keyboard, timer and interrupt controller, PCI, segment and gate setup, boot loader, assembly entry and exit: hardware effects.
- p-fork.c and p-forkexit.c: the kernel has no handler for their calls.
- Unaligned `p_va` in program_load_segment.
- What process_main stores in its heap pages: user memory is whatever the run says.
- AllocatorRun.AllocatorsRun: assumes that no process writes another process's variables; the kernel maps every page user-writable and does not prevent it.
- Isolation between processes or from the kernel: this kernel does not provide it.
- Printf.SignedRoundTrip: for LONG_MIN the C negation is undefined; the model lets it wrap around, and then the text is right.
- Format widths and precisions above INT_MAX, strings longer than INT_MAX, and missing arguments are undefined in C; the model reads numbers without a bound and a missing argument as zero.
- Packing of a console character and its color into 16 bits: a screen cell is a pair.
- inode_block_walk, inode_get_block, alloc_block: the repository has only their comments; the methods here meet those comments, and everything else uses their contracts alone.
- inode_truncate_blocks, inode_unlink, inode_link and what rests on them (shrinking in inode_set_size, fs_rename, fs_rmdir): not implemented in the repository. Without links "every inode but the root has exactly one name" is kept by all that is.
- InodeCode.FileSystem.Write: alone, its contract says of the bytes between the old size and the offset that they are as before; in a run, where nothing shrinks a file, they are zeros (`FileRuns.WriteAt`). Offsets and sizes stay below 2^32, and the `int` result below 2^31.
- Image.FormatDisk: base names have 1 to 123 bytes (a longer one would overflow the entry), sizes fit 32 bits after rounding up, and the image is smaller than 4 GiB, as fsformat's own arithmetic needs.
- Format.Formatter.IDirAdd: at most 127 files; growing the entry array keeps a stale C pointer.
- FUSE itself, and the callbacks other than fs_mknod, fs_mkdir, fs_open, fs_read and fs_write; the attributes that the first two set (mode, link count, device, times, owner) are one parameter, 46 bytes; mmap, msync and flush_block, time stamps, link counts and owners, option parsing, and reading of the input files: I/O and metadata copying.
- The bitmap blocks are kept beside the disk's other blocks, as the words the C code reaches through its global pointer.
