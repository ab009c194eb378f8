# A verified model of the kernel's memory, processes, file system and SMP bring-up

The model follows the kernel's own code: the page allocator, the page-table tree, the
kernel heap, the ELF loader, the in-memory file system with the virtual file system and
the ramdisk reader above it, and the start of the other processors.

The memory part has one byte-addressed physical memory, an array in the class
`Kernel`; `mem[p]` is what the kernel reaches through the pointer `p + hhdm`. The
allocator's bitmaps, every page-table entry, every heap header, every image and argument
byte are bytes of that one array, written in place by loops that follow the source. The
file-system part keeps inodes, directory entries and file nodes in three maps from
addresses, reassigned by the methods of the class `TempFs.FileSystem`; sharing of
`dir_first_node` between a directory, its `.` and its children's `..` is kept as it is in
the code. Ghost state says what the links amount to, and the invariants tie it to the
stored data.

| file | what it holds |
|---|---|
| `Bytes`, `KernelState`, `CStrings` | little-endian words and in-place stores; the kernel record; C strings, comparisons, octal numbers |
| `Pmm`, `PmmRuns` | the page allocator; every run of it |
| `PageTree`, `Mapping`, `Paging`, `PagingTheorems` | the radix tree and its shape; what one store or grant does to it; the four nested loops; what a reader of the tree sees |
| `FrameCount` | how many frames a series of calls takes, and when there are enough |
| `SectionMap`, `KernelMap` | memory shifted by `hhdm` and the self-map; the mappings every tree starts with |
| `UserView` | which pages of a tree are the user's, and whether one of them shows a table of the tree |
| `Elf`, `Spawn` | the image; the memory of a new process |
| `HeapModel`, `HeapSteps`, `KHeap`, `HeapRuns` | the pool list; its headers in memory; `malloc` and `free`; every run |
| `Smp` | every interleaving of the boot processor and the others |
| `TempFsModel`, `TempFsSteps`, `TempFsContents`, `TempFs` | the store and its shape; what each operation does to it; file contents; the operations in place |
| `TempFsTree`, `TempFsThrough`, `TempFsRuns` | the tree of paths; adding an entry through any inode; every run |
| `VfsPaths`, `VfsWalk`, `Vfs` | names in a path; a walk and what it creates; drives, `open`, `create_device` |
| `UstarModel`, `Ustar` | archives and the tree they unpack to; `unpack_ustar`, `setup_initrd` |

## What the proofs found about the code

- `get_bitmap_reserved` never advances its counter: its loop ends, with one page, exactly for sections of 1 to 32768 pages (`Pmm.ReservedEnds`).
- The branch of `kmalloc` for a last freed page is never taken: from `init_PMM` on nothing sets those fields (the dead branch in `Pmm.Kmalloc`).
- `virt_to_phys` answers 0xDEAD for one mapped physical address as well (`PagingTheorems.DeadIsAmbiguous`).
- A page count of 0 makes the unsigned counter of `map_pages` wrap to 2^64, so the call never ends normally (`Paging.MapPages`: `Done` implies `n > 0`).
- `last_loadable_segment` returns a loadable segment of greatest address exactly when some loadable segment lies above zero or header 0 is loadable (`Elf.LastIsLoadable`).
- The loader puts bytes where the process looks for them exactly when the lowest segment starts on a page boundary (`Spawn.LoaderNeedsAlignedStart`).
- The inode of `.` always counts two entries and that of `..` none (`TempFsThrough.DotCounts`). `tempfs_addentry` puts the new entry after as many links as the inode counts, and whatever comes behind is cut off the list (`TempFsThrough.ThroughCuts`): through `..` only the parent's first entry and the new one remain. Adding a file keeps the directories well shaped if and only if it goes through the directory's own inode (`TempFsThrough.KeepsShapeIffOwn`), and it and the next addition lose no entry under the same condition (`TempFsThrough.LosesNoneIffOwn`; `TempFsRuns.RunAddsThroughOwn` for every run).
- `spawn` finds the end of the image exactly when the last loadable segment is not empty or its address lies in no other segment (`Elf.EndIsReached`).
- `spawn` maps two argument pages onto one allocated frame, so the second page shows the frame after it, which was never asked for (`Spawn.SecondArgPage`). When that frame is free at the time, it becomes a page table of the process's own tree, present, writable and the user's (`Spawn.SpillBecomesTable`, `Spawn.SpillIsSeen`). Some page of the user shows a table of the tree if and only if that frame was free before the call (`Spawn.SpawnProcess`, `UserView.SpillWasFree`). It is whenever the frames in use are the first ones of a section, the earlier sections are full, and the section has more frames left than the process takes (`UserView.PrefixSpills`).
- `spawn` starts the process if and only if, before the call, some section has the image's pages free in a row, no mapped section is shorter than a page, and the free frames are enough for the image, five pages, and one table for each node of the page tree on the paths of what is mapped (`Spawn.SpawnProcess`); so with `init_paging` and with each call of `map_pages` and `alloc_pages` (`KernelMap.InitPaging`, `FrameCount.MapPagesNeeds`, `FrameCount.AllocPagesNeeds`).
- No page of the user shows a frame that was in use before the call, if and only if the frame after the argument frame was not in use (`Spawn.ProcessIsolated`).
- The pointers that `spawn` leaves for `argv` are the kernel's: they lead into the upper half, where no page is the user's (`Spawn.WriteArgs`, `Spawn.ArgPointersAreKernels`).
- `map_sections` never ends normally when a section that it maps is shorter than a page: its page count is zero (`SectionMap.MapSections`). Of a section whose base is not page-aligned the offset shows among the flags, and where sections share a page the last one decides (`SectionMap.SectionLeaves` in the same contract); with aligned bases every frame is shown present and writable, for the kernel only (`SectionMap.AlignedSelfMap`).
- `map_kernel` passes `map_pages` a physical address that the linker script does not align: the offset of the writable part in its page ends up among the flags of its entries. The pages are present and writable in any case, the user's if and only if that offset has bit 2, and have exactly the flags meant if and only if it is below 4 (`KernelMap.DataRights`). The pages mapped reach the end of the image if and only if the offset and the length together are at most the length rounded up to pages (`KernelMap.DataCovered`).
- A processor for which `alloc_pages` finds no frame keeps the start-up lock for ever: then nobody does anything but spin (`Smp.SomeoneCanAct`, `Smp.StuckWithoutFrames`). A run that has come to rest has brought up every processor if and only if, before `init_smp`, the free frames were at least the pages of all stacks and the missing tables on their paths (`Smp.EndsThroughIff`); eight for each processor are always enough (`Smp.EightEach`).
- The boot processor's stack is mapped where the stack of id 0 goes, whatever its own id: it keeps its frames if and only if no other processor has id 0 (`Smp.BootStackKept`).
- Paths and names are copied into blocks with no room for the terminator (src/fs/vfs.c:43, src/fs/vfs.c:180, src/fs/ustar.c:23-24), and it is written one byte past the payload. That byte is still in the block's own pool, where it does no harm, unless the heap grew for the block and `(n + 26) % 4096` is 0 (`HeapRuns.RoomForTerminator`, `HeapRuns.TerminatorIsHarmless`).
- A size field of eleven octal digits is read back exactly when the size is below 2^31 (`CStrings.SizeFieldReads`).

## Assumptions

- Usable sections are page-aligned, disjoint, inside memory and have 1 to 32768 pages. Memory ends by 2^52, `hhdm` is page-aligned and `hhdm` plus the size of memory is at most 2^64, and mapped sections fit above it in the 48-bit space; every `hhdm` in the upper half that has that room is allowed (`SectionMap.HigherHalf`).
- `map_pages` and `alloc_pages` are called with flags from 1 to 4095, and physical addresses are at most 2^64 - 2^48; they need not be page-aligned. The two functions have the same four loops and differ in one line; the model has the loops once, and a field of `Paging.Job` selects that line.
- `malloc` is called with less than 2^63 bytes, `free` with pointers `malloc` returned.
- No byte is in two segments of an executable; one of them starts above zero, all end below the user stack and lie inside the file, the last one ends the image (`Elf.EndFound`), and the argument block fits its page. Segments may be empty.
- In the file system, what `malloc` returns reads as zero until written (the code reads `num_entries` and `next_node` of new blocks), except the data of file nodes, of which nothing is assumed; addresses are numbered in the order of allocation. Component names have fewer than 20 bytes. The copies of paths are values here; what the byte past their end does to the heap is said above.
- A call to a device's own operations is an outcome of the model, `TempFs.Device`; what the device does is not part of it.
- What the user can reach is stated for kernels that are `KernelMap.Private`: image and shifted memory in the upper half, and the offsets of the writable part and of mapped sections in their pages without bit 2.
- The processors are numbered as the bootloader lists them, the boot processor first; the ids of the others are distinct, and their stacks lie in the address space. Until the boot processor is through only the start-up code takes frames.
- A step of `Smp` runs a whole `alloc_pages`: `Smp.InsideIsAlone` shows that nobody else changes memory or the lock in the meantime.

## Model

| member | source | states |
|---|---|---|
| Bytes.GetPutLE | src/mem/paging.c:94-124 | a word stored in memory is read back |
| Pmm.OrBitSets | src/mem/pmm.c:43-50 | the OR into a bitmap byte sets that bit and no other |
| Pmm.ReservedEnds | src/mem/pmm.c:15-25 | the loop ends if and only if the section has 1 to 32768 pages, and then with one page |
| Pmm.AllocatePages | src/mem/pmm.c:52-55 | exactly the pages of the run become taken, all other bits stay |
| Pmm.CheckPagesAvailable | src/mem/pmm.c:57-75 | true if and only if all pages of the run are tracked and free, for every 64-bit count |
| Pmm.TrackedPages | src/mem/pmm.c:60-93 | the pages the allocator keeps track of: whole groups of eight that fit behind the bitmap page |
| Pmm.FreeRunIs | src/mem/pmm.c:57-75 | what a free run is, in terms of base, length and frames in use alone |
| Pmm.Search | src/mem/pmm.c:88-104 | finds the least section and page of a free run, or there is none |
| Pmm.Kmalloc | src/mem/pmm.c:77-109 | least free run by section and address, marked, zeroed and counted; halts if and only if the count is 0 or no section has so many free pages in a row; no other byte changes, spare bitmap bytes included |
| Pmm.CanGrant | src/mem/pmm.c:88-104 | while a frame is free a grant of one frame is possible |
| PmmRuns.InitPmm | src/mem/pmm.c:27-41 | after it no page is in use and the invariant holds |
| PmmRuns.KeepBitmaps | src/mem/pmm.c:15-109 | writes outside the bitmap pages keep the allocator's invariant |
| PmmRuns.TrackableNotBitmap | src/mem/pmm.c:91-97 | a page the allocator can hand out is never a bitmap page and lies inside memory |
| PmmRuns.BlocksDisjoint | src/mem/pmm.c:77-109 | over every run, granted blocks are pairwise disjoint |
| PmmRuns.BlocksUsable | src/mem/pmm.c:77-109 | over every run, granted frames lie in usable sections past the bitmap page |
| PmmRuns.Accounting | src/mem/pmm.c:96-99 | the bitmaps have one set bit for each frame in use |
| PmmRuns.FullWhenNoRun | src/mem/pmm.c:88-107 | no page is found if and only if every frame that can be handed out is in use |
| PmmRuns.RunConserves | src/mem/pmm.c:96-99 | over every run the set bits grow by exactly the pages granted |
| PageTree.WalkFindsLeaf | src/mem/paging.c:21-58 | the walk of the tree in memory refines a plain map from page number to leaf entry |
| PageTree.RightsAreLeafFlags | src/mem/paging.c:97-124 | a page's effective rights over all four levels are exactly its leaf flags |
| PageTree.AddTable | src/mem/paging.c:93-97 | linking a fresh zeroed table keeps the tree's shape and every translation |
| PageTree.SetLeaf | src/mem/paging.c:124-124 | writing a leaf entry changes that page's entry only |
| PageTree.KeepTree | src/mem/paging.c:85-192 | the tree depends on the frames of its tables only |
| Mapping.GrantStep | src/mem/paging.c:178-179 | taking a frame during a call keeps the tree, what is mapped so far and all other memory |
| Mapping.LinkStep | src/mem/paging.c:93-97 | making a missing table on the path of the next page keeps the progress of a call |
| Mapping.WriteStep | src/mem/paging.c:124-127 | writing the next leaf extends the progress of a call by exactly that page |
| Paging.EnsureTable | src/mem/paging.c:93-100 | the slot on the path leads to a table, made when it was empty |
| Paging.FillTree | src/mem/paging.c:86-137 | the four loops visit the pages in order without skip or repeat until the count is used up or the space ends |
| Paging.MapPages | src/mem/paging.c:85-137 | ends normally with all pages mapped consecutively, or halts for lack of frames, or halts exactly at the end of the 48-bit space; invariant kept, all other leaves unchanged |
| Paging.AllocPages | src/mem/paging.c:139-192 | the same with a fresh clear frame for every page |
| Paging.LowGrants | src/mem/paging.c:124-124 | of an unaligned physical address, the flags of an entry grant what the flags or the address's low bits grant |
| Paging.LowBitsOf | src/mem/paging.c:124-124 | bit for bit, the low bits of an entry are those of the address or the flags |
| Paging.AccessBits | src/mem/paging.c:97-97 | a link to a table has the flags of the call, and present, write and user |
| Paging.VirtToPhys | src/mem/paging.c:21-58 | the translation of the address in the tree, or 0xDEAD |
| PagingTheorems.MapPagesTranslates | src/mem/paging.c:85-137 | from an aligned physical address: afterwards every address of the range translates to its physical address and every other address as before |
| PagingTheorems.MapPagesRights | src/mem/paging.c:97-124 | mapped pages have exactly the rights of their flags, all others keep theirs |
| PagingTheorems.DeadIsAmbiguous | src/mem/paging.c:19-58 | 0xDEAD means unmapped except for one physical address |
| PagingTheorems.AllocPagesTranslates | src/mem/paging.c:139-192 | the pages translate to pairwise distinct zeroed frames that were not in use |
| PagingTheorems.TablesExact | src/mem/paging.c:85-192 | the tables made are exactly those missing on the range |
| PagingTheorems.FramesTaken | src/mem/paging.c:139-192 | frames taken: one a new table, at most (n-1)/512^l + 2 of level l, plus one a page |
| PagingTheorems.EnoughFrames | src/mem/paging.c:85-192 | with one free frame more than the tables and pages a call can take, it never halts for lack of frames |
| PagingTheorems.CallEnds | src/mem/paging.c:139-192 | from every point of a call there is a way on to all pages mapped or no frame left |
| FrameCount.MapPagesNeeds | src/mem/paging.c:85-137 | where the space has room, a call of `map_pages` goes through if and only if there is a free frame for every table missing on its range |
| FrameCount.AllocPagesNeeds | src/mem/paging.c:139-192 | the same of `alloc_pages`, with a frame for every page |
| FrameCount.SettledThen | src/mem/map.c:32-50 | calls in a row go through if and only if there was enough for all of them from the start |
| SectionMap.HigherHalf | src/kernel/entry.c:52-66 | every `hhdm` in the upper half with room for memory above it meets what the heap and the trees ask of it |
| SectionMap.MapSections | src/mem/map.c:16-30 | every frame of a mapped section is mapped at its address plus `hhdm`, with exactly the entry of the last section that holds it, for each of the six kinds, and pages over no such section are as before; it goes through if and only if no mapped section is shorter than a page and there are frames for the missing tables |
| SectionMap.AlignedSelfMap | src/mem/map.c:16-30 | with page-aligned bases those entries are present and writable, for the kernel only |
| KernelMap.MapKernel | src/mem/map.c:32-45 | the image is mapped to its physical pages, read-only before the page where the writable part starts, with that part's offset among the flags from there on; the stack to two own frames |
| KernelMap.ImageReads | src/mem/map.c:32-43 | every address of the image is translated to its place in the image's physical memory, read-only before the page of the writable part |
| KernelMap.PartsReach | src/mem/map.c:36-41 | as many pages are mapped for each part of the image as its bytes take |
| KernelMap.DataRights | src/mem/map.c:40-43 | exactly which rights the writable part's pages have |
| KernelMap.DataCovered | src/mem/map.c:41-43 | exactly when they reach the end of the image |
| KernelMap.KernelClean | src/mem/map.c:32-45 | none of the kernel's pages is the user's, and no table lies where the arguments of a process will need one |
| UserView.NextNotPacked | src/mem/pmm.c:88-104 | the frame after the first free one was not taken first-fit, as every table was |
| UserView.NextIsTaken | src/mem/pmm.c:88-104 | once the first free frame is taken, the next one, when free, is taken by the time any other is |
| UserView.SafeSeesNoTable | src/mem/paging.c:93-124 | when every page of the user shows a frame that is no table, no page that all four levels open to the user shows one |
| UserView.RunNotAfter | src/mem/pmm.c:88-104 | a run of pages taken first-fit does not start right after a page that is left free |
| UserView.SpillWasFree | src/tasks/spawn.c:117-134 | the frame after the argument frame is free when that is taken if and only if it was before the image was taken |
| UserView.PrefixSpills | src/mem/pmm.c:88-104 | where the frames in use are the first ones of a section with more left than are taken, the frame after any frame taken first-fit was free |
| KernelMap.MapAll | src/mem/map.c:47-50 | both at once, where the shifted memory does not cover image and stack |
| KernelMap.InitPagingTask | src/mem/paging.c:198-203 | a new tree with those mappings, in frames that were not in use, if and only if there are enough and no mapped section is shorter than a page; memory in use is untouched in any case |
| KernelMap.InitPaging | src/mem/paging.c:205-212 | the same for the kernel's own tree, which becomes current; otherwise the current tree stays |
| SectionMap.SelfMapCloses | src/mem/map.c:16-30 | the section mappings show every frame the allocator can hand out, readable and writable, at its address plus `hhdm` |
| SectionMap.SelfMapClosed | src/mem/map.c:16-30 | then every address in such a frame, plus `hhdm`, translates to itself |
| SectionMap.WalkSurvivesSwitch | src/mem/paging.c:94-124 | every entry of every table is read through the new tree where it was read before |
| SectionMap.SelfMapStays | src/mem/paging.c:85-192 | later calls that map no shifted frame of the allocator elsewhere keep that |
| SectionMap.SelfMapStaysShifted | src/drivers/apic.c:172-186 | so do the kernel's calls that map `hhdm + p` to `p`, as in src/drivers/acpi.c:11-17 too |
| SectionMap.SelfMapUntouched | src/mem/paging.c:85-192 | calls outside the shifted memory keep the mappings of all sections |
| Elf.FirstLoadableSegment | src/tasks/spawn.c:68-82 | the earliest loadable segment of least address |
| Elf.LastLoadableSegment | src/tasks/spawn.c:84-96 | the earliest loadable segment of greatest address, 0 when none lies above zero |
| Elf.LastIsLoadable | src/tasks/spawn.c:84-96 | exactly when that is a loadable segment of greatest address |
| Elf.EndIsReached | src/tasks/spawn.c:114-117 | the last segment's end is the image's end if and only if it is not empty or its address lies in no other |
| Elf.SegmentContents | src/tasks/spawn.c:120-126 | the image holds the file's bytes, then zeros up to the size in memory |
| Elf.PagesReach | src/tasks/spawn.c:116-116 | the pages measured end in the page of the image's last byte |
| Elf.SegmentsInside | src/tasks/spawn.c:114-117 | every segment lies within the pages measured |
| Elf.CopySegments | src/tasks/spawn.c:120-126 | the copy loop makes the frames hold the image and changes nothing else |
| Elf.LoadImage | src/tasks/spawn.c:117-126 | the image lies in the first run of free frames long enough; memory in use is untouched; halts if and only if there is none |
| Spawn.WriteArgs | src/tasks/spawn.c:133-145 | the argument page holds the strings and, behind them, the kernel's pointer to each; nothing outside it changes |
| Spawn.ArgIsThere | src/tasks/spawn.c:135-140 | where each string is on that page, with a zero byte after it |
| Spawn.MapApicIntoTask | src/drivers/apic.c:152-155 | both devices are mapped, for the kernel only; image, stack and arguments stay, and so do the kernel's mappings when the devices lie on none of its pages |
| Spawn.BaseStaysDevice | src/drivers/apic.c:152-155 | a device page mapped at `hhdm + p` agrees with the self-map should the two meet |
| Spawn.SpawnProcess | src/tasks/spawn.c:114-147 | started if and only if the image can be had in a row, no mapped section is shorter than a page, and an exact count of frames is free; then its whole memory is ready in frames that were free, the stack clear; the tree maps that, the two devices and what every tree has, and nothing else, and only image, stack and arguments for the user; the kernel's mappings are there when they lie in the upper half and apart from the devices, and a page of the user shows a table of the tree if and only if the frame after the argument frame was free before the call; all memory in use before is untouched in any case |
| Spawn.ProcessIsolated | src/tasks/spawn.c:114-147 | some page of the user shows a frame in use before the call if and only if the frame after the argument frame was |
| Spawn.ArgPointersAreKernels | src/tasks/spawn.c:142-145 | no pointer into the upper half is one the process can use |
| Spawn.OneSpan | src/tasks/spawn.c:114-117 | the headers determine the image's start and page count |
| Spawn.ImageTranslates | src/tasks/spawn.c:129-129 | where each address of the image is translated to |
| Spawn.LoaderNeedsAlignedStart | src/tasks/spawn.c:123-129 | that is where its byte was put if and only if the lowest segment is page-aligned |
| Spawn.ProcessSeesSegment | src/tasks/spawn.c:114-147 | through the finished tree every byte of every segment equals the file's, zero past its size in the file |
| Spawn.ProcessSeesArgs | src/tasks/spawn.c:133-140 | through the finished tree the argument address reads the strings |
| Spawn.SecondArgPage | src/tasks/spawn.c:133-134 | the second argument page shows the frame after the one allocated |
| Spawn.SpillBecomesTable | src/tasks/spawn.c:133-134 | when that frame was free, mapping the two pages makes it a table of the tree |
| Spawn.SpillIsSeen | src/tasks/spawn.c:134-134 | then the user's second argument page shows that table, writable |
| Spawn.NoSpillIsSafe | src/tasks/spawn.c:133-134 | when it was not free, it holds no table then and at no later time |
| HeapModel.HeaderReads | src/mem/kheap.c:12-29 | a packed 26-byte header is decoded to the pool it was made from |
| HeapModel.PoolsDisjoint | src/mem/kheap.c:38-65 | pools of the list do not overlap |
| HeapModel.Conservation | src/mem/kheap.c:21-65 | the sum of `size + 1` is 4096 times the pages obtained |
| HeapModel.FirstFit | src/mem/kheap.c:47-65 | the earliest pool that is free and large enough or has enough slack |
| HeapModel.FirstFitServes | src/mem/kheap.c:50-54 | exactly which pools those are, by their sizes |
| HeapModel.SplitKeepsTiling | src/mem/kheap.c:38-45 | after a split the pools still fill their region without gap or overlap |
| HeapModel.GrowKeepsTiling | src/mem/kheap.c:57-62 | a new region is filled by its pool |
| KHeap.InitKheap | src/mem/kheap.c:31-36 | one free pool of two pages |
| KHeap.FindPool | src/mem/kheap.c:48-63 | the walk through the headers in memory stops at the first pool that fits, or at the last |
| KHeap.Malloc | src/mem/kheap.c:47-65 | first fit by reuse, split or growth, growth if and only if no pool serves; every live payload and the invariant kept; halts if and only if then the pages are not there |
| KHeap.Free | src/mem/kheap.c:67-75 | lands on the block's own header, which becomes free, no other; every live payload kept |
| HeapRuns.LiveDisjoint | src/mem/kheap.c:47-65 | live blocks are pairwise disjoint |
| HeapRuns.MallocReturnsBlock | src/mem/kheap.c:47-65 | the block returned has the size asked for and overlaps no live block |
| HeapRuns.StepKeepsBlock | src/mem/kheap.c:38-75 | no step touches a live block but a release of it or its own client's write, whatever other code does outside the heap |
| HeapRuns.RunKeepsBlock | src/mem/kheap.c:12-75 | over every run a live block holds exactly what its client wrote, and every header decodes to the list |
| HeapSteps.ElsewhereStep | src/mem/kheap.c:12-75 | other code that takes frames and writes outside the heap's regions keeps the heap consistent and every payload |
| HeapRuns.CallIsElsewhere | src/mem/paging.c:198-203 | a call that leaves memory in use alone is such other code |
| HeapRuns.TreeCallIsElsewhere | src/mem/paging.c:85-192 | so is a call on a tree whose tables are not in the heap |
| HeapRuns.RoomForTerminator | src/fs/vfs.c:179-180 | the byte past a new block is in its own pool if and only if the heap did not grow for it or `(n + 26) % 4096` is not 0 |
| HeapRuns.TerminatorIsHarmless | src/fs/vfs.c:43-43 | then writing it keeps the heap consistent and every other payload |
| HeapRuns.SplitsOnlyUsed | src/mem/kheap.c:50-56 | in every state of a heap only a pool in use is ever split |
| HeapRuns.NoGrowthAfterFree | src/mem/kheap.c:50-62 | a request that fits the pool just freed does not grow the heap |
| HeapRuns.RunConserves | src/mem/kheap.c:21-65 | over every run the pools occupy exactly the pages obtained |
| Smp.StackAddress | src/processors/smp.c:41-42 | a processor's stack lies two pages for each id below the boot processor's |
| Smp.StacksDisjoint | src/processors/smp.c:41-44 | the stacks of the other processors are disjoint, and the boot processor's is apart from one of them if and only if its id is not 0 |
| Smp.RunGood | src/processors/smp.c:13-64 | the invariant holds in every interleaving |
| Smp.MutualExclusion | src/processors/smp.c:53-63 | at most one processor is between its launch and its release of the lock |
| Smp.BootWaitsForAll | src/processors/smp.c:59-63 | past the final acquire all others have finished, with their stacks mapped |
| Smp.InsideIsAlone | src/processors/smp.c:16-55 | while one is inside nobody else changes memory, lock or the boot processor's place |
| Smp.StackSurvives | src/processors/smp.c:41-44 | a stack once mapped keeps its mapping through all later steps |
| Smp.BootStackKept | src/mem/map.c:43-44 | when all are up, the boot processor's stack has the mapping it had if and only if no other processor has id 0 |
| Smp.ActorHasStep | src/processors/smp.c:16-64 | a processor that can act has a step that changes the state, `alloc_pages` included |
| Smp.StuckWithoutFrames | src/mem/paging.c:178-178 | a processor halts in `ap_entry` only when every frame is in use |
| Smp.SomeoneCanAct | src/processors/spinlock.c:8-16 | until the end somebody can do more than spin if and only if nobody is halted so |
| Smp.RunTally | src/processors/smp.c:41-44 | in every interleaving the frames and tables taken are exactly those of the stacks made, while nobody is stuck; with enough at the start nobody ever is |
| Smp.ThroughTakes | src/processors/smp.c:57-64 | when the boot processor is through exactly the stacks' pages and missing tables were taken |
| Smp.EnoughForAll | src/processors/smp.c:57-64 | with enough free frames at the start nobody gets stuck and somebody can act until the end |
| Smp.EndsThroughIff | src/processors/smp.c:57-64 | a run in which nobody can act any more has brought up all processors if and only if there were enough free frames at the start |
| Smp.EightEach | src/processors/smp.c:41-44 | eight free frames for each other processor are enough |
| Smp.ActingDecreases | src/processors/spinlock.c:8-16 | every step that is not spinning decreases a measure; spinning changes nothing |
| CStrings.StrLen | src/utils/string.c:22-27 | the number of bytes before the first zero byte |
| CStrings.StrCmp | src/utils/string.c:41-49 | true if and only if the strings are equal |
| CStrings.MemCmp | src/utils/string.c:33-38 | true if and only if the bytes are equal |
| CStrings.Oct2Bin | src/utils/string.c:11-20 | the octal number, wrapped to a signed 32-bit one, for all bytes |
| CStrings.OctalStep | src/utils/string.c:15-18 | one digit more, for every byte, a `char` being signed |
| CStrings.OctalRoundTrip | src/utils/string.c:11-20 | digits written are read back |
| CStrings.SizeFieldReads | src/utils/string.c:11-20 | an eleven-digit size is read back if and only if it is below 2^31 |
| TempFsModel.Found | src/fs/tempfs.c:100-113 | what a lookup gives: the inode of that name, in one place only, or null |
| TempFsSteps.WithFileOk | src/fs/tempfs.c:46-64 | adding a file or device keeps the shape: list one longer than the count, names unique, `.` and `..` shared as they should |
| TempFsSteps.WithDirOk | src/fs/tempfs.c:72-88 | adding a directory keeps the shape, for it and all others |
| TempFsSteps.WithRootOk | src/fs/tempfs.c:27-44 | a new file system is well shaped and leaves the others alone |
| TempFsContents.SharesMakeData | src/fs/tempfs.c:131-139 | chunks of 4088 bytes put together are the data |
| TempFsContents.WroteOk | src/fs/tempfs.c:123-142 | a write keeps the shape of the whole store |
| TempFsContents.WroteKeepsOthers | src/fs/tempfs.c:123-142 | a write changes no other file's chain or contents |
| TempFsContents.ChainsApart | src/fs/tempfs.c:128-135 | chains share no node |
| TempFsContents.ReadGives | src/fs/tempfs.c:144-156 | a read within the length gives that prefix and leaves the rest of the buffer |
| TempFs.FileSystem.AddEntry | src/fs/tempfs.c:46-64 | the new entry comes after the last of the entries that the counted walk passes, nothing else changes |
| TempFs.FileSystem.MkdirNonlinear | src/fs/tempfs.c:67-70 | an entry whose inode shares the given list |
| TempFs.FileSystem.New | src/fs/tempfs.c:27-44 | exactly the store with one more root |
| TempFs.FileSystem.Mkdir | src/fs/tempfs.c:72-88 | exactly the store with that directory |
| TempFs.FileSystem.Mkfile | src/fs/tempfs.c:90-92 | through a directory's own inode exactly the store with that file; through any inode exactly the memory the code leaves |
| TempFs.FileSystem.CreateDevice | src/fs/tempfs.c:94-98 | exactly the store with that device |
| TempFs.FileSystem.Find | src/fs/tempfs.c:100-113 | the inode under that name, null if and only if there is none |
| TempFs.FileSystem.Write | src/fs/tempfs.c:123-142 | the file reads as the data, its chain keeps its nodes and has one more than needed, all else stays |
| TempFs.FileSystem.Read | src/fs/tempfs.c:144-156 | copies the chain's bytes up to the limit or its end |
| TempFs.FileSystem.Length | src/fs/tempfs.c:119-121 | the number of bytes a full read gives |
| TempFsTree.DotIsHere | src/fs/tempfs.c:72-88 | a path through `.` leads where the path without it leads |
| TempFsTree.DotDotUndoes | src/fs/tempfs.c:72-88 | into a directory and back by `..` leads where the path without the two leads |
| TempFsTree.DotDotAtRoot | src/fs/tempfs.c:41-41 | the root is its own parent |
| TempFsTree.PathsUnique | src/fs/tempfs.c:46-113 | no two paths without `.` and `..` lead to the same inode |
| TempFsTree.LookupAfter | src/fs/tempfs.c:46-113 | a creation changes exactly one lookup |
| TempFsTree.ResolveKept | src/fs/tempfs.c:46-113 | every path that led somewhere, through `.` and `..` too, still leads there |
| TempFsTree.ResolveAfter | src/fs/tempfs.c:46-113 | exactly one new path without `.` and `..` exists, all others lead where they did |
| TempFsTree.ResolveWritten | src/fs/tempfs.c:123-142 | a write changes no path |
| TempFsThrough.CountedWalkEndsOnTail | src/fs/tempfs.c:52-55 | the walk from the head ends on the last entry if and only if it follows as many links as the directory's own inode counts |
| TempFsThrough.DotCounts | src/fs/tempfs.c:27-87 | in every well-shaped store `.` counts two entries and `..` none |
| TempFsThrough.ThroughCuts | src/fs/tempfs.c:52-55 | adding through an inode leaves the entries its count reaches and the new one, and cuts off the rest |
| TempFsThrough.KeepsShapeIffOwn | src/fs/tempfs.c:46-92 | adding a file through an inode keeps the directories well shaped, with all their entries, if and only if the inode is the directory's own |
| TempFsThrough.LosesNoneIffOwn | src/fs/tempfs.c:46-64 | adding a file through an inode, and then one through the directory's own, loses no entry or name if and only if the first inode is the own one |
| TempFsRuns.RunOk | src/fs/tempfs.c:27-142 | the shape holds in every state of every run |
| TempFsRuns.RunPlaced | src/fs/tempfs.c:27-98 | over every run a directory inode is a directory's own or somebody's `.` or `..` |
| TempFsRuns.RunAddsThroughOwn | src/fs/tempfs.c:46-92 | so over every run both hold if and only if the addition goes through the own inode |
| TempFsRuns.HeadNeverChanges | src/fs/tempfs.c:46-64 | over every run a directory keeps its head, and entries only come after |
| TempFsRuns.PathsStay | src/fs/tempfs.c:46-113 | over every run a path that leads somewhere leads there for ever |
| TempFsRuns.ChainNeverShrinks | src/fs/tempfs.c:131-135 | over every run a chain keeps its nodes |
| TempFsRuns.LastWriteStays | src/fs/tempfs.c:123-142 | after any writes to any files a file holds its last write, with room for it and one node more |
| TempFsRuns.ReadsLastWrite | src/fs/tempfs.c:123-156 | reading up to that length gives that prefix |
| TempFsRuns.RunChainsApart | src/fs/tempfs.c:128-135 | over every run chains of different files share no node |
| VfsPaths.NamesOfJoin | src/fs/vfs.c:191-208 | names joined by slashes are read back as those names |
| VfsPaths.NamesOfDirectory | src/fs/vfs.c:191-208 | so are those of a path that ends in a slash |
| VfsPaths.NamesInRow | src/fs/vfs.c:191-208 | behind a slash, the names of what follows come after those before |
| VfsPaths.GrowsPreserves | src/fs/tempfs.c:46-98 | a creation loses no root, path, inode or contents |
| VfsWalk.WalkMade | src/fs/vfs.c:198-213 | making the missing name of a path adds exactly that path |
| Vfs.Vfs.constructor | src/fs/vfs.c:13-18 | no drive is present |
| Vfs.Vfs.Mount | src/fs/vfs.c:88-104 | the letter's drive gets the file system, or 1 for what is no letter |
| Vfs.NextName | src/fs/vfs.c:192-195 | the loop finds the next name of the copied path and terminates it in place |
| Vfs.Vfs.EnterDir | src/fs/vfs.c:196-208 | one directory further along the path, made when missing and asked for |
| Vfs.Vfs.OpenLast | src/fs/vfs.c:209-221 | the last name's file, made when missing and asked for |
| Vfs.Vfs.Walk | src/fs/vfs.c:188-230 | looked up, or created with exactly the prefixes of the path as new paths, or null with nothing changed |
| Vfs.Vfs.Open | src/fs/vfs.c:157-231 | the same from the path as given: its own drive, or from the root of the current drive, or behind the current directory; whenever line 223 is reached it frees the pointer that was allocated |
| Vfs.RelativePath | src/fs/vfs.c:168-174 | a relative path leads where its names lead from the current directory |
| Vfs.OpensTheSame | src/fs/vfs.c:157-231 | a later plain open of the path gives the same inode and changes nothing |
| Vfs.Vfs.CreateDevice | src/fs/vfs.c:20-86 | a device under exactly that path, or the code of what is in the way and nothing changed |
| Vfs.Vfs.Write | src/fs/vfs.c:290-299 | 1 for a read-only handle; 0 and the file's write for a file; a device is handed the call |
| Vfs.Vfs.Read | src/fs/vfs.c:301-308 | 1 for a write-only handle; 0 and the file's read for a file; a device is handed the call |
| UstarModel.HeaderReads | src/fs/ustar.c:13-38 | the fields the loop reads are the member's |
| UstarModel.NameReads | src/fs/ustar.c:17-24 | the name is the string at the header's start |
| UstarModel.TreeWrites | src/fs/ustar.c:25-34 | opening and writing a file member adds exactly it to the tree |
| UstarModel.MemberOpens | src/fs/ustar.c:25-29 | opening a file member's path for creation cannot fail |
| Ustar.Unpack | src/fs/ustar.c:12-40 | visits exactly the header offsets, stops at the first block without the magic, and leaves every path as the archive says |
| Ustar.LastBodyIs | src/fs/ustar.c:12-40 | of repeated entries the last one counts |
| Ustar.ReadsBack | src/fs/ustar.c:12-40 | opening a member's path afterwards gives a file with the contents of its last entry |
| Ustar.SetupInitrd | src/fs/ustar.c:42-52 | the new drive has the archive's files, the directories above them, and nothing else |

## Left out

- Scheduling (`task_select`, `syscall_exit`), events, vectors, tasks and their resources: not part of this model.
- `write_vmem` and `push_vmem`: nothing calls them, and they are wrong from unaligned addresses.
- `syscall_mmap`, `validate_elf`, and reading the executable through a file handle: the loader is modelled from the program headers to the APIC mappings, the file as a sequence of bytes.
- KernelMap.MapAll: nothing is claimed of image and stack pages that the shifted memory covers; the image starts on a page, as the linker script has it.
- Smp.SomeoneCanAct: memory ordering and the hardware set-up of a processor are not modelled.
- Paging.MapPages: the page-size bit, the execute-disable flag (which no caller passes) and translation caches are not modelled.
- Vfs.Vfs.Open: the file type of a handle is not modelled; the code derives it from the freed copy of the path.
- Vfs.Vfs.Write: printing for a handle of type stdout is not modelled, and nothing is said of the value a device's own operation returns; the same for Vfs.Vfs.Read.
- Ustar.Unpack: states nothing for archives whose file paths contain `.` or `..`, end in a slash, or run through another file; the drive is mounted, as it is where the function is called.
- `mkdir`, `unmount`, `change_cd` and `close` of the VFS: the first steps past the end of the path, the others would only add easy members.
- `free` is not called on file-system objects by the code, and is not modelled there.
- Framebuffer, fonts, printing, keyboard, serial, timers, GDT, IDT, ACPI and assembly: hardware or user interface.
