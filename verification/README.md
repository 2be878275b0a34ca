# Models of the kernel's and the userland's hard parts

Dafny models of an xv6-style kernel for LoongArch64 and of three of its user programs, with proofs. Each
component is a model of its own; nothing here is a model of the whole kernel. `dafny verify dfyconfig.toml`
checks everything.

Code that works on objects in place is a class with the same fields, and its routines are methods proved
against functions or relations on the old and the new state. Code that runs on several processes or CPUs at
once is a state machine: a state, the steps one process, CPU or device may take, an invariant that every step
keeps, and theorems about every run. Panics of the kernel are outcomes of the model, not preconditions, except
where the code states a demand on its caller.

| files | what they model |
|---|---|
| `PageTable.dfy`, `Vm.dfy`, `UserMemory.dfy` | the page-table tree as a flat map, the page allocator, mapping and unmapping, fork's copy, copies between kernel and user |
| `SleepLock.dfy` | sleep and wakeup under sleep locks |
| `ExitWait.dfy` | fork, exit, reparent, wait, kill, yield and the scheduler on several CPUs |
| `ByteSeq.dfy`, `FatChain.dfy`, `FileIO.dfy` | the FAT, cluster chains, reading, writing and truncating files through the cached cursor |
| `DirEntry.dfy`, `Directory.dfy`, `DirIO.dfy` | directory entries as bytes, a directory as a map from names, making, finding, changing and removing entries |
| `LruList.dfy`, `EntryCache.dfy`, `Bio.dfy` | the two caches in least-recently-used order |
| `Virtio.dfy` | the disk driver, its interrupt handler and the device over shared rings |
| `Pipe.dfy`, `Console.dfy` | the two byte queues |
| `Vma.dfy` | a process's list of memory areas |
| `Umalloc.dfy`, `Shell.dfy`, `Grep.dfy` | the user allocator, the shell's parser, grep |

## Findings

Where the code does not do what it is meant to do, the model follows the code, except for `alloc_clus`, and says
exactly when the intent is met:

| code | what it does | where it is proved |
|---|---|---|
| kernel/fat32.c:252-272 | `alloc_clus` marks entry k of the FAT and returns cluster k + 2, though `read_fat` and `write_fat` index the table by the cluster number itself. The cluster returned is never the one marked; no volume in order stays in order when an empty file gets its first cluster or any other file grows by one; and another file's cluster may be handed out. The file layer models what is meant: the cluster marked is the one returned | FatTable.AsWrittenNeverAllocates, FatTable.AsWrittenNotDisciplined, FatTable.AsWrittenCannotGrow, FatTable.AsWrittenExample |
| kernel/fat32.c:567-580 | `emake` writes "." or ".." instead of the name at offsets 0 and 32, and `dirlookup` can pass such an offset for the root directory, which has no "." and ".." of its own. The name comes back exactly if the offset is greater than 32 | DirIO.RoundTrip |
| kernel/fat32.c:1029-1045 | `dirlookup` stores the result of a comparison in `type`, so it never offers an empty run of slots between files. A name is still found exactly if it is there, and the place offered is behind the last file | DirIO.Dirlookup |
| kernel/fat32.c:474-495, 637-643, 1029-1037 | of a name of dots and spaces `formatname` leaves nothing, and `ealloc` goes on with the empty name. `dirlookup` finds it at the first hole with a file behind it. A search finds what it should exactly if the name is not empty or the file that has the empty name comes before any such hole | DirEntries.FormatIs, Directories.LookupRight, Directories.DotsFindAHole |
| kernel/fat32.c:686-690, 704-712 | `eupdate` and `eremove` read the number of long slots off the first slot. It is right exactly if there are any; for a file without a name they read 32 | DirEntries.CountRead |
| kernel/vm.c:250-270 | `mappages` takes the permission as an int, so NR and NX never reach the entry. The entry is the one asked for exactly if the permission has none of the bits 60 to 63 | Paging.PermKept, Paging.NoExecuteLost |
| kernel/vm.c:429-444 | `freewalk` does not recognise the entries that `walk` makes for tables, so page-table pages are never given back | PteBits.InteriorLooksLikeLeaf |
| kernel/pipe.c:71-76 | a killed writer may leave without waking the readers. A reader sleeps in front of bytes exactly if one did, and since then nobody has woken the readers and the pipe has not been empty; a run that ends so | Pipes.ReaderWaitsForBytes, Pipes.KilledWriterTellsNobody |
| kernel/vma.c:27-35 | `vma_init` frees the head when the second page is not to be had and leaves the process pointing at it. There is a list that may be followed afterwards exactly if the free pages were not just one; kernel/exec.c:298-299 does not look at the result | VmaLists.Areas.Init |
| kernel/vma.c:255-290 | `alloc_vma_stack` puts the stack at the end of the list without looking. A list in order stays so exactly if its last area ends below the stack; one that does not | VmaLists.Areas.AllocStack, VmaLists.StackInOrder, VmaLists.StackTooLow |
| kernel/vma.c:41-92 | `alloc_vma` does not look whether an area wraps round the end of the address space, and neither do `mmap` and sys_mmap in front of it. A list in order stays so exactly if the first page of the area does not lie behind its end; a mapping of length 0 in the last page goes in front of all others | VmaLists.Areas.AllocVma, VmaLists.InsertInOrder, VmaLists.Areas.WrappedMmap |
| user/umalloc.c:47-54 | `morecore` passes its byte count through an int. It arrives as meant exactly if at most 0x7fffffe0 bytes are asked for; otherwise `malloc` asks the kernel for something else, if there is no room already | UserAllocator.SbrkArgument, UserAllocator.Allocator.Malloc |
| kernel/fat32.c:301-311 | `rw_clus` does not write a sector back when the copy from the user fails, though part of the sector's buffer may have changed. A reader sees that part until the buffer is recycled; then it is lost exactly if the disk has something else | FileIO.Volume.WriteClus, BufferCache.LostIfNotWritten |
| user/grep.c:15-31 | a line that does not fit the buffer, or a NUL, ends the loop as the end of the input does; what is written are the matching lines in front of it. Of the lines behind one that does not fit nothing is missing exactly if none matches; a matching line of 1023 characters that is not written | Grep.Grep, Grep.AllWritten, Grep.LongLine |

## Model

The rows follow the order of the files above.

| member | source | states |
|---|---|---|
| PteBits.FieldsAreSeparate | kernel/include/loongarch.h:460-465 | on 64-bit words: the frame field and the flags of an entry do not disturb each other, an entry gives back the page pointer it was made from, and of the permission the low nine bits arrive |
| PteBits.InteriorLooksLikeLeaf | kernel/vm.c:429-444 | no entry that walk makes for a table passes freewalk's test for one |
| PteWords.InteriorIs | kernel/vm.c:165-170 | the word walk stores for a table is the entry that the model's tree has for it |
| PteWords.LeafIs | kernel/vm.c:270-272 | the word mappages stores for a page is the entry that the model's flat map has for it |
| PteWords.OnlyVIs | kernel/vm.c:429-444 | freewalk's test on words and on the model's entries is the same |
| PteWords.DirectIs | kernel/vm.c:150 | the test for a direct-mapped address on words is the one on numbers: bit 63 or bit 60 |
| Paging.SlicesInjective | kernel/include/loongarch.h:468-473 | below MAXVA the four index slices determine the page |
| Paging.SlicesReassemble | kernel/include/loongarch.h:468-473 | below MAXVA an address is its four slices of nine bits and its offset of twelve |
| Paging.PermKept | kernel/vm.c:250-272 | the entry stored is the one asked for exactly if the permission has none of the bits 60 to 63 |
| Paging.NoExecuteLost | kernel/vm.c:250-272 | a page asked for without the right to execute it gets an entry that grants it |
| PageTree.SlotInjective | kernel/vm.c:147-174 | two walks that end in the same entry started at the same table and took the same index at every level |
| PageTree.SetLeafView | kernel/vm.c:250-304 | writing the entry that walk finds changes the flat map at that root and page and nowhere else |
| PageTree.LinkView | kernel/vm.c:147-174 | linking a fresh zeroed table changes no translation |
| PageTree.SameTablesView | kernel/vm.c:147-174 | what is in data pages plays no part in the translation |
| PageTree.NewRootView | kernel/vm.c:309-316 | a zeroed table as a new root translates nothing and changes no other translation |
| VirtualMemory.Kernel.constructor | kernel/kalloc.c:33-57 | after kinit every page is free, the last one first in the list, and the invariant holds |
| VirtualMemory.Kernel.UvmCreate | kernel/vm.c:309-316 | the new root has only null entries, every other translation is as before; null exactly if no page is free |
| VirtualMemory.Kernel.Kalloc | kernel/kalloc.c:92-111 | the page comes off the front of the free list, was in no use, and is filled with 5; null exactly if the list is empty |
| VirtualMemory.Kernel.Kfree | kernel/kalloc.c:65-87 | the page goes to the front of the free list and out of use; the flat map does not change |
| VirtualMemory.Kernel.Descend | kernel/vm.c:155-171 | one level of the walk: the table below, made if it is missing; translations stay; a null result means no entry exists and, if allocating, no page is left |
| VirtualMemory.Kernel.Walk | kernel/vm.c:147-174 | the entry of the flat map for this address; no translation and no data page changes, whether it allocates or fails; it takes at most three pages |
| VirtualMemory.Kernel.Mappages | kernel/vm.c:250-279 | the flat map afterwards is the old one with exactly the first n pages of the range set; all of them on success, those before the offending page on failure, with the reason; out of memory only when every page is taken, and no more than three tables a page are; at a direct-mapped address it takes the memory there for an entry |
| VirtualMemory.Kernel.Vmunmap | kernel/vm.c:284-304 | exactly the first n named pages are cleared, and if asked exactly their frames are freed, in order; at a direct-mapped address as for mappages |
| VirtualMemory.InstallRunAt | kernel/vm.c:250-279 | the flat map after mapping a run, page by page: the run has the new entries, every other page of every process keeps its own |
| VirtualMemory.RemoveRunAt | kernel/vm.c:284-304 | the same for unmapping |
| UserMemory.MapFresh | kernel/vm.c:345-407 | a fresh page with the given bytes gets mapped at one page with the permission asked for, or nothing changes; out of memory only if fewer than four pages were free |
| UserMemory.RemoveUndoesSeq | kernel/vm.c:250-304 | unmapping pages that were mapped one by one onto empty entries gives the flat map back |
| UserMemory.Uvmalloc | kernel/vm.c:383-407 | on success the new pages are mapped to frames of their own, with the permission asked for; out of memory, only if there were fewer free pages than four for each new one, every translation and data page is as before |
| UserMemory.GrownBytes | kernel/vm.c:383-407 | new memory reads as zero and old memory reads as before |
| UserMemory.Uvmcopy | kernel/vm.c:462-491 | on success every byte below sz reads the same in parent and child, from frames of the child's own, and every entry of the child has the flags of the parent's; out of memory, only if there were fewer free pages than four for each page, translations are as before and no data page is left over |
| UserMemory.Undo | kernel/vm.c:488-491 | the error path gives the old flat map and the old data pages back |
| UserMemory.CopiedBytes | kernel/vm.c:462-491 | parent and child read the parent's old byte at every copied address |
| UserMemory.UserIs | kernel/vm.c:200-207 | walkaddr's and vmunmap's tests of an entry, as tests of bits of the word |
| UserMemory.Walkaddr | kernel/vm.c:179-212 | the frame behind a user address, or null if the process may not read it |
| UserMemory.WritePage | kernel/vm.c:528-552 | a write to one frame is seen by its one owner, at that page, and by nobody else |
| UserMemory.Copyin | kernel/vm.c:566-593 | it panics exactly at direct-mapped addresses; what arrives is what the process sees there; on failure the first address missing is unreadable |
| UserMemory.Copyout | kernel/vm.c:528-552 | it panics exactly above MAXVA; exactly the first n bytes are written, no other byte of any process changes; on failure the next address is inaccessible |
| UserMemory.CopyoutThenCopyin | kernel/vm.c:528-593 | copyin reads back what copyout wrote, over any split into pages |
| SleepLocks.StepKeepsInv | kernel/proc.c:841-896 | every lock-level step of every process keeps the invariant: who holds which lock, who sleeps where, what the wakeup loop still has to visit |
| SleepLocks.RunKeepsInv | kernel/proc.c:841-896 | so the invariant holds at the end of every run |
| SleepLocks.WaiterStep | kernel/sleeplock.c:18-34 | a process about to sleep, or asleep, on a free lock is one that the running wakeup has yet to visit |
| SleepLocks.NoLostWakeup | kernel/sleeplock.c:18-34 | in every interleaving: a process sleeping on a lock whose inner spinlock is free sleeps on a lock that is taken, by a process between acquiresleep and releasesleep |
| SleepLocks.MutualExclusion | kernel/sleeplock.c:18-34 | at most one process is between acquiresleep and releasesleep |
| SleepLocks.SchedHoldsOneLock | kernel/proc.c:777-798 | sched is entered with the own process lock held, no other lock, and the state no longer RUNNING |
| ExitWait.StepKeepsInv | kernel/proc.c:461-811 | every step of every CPU, interrupts included, keeps the invariant |
| ExitWait.RunKeepsInv | kernel/proc.c:461-811 | so the invariant holds at the end of every run |
| ExitWait.NoMissedChild | kernel/proc.c:615-663 | a process other than initproc that is asleep in wait with its lock free has no ZOMBIE child, or in wait4pid none with the pid asked for |
| ExitWait.NoChildNone | kernel/proc.c:654-658 | wait gives up only when there is no child, or in wait4pid none with the pid asked for |
| ExitWait.WaitStays | kernel/proc.c:1023-1070 | a wait looks for what it was called with until it ends: with the pid of the ZOMBIE found, with -1 because that could not be copied out, or with -1 having found no child of the kind or, in wait, being killed |
| ExitWait.ReapsTheOne | kernel/proc.c:1010-1050 | in every run: a step that frees a ZOMBIE is one of its parent's wait for any child, or for exactly the pid of that one, and reports that pid |
| ExitWait.WakesParent | kernel/proc.c:590-603 | a parent asleep for a child is awake before the child becomes a ZOMBIE |
| ExitWait.ExitsTo | kernel/proc.c:571-603 | the parent that exit wakes is the parent the process still has, unless that is initproc |
| ExitWait.ZombieFreed | kernel/proc.c:626-646 | a ZOMBIE is freed only by its current parent, and only when no CPU is on it any more |
| ExitWait.FreedIsOff | kernel/proc.c:605-646 | the zombie that wait finds has left its CPU, because p->lock goes through swtch |
| ExitWait.LifeCycle | kernel/proc.c:230-354 | a slot goes from UNUSED to live, from live to ZOMBIE and from ZOMBIE to UNUSED, and no other way |
| ExitWait.EachFreedOnce | kernel/proc.c:461-663 | in every run each fork of a slot is matched by at most one exit and each exit by at most one reaping, with nothing lost |
| ExitWait.FreeStays | kernel/proc.c:461-516 | an empty slot is filled only by the fork that took it |
| ExitWait.DispatchOff | kernel/proc.c:672-768 | a RUNNABLE process whose lock the scheduler holds is on no CPU |
| ExitWait.RunsOnOneCpu | kernel/proc.c:672-798 | a RUNNING process is on exactly one CPU |
| ExitWait.SchedHoldsOneLock | kernel/proc.c:777-798 | at swtch the CPU holds p->lock and no other process lock, and p is not RUNNING: what sched checks with noff and state |
| ExitWait.AcquireNotHeld | kernel/spinlock.c:20-52 | acquire never finds that its own CPU holds the lock |
| ExitWait.ParentIsAlive | kernel/proc.c:522-611 | every process but initproc has a parent that has not exited |
| FatTable.EntryPlace | kernel/fat32.c:174-192 | entry j of sector i of the table, where alloc_clus looks, is where read_fat and write_fat look for cluster 128 i + j |
| FatTable.ChainIs | kernel/fat32.c:199-216 | a chain is a cluster that exists and whose entry is at least 0x0ffffff8, or leads on to a chain |
| FatTable.ChainUnique | kernel/fat32.c:199-216 | the table and the first cluster determine the chain |
| FatTable.ChainAcyclic | kernel/fat32.c:199-216 | a chain never meets itself |
| FatTable.ExtendDisciplined | kernel/fat32.c:252-356 | allocating and linking a free cluster keeps all chains in order and disjoint and uses up exactly that cluster |
| FatTable.TruncDisciplined | kernel/fat32.c:724-733 | truncating frees exactly one chain and leaves the others in order |
| FatTable.AsWrittenNotDisciplined | kernel/fat32.c:252-272 | alloc_clus as written leaves no volume in order on which it gives an empty file its first cluster |
| FatTable.AsWrittenCannotGrow | kernel/fat32.c:326-342 | nor does it leave one in order on which any other file grows by a cluster |
| FatTable.AsWrittenExample | kernel/fat32.c:252-272 | a volume on which it hands out another file's cluster |
| Clusters.SectorsApart | kernel/fat32.c:161-165 | clusters share no sectors |
| Clusters.FirstSecIs | kernel/fat32.c:161-165 | where a cluster begins on the disk |
| Clusters.FileSlice | kernel/fat32.c:326-393 | bytes of the q-th cluster of a chain are the file's bytes behind q clusters |
| Clusters.FileSplice | kernel/fat32.c:326-436 | writing inside the q-th cluster is writing that slice of the file |
| FileIO.Volume.ReadClus | kernel/fat32.c:286-317 | the bytes of a cluster across its sectors: all, or the whole sectors' pieces in front of the first that cannot be copied |
| FileIO.Volume.WriteClus | kernel/fat32.c:286-317 | the cluster afterwards has the source spliced in; no other cluster changes; after a failing copy a part of one more sector may have |
| FileIO.Volume.ZeroClus | kernel/fat32.c:237-250 | the cluster is zero and no other changed |
| FileIO.Volume.AllocClus | kernel/fat32.c:252-272 | the lowest free cluster, marked and zeroed; it panics only if no cluster is free, and then nothing has changed |
| FileIO.Volume.Append | kernel/fat32.c:334-342 | the chain grows by one cluster that was free; it panics only if none is |
| FileIO.Volume.Reloc | kernel/fat32.c:326-356 | whatever the cursor was, cur_clus is the clus_cnt-th cluster of the chain, also on the -1 path; with alloc the chain grows just far enough, by zeros; it panics only if no cluster is free and the chain is still too short |
| FileIO.Volume.Eread | kernel/fat32.c:370-393 | exactly the bytes from off to the smaller of off + n and the size: all, or the whole clusters' pieces in front of the first that cannot be copied |
| FileIO.Volume.Ewrite | kernel/fat32.c:406-436 | exactly that slice of the file is replaced, the file and its chain grow as needed, no other cluster changes; the entry is dirty exactly if it was, or its first cluster or size has changed; it panics only if no cluster is free and the chain is too short |
| FileIO.Volume.Etrunc | kernel/fat32.c:724-733 | ends on every table and changes no entry to anything but 0; on a chain it frees exactly that chain; it panics only if the table leads to a cluster that does not exist |
| FileIO.WrittenTwice | kernel/fat32.c:406-436 | two writes in a row are one |
| FileIO.WrittenReads | kernel/fat32.c:370-436 | what was written is read back, the rest of the file reads as before |
| FileIO.OtherFilesKept | kernel/fat32.c:406-436 | a write to one file leaves chains and bytes of all other files alone |
| FileIO.WriteDisciplined | kernel/fat32.c:406-436 | after a write all chains are in order and disjoint, no cluster is lost, and the free clusters are those before less the ones the file grew by |
| DirEntries.FormatName | kernel/fat32.c:474-495 | dots and spaces in front and spaces behind go; null exactly if a character is not allowed |
| DirEntries.FormatIs | kernel/fat32.c:474-495 | what comes out takes long slots or is empty, and comes out of a second call as it is; it is empty exactly for names of dots and spaces |
| DirEntries.FormatMeans | kernel/fat32.c:474-495 | null exactly for a name with one of the nine signs, a control or an 8-bit character; of any other name the piece from the first character that is no dot and no space to the last that is no space |
| DirEntries.FillLong | kernel/fat32.c:592-613 | the i-th long slot has the right 13 characters, a NUL behind the last and 0xffff behind that |
| DirEntries.GenerateShortName | kernel/fat32.c:497-541 | eight characters from in front of the last dot and three from behind it, in upper case, without spaces and dots, filled up with spaces; every one may stand in a short name |
| DirEntries.ShortCodes | kernel/fat32.c:497-535 | lower case to upper case, the six signs to underscores, all else as it is |
| DirEntries.CalChecksum | kernel/fat32.c:543-549 | the checksum of the FAT specification, as a recursion; the next five rows say what that is |
| DirEntries.RotatedIs | kernel/fat32.c:546 | the sum is rotated right by one bit |
| DirEntries.ChecksumIs | kernel/fat32.c:543-549 | the partial sums: the first is the first byte, each next one the rotated last one plus the next byte, modulo 256 |
| DirEntries.OneByteTells | kernel/fat32.c:543-549 | two short names that differ in exactly one byte have different checksums |
| DirEntries.RotationAdds | kernel/fat32.c:546 | rotating a sum is adding what is rotated exactly if nothing is carried; so the checksum is not the sum of the bytes, each rotated by its place |
| DirEntries.FooSum | kernel/fat32.c:543-549 | the checksum of "FOO     TXT" is 0x65 |
| DirEntries.Snstr | kernel/string.c:100-107 | low bytes up to a NUL, then NULs except at the last place |
| DirEntries.ReadLongName | kernel/fat32.c:896-902 | the 13 characters of a long slot, in their place of the name |
| DirEntries.ReadShortName | kernel/fat32.c:903-920 | eight characters, a dot and three |
| DirEntries.ShortNameReads | kernel/fat32.c:903-920 | a name and an extension filled up with spaces are read with a dot between them, and without if there is no extension |
| DirEntries.LongNameFills | kernel/fat32.c:895-902 | reading segment i behind all later segments extends the name by exactly that segment, for names of up to 255 bytes |
| DirEntries.ScanFinds | kernel/fat32.c:947-992 | whatever stands behind it, a file's run of slots is found with its name, attribute, first cluster, size and count |
| DirEntries.CountRead | kernel/fat32.c:686-712 | the number of long slots that eupdate and eremove read off a file's first slot is right exactly if there are any |
| DirIO.TakeSlot | kernel/fat32.c:964-990 | one turn of enext, on any slot, malformed ones included |
| DirIO.Enext | kernel/fat32.c:947-992 | enext reports what the scan of the directory's bytes finds, whatever clusters they lie in, and changes nothing on the volume |
| DirIO.ReadSlot | kernel/fat32.c:966-967 | a slot never lies across two clusters, and exists exactly if it is inside the chain |
| DirIO.MakeLongs | kernel/fat32.c:588-617 | the long slots of the name, last one first, in one unbroken run |
| DirIO.Emake | kernel/fat32.c:559-628 | the bytes written, every one of them, are the slots of the file, or of "." or ".." at the first two offsets; the short name is the one of generate_shortname and every long slot has its checksum; no other cluster changes; it panics only if no cluster is free and the chain is too short |
| DirIO.FooSlots | kernel/fat32.c:559-628 | the 64 bytes of a file "foo.txt", one by one |
| DirIO.RoundTrip | kernel/fat32.c:559-992 | emake then enext gives back name, attribute, first cluster, size and count exactly if the offset is greater than 32 and the attribute is not that of a long slot |
| DirIO.EmakeHolds | kernel/fat32.c:559-628 | emake behind the last file adds exactly that name to the directory |
| DirIO.Eupdate | kernel/fat32.c:683-699 | exactly that file gets a new first cluster and size, on the bytes, of which no other one changes, and on the map |
| Directories.InfoReads | kernel/fat32.c:692-697 | both values read back, and no other byte of the slot changes |
| Directories.UpdatedEncodes | kernel/fat32.c:683-699 | the slots are still those of the file, name and attribute included |
| DirIO.Eremove | kernel/fat32.c:704-720 | exactly the first byte of each of that file's slots becomes 0xe5, which makes them a hole, and the map has one name less |
| Directories.ScanItems | kernel/fat32.c:947-992 | enext reports a whole hole, or else the file, or else the end |
| Directories.ViewIs | kernel/fat32.c:1003-1048 | the directory is a map from names |
| Directories.Made | kernel/fat32.c:559-628 | writing a file's slots over the holes at the end and on into fresh space leaves a directory in order |
| Directories.MakeView | kernel/fat32.c:559-628 | on the map: one new name |
| Directories.UpdateView | kernel/fat32.c:683-699 | on the map: one changed value |
| Directories.RemoveView | kernel/fat32.c:704-720 | on the map: one name less |
| Directories.LookupRight | kernel/fat32.c:1027-1042 | what a search finds, or that it finds nothing, is what the map says exactly if the name is not empty or the file with the empty name comes before any hole that enext reports |
| Directories.DotsFindAHole | kernel/fat32.c:637-643 | the name "..." in a directory with a hole in front of a file: the hole is found |
| DirIO.Dirlookup | kernel/fat32.c:1003-1048 | it finds the first item that it takes for the file, or none; a name that is not empty is found exactly if it is in the map, with what the map says; if none, the place offered is behind the last file |
| LruList.UnlinkKeeps | kernel/bio.c:122-123 | unlinking leaves one doubly linked circle without that node |
| LruList.PushKeeps | kernel/bio.c:124-127 | linking behind the head leaves one doubly linked circle with that node in front |
| LruList.FrontAt | kernel/bio.c:120-128 | the others keep their order |
| EntryCache.RecycleSafe | kernel/fat32.c:459-470 | the slot that eget takes from the tail of the list is named as parent by no valid entry |
| EntryCache.ParentUsed | kernel/fat32.c:776-812 | an entry in use keeps its parent in use |
| EntryCache.LastKeeps | kernel/fat32.c:776-812 | giving back the last handle keeps counts, parents and order |
| EntryCache.RemoveKeeps | kernel/fat32.c:704-720 | a removed entry keeps its parent while it is in use |
| EntryCache.Cache.constructor | kernel/fat32.c:138-152 | the empty cache satisfies the invariant |
| EntryCache.Cache.Find | kernel/fat32.c:448-458 | the cached entry of that parent and name, if there is one |
| EntryCache.Cache.FindUnused | kernel/fat32.c:459-470 | an unused slot that no valid entry names as parent, if any slot is unused |
| EntryCache.Cache.Get | kernel/fat32.c:444-473 | eget: a handle on the cached entry, or on a recycled slot, or a panic exactly if all slots are in use |
| EntryCache.Cache.Dup | kernel/fat32.c:672-679 | one more handle |
| EntryCache.Cache.Put | kernel/fat32.c:776-812 | the handle is given back, and with it the references up the path; all files stay what they are |
| EntryCache.Cache.Remove | kernel/fat32.c:704-720 | no lookup finds the entry any more; handles stay good |
| EntryCache.Cache.Lookup | kernel/fat32.c:1003-1048 | a handle on the file of that path and on no other; no file is cached twice; nothing exactly if there is none, and a panic exactly if the entry is not cached and all slots are in use |
| EntryCache.Cache.Alloc | kernel/fat32.c:633-670 | the same for ealloc, which comes back without a handle only for a directory that was removed, or with that panic |
| BufferCache.Cache.constructor | kernel/bio.c:36-57 | binit makes one circle of all buffers |
| BufferCache.Cache.Cached | kernel/bio.c:66-76 | the first buffer of the sector in the order, if there is one |
| BufferCache.Cache.Unused | kernel/bio.c:78-90 | the last buffer in the order with refcnt 0, if there is one |
| BufferCache.Cache.Bget | kernel/bio.c:62-91 | up to the wait for the lock: the sector's buffer with one reference more, or the least recently used one that nobody uses; it panics exactly if every buffer is in use for another sector |
| BufferCache.Cache.Acquire | kernel/bio.c:66-76 | acquiresleep: the lock is taken exactly if it is free |
| BufferCache.Cache.Finish | kernel/bio.c:94-104 | the end of bread: the disk is read exactly if the buffer is not valid |
| BufferCache.Cache.Bread | kernel/bio.c:94-104 | bread when nobody has the lock is those three steps |
| BufferCache.Cache.Bwrite | kernel/bio.c:107-111 | the sector gets the buffer's data; it panics exactly without the lock |
| BufferCache.Cache.Release | kernel/bio.c:115-119 | the first half of brelse: the lock goes; it panics exactly without it |
| BufferCache.Cache.Leave | kernel/bio.c:121-134 | the second half: the reference goes, and the buffer becomes the most recently used exactly if nobody uses it any more |
| BufferCache.NextKeeps | kernel/bio.c:62-134 | every step of every call keeps the invariant: no sector has two buffers, refcnt counts the calls inside, a buffer in use is not recycled |
| BufferCache.OneHolder | kernel/bio.c:62-134 | of two calls for one sector at most one has its buffer |
| BufferCache.WorksAlone | kernel/bio.c:62-134 | while a call is at work on a sector, no other changes, writes or recycles it |
| BufferCache.RunRefines | kernel/bio.c:62-134 | any number of calls, interleaved step by step: the cache is a plain array of sectors over a disk, and every bread finds what that array shows |
| BufferCache.OrderIsByUse | kernel/bio.c:115-134 | in every run: the buffers stand in the order in which they were last in use, counted from the brelse that gave the last reference back; those never used stand behind, as at the beginning |
| BufferCache.LeastRecentlyUsed | kernel/bio.c:78-90 | so the buffer recycled is not in use, and of all such the one whose last use is longest ago |
| BufferCache.LostIfNotWritten | kernel/bio.c:78-90 | a sector whose buffer is recycled shows the disk again; what was put there is lost exactly if the disk has something else |
| BufferCache.CleanKeeps | kernel/bio.c:94-134 | if whoever lets go of a buffer has written it back, every buffer nobody is at work on has what the disk has |
| BufferCache.Cache.Replay | kernel/bio.c:62-134 | the cache runs any interleaving of the steps of calls as the machine does |
| BufferCache.Transparent | kernel/bio.c:62-134 | in every run of interleaved calls that write back what they change, each bread finds what was last put there, and in the end the disk has it for every sector that nobody is at work on |
| VirtioDisk.Descriptors.AllocDesc | kernel/virtio_disk.c:120-128 | the first free descriptor, or -1 |
| VirtioDisk.Descriptors.FreeDesc | kernel/virtio_disk.c:131-139 | one descriptor free and cleared; a panic exactly for a bad index or a free one |
| VirtioDisk.Descriptors.FreeAll | kernel/virtio_disk.c:142-150 | the loop ends on any links |
| VirtioDisk.Descriptors.AllocThree | kernel/virtio_disk.c:152-162 | three descriptors or none |
| VirtioDisk.Alloc3Is | kernel/virtio_disk.c:152-162 | three different free ones; it fails only if there are not three |
| VirtioDisk.ThreeFreed | kernel/virtio_disk.c:142-150 | a chain of three is freed whole, without a panic |
| VirtioDisk.StepKeepsInv | kernel/virtio_disk.c:164-262 | every step of a process, the handler or the device keeps the invariant |
| VirtioDisk.StepConserves | kernel/virtio_disk.c:164-262 | and loses no request and makes none up |
| VirtioDisk.RunKeepsInv | kernel/virtio_disk.c:164-262 | so both hold at the end of every run |
| VirtioDisk.SlotRings | kernel/virtio_disk.c:224-230 | posting overwrites no entry of the avail ring that the device has yet to read |
| VirtioDisk.CompleteUsed | kernel/virtio_disk.c:248-258 | nor does the device overwrite a used element that the handler has yet to read |
| VirtioDisk.IntrSees | kernel/virtio_disk.c:248-258 | comparing the indices modulo 8 shows exactly whether a completion is left, and the element read is the oldest |
| VirtioDisk.AtMostTwo | kernel/virtio_disk.c:152-183 | at most two requests are outstanding; every descriptor is free or in exactly one chain |
| VirtioDisk.CompletionsInOrder | kernel/virtio_disk.c:245-262 | buffers are released in the order of their completion, none left out, none twice, and every request posted is released or still on its way |
| VirtioDisk.ReleasesItsOwn | kernel/virtio_disk.c:248-258 | each turn of the handler releases the next buffer that the device completed |
| VirtioDisk.DeviceOwnsBuffer | kernel/virtio_disk.c:196-222 | the device works on buffers of waiting processes only, each once, with its own chain |
| VirtioDisk.FreesOwnChain | kernel/virtio_disk.c:234-240 | free_chain never panics |
| Pipes.StepKeepsInv | kernel/pipe.c:49-118 | every turn of every reader, writer, closer and killer keeps the invariant |
| Pipes.RunKeepsInv | kernel/pipe.c:49-118 | so it holds at the end of every run |
| Pipes.WindowPush | kernel/pipe.c:77-84 | storing a byte in the ring appends it, through the wrap-around of the counter |
| Pipes.WindowPop | kernel/pipe.c:107-113 | taking one takes the oldest |
| Pipes.Fifo | kernel/pipe.c:65-118 | what came out is a prefix of what went in, and never more than 512 bytes are in between |
| Pipes.WriterWaitsForRoom | kernel/pipe.c:71-79 | with the lock free, a writer sleeps only while the pipe is full and open for reading |
| Pipes.ReaderWaitsForBytes | kernel/pipe.c:98-106 | with the lock free, a reader sleeps only while the pipe is open for writing, and in front of bytes exactly if a killed writer left them untold, and since then nobody has told and the pipe has not been empty |
| Pipes.KilledWriterTellsNobody | kernel/pipe.c:71-76 | a run from pipealloc on that leaves a reader asleep in front of 512 bytes, with the lock free |
| Pipes.FreedUnused | kernel/pipe.c:49-63 | when the pipe's page is freed nobody is inside |
| LineEditor.CommittedStays | kernel/console.c:130-170 | no sequence of keys takes back what has been committed, or leaves a newline in the line being edited |
| LineEditor.KeyCodes | kernel/console.c:130-170 | every key by its code: what it does to the line |
| LineEditor.RubbedOut | kernel/console.c:143-149 | typing a word and rubbing it out leaves nothing behind |
| LineEditor.KilledAndRetyped | kernel/console.c:137-165 | a killed line leaves nothing behind and the next one arrives whole |
| LineEditor.WrapMinus | kernel/console.c:151 | the wrapping indices are as far apart as they look |
| Consoles.Console.Intr | kernel/console.c:130-170 | one keystroke does on the ring what it does on the line editor, and commits what that commits |
| Consoles.Console.Store | kernel/console.c:152-166 | a character is stored; a newline, an end of file or the last free place commits the line |
| Consoles.Console.Take | kernel/console.c:92-100 | the oldest committed byte is taken; an end of file goes back if bytes were delivered before it |
| Consoles.Console.Read | kernel/console.c:76-122 | whatever happens while it sleeps, and nothing else besides its own turns: all bytes taken, by whomever, are what was committed, in order; it delivers bytes that it alone took, at most one line, and comes back only for one of the reasons it may; with no other read about, it delivers the line it is due of what was there and what came in |
| Consoles.LineIs | kernel/console.c:95-117 | the line due: with its newline (10), in front of an end of file (4), or the first n bytes |
| Consoles.TakenInOrder | kernel/console.c:76-170 | in every run of keystrokes and reads: the bytes taken, in order, and those still to be read are exactly what was committed |
| Consoles.LaterOn | kernel/console.c:76-170 | what was taken stays taken and what was committed stays committed, whatever happens next |
| Consoles.TypingUndisturbed | kernel/console.c:130-170 | as long as there is room, when and how much is read makes no difference to what gets committed |
| Consoles.DeliversItsLine | kernel/console.c:76-122 | a read that comes back for one of its reasons has delivered the line it is due out of the bytes it found |
| VmaLists.InsertKeeps | kernel/vma.c:89-92 | the four pointer writes put the node into the doubly linked ring at that place |
| VmaLists.SortedInsert | kernel/vma.c:47-92 | an area that fits between its neighbours keeps the order |
| VmaLists.InsertInOrder | kernel/vma.c:47-92 | wherever a node goes, the list is in order afterwards exactly if it was before and the node is an area between its neighbours |
| VmaLists.FitsUnder | kernel/vma.c:113-115 | the place picked under the lowest mapping is aligned, not empty and ends at or below it |
| VmaLists.StackInOrder | kernel/vma.c:284-288 | with the stack at its end the list is in order exactly if it was before and its last area ends below the stack |
| VmaLists.StackTooLow | kernel/vma.c:255-290 | a list in order whose last area does not |
| VmaLists.Areas.Place | kernel/vma.c:47-58 | where the new area belongs, or the area that covers it or stands in its way |
| VmaLists.Areas.AllocVma | kernel/vma.c:41-95 | the list stays linked, whatever it was; it is in order afterwards exactly if it was before and the area does not wrap round; in a list in order the new area meets no other; every failure leaves all as it was |
| VmaLists.Areas.WrappedMmap | kernel/vma.c:41-125 | a mapping of length 0 at 0xfffffffffffff001 goes in front of all others and the list is not in order any more |
| VmaLists.Areas.FindMmap | kernel/vma.c:97-107 | the first mapping |
| VmaLists.Areas.AllocMmap | kernel/vma.c:109-125 | the address taken, the area and its file, and no other area changed; with address 0 the order is kept, and with 0 < sz < the lowest mapping the area goes right below it and neither error of the search comes up; every failure has its reason |
| VmaLists.Areas.AllocStack | kernel/vma.c:255-290 | the stack is the last area; the list is in order afterwards exactly if it was before and its last area ended below the stack |
| VmaLists.Areas.Init | kernel/vma.c:14-39 | one empty mapping at USER_MMAP_START; it fails exactly if two pages are not to be had, and leaves no list that may be followed exactly if there was just one |
| VmaLists.Areas.FreeList | kernel/vma.c:225-252 | every node goes back to the free pages exactly once, in order, and no page is read after it was freed |
| Blocks.FreeBlocksFromBytes | user/umalloc.c:24-44 | with no two free blocks touching, the free bytes determine the free blocks |
| FreeList.StopsThere | user/umalloc.c:30-32 | the search's conditions hold at exactly one node of the ring |
| FreeList.Neighbours | user/umalloc.c:33-42 | free blocks that touch a block are its neighbours in the list |
| FreeList.FreedCoalesced | user/umalloc.c:33-42 | after the two merges no free blocks touch |
| UserAllocator.ReleasedAccounts | user/umalloc.c:24-44 | after free every byte that sbrk gave is still in exactly a free block or one handed out |
| UserAllocator.TakenAccounts | user/umalloc.c:73-86 | the same after a block is taken |
| UserAllocator.NewAccounts | user/umalloc.c:47-61 | new memory joins those bytes, and nothing else does |
| UserAllocator.Allocator.Search | user/umalloc.c:30-32 | the search ends within one lap, at the node the block belongs behind |
| UserAllocator.Allocator.Free | user/umalloc.c:24-44 | exactly that block's bytes become free, nobody else's block changes, and the list stays circular, ordered and merged |
| UserAllocator.Allocator.Morecore | user/umalloc.c:47-61 | the new memory becomes free, or nothing changes; wrong exactly if the int that sbrk gets is not what was meant |
| UserAllocator.Allocator.Take | user/umalloc.c:75-84 | n units of a free block, its tail if it is longer |
| UserAllocator.Allocator.Malloc | user/umalloc.c:64-90 | ends after at most one successful morecore; fails exactly if there is no room and no more memory, or sbrk would get a wrong number; the free bytes are those before, plus what sbrk gave, less the block; all bytes from sbrk stay accounted for |
| UserAllocator.HandedOutApart | user/umalloc.c:64-90 | blocks handed out overlap neither each other nor free memory |
| UserAllocator.FreeUndoesMalloc | user/umalloc.c:24-90 | free undoes malloc: the very same blocks are there again |
| UserAllocator.UnitsFit | user/umalloc.c:69 | the block has room for the bytes asked for, and no unit too many |
| UserAllocator.GrainIs | user/umalloc.c:50-51 | morecore asks for 4096 units at least |
| UserAllocator.SbrkArgument | user/umalloc.c:52-53 | the int that sbrk gets is what was meant exactly if at most 0x7fffffe0 bytes are asked for |
| ShellParser.LineParsed | user/sh.c:442-579 | what is printed is read back, and the parser stops where the printed form ends |
| ShellParser.ExecParsed | user/sh.c:505-534 | the same for one command with its words and redirections |
| ShellParser.RoundTrip | user/sh.c:427-440 | parsecmd recovers every tree of well-formed words with at most nine arguments a command from its printed form |
| ShellParser.SpacingIsFree | user/sh.c:366-579 | any line, wrong ones included, with one or more of the characters blank, tab, CR, LF and VT in place of each blank is the same command, or as much an error |
| ShellParser.RoundTripSpaced | user/sh.c:366-440 | so a printed command with any such spaces between its words is read back |
| ShellParser.OneWord | user/sh.c:258-267 | a line of one word as gets leaves it, with its newline: the command is that word |
| ShellParser.ArgumentsCounted | user/sh.c:515-527 | a command of words is taken exactly if it has at most nine |
| ShellParser.LineAt | user/sh.c:369-534 | every word in the tree is a slice of the line, with a byte behind it that is part of no word |
| ShellParser.EndsAt | user/sh.c:537-579 | a byte that nulterminate writes is part of no word |
| ShellParser.NulTerminate | user/sh.c:537-579 | a NUL behind every word and no other byte changed |
| ShellParser.WordsSurvive | user/sh.c:427-579 | after that every word stands in the buffer whole with a NUL behind it |
| ShellCursor.Parser.GetToken | user/sh.c:369-410 | the cursor version finds the token and the two places that the specification finds |
| ShellCursor.Parser.Peek | user/sh.c:412-420 | the same for peek |
| ShellCursor.Parser.ParseRedirs | user/sh.c:468-489 | the loop over redirections parses what the recursive specification does |
| ShellCursor.Parser.ParseArgs | user/sh.c:515-531 | the same for the loop over arguments |
| ShellCursor.Parser.ParseExec | user/sh.c:505-534 | the same for a command |
| ShellCursor.Parser.ParseBlock | user/sh.c:491-503 | the same for a block |
| ShellCursor.Parser.ParsePipe | user/sh.c:457-466 | the same for a pipeline |
| ShellCursor.Parser.ParseLine | user/sh.c:442-455 | the same for a line; the mutual recursion ends, because the cursor advances |
| ShellCursor.Parse | user/sh.c:427-438 | the cursor parser accepts what the specification accepts, with the same tree; ShellParser.SpacingIsFree and ShellParser.OneWord are about that |
| ShellCursor.ParseCmd | user/sh.c:427-440 | and leaves the line with its words terminated in place |
| Patterns.StartsOne | user/grep.c:84-85 | one character of a pattern |
| Patterns.StartsStar | user/grep.c:80-81 | a starred character: any number of characters that fit, then the rest |
| Patterns.MatchHere | user/grep.c:77-87 | true exactly if some beginning of the text is in the pattern's language, and ends the text where '$' asks for it |
| Patterns.MatchStar | user/grep.c:90-96 | true exactly if the rest matches behind some number of characters that fit |
| Patterns.Match | user/grep.c:66-74 | true exactly if the text means a match: anywhere, or at its beginning where '^' asks for it |
| Patterns.PlainMeans | user/grep.c:66-87 | a pattern without dots and stars: matches where it occurs, at the beginning with '^' in front, at the end with '$' behind; elsewhere these two are plain characters |
| Patterns.OneMeans | user/grep.c:84-85 | a dot is any one character, any other character is itself |
| Patterns.StarMeans | user/grep.c:80-96 | a star is any number of the character in front of it, of any characters after a dot |
| Grep.TakeLines | user/grep.c:19-26 | the lines complete in the buffer are dealt with, the rest stays |
| Grep.Grep | user/grep.c:10-32 | however read cuts the input up, exactly the matching lines in front of the first NUL and of the first line that does not fit the buffer are written |
| Grep.NothingLeftOut | user/grep.c:10-32 | if every line fits, those are all the matching lines |
| Grep.LineFits | user/grep.c:15-31 | a line fits exactly with at most 1022 characters |
| Grep.LeftOut | user/grep.c:10-32 | the matching lines are those written and those behind the first line that does not fit |
| Grep.AllWritten | user/grep.c:10-32 | nothing is missing exactly if none of the latter matches |
| Grep.LongLine | user/grep.c:15-31 | a matching line of 1023 characters is not written |

## Left out

Contracts that say less than the code or its design might be read to promise:

- FileIO.Volume.AllocClus: models the allocation as meant, not the index that is returned as written (see above).
- FileIO.Volume.WriteClus: sectors is what the buffer cache shows; what becomes of a change that was not written back is BufferCache.LostIfNotWritten.
- DirIO.Enext: the entry's cached validity is a parameter, and offsets do not wrap round 2^32.
- DirIO.Eupdate: for files with long slots only; what it reads of any other is DirEntries.CountRead.
- DirIO.Eremove: the same restriction to files with long slots.
- EntryCache.Cache.Lookup: whether the directory on disk lists the name is a parameter here; DirIO.Dirlookup is the search itself.
- EntryCache.Cache.Alloc: the same parameter as in Lookup.
- VmaLists.Areas.AllocVma: whether uvmalloc1 or mappages succeeds is a parameter.
- VmaLists.Areas.FreeList: the frames that the loop also frees are not part of this model; the page table is that of Vm.dfy.
- VirtualMemory.Kernel.Mappages: at a direct-mapped address, where walk does not use the tree, the model stops; nor may the sum of address and size leave 64 bits. The same for vmunmap.
- UserAllocator.Allocator.Malloc: what the kernel and the allocator do after sbrk was asked for a wrong number is not modelled.
- ExitWait.NoMissedChild: not for initproc, whose adopted children may exit unheard, as the source says.
- BufferCache.Cache.Bread: the source's single call is three steps of the machine, between which other calls take theirs; sectors beyond the end of the disk are not covered.

Not modelled:

- Assembly, CSR access, TLB refill, trap entry, UART, APIC and EXTIOI; swtch is an atomic change of control that keeps p->lock.
- Memory fences: all steps are sequentially consistent, and a spinlock is one atomic step.
- The counter of push_off and pop_off: what sched checks with it is stated as holding exactly one lock.
- Giving page-table pages back, because freewalk never finds one.
- The branch of fork and clone in which vma_map fails and the new process's lock stays held; fork's copy itself is UserMemory.Uvmcopy.
- The counts that pipewrite and piperead return.
- The exit status that wait hands over, and kill's search for the pid.
- Wakeups of initproc for adopted children, which the source admits it can miss.
- Concurrent eput calls on one entry: the entry cache is modelled call by call.
- Status bytes other than success, and the notify and acknowledge registers of the disk.
- etruncate, copyout_zero, sigprocmask and handle_stack_page_fault, which are unfinished or not called.
- vma_copy, vma_map and free_vma; copyout's check that the source is not below the kernel stacks; pipealloc; consolewrite and echo.
- kernel/futex.c, which is not built; kernel/exec.c; the system-call wrappers; stat structures; path walking.
- kernel/ring_buffer.c, the rest of kernel/string.c and the other user programs, which would only add easy members.
