# A verified model of the JOS kernel and its user library

JOS is a small teaching kernel for 32-bit x86: an exokernel with up to eight CPUs
under one big kernel lock, and a user library that builds fork, page-fault
handling and messages out of a few system calls.  This project models the parts of
it whose correctness is a statement about runs and about several functions at
once, and proves those statements.

| files | component |
|---|---|
| `Layout`, `Paging`, `AddressSpace`, `Teardown`, `PageCalls`, `Overcount`, `Tlb`, `UserMemCheck`, `FreeList`, `PageMemory` | physical pages and two-level address spaces (`kern/pmap.c`, the page system calls, `env_setup_vm`, `env_free`) |
| `Cow`, `CowRefinement`, `ForkCopies`, `ForkCode`, `FlatJoin` | copy-on-write fork (`lib/fork.c`) against eager copying (`user/dumbfork.c`) |
| `EnvIds`, `Kernel`, `KernelSafety`, `Scheduling`, `LockDiscipline`, `EnvTable`, `Messages`, `CallEffects`, `Misuse`, `MisuseReached`, `WokenReceiver`, `KernelCode` | environments, scheduler, big lock, traps and IPC on several CPUs |
| `Directories`, `System`, `SystemTlb`, `PageMessages` | the two together: environments own the address spaces that the page code builds, and every CPU has a TLB |
| `UserStack`, `Upcall`, `UpcallCode` | the page-fault upcall: the kernel's push and the assembly's unwinding |
| `Stabs`, `Numbers` | the symbol-table search; printing and parsing numbers |

Code that updates state in place is modelled in that form: the classes
`PageMemory.Memory` (the pages array, its linked free list, physical memory, the
MMU of the executing CPU), `KernelCode.Machine` (the environment table and its free
list, the CPUs, the lock), `ForkCode.Family`, `UpcallCode.Processor` and
`Numbers.Sink`.  Their methods are tied to specification functions on values, and
the lemmas about those functions say what the code is for.

How the state is represented: pages are named by number.  A page-table word is a
page number with a set of flag bits; table fan-out and the address-space limits are
the real ones.  `pp_ref` wraps at 16 bits.  A reference of a page is one of: a user
page-table entry, a user directory entry, or being a live directory; the central
invariant `Paging.Inv(m, held, limbo)` says that every count is the number of such
references plus what the running code holds in local variables (`held`), and that
the free list is duplicate-free and holds exactly the unreferenced managed pages
that are not in transit (`limbo`).

Fork is modelled as a state machine whose steps are single system calls, single
stores, and single words of `memcpy`, of all environments of a fork family in any
order; the kernel as a state machine whose steps are those of one CPU: entering the
kernel, one try at the lock, the work done under the lock, and reading a message
back in user code.  `System` runs the kernel machine together with the page memory:
which page a new address space gets, and what a send of a page finds, is there
computed from the memory; `SystemTlb` adds a cache to every CPU, and `FlatJoin` shows
that the mappings of the fork machine are those of the page tables.

Where the code does not do what one would expect, the model follows the code, and
the exact condition is proved:

- a count of 65535 wraps when a mapping is added (`InsertExactIff`), and a run of page
  calls from boot gets there (`OverflowReached`);
- `page_free` lets the tail page of the free list be freed twice (`FreeKeepsListIff`);
- `user_mem_check` accepts a range whose rounded-up end wraps, unless a page it still
  visits fails (`CheckAgreesIff`, `CheckRightIff`, `WrapAccepted`);
- there is no TLB shootdown: what another CPU may have cached stays right, whatever
  it has cached, if and only if it has another directory loaded, or nothing was
  mapped at the changed address, or the entry keeps its value (`OtherCpuSafeIff`);
- `sys_env_set_status` can put one environment on two CPUs, also by waking the
  caller itself, because `env_run` leaves the status of `curenv` alone
  (`SetStatusSoundIff`, `SelfWakeRunsTwice`); runs from boot do it, one by a
  self-wake (`SelfWakeReached`), one by waking a receiver and sending to it
  (`WokenReceiverReached`);
- `env_destroy` of a dying environment frees it under the CPU that runs it
  (`DestroySoundIff`; a run from boot does it, `DestroyTwiceReached`);
- `sys_page_map` of an unmapped source returns -E_NO_MEM, where its comment says
  -E_INVAL;
- when `_pgfault_upcall` faults at its push onto the trap-time stack, the kernel puts
  the second frame over the first (`PushFaultOverwrites`): the program goes on where
  it was interrupted, but with the registers and flags the upcall had at the push
  (`RetriedPushReturns`).  A page fault is transparent if and only if the word below
  the trap-time `%esp` can be written when the handler returns, or those registers
  and flags happen to be the interrupted ones (`TransparentIff`);
- `stab_binsearch` adds one to an address it has matched: it can go wrong when
  addr + 1 is the value of a stab too (`SearchBrackets`, `NeighbourMisleads`), and
  for the last address, where addr + 1 wraps to 0, it is right if and only if no stab
  has that address (`WrapBracketsIff`, `WrapMisleads`); and when every stab of the type lies beyond
  the address it does not leave an empty region (left greater than right), which
  its comment promises for an address contained in no stab (`Found`).

## Model

| member | source | states |
|---|---|---|
| PageMemory.Memory.PageAlloc | jos/kern/pmap.c:396-412 | takes the head of the linked list, zeroes it if asked, leaves a list of the rest |
| PageMemory.Memory.PageFree | jos/kern/pmap.c:419-429 | panics on a referenced or linked page; otherwise pushes, and the links spell the longer list if the page was off it |
| FreeList.FreeKeepsListIff | jos/kern/pmap.c:419-429 | after a free that passed the guard the links spell some list if and only if the page was not on the list already |
| Paging.BootedExact | jos/kern/pmap.c:326-379 | the invariant holds of any memory before the first environment: any set of reserved pages, every other page on the list once and unreferenced, kern_pgdir mapping nothing below UTOP |
| Paging.PoolBooted | jos/kern/pmap.c:326-379 | there is such a memory of every size |
| FreeList.PageInit | jos/kern/pmap.c:326-379 | the loops leave a list that spells exactly the pages not in use, and count the others once, whatever the sizes of base memory and kernel |
| FreeList.PageInitBooted | jos/kern/pmap.c:326-379 | what they leave, with kern_pgdir set up, is such a memory |
| Paging.PopKeeps | jos/kern/pmap.c:396-412 | an allocated page is unreferenced, off the list and in transit; all counts stay exact |
| Paging.DecKeeps | jos/kern/pmap.c:437-441 | giving up a held reference keeps counts exact and frees the page exactly at zero |
| PageMemory.Memory.PageDecref | jos/kern/pmap.c:437-441 | the in-place decrement is the specified one, 16-bit wrap included |
| AddressSpace.TranslateIsReference | jos/kern/pmap.c:466-495 | a page is what a virtual page translates to exactly when the page-table entry of that page refers to it |
| AddressSpace.WalkKeeps | jos/kern/pmap.c:466-495 | a walk, even one that installs a table, changes no translation anywhere and keeps counts exact; it fails, changing nothing, exactly when the table is missing and none is wanted or none can be had |
| AddressSpace.TablesGrant | jos/kern/pmap.c:466-495 | what directory and table word grant together, read as the MMU reads them, is what the table word says: every table is installed present, user and writable |
| PageMemory.Memory.PgdirWalk | jos/kern/pmap.c:466-495 | the code's walk over memory words is the specified one, which `WalkKeeps` and, for the bits of an installed directory word, `TablesGrant` describe |
| PageMemory.Memory.PageLookup | jos/kern/pmap.c:583-597 | the page the flat map says, and where its entry lies; memory unchanged |
| AddressSpace.RemoveKeeps | jos/kern/pmap.c:613-624 | clears one entry of one address space, keeps counts exact, frees the page exactly if this was its last reference |
| PageMemory.Memory.PageRemove | jos/kern/pmap.c:613-624 | the code does that, and drops the cached translation where tlb_invalidate would |
| AddressSpace.InsertKeeps | jos/kern/pmap.c:554-569 | a successful insert changes one entry of one address space and keeps counts exact, re-insertion of the same page included; a failed one changes nothing; it fails exactly when a table is needed and no page is free |
| AddressSpace.ReinsertSwapsFlags | jos/kern/pmap.c:554-569 | inserting a page where it already is only changes the flags: no free in between, same count |
| AddressSpace.InsertExactIff | jos/inc/memlayout.h:180-189 | after a successful insert the counts are exact if and only if the 16-bit count had room |
| AddressSpace.WrapLosesCount | jos/kern/pmap.c:554-569 | at 65535 references an insert leaves the count wrong |
| Overcount.OverflowReached | jos/kern/syscall.c:228-283 | a run of page calls from boot, mapping one page again and again, ends in a state with exact counts where the next sys_page_map succeeds and leaves a count wrong |
| PageMemory.Memory.PageInsert | jos/kern/pmap.c:554-569 | the code's walk, increment, remove and store are the specified insert |
| AddressSpace.AllocMapKeeps | jos/kern/syscall.c:176-209 | allocate-and-map installs a zeroed page nobody else refers to; it needs one free page, or two without a table; on failure nothing is lost |
| AddressSpace.SetupKeeps | jos/kern/env.c:169-205 | a new directory maps nothing below UTOP, disturbs no address space, and counts as one reference of its page |
| PageMemory.Memory.EnvSetupVm | jos/kern/env.c:169-205 | the code builds that directory, copying the kernel part entry by entry |
| PageMemory.Memory.SysPageAlloc | jos/kern/syscall.c:176-209 | every success and error path keeps counts exact and returns the code of the specification |
| PageMemory.Memory.SysPageMap | jos/kern/syscall.c:228-283 | the same for mapping, -E_NO_MEM for an unmapped source included |
| PageMemory.Memory.SysPageUnmap | jos/kern/syscall.c:292-309 | the same for unmapping |
| PageCalls.CallKeepsExact | jos/kern/syscall.c:175-309 | any page call, the page part of a send, exofork or teardown keeps all counts and the free list exact, on success and on error |
| PageCalls.ExactOnEveryRun | jos/kern/pmap.c:395-624 | in every state of every run each count is the number of references and the free list is exactly the unreferenced pages |
| PageCalls.MmuGrantsOnEveryRun | jos/kern/pmap.c:466-495 | in every state of every run every present user directory word has P, U and W, and present, user and writable at an address mean what the page-table entry of the address says |
| PageCalls.AllocAnswers | jos/kern/syscall.c:176-209 | which arguments get which error; on success the head of the free list, zeroed, is mapped with these permissions and no other mapping changes; on an error none does |
| PageCalls.MapAnswers | jos/kern/syscall.c:228-283 | the same for mapping: bad addresses and bits, an unmapped source, write permission the source lacks, no page for a table |
| PageCalls.UnmapAnswers | jos/kern/syscall.c:292-309 | the same for unmapping, of an unmapped page too |
| PageCalls.SendAnswers | jos/kern/syscall.c:370-398 | the same for the page part of a send |
| PageCalls.CallKeepsReadOnly | jos/kern/syscall.c:265-274 | no call gives a referenced page a first writable mapping |
| PageCalls.WriteNeverCreated | jos/kern/syscall.c:381-392 | in every run a page without a writable mapping gets none until its last reference is gone |
| AddressSpace.TeardownConserves | jos/kern/env.c:434-475 | tearing down an address space lowers each count by the references it held and frees exactly the pages only it referenced |
| PageMemory.Memory.EnvFree | jos/kern/env.c:434-475 | the nested loops end, drop every reference of the directory and nothing else, and leave the TLB without stale entries |
| Teardown.TearPage | jos/kern/env.c:461-465 | one iteration of the inner loop drops one entry and touches no other address space |
| Teardown.TearTable | jos/kern/env.c:467-469 | clearing a directory entry and dropping its table returns exactly that reference |
| Teardown.TearDir | jos/kern/env.c:472-475 | dropping the directory ends the teardown with counts exact |
| Teardown.EnvFreedTears | jos/kern/env.c:434-475 | the function that the loops of env_free compute drops every reference of the directory and nothing else, and keeps counts exact |
| PageCalls.FailedSendMapsNothing | jos/kern/syscall.c:370-398 | a send whose page part fails, for whatever reason, leaves all memory and every mapping as they were |
| PageCalls.BuildAndFreeRestores | jos/kern/env.c:434-481 | making an address space, any calls into it, and freeing it restore every count and the set of free pages |
| AddressSpace.FreeSetDetermined | jos/kern/env.c:434-475 | memories with the same references have the same free pages and counts |
| Tlb.RemoveSound | jos/kern/pmap.c:613-636 | after a remove no cached entry of this CPU disagrees with the loaded tables |
| Tlb.InsertSound | jos/kern/pmap.c:554-569 | the same for an insert |
| Tlb.TlbSoundOnEveryRun | jos/kern/pmap.c:631-636 | the same in every state of every run of one CPU: walks, inserts, removes, switches, halts and teardowns with arbitrary cache fills |
| Tlb.TlbSoundOnEveryCpu | jos/kern/pmap.c:631-636 | in every run of all CPUs, each taking such steps in any order, no CPU ever has a stale translation, provided no CPU changes a directory another one has loaded |
| Tlb.OtherCpuSafeIff | jos/kern/pmap.c:631-636 | every right cache of a CPU with directory r loaded survives the change of one entry of directory d if and only if r is not d, or nothing was mapped there, or the entry keeps its value |
| UserMemCheck.CheckAgreesIff | jos/kern/pmap.c:706-728 | for every address and length the page loop agrees with checking every byte if and only if the rounded end does not wrap or a page the loop visits fails |
| UserMemCheck.CheckRightIff | jos/kern/pmap.c:706-728 | short of the 4095 largest lengths, it agrees if and only if the rounded end does not wrap |
| UserMemCheck.WrapAccepted | jos/kern/pmap.c:706-728 | a wrapping range, but for the 4095 largest lengths, is accepted without looking at a page, and the byte check refuses it |
| UserMemCheck.FirstBadByte | jos/kern/pmap.c:706-728 | the address recorded is the least byte of the range that fails |
| PageMemory.Memory.CheckUserMem | jos/kern/pmap.c:706-728 | the code decides as the byte check and records that address |
| FreeList.LowPagesFirst | jos/kern/pmap.c:766-779 | the two-tail loop turns the list into its low pages followed by its high pages, each in original order, in place |
| FreeList.Class | jos/kern/pmap.c:766-779 | the pages of one class are exactly those of the list on its side of the limit |
| Cow.LoadedInv | jos/kern/env.c:287-318 | the invariant holds of a program just loaded, its pages mapped writable and nowhere else |
| Cow.StepKeeps | jos/lib/fork.c:14-190 | every step of every environment keeps the invariant: a page mapped writable has no other user mapping but the temporary one of pgfault and the one duppage is about to make read-only |
| Cow.WriteKeeps | jos/lib/fork.c:26-64 | a store through a writable mapping disturbs no handler's copy in progress and no other page |
| Cow.FaultMapKeeps | jos/lib/fork.c:49-58 | moving the copy over the faulting page keeps the invariant |
| Cow.ForkMapChildKeeps | jos/lib/fork.c:84-99 | so does mapping the page into the child, the parent still able to write it |
| Cow.ForkMapSelfKeeps | jos/lib/fork.c:100-105 | and marking it copy-on-write in the parent |
| CowRefinement.StepRefines | jos/lib/fork.c:14-190 | each step is the eager events it stands for; the eager copy of a page happens inside its duppage call, when parent and child are separated |
| CowRefinement.WriteRefines | jos/lib/fork.c:84-108 | a store changes one word of the eager image of the writer and nothing anybody else sees, also between the two mappings of duppage |
| CowRefinement.FaultMapRefines | jos/lib/fork.c:14-64 | handling a fault shows nothing, unless the faulting page is just being duplicated: then the eager copy happens |
| CowRefinement.ForkMapChildRefines | jos/lib/fork.c:84-99 | a read-only page is copied here; a writable one is still to be |
| CowRefinement.ForkMapSelfRefines | jos/lib/fork.c:100-105 | the copy happens here if no fault has made it happen before |
| CowRefinement.ExitRefines | jos/kern/env.c:434-475 | a parent that exits inside duppage leaves the page as it was then |
| CowRefinement.ForkCopiesEagerly | jos/lib/fork.c:126-190 | for every interleaving of stores, faults, nested forks, allocations and exits of a family, the corresponding run of eager copying leads to the same images |
| CowRefinement.ReadsAgree | jos/lib/fork.c:126-190 | what a running environment can observe of a page below USTACKTOP is its eager image: presence, words, writability |
| ForkCopies.CopiedInTurn | jos/lib/fork.c:156-172 | in any run, with stores and faults of the parent, other forks, exits and allocations in between, every page the loop has passed is in the child what the parent saw at one moment of that page's own turn |
| ForkCopies.PagesInOrder | jos/lib/fork.c:163-172 | these moments follow the order of the pages |
| ForkCopies.ForkCopiesEveryPage | jos/lib/fork.c:126-190 | so when fork starts the child, the child has every page, mapped or absent, as the parent saw it at such a moment, whatever everybody has done meanwhile |
| ForkCopies.ForkIsSnapshot | jos/lib/fork.c:126-190 | and every page that the parent does not write during the call is in the child what it was when fork was called |
| ForkCopies.ChildGetsStack | jos/lib/fork.c:174-190 | when fork starts the child, the child has a zeroed writable exception stack that nobody else maps, and maps nothing else but its copies |
| ForkCopies.FaultHidden | jos/lib/fork.c:15-64 | from a copy-on-write fault to the return of its handler the environment sees all its pages unchanged, and only the faulting page is remapped, ending writable, whatever others do |
| FlatJoin.StepJoins | jos/kern/syscall.c:176-309 | every step of the fork machine, exofork and exit included, changes its mappings as the page call behind it changes the two-level page tables |
| FlatJoin.GivesFresh | jos/kern/pmap.c:396-412 | the page the allocator gives is one that no environment maps |
| ForkCode.Family.Fork | jos/lib/fork.c:126-190 | the loop of fork, with any steps of everybody and the parent's own stores and faults between its system calls: when it returns the child runs and has every page as `ForkCopiesEveryPage` and `ForkIsSnapshot` say, and its exception stack as `ChildGetsStack` does |
| ForkCode.Family.Duppage | jos/lib/fork.c:84-108 | its one or two mapping calls, with any steps in between, give the child the page as the parent saw it during the call |
| ForkCode.Family.Pgfault | jos/lib/fork.c:15-64 | panics on anything but a write to a copy-on-write page, and without a free page; otherwise, with any steps of others between its system calls and between the words of memcpy, that page alone is remapped, writable, and nothing the environment sees has changed |
| ForkCode.Family.DumbDuppage | jos/user/dumbfork.c:26-38 | gives the child a page of its own with the parent's words and leaves nothing at UTEMP |
| ForkCode.Family.Dumbfork | jos/user/dumbfork.c:68-72 | the loop over the program and the stack page gives the child writable private copies of exactly those pages and changes nothing else |
| ForkCode.DumbCopyIsEager | jos/user/dumbfork.c:26-38 | one such copy is the copy event of the eager machine, but for the write permission |
| EnvIds.NthIdClosed | jos/kern/env.c:229-233 | the n-th id of a slot is (((n-1) mod 524287)+1)*4096 plus the slot: positive, the slot in its low bits |
| EnvIds.SameIdIff | jos/kern/env.c:229-233 | two ids are equal if and only if they are of one slot and 524287 divides the number of allocations between them |
| EnvTable.IdResolvesIff | jos/kern/env.c:76-109 | an id resolves if and only if its slot is in use and a multiple of 524287 allocations has passed |
| EnvTable.StaleIdRejected | jos/kern/env.c:76-109 | the id of a freed environment is rejected until 524287 more allocations of its slot |
| EnvTable.IdNamesOne | jos/kern/env.c:76-109 | a positive id resolves to a slot exactly if the environment there is live with that id |
| CallEffects.PermissionIff | jos/kern/env.c:76-109 | with the permission check the id of a live environment is found if and only if the caller is that environment or its parent, and is -E_BAD_ENV for anybody else; without the check everybody finds it; 0 names the caller |
| CallEffects.NobodysId | jos/kern/env.c:76-109 | a positive id that no live environment has is refused |
| CallEffects.StrangerRefused | jos/kern/env.c:102-105 | destroying an environment that is neither the caller nor its child, or setting its status, gets -2 and changes nothing else |
| CallEffects.ExoforkEffect | jos/kern/syscall.c:84-104 | with a free slot and a page: the parent's %eax is the child's id, positive and naming its slot; the child sees 0, is not runnable, has the caller as its parent and the new directory; everybody else is as before |
| CallEffects.ExoforkRefused | jos/kern/syscall.c:84-104 | without a slot -5, without a page -4, and nothing else changes |
| CallEffects.BadStatus | jos/kern/syscall.c:114-134 | any status but runnable and not runnable gets -3 and changes nothing else |
| CallEffects.StatusEffect | jos/kern/syscall.c:114-134 | a child gets exactly the status it is given, the caller 0 |
| CallEffects.DestroyEffect | jos/kern/env.c:489-505 | a child that runs on another CPU becomes a zombie, any other is freed and its slot is the next to be used; the caller gets 0 |
| CallEffects.ExitEffect | jos/kern/trap.c:343-380 | an unhandled fault, a destroy of oneself, and any trap of a zombie free the caller, and the CPU leaves it |
| CallEffects.ScheduleEffect | jos/kern/sched.c:51-93 | sched_yield changes only the environment it switches to, running here and counted once more, and the one it leaves, runnable again if it was running |
| CallEffects.SendRefused | jos/kern/syscall.c:350-368 | a send to nobody gets -2, to one who does not wait -7, and nothing else changes |
| CallEffects.SendEffect | jos/kern/syscall.c:350-414 | to one who waits: -3 for a bad page, -4 if it cannot be mapped, and nothing else changes; otherwise the sender gets 0 and the receiver, runnable with %eax 0, has the value and the sender's id, and nobody else is touched |
| CallEffects.RecvEffect | jos/kern/syscall.c:427-440 | a misaligned address below UTOP gets -3; otherwise the caller is not runnable, waits for a page at the address it gave, and its CPU goes on with somebody else or halts |
| CallEffects.WantedPageKept | jos/kern/syscall.c:427-440 | in every run: as long as the receiver waits, the address is the one it asked for |
| EnvTable.AllocFailsIffFull | jos/kern/env.c:216-277 | no free environment if and only if all slots are in use, no memory if and only if a slot but no directory can be had, and then nothing changes; otherwise a free slot is taken and no other touched |
| KernelCode.Machine.EnvInit | jos/kern/env.c:118-136 | the list of free environments is the table in order |
| KernelCode.Machine.Envid2Env | jos/kern/env.c:76-109 | the code's lookup is the specified one, of which `PermissionIff`, `NobodysId` and `IdResolvesIff` say whom it finds |
| KernelCode.Machine.EnvAlloc | jos/kern/env.c:216-277 | the code takes the head of the linked list and gives it the next id |
| KernelCode.Machine.EnvFree | jos/kern/env.c:434-481 | directory unloaded if it is the caller's, slot free and at the head of the list |
| KernelCode.Machine.EnvDestroy | jos/kern/env.c:489-505 | a zombie if it runs elsewhere; otherwise freed, and the caller reschedules if it was its own |
| KernelCode.Machine.EnvRun | jos/kern/env.c:538-571 | the switch, the release of the lock and the note of the CPU |
| KernelCode.Machine.SchedYield | jos/kern/sched.c:12-93 | the circular loop finds the environment the specification picks |
| KernelCode.Machine.SchedHalt | jos/kern/sched.c:99-142 | the loop detects exactly that nothing is left; otherwise the CPU lets go of its environment, directory and lock |
| KernelCode.Machine.TrySpinLock | jos/kern/spinlock.c:61-79 | one exchange: panic for the holder, no change while held, acquisition otherwise |
| KernelCode.Machine.SpinUnlock | jos/kern/spinlock.c:83-116 | release by the holder, panic for anybody else |
| KernelCode.Machine.SysEnvSetStatus | jos/kern/syscall.c:114-134 | the code's checks and store |
| KernelCode.Machine.SysExofork | jos/kern/syscall.c:84-104 | the code makes the child that `ExoforkEffect` describes: not runnable, seeing 0, the caller its parent |
| KernelCode.Machine.SysIpcTrySend | jos/kern/syscall.c:350-414 | the order of checks, and what a successful send stores, as `SendEffect` says |
| KernelCode.Machine.SysIpcRecv | jos/kern/syscall.c:427-440 | the code blocks the caller with the address it gave, and reschedules, as `RecvEffect` says |
| KernelCode.Machine.TrapBody | jos/kern/trap.c:343-380 | zombie collection, dispatch, and resume-or-reschedule; keeps the invariant of all CPUs when the calls are careful |
| KernelSafety.EmptyInit | jos/kern/init.c:34-65 | runs start: after env_init, with the boot processor holding the lock |
| KernelSafety.StepKeeps | jos/kern/trap.c:323-380 | every step of every CPU keeps the kernel invariant |
| KernelSafety.WorkKeeps | jos/kern/trap.c:343-380 | in particular everything done between acquiring and releasing the lock |
| KernelSafety.YieldKeeps | jos/kern/sched.c:12-142 | whatever sched_yield decides, the invariant holds afterwards |
| KernelSafety.DestroyKeeps | jos/kern/env.c:489-505 | destroying any environment but a dying one is safe, wherever it runs |
| KernelSafety.OneCpuEachAlways | jos/kern/env.c:538-571 | in every state of every run from boot: outside the kernel curenv is none, running or dying; no two CPUs share it; each running or dying environment is current on exactly one CPU; each CPU has kern_pgdir or its own environment's live directory loaded |
| Misuse.SetStatusSoundIff | jos/kern/syscall.c:114-134 | the invariant survives if and only if the target is on no CPU and not woken from a receive, or is the caller putting itself to sleep |
| Misuse.SelfWakeRunsTwice | jos/kern/env.c:560-571 | otherwise: a caller that sets itself runnable can be running on two CPUs one scheduling later |
| Misuse.DestroySoundIff | jos/kern/env.c:489-505 | the invariant survives a destroy if and only if the target is not already dying |
| MisuseReached.SelfWakeReached | jos/kern/env.c:560-571 | a run from boot reaches that: an environment that sets itself runnable is then taken by the second CPU too |
| WokenReceiver.WokenReceiverReached | jos/kern/syscall.c:114-134 | a run from boot in which a child waits in a receive, its parent sets it runnable, and from there, without further misuse, a run to the child on both CPUs: it is taken, sent to while it runs, and taken again |
| MisuseReached.DestroyTwiceReached | jos/kern/env.c:489-505 | a run from boot reaches the second destroy: fork, wake the child, it runs on the second CPU, destroy it, destroy it again |
| System.StepKeeps | jos/kern/trap.c:343-380 | every step keeps the kernel invariant, exact counts, and that the live address spaces are those of the live environments |
| System.SystemSound | jos/kern/env.c:538-571 | in every state of every run: counts and free list exact, one CPU for each environment, and the loaded directory is kern_pgdir or one still allocated |
| System.EmptyBoots | jos/kern/init.c:34-65 | runs of the whole start from an empty table and a booted pool |
| System.CreateBoots | jos/kern/env.c:416-428 | creating environments before the first scheduling leads to states where such runs start |
| System.LoadBoots | jos/kern/env.c:287-318 | and so does allocating the pages of their programs |
| System.ForkDirFresh | jos/kern/env.c:169-205 | the page of a new directory is no live environment's: what the kernel machine asks of the allocator follows from exact counts |
| System.LoadedWhereCurrent | jos/kern/env.c:560-571 | a live environment's directory is loaded only on the CPU where it is current |
| System.FreedNotLoaded | jos/kern/env.c:434-481 | an environment's directory is never torn down while another CPU has it loaded |
| System.SendAgrees | jos/kern/syscall.c:350-414 | the result the sender sees is the outcome of mapping the page |
| System.FailedSendKeepsMemory | jos/kern/syscall.c:350-414 | the whole kernel entry of a failed send leaves memory and all mappings as they were |
| PageMessages.KernelRun | jos/kern/trap.c:343-380 | every run of the whole is a run of the kernel machine: what is proved of its runs holds with real page memory |
| PageMessages.PageArrives | jos/kern/syscall.c:370-398 | a send that returns 0 to a receiver that wants a page leaves the sender's page, with the permissions sent, at the receiver's address, and changes no other mapping of anybody |
| PageMessages.NoPageMoves | jos/kern/syscall.c:370-398 | if one side wants no page, memory stays as it is |
| PageMessages.PageArrivesWhereAsked | jos/kern/syscall.c:350-440 | in every run: the send that ends a receive, if it carries a page, puts the sender's page at the address with which receive was called |
| SystemTlb.EveryCpuRight | jos/kern/pmap.c:631-636 | in every run of the kernel with its memory and a cache on every CPU, filled at any time, no CPU has a stale translation, provided page calls name environments that are on no other CPU; sends, teardowns and switches need no such care |
| SystemTlb.CalmIff | jos/kern/pmap.c:631-636 | no other CPU has the directory loaded that a page call changes, if and only if the environment it names is not running or dying on another CPU |
| SystemTlb.BootRight | jos/kern/init.c:34-65 | such runs start from boot with empty caches |
| Scheduling.YieldPicksNearest | jos/kern/sched.c:51-66 | no runnable environment is nearer, going round from the current slot, than the one picked |
| Scheduling.TurnNearer | jos/kern/sched.c:51-66 | a call that passes over a runnable environment moves the CPU strictly nearer to it |
| Scheduling.BoundedWaiting | jos/kern/sched.c:51-66 | an environment that stays runnable is passed over by at most NENV - 2 picks in a row of a CPU that keeps a current environment |
| Scheduling.HaltsOnlyWhenIdle | jos/kern/sched.c:64-142 | a CPU halts only if no environment is runnable, and stops for good only if none is left |
| LockDiscipline.LockOncePerEntry | jos/kern/trap.c:336-348 | in every run each entry to the kernel acquires the lock exactly once and each exit releases it exactly once; it is held exactly while a CPU is inside; no acquisition by the holder, no foreign release |
| LockDiscipline.LockStep | jos/kern/spinlock.c:61-116 | entering, acquiring and leaving follow one another on each CPU |
| Messages.ExactlyOnceInOrder | jos/kern/syscall.c:350-440 | for each incarnation of a receiver, what its receives returned is what was sent successfully, in order, but for at most one message on its way |
| Messages.OneSendPerReceive | jos/kern/syscall.c:366-368 | between two successful sends to one environment lies a call of receive |
| Messages.MessageStable | jos/lib/ipc.c:45-55 | a delivered message stays in place until the next receive |
| Messages.FailedSendChangesNothing | jos/kern/syscall.c:366-398 | a failed send leaves the receiver and everybody else as they were, the sender but for its error code |
| Messages.MailStep | jos/kern/syscall.c:349-440 | no other step of any CPU touches a mailbox |
| Upcall.FaultRoundTrip | jos/kern/trap.c:436-464 | for any registers, eip, eflags and esp: after the kernel's push and a handler that leaves the frame alone, if the word below the trap-time esp can be written, the unwinding restores them all and touches only that word and the frame |
| Upcall.UnwindRestores | jos/lib/pfentry.S:87-133 | the same for the assembly alone, from a frame in memory |
| Upcall.FaultDelivers | jos/kern/trap.c:436-464 | a handler starts if and only if an upcall is set and the frame can be written; it starts at the upcall with %esp at a frame of fault address, error code, the interrupted registers, eip, eflags and the trap-time esp at their offsets, and all other registers and memory are as they were |
| Upcall.PushFaultOverwrites | jos/kern/trap.c:448-464 | if the push faults, the kernel's second frame goes exactly where the first one is, and holds the upcall's registers, the interrupted eip among them in eax |
| Upcall.RetriedPushReturns | jos/lib/pfentry.S:87-133 | if the second handler makes the word writable, the retried push and the rest of the upcall lead to the interrupted eip and esp with the registers and flags of the push |
| Upcall.TransparentIff | jos/lib/pfentry.S:87-133 | whatever handlers do short of touching the frames, the second one making the word writable, the interrupted code goes on at its eip and esp, and exactly as it was if and only if the first handler had left the word writable or its registers and flags were those of the push |
| Upcall.SecondFailureForgets | jos/kern/trap.c:448-464 | if the second handler does not make it writable, the interrupted eip is lost as well |
| Upcall.BlankWordApart | jos/kern/trap.c:448-457 | the pushed eip never overlaps the frame: the blank word of a nested fault, a stack elsewhere otherwise |
| Upcall.NestedLifo | jos/lib/pfentry.S:33-133 | faults of handlers, nested to any depth and with remapping in between, unwind last in, first out, each to where it happened, leaving all the stack above untouched |
| Upcall.NestedRoundTrip | jos/lib/pfentry.S:33-133 | so the first interrupted code goes on as it was |
| Upcall.OuterFrameKept | jos/lib/pfentry.S:33-133 | and all the while its handler finds the fault address, the error code and the rest of its frame as the kernel left them |
| Upcall.AtMost73Frames | jos/kern/trap.c:448-459 | with the guard page unmapped at most 73 frames lie on the exception stack |
| UpcallCode.Processor.PageFaultHandler | jos/kern/trap.c:384-471 | the code builds the specified frame, fault address and error code in its first two words, at the specified place and starts the handler there, or destroys the environment |
| UpcallCode.Processor.PgfaultUpcall | jos/lib/pfentry.S:34-133 | the instructions, one by one, call the handler with the address of the frame and do the specified unwinding, or trap at the push with the processor in the state the second fault saves |
| UpcallCode.Processor.RunFromPush | jos/lib/pfentry.S:87-133 | the same from the push on, where a retry starts |
| Stabs.StabBinsearch | jos/kern/kdebug.c:59-103 | the code ends on every table and computes the specified search |
| Stabs.TurnShrinks | jos/kern/kdebug.c:65-91 | every turn narrows the range or is an exact match that the next turn cannot be: the search terminates |
| Stabs.SearchBrackets | jos/kern/kdebug.c:59-103 | in a table whose stabs of the type are in order the result brackets any address between the last stab not beyond it and the next, unless addr is the value of a stab and addr + 1 is one too or wraps; with no stab of the type the region is empty |
| Stabs.NeighbourMisleads | jos/kern/kdebug.c:84-90 | when both are values the search can end at the wrong stab: a table where it does |
| Stabs.WrapMisleads | jos/kern/kdebug.c:84-90 | when addr + 1 wraps too: a stab at the last address is not found |
| Stabs.WrapBracketsIff | jos/kern/kdebug.c:59-103 | for the last address, in a table in order, the result brackets it if and only if no stab of the type has that address |
| Numbers.Printnum | jos/lib/printfmt.c:39-54 | emits the digits most significant first, padded to the width |
| Numbers.Strtol | jos/lib/string.c:239-284 | the loops read the sign, prefix and digits that `StrtolReads` describes |
| Numbers.StrtolReads | jos/lib/string.c:239-284 | a numeral below 2^31 after any blanks, sign and prefix the base admits, up to a character that is no digit of the base, parses to its value, negated by a minus sign, and the end is the index of that character |
| Numbers.OpenBaseReadsBack | jos/lib/string.c:252-259 | with base 0, numbers printed in base 16 after 0x, in base 8 after 0 and in base 10 are read back, with either sign or none; the first also with base 16 |
| Numbers.DigitTable | jos/lib/string.c:265-272 | the digits of strtol are the ten figures and the letters of either case, 10 to 35 |
| Numbers.DigitsDenote | jos/lib/printfmt.c:39-54 | the digits printed for a number denote it, by place values |
| Numbers.PrintThenParse | jos/lib/string.c:239-284 | for bases 2 to 16, any number below 2^31, any width and blank or zero padding: the field has the larger of width and digit count, and parsing it returns the number and stops at its end |

## Left out

- Boot and hardware set-up: `boot_alloc`, `mem_init`, the memory map, segment, trap and interrupt tables; runs start from a well-formed state.
- Console, monitor, `cprintf` beyond `printnum`, and loading ELF images.
- The system call dispatcher and argument marshalling.
- `hlt`, `iret`, `lcr3`, `invlpg` and `xchg` are state updates; the few instructions between a release of the lock and `iret` or `hlt` are one step with it.
- The methods of `KernelCode.Machine` take the page of a new directory and the page outcome of a send as parameters; `System` supplies them from the memory of the page model.
- `env_ipc_perm` is not modelled: the code leaves it stale, or written by a failed send.
- `ipc_send` is not modelled as a loop: it retries `sys_ipc_try_send` until that stops saying that the receiver is not ready, which need not end.
- FlatJoin.StepJoins: joins the mappings of the fork machine with the page tables, for calls that succeed; the words in the pages are apart, as numbers in the one model and page-table words in the other.
- The fork model assumes that memory suffices, that nothing is mapped at PFTEMP, that no pages are shared by messages or by mapping into other environments, that no environment maps one of its pages a second time or allocates a read-only page, and that children are not touched by others before they start.
- CowRefinement.ForkCopiesEagerly: the eager machine keeps a page's write permission, as fork does, where `dumbfork` always gives it; registers and the exception stack are not part of the images.
- SystemTlb.EveryCpuRight: assumes that no page call names an environment that runs on another CPU; the code does not see to it, and `Tlb.OtherCpuSafeIff` says when it matters.
- Paging.PoolBooted: a pool with two reserved pages; the layout of the machine is that of `FreeList.PageInit`.
- System.LoadBoots: allocates the pages of a program; what `load_icode` copies into them is not modelled.
- Cow.LoadedInv: a predicate on the state of a family with one environment, its pages mapped writable and nowhere else, stands for the loader.
- ForkCode.Family.Fork: leaves out the registration of the handler, the setting of the child's upcall, and failing system calls other than the allocation of the child's exception stack.
- ForkCode.Family.Dumbfork: states the copying without steps of others in between, from pages that are mapped.
- KernelCode.Machine.EnvAlloc: of the trap frame only `%eax` is modelled.
- KernelCode.Machine.EnvFree: the teardown of the address space is `PageMemory.Memory.EnvFree`, joined to it in `System`.
- KernelCode.Machine.SysExofork: of the copied registers only the child's `%eax` is modelled.
- KernelCode.Machine.SysIpcTrySend: the page outcome is a parameter, which `System.SendAgrees` ties to the page model.
- KernelCode.Machine.TrapBody: dispatch is reduced to eight operations; the page-fault upcall, which resumes the caller at its handler, is modelled in `Upcall` and is a `Resume` there.
- Upcall.TransparentIff: follows one retry of the push; when the second handler fails too, `Upcall.SecondFailureForgets` says what is lost.
- Scheduling.BoundedWaiting: says nothing of a CPU without a current environment, whose scan starts at slot 0.
- Stabs.SearchBrackets: promises no bracket when stabs of the type are out of order, or when addr is the value of a stab and addr + 1 is one too, or wraps; when both are values it depends on the positions of the two whether the search goes wrong.
- Numbers.Strtol: a `long` wraps at 32 bits in the model; the code leaves overflow undefined.
- PageMemory.Memory.PageFree: after a double free of the tail page only the links are described, since they spell no list any more.
