# OS/161 kernel: a verified model

This project models the parts of an OS/161 kernel tree whose correctness is least obvious
from reading them, and proves what those parts are for.

**Double-word arithmetic** (`Arith`, `Words`, `Division`, `Multiply`, `Signed`). Knuth's
Program D and his three-product multiplication, for every half-word width `h`, with the
signed operations on top. Digits are below `Base(h)`, an `unsigned int` is below
`WordSize(h)`, and every operation that can wrap around is written with `Add`, `Sub` or
`Mul`. `Times`, `Quot`, `Rem`, `Pow`, `Val` and a few others are the ordinary functions,
defined in steps so that a proof unfolds them only on request.

**The kernel heap** (`Chains`, `HeapPage`, `Kmalloc`, `KernelHeap`). The subpage allocator
with its free lists inside the pages, its two lists of pagerefs and its bitmap; the pageref
structures are one table per field, indexed by address. `KernelHeap.Heap` has one method per
stretch of code under `kmalloc_spinlock`, and `Valid` holds whenever that lock is free. A
thread owns pages it got from the page allocator, pageref slots it reserved, and live
blocks. Each stretch is proved to be a `Stretch`: it leaves alone what its thread does not
own, and what the thread owns afterwards was its own or no one's. `OthersRely` turns this
into what a call may count on while it is without the lock (`Rely`, the contract of
`Others`), and `RunSafe` into a statement about every interleaving of the stretches of any
threads, which may also hand their blocks to each other. `AllocPages` is the page allocator,
which gives fresh disjoint pages or nothing; `log` holds its answers, each with the heap at
that time, so that a call's result can be stated in terms of them.

**Threads and synchronisation** (`ThreadList`, `Migration`, `Scheduler`, `Semaphores`,
`Monitors`, `Hangman`). The doubly linked thread list is a class over nodes, and the loops
that move threads between lists are proved over lists that share no node, one by one and as
a whole migration between any number of queues. The scheduler, semaphores
and the lock with its condition variable are state machines whose steps are the work done
between two lock operations, for any number of CPUs and threads; a run is any sequence of
enabled steps. `Fails` names the assertions and null pointers of the code, and the run
theorems prove that no step fails. `Effect` says for each kind of step what changes and that
nothing else does, and `StepDoes` and `RunDoes` prove it of every step. In `Scheduler`, the list `OnCpu(c)` holds the running
thread, `Hand(c)` and `Victims(c)` are the private lists of a wakeup and a migration, and
`awake` records that an interrupt has reached an idle CPU.

**Tables and lifecycles** (`PidTable`, `PageTable`, `FrameTable`, `Vnodes`, `OpenFiles`).
The pid table, the hashed page table (for any hash function), the frame free list, vnode
reference counts with the emufs pool, and open files shared between file tables. In
`PageTable`, the entries and frames that the allocators give are ones the table does not
use, as `KernelHeap.Heap.Kmalloc` and `FrameTable.Frames.Alloc` promise.

**Smaller cores** (`BoundedBuffer`, `Printf`, `Finite`, `Options`). The producer/consumer buffer with
its stop tokens, and number printing with `snprintf` against `atoi`.

Four promises are not kept by the code as it stands. Each has its exact condition here:

- `kfree` stops the kernel when it empties a page whose pageref lies behind a root that has
  bits set but no page of pagerefs, the state that a failed allocation in `allocpageref`
  leaves behind (`Kmalloc.FreeRef`, `KernelHeap.Heap.Kfree`); 256 such failures and one
  success lead there (`KernelHeap.ReachPanic`).
- `kmalloc` rounds a request to pages in 32-bit arithmetic, and the pages cover the request
  exactly when it is at most 2^32 - 4096 (`Kmalloc.NPagesCover`); a request of 2^32 - 1
  bytes is rounded to no pages (`Kmalloc.NPagesWraps`).
- `vm_copy` copies exactly the pages that head their bucket, so a copy is complete exactly
  when every page does (`PageTable.CopyComplete`); with 2048 buckets, two pages whose numbers
  differ by 2048 are enough for one to be missing (`PageTable.CopyMisses`).
- `%d` with both `-` and `0` pads a number with zeros on the right, and `atoi` then reads a
  different number unless it is 0 (`Printf.RoundTrip`, `Printf.RoundTripFails`).

Where a comment and the code differ, the model follows the code: a CPU's boot thread runs
with state `S_READY` until it is first switched to, since `cpu_create` never sets `S_RUN`.

## Model

| member | source | states |
|---|---|---|
| `Words.HalvesOfWord` | original_asst3/common/gcc-millicode/longlong.h:110-112 | the two halves of a word are digits and together make the word |
| `Words.BitAndMask` | original_asst3/common/gcc-millicode/longlong.h:111 | masking with a string of ones is the remainder by a power of two |
| `Words.BitOrDisjoint` | original_asst3/common/gcc-millicode/qdivrem.c:47-48 | or-ing numbers that share no bit adds them, so COMBINE of two digits is their two-digit number |
| `Division.Shl` | original_asst3/common/gcc-millicode/qdivrem.c:270-279 | the array segment becomes its shifted digit string and no other cell changes |
| `Division.ShiftedValue` | original_asst3/common/gcc-millicode/qdivrem.c:265-279 | the shifted string has the value times the power of two, less only what falls out of the first digit |
| `Division.NormaliseShift` | original_asst3/common/gcc-millicode/qdivrem.c:169-171 | the loop finds the shift that brings the first divisor digit into the upper half of the base without leaving it |
| `Division.Normalise` | original_asst3/common/gcc-millicode/qdivrem.c:163-175 | both numbers are scaled by the same power of two, nothing falls out, and the divisor's first digit is at least B/2 |
| `Division.TrialDigit` | original_asst3/common/gcc-millicode/qdivrem.c:185-210 | D3 yields the smaller of B - 1 and the three-by-two-digit quotient, with at most two decrements and no product leaving a word |
| `Division.TrialDigitBound` | original_asst3/common/gcc-millicode/qdivrem.c:185-192 | that digit is the true quotient digit or one more |
| `Division.SubtractColumn` | original_asst3/common/gcc-millicode/qdivrem.c:217-221 | the wrapped word of a D4 column gives the digit that stays and a borrow that is one digit and accounts for the rest |
| `Division.MultiplySubtract` | original_asst3/common/gcc-millicode/qdivrem.c:211-223 | the window becomes the difference, and the borrow out is exactly its sign |
| `Division.AddBack` | original_asst3/common/gcc-millicode/qdivrem.c:230-238 | the window gains the divisor, the carry out being the only thing dropped |
| `Division.DivideStep` | original_asst3/common/gcc-millicode/qdivrem.c:182-240 | one turn yields the exact digit and remainder, and D6 runs exactly when the trial digit was one too large |
| `Division.DivideDigits` | original_asst3/common/gcc-millicode/qdivrem.c:176-240 | quotient digits times divisor plus what is left in the dividend array is the old dividend, with the rest below the divisor |
| `Division.Denormalise` | original_asst3/common/gcc-millicode/qdivrem.c:247-254 | the remainder digits are shifted back in place |
| `Division.DenormalisedValue` | original_asst3/common/gcc-millicode/qdivrem.c:242-254 | shifting back divides by the power of two exactly |
| `Division.ShortDivide` | original_asst3/common/gcc-millicode/qdivrem.c:123-150 | the one-digit path returns quotient and remainder of the four-digit number |
| `Division.ProgramD` | original_asst3/common/gcc-millicode/qdivrem.c:152-262 | the digit arrays end as quotient and, if wanted, remainder of the original numbers |
| `Division.Qdivrem` | original_asst3/common/gcc-millicode/qdivrem.c:67-263 | for every width, dividend and nonzero divisor, the result is the quotient and the optional result the remainder |
| `Multiply.ThreeProducts` | original_asst3/common/gcc-millicode/muldi3.c:44-75 | Knuth's identity between the product and the three half-size products |
| `Multiply.AddShiftedValue` | original_asst3/common/gcc-millicode/muldi3.c:224-232 | adding a shifted word with the compared carry is addition modulo the double word |
| `Multiply.SubShiftedValue` | original_asst3/common/gcc-millicode/muldi3.c:219-223 | subtracting one with the compared borrow is subtraction modulo the double word |
| `Multiply.AddWordValue` | original_asst3/common/gcc-millicode/muldi3.c:233-235 | adding the low word with its carry is addition modulo the double word |
| `Multiply.Lmulq` | original_asst3/common/gcc-millicode/muldi3.c:183-241 | the two result words are the exact double-width product of any two words |
| `Signed.Muldi3` | original_asst3/common/gcc-millicode/muldi3.c:99-164 | the product of any two signed double words, reduced into range |
| `Signed.WrapUnique` | original_asst3/common/gcc-millicode/longlong.h:41-51 | a double word is the only one in range that differs from a number by a multiple of its size |
| `Signed.TruncDivision` | original_asst3/common/gcc-millicode/moddi3.c:40-62 | truncated quotient and remainder are the only pair whose remainder is smaller than the divisor and has the dividend's sign |
| `Signed.Divdi3` | original_asst3/common/gcc-millicode/divdi3.c:44-62 | the quotient truncated toward zero, reduced into range |
| `Signed.Moddi3` | original_asst3/common/gcc-millicode/moddi3.c:45-62 | the remainder with the dividend's sign; it always fits |
| `Signed.QuotientExact` | original_asst3/common/gcc-millicode/divdi3.c:44-62 | the quotient overflows exactly for the smallest number divided by -1 |
| `Signed.DivisionLaw` | original_asst3/common/gcc-millicode/moddi3.c:45-62 | a is b times a/b plus a%b in double-word arithmetic, for every b but 0 |
| `Chains.Unlink` | original_asst3/kern/vm/kmalloc.c:822-845 | a loop of remove_lists takes one element out of a null-terminated chain, keeps the order of the rest and writes nowhere else |
| `HeapPage.LadderHas` | original_asst3/kern/vm/kmalloc.c:998-1005 | the blocks of a fresh page are its aligned addresses, each once |
| `HeapPage.Thread` | original_asst3/kern/vm/kmalloc.c:998-1008 | the loop threads one chain through all blocks and writes only on the page |
| `HeapPage.TakeOk` | original_asst3/kern/vm/kmalloc.c:922-942 | taking the head block leaves a page whose free list, offset and count agree, and the assertions hold |
| `HeapPage.PutOk` | original_asst3/kern/vm/kmalloc.c:1116-1141 | putting a block back does too; the block is aligned, was not the head, and the page is full exactly when no block is in use |
| `HeapPage.FreeIs` | original_asst3/kern/vm/kmalloc.c:922-942 | the free list is exactly the blocks not in use, without repetition, and the two kinds together are all blocks |
| `Kmalloc.TakenFull` | original_asst3/kern/vm/kmalloc.c:265-295 | the count of set bits reaches the bitmap size exactly when no bit is clear |
| `Kmalloc.FindClear` | original_asst3/kern/vm/kmalloc.c:256-299 | the first clear bit of the first root that is not full, or none exactly when every bit is set; the inner assertion is unreachable |
| `Kmalloc.FreeRef` | original_asst3/kern/vm/kmalloc.c:303-336 | the bit of this pageref and no other is cleared; the assertion fails exactly when an earlier root has bits but no page |
| `Kmalloc.FirstWithFree` | original_asst3/kern/vm/kmalloc.c:914-920 | the search returns the first page of the list with a free block, or null only if there is none |
| `Kmalloc.FindPage` | original_asst3/kern/vm/kmalloc.c:1072-1090 | the search returns the page that contains the pointer, or null only if none does |
| `Kmalloc.BlockType` | original_asst3/kern/vm/kmalloc.c:851-868 | the smallest block size that holds the request |
| `KernelHeap.Heap.Take` | original_asst3/kern/vm/kmalloc.c:922-953 | the first free block of the page is handed out, everything else as before, the heap in order |
| `KernelHeap.Heap.Put` | original_asst3/kern/vm/kmalloc.c:1092-1138 | the block is back at the head of its page's free list, the heap in order |
| `KernelHeap.Heap.AddPage` | original_asst3/kern/vm/kmalloc.c:989-1014 | a page owned by the call becomes a heap page with all blocks free, on both lists, under the slot the call reserved |
| `KernelHeap.Heap.Drop` | original_asst3/kern/vm/kmalloc.c:1141-1148 | a wholly free page leaves both lists and is in the caller's hands, and exactly the bit of its pageref is cleared |
| `KernelHeap.Heap.FromPage` | original_asst3/kern/vm/kmalloc.c:910-955 | null exactly if every page of that size is full, and then nothing changes; otherwise the block is the first free one of the first page in the list that has one, and exactly it becomes live |
| `KernelHeap.Heap.Reserve` | original_asst3/kern/vm/kmalloc.c:256-299 | the first clear bit is set, and its slot, which no one had, is reserved for this call; or all are taken |
| `KernelHeap.Heap.Install` | original_asst3/kern/vm/kmalloc.c:218-250 | the root gets the page unless there is none or another call was faster; then the page is spare, and still the caller's |
| `KernelHeap.Heap.FromFreshPage` | original_asst3/kern/vm/kmalloc.c:989-1017 | exactly one new block, the first in the new page's free list, becomes live, for the page and the slot that the thread owned |
| `KernelHeap.Heap.EnsureRoot` | original_asst3/kern/vm/kmalloc.c:218-251 | afterwards the root has a page exactly if true is returned; no page is asked for if it had one, and one otherwise, which leaves the root with a page unless there is none; a page that came too late is given back |
| `KernelHeap.Heap.OnNewPage` | original_asst3/kern/vm/kmalloc.c:966-1018 | with a new page: the outcome of the whole call as for SubpageKmalloc; null exactly if all pageref bits were set or the root still has no page, and then the page is given back; otherwise the block is the first in that page's free list |
| `KernelHeap.RefWhen` | original_asst3/kern/vm/kmalloc.c:258-298 | when allocpageref gives no pageref: at its start every bit is set, or at its end the root of the first clear bit has no page |
| `KernelHeap.Heap.FreePages` | original_asst3/kern/vm/kmalloc.c:1145-1147 | a page the thread holds goes back to the page allocator, nothing else changes |
| `KernelHeap.Heap.FreeWhole` | original_asst3/kern/vm/kmalloc.c:1219-1222 | a client's whole pages go back, and that block alone stops being live |
| `KernelHeap.Heap.WholePages` | original_asst3/kern/vm/kmalloc.c:1186-1199 | pages that no one held become one live block that covers the request, null exactly if the page allocator had none |
| `KernelHeap.Heap.SubpageKmalloc` | original_asst3/kern/vm/kmalloc.c:874-1018 | where the block comes from: with room in a page of the least size that fits, the first free block of the first such page in the list, without asking for a page; otherwise the first in the free list of a new page; null exactly if all those pages were full and there was no page, no clear pageref bit or no page for the root. With any other calls in the gaps, all that the caller owns stays as it was, and the block is one that no one owned |
| `KernelHeap.Heap.Kmalloc` | original_asst3/kern/vm/kmalloc.c:1169-1206 | the same for small requests, and for larger ones whole pages exactly as the page allocator answered |
| `KernelHeap.Heap.SubpageFree` | original_asst3/kern/vm/kmalloc.c:1024-1160 | a live block of a page is returned to it, and the page leaves the heap exactly with its last block; a live whole-page pointer, and only such, is not recognised |
| `KernelHeap.Heap.Kfree` | original_asst3/kern/vm/kmalloc.c:1211-1223 | exactly the freed block stops being live and all else the caller owns stays; pages emptied or freed whole go back; the kernel stops exactly under the stated condition |
| `KernelHeap.OthersRely` | original_asst3/kern/vm/kmalloc.c:226-233 | a stretch of another thread leaves what this one owns as it was, and the two still own different things |
| `KernelHeap.StretchMore` | original_asst3/kern/vm/kmalloc.c:957-980 | what else a thread owns does not matter to its stretch |
| `KernelHeap.NextSound` | original_asst3/kern/vm/kmalloc.c:874-1160 | after any thread's stretch, or when one hands blocks to another, every thread owns what it did or what it was given, no two own the same, and no live block is without an owner |
| `KernelHeap.RunSafe` | original_asst3/kern/vm/kmalloc.c:874-1223 | in every run of any threads, which may hand blocks to each other, the live blocks are exactly those that threads own, each by one thread, and no two overlap |
| `KernelHeap.RunKeepsBlock` | original_asst3/kern/vm/kmalloc.c:874-1223 | in every run a block stays live with its thread until that thread frees it or hands it on, and then with the other |
| `KernelHeap.AllocTwo` | original_asst3/kern/vm/kmalloc.c:1169-1206 | two blocks allocated one after the other, with other calls in between, are both live and do not overlap |
| `KernelHeap.FailAll` | original_asst3/kern/vm/kmalloc.c:283-288 | 256 allocations that fail for want of a page of pagerefs fill the bits of root 0 |
| `KernelHeap.ReachPanic` | original_asst3/kern/vm/kmalloc.c:313-320 | a run after which freeing a live block stops the kernel |
| `Kmalloc.LiveApart` | original_asst3/kern/vm/kmalloc.c:874-1206 | no two live blocks overlap, of either kind |
| `Kmalloc.LiveNotFree` | original_asst3/kern/vm/kmalloc.c:874-1206 | no free list runs through a live block |
| `Kmalloc.ClientWrite` | original_asst3/kern/vm/kmalloc.c:874-1206 | whatever clients store in their own blocks, the heap stays in order |
| `Kmalloc.NPagesCover` | original_asst3/kern/vm/kmalloc.c:1190-1192 | the rounded page count covers the request exactly when it does not wrap, and is then the least that does |
| `Kmalloc.NPagesWraps` | original_asst3/kern/vm/kmalloc.c:1190-1192 | an instance that is rounded to no pages |
| `Kmalloc.AcquireKeeps` | original_asst3/kern/vm/kmalloc.c:966-973 | pages that no one holds can be taken on by a call, the heap in order |
| `ThreadList.Link` | original_asst3/kern/thread/threadlist.c:105-140 | the four pointer writes put a node that is on no list between two neighbours of a well-formed list |
| `ThreadList.Unlink` | original_asst3/kern/thread/threadlist.c:145-157 | the list is well formed without the node, whose own pointers are null |
| `ThreadList.List.constructor` | original_asst3/kern/thread/threadlist.c:60-72 | the list is empty between its bookends |
| `ThreadList.List.AddHead` | original_asst3/kern/thread/threadlist.c:162-170 | the thread is first, the others follow in order |
| `ThreadList.List.AddTail` | original_asst3/kern/thread/threadlist.c:172-180 | the thread is last |
| `ThreadList.List.RemHead` | original_asst3/kern/thread/threadlist.c:182-198 | the first thread leaves, null exactly for the empty list |
| `ThreadList.List.RemTail` | original_asst3/kern/thread/threadlist.c:200-216 | the last thread leaves, null exactly for the empty list |
| `ThreadList.List.InsertAfter` | original_asst3/kern/thread/threadlist.c:218-224 | the thread stands right behind the given one |
| `ThreadList.List.InsertBefore` | original_asst3/kern/thread/threadlist.c:226-232 | the thread stands right before the given one |
| `ThreadList.List.Remove` | original_asst3/kern/thread/threadlist.c:234-240 | exactly that thread leaves |
| `ThreadList.List.IsEmpty` | original_asst3/kern/thread/threadlist.c:91-97 | true exactly for the list without threads |
| `ThreadList.TakeLast` | original_asst3/kern/thread/thread.c:883-886 | the victim loop over two linked lists: the last k threads of one are at the front of the other, in order, and no other list can be touched |
| `ThreadList.HandOver` | original_asst3/kern/thread/thread.c:895-938 | the hand-over loop: victims go to the end of the other queue in order until it has its share or none are to be sent, never beyond the share, and the current thread goes to the end of the victims instead |
| `ThreadList.HandedCounts` | original_asst3/kern/thread/thread.c:895-938 | no thread is lost or doubled by it, and the current one is not sent |
| `ThreadList.Drain` | original_asst3/kern/thread/thread.c:949-951 | the draining loop: one list is empty and the other has its threads behind its own, in order |
| `Migration.HandAround` | original_asst3/kern/thread/thread.c:889-940 | the loop over all processors: how many victims were looked at, which stay behind, and what every queue got |
| `Migration.LeftMore` | original_asst3/kern/thread/thread.c:895-938 | going through the victims in several rounds leaves the same ones as going through them at once |
| `Migration.Migrate` | original_asst3/kern/thread/thread.c:876-957 | on any number of linked queues: what each queue holds after the migration, in order, and that no thread is lost or doubled; the list of victims is empty at the end |
| `Migration.Balanced` | original_asst3/kern/thread/thread.c:876-957 | the current thread stays where it was, and either the processor is left with its share, give or take that thread, or all others have theirs |
| `Scheduler.LastToHead` | original_asst3/kern/thread/thread.c:882-887 | the victim loop moves the last threads of the queue, in order |
| `Scheduler.AllToTail` | original_asst3/kern/thread/thread.c:1064-1070 | a draining loop empties one list behind another, in order |
| `Scheduler.StepKeeps` | original_asst3/kern/thread/thread.c:453-1082 | every step that can be taken from a good state survives the kernel's assertions and leads to a good state; what it does there is in StepDoes |
| `Scheduler.StepDoes` | original_asst3/kern/thread/thread.c:453-1082 | for every step: which threads change place, from the head or tail of which list to the end of which, what happens to the CPUs' phases, interrupts and migrations, and that nothing else changes; a wakeup takes the longest sleeper, a broadcast all in order, a fork adds one runnable thread |
| `Scheduler.RunDoes` | original_asst3/kern/thread/thread.c:453-1082 | so does every step of every run |
| `Scheduler.Progress` | original_asst3/kern/thread/thread.c:563-731 | no CPU is ever stuck: it can take a step that does not fail, or waits for the run-queue lock of one that can |
| `Scheduler.NeverFails` | original_asst3/kern/thread/thread.c:299-310 | zombies are zombies and never the current thread, switches run on the thread's own CPU, and migration never takes from an empty list |
| `Scheduler.ZombieLeft` | original_asst3/kern/thread/thread.c:299-310 | a zombie about to be destroyed is not the thread whose stack any CPU is on |
| `Scheduler.RunSafe` | original_asst3/kern/thread/thread.c:563-731 | in every run no step fails, every thread is in exactly one place, no two CPUs share a stack, no other CPU can resume or destroy the thread of a stack in use, and no idle CPU with runnable threads lacks an interrupt |
| `Scheduler.ThreadsConserved` | original_asst3/kern/thread/thread.c:497-551 | threads appear only by fork and disappear only as zombies already left |
| `Scheduler.MigrationSends` | original_asst3/kern/thread/thread.c:889-940 | a hand-over puts the thread at the end of the receiver's queue, sets its CPU, keeps that queue within one share, skips the current thread, and touches no other list |
| `Scheduler.NeverSent` | original_asst3/kern/thread/thread.c:899-923 | the current thread of every CPU stays with that CPU |
| `Scheduler.QueueOrder` | original_asst3/kern/thread/thread.c:821-835 | run queues are first in, first out, except that a migration takes from the rear of its own |
| `Semaphores.StepKeeps` | original_asst3/kern/thread/synch.c:88-135 | P, its loop after a wakeup, and V keep sleepers and woken threads apart, and no thread asleep on a count that exceeds the threads awake |
| `Semaphores.VDoes` | original_asst3/kern/thread/synch.c:123-135 | V adds one, and with sleepers moves exactly the first of them to the woken threads |
| `Semaphores.PDoes` | original_asst3/kern/thread/synch.c:88-121 | P and its loop take one from a positive count and are done, and otherwise put the thread last among the sleepers |
| `Semaphores.RunCounts` | original_asst3/kern/thread/synch.c:88-135 | in every run the count is what its steps add up to |
| `Semaphores.RunSafe` | original_asst3/kern/thread/synch.c:88-135 | the count is the initial value plus the Vs among the steps minus the Ps that those steps completed, V's assertion fails exactly when that is the largest word, and threads sleep on a positive count only while at least that many woken ones have yet to look |
| `Semaphores.SomeoneGoesOn` | original_asst3/kern/thread/synch.c:88-121 | with a positive count and threads in P, one of them is awake and completes its P as soon as it looks |
| `Semaphores.Fifo` | original_asst3/kern/thread/synch.c:88-135 | in every run, a thread that falls asleep while another is asleep does not wake before it |
| `Monitors.StepKeeps` | original_asst3/kern/thread/synch.c:184-317 | every step of lock and condition variable keeps holder, queues and threads in step and fails no assertion; what it does is in StepDoes |
| `Monitors.StepDoes` | original_asst3/kern/thread/synch.c:184-317 | acquire and its loop make the thread owner of a free lock and else last in the queue; release and wait leave the lock free and wake the first in its queue, wait also joins the channel; a signal moves exactly the first waiter, a broadcast all; nothing else changes |
| `Monitors.RunDoes` | original_asst3/kern/thread/synch.c:184-317 | so does every step of every run |
| `Monitors.LockSafe` | original_asst3/kern/thread/synch.c:184-223 | in every run the lock has at most one owner and a free lock is not left to sleeping threads |
| `Monitors.SomeoneGetsIt` | original_asst3/kern/thread/synch.c:184-223 | when threads wait for a free lock, one of them is awake and becomes its owner as soon as it looks |
| `Monitors.NoLostSignal` | original_asst3/kern/thread/synch.c:283-317 | whenever a signal can act, every thread that gave up the lock to wait is on the channel: a signal wakes one of them, a broadcast all |
| `Hangman.PathLength` | original_asst3/kern/thread/hangman.c:50-66 | without a cycle, a walk is no longer than there are waiting actors |
| `Hangman.WaitCloses` | original_asst3/kern/thread/hangman.c:50-66 | a new wait closes a cycle exactly when its lock's holder already reaches the waiter |
| `Hangman.Detector.Check` | original_asst3/kern/thread/hangman.c:50-66 | the walk ends and finds the target exactly when there is a path to it |
| `Hangman.Detector.Wait` | original_asst3/kern/thread/hangman.c:109-129 | a deadlock is reported exactly when the graph with the new wait has a cycle; otherwise the wait is recorded and the graph stays acyclic |
| `Hangman.Detector.Acquire` | original_asst3/kern/thread/hangman.c:131-157 | the outcome of each check, the new holder, and an acyclic graph |
| `Hangman.Detector.Release` | original_asst3/kern/thread/hangman.c:159-182 | the outcome of each check, a free lockable, and an acyclic graph |
| `PidTable.Search` | original_asst3/kern/proc/pid.c:249-262 | the search ends, before its assertion can fire, at the n-th pid after nextpid in the circle of pids, whose slot is empty, and all n pids before it have theirs taken |
| `PidTable.AfterNext` | original_asst3/kern/proc/pid.c:218-226 | one more turn of inc_nextpid is one more place in the circle |
| `PidTable.FullWhen` | original_asst3/kern/proc/pid.c:244-247 | the number of occupied slots is the table size exactly when none is empty |
| `PidTable.Pids.constructor` | original_asst3/kern/proc/pid.c:126-148 | the table holds the kernel's pid only, and the first search starts at the smallest pid |
| `PidTable.Pids.Alloc` | original_asst3/kern/proc/pid.c:232-280 | the first pid from nextpid on, in the circle of pids, whose slot is empty gets the caller's child, and has no running process; the next search starts behind it; refused exactly when every slot is taken or there is no memory, and then only nextpid moves, to that pid |
| `PidTable.Pids.Unalloc` | original_asst3/kern/proc/pid.c:286-308 | the entry of a process that never ran is gone, and everything else is as it was |
| `PidTable.Pids.Disown` | original_asst3/kern/proc/pid.c:314-333 | the child has no parent any more, and is gone if it had exited |
| `PidTable.Pids.DisownAll` | original_asst3/kern/proc/pid.c:352-363 | every child of the exiting process has no parent any more, or is gone if it had exited, and all other entries are as they were |
| `PidTable.Pids.SetExitStatus` | original_asst3/kern/proc/pid.c:343-382 | the status is recorded once for the exiting process, its children are disowned, and it stays only if it has a parent; all other entries are as they were |
| `PidTable.Pids.Wait` | original_asst3/kern/proc/pid.c:392-442 | every error case, and a status only for the parent of an exited child, whose entry goes with it |
| `PidTable.Pids.WaitDone` | original_asst3/kern/proc/pid.c:442-464 | after the sleep the entry is still there, has exited, and yields its status to the parent that waited |
| `PidTable.CollectKeeps` | original_asst3/kern/proc/pid.c:446-464 | a status is collected at most once, by the process that created the child, and is the one the child exited with |
| `PidTable.ParentCanCollect` | original_asst3/kern/proc/pid.c:48-61 | an exited process in the table has a running parent, the very process that created it |
| `PageTable.Lookup` | asst3/kern/vm/vm.c:45-55 | the entry of a page is found exactly when there is one, and it is the only one |
| `PageTable.Insert` | asst3/kern/vm/vm.c:142-153 | a new entry is at the end of its own bucket's chain, the table in order (one entry per page, one page per frame), nothing else changed |
| `PageTable.Vm.Fault` | asst3/kern/vm/vm.c:85-157 | when each outcome happens; a loaded page has exactly one entry, with the frame it had or the new one; the table changes by at most that entry, and not at all on an error, whatever other address spaces do meanwhile |
| `PageTable.MeanwhileInsert` | asst3/kern/vm/vm.c:142-153 | a fault of another space is one of the things a fault allows for while the table is unlocked |
| `PageTable.MeanwhileDestroy` | asst3/kern/vm/vm.c:196-222 | so is the end of another space |
| `PageTable.MeanwhileCopy` | asst3/kern/vm/vm.c:159-194 | so is a copy to another space, complete or not |
| `PageTable.MeanwhileTwice` | asst3/kern/vm/vm.c:109-142 | and so is any number of them |
| `PageTable.Sweep` | asst3/kern/vm/vm.c:202-219 | the chain keeps exactly the entries of other spaces, in order, and lists the removed ones with their frames |
| `PageTable.KeptCounts` | asst3/kern/vm/vm.c:202-219 | each entry of a chain either stays or goes, by its space alone |
| `PageTable.Destroy` | asst3/kern/vm/vm.c:196-222 | exactly one space's entries go, each once, with as many different frames, none of them still in use, and all chains keep the others in order |
| `PageTable.FreedOnce` | asst3/kern/vm/vm.c:212-213 | no frame is freed twice, and none that a remaining entry uses |
| `PageTable.Copy` | asst3/kern/vm/vm.c:159-194 | the table after the copy, in order, both when it succeeds and when it stops at the first bucket whose entry cannot be had; no other space changes |
| `PageTable.OthersKept` | asst3/kern/vm/vm.c:159-194 | no other space sees a copy, however far it came |
| `PageTable.CopyMaps` | asst3/kern/vm/vm.c:159-194 | as far as the copy came, the new space has exactly the pages that head a bucket in the old one, and no other space changes |
| `PageTable.CopyComplete` | asst3/kern/vm/vm.c:163-166 | the copy has every page exactly when every page heads its bucket |
| `PageTable.CopyMisses` | asst3/kern/vm/vm.c:163-166 | two new entries and a copy, under the code's own hash with 2048 buckets, after which a page is missing |
| `FrameTable.PopOk` | asst3/kern/vm/frametable.c:89-93 | without its first frame, marked used, the list is still exactly the unused frames |
| `FrameTable.PushOk` | asst3/kern/vm/frametable.c:122-127 | with a used frame in front, marked unused, likewise |
| `FrameTable.Frames.constructor` | asst3/kern/vm/frametable.c:25-66 | the frames of the frame table, the page table and all before them start used, all others are on the list |
| `FrameTable.Frames.Alloc` | asst3/kern/vm/frametable.c:75-110 | one page is a frame that was unused and is now used; any other request gets nothing |
| `FrameTable.Frames.Free` | asst3/kern/vm/frametable.c:112-129 | a used frame goes to the front of the list; freeing an unused frame or an address outside RAM changes nothing |
| `FrameTable.FreeThenAlloc` | asst3/kern/vm/frametable.c:75-129 | a frame given back is the next one given out |
| `Vnodes.FindIs` | original_asst3/kern/dev/lamebus/emu.c:1162-1176 | the pool search finds a vnode of the handle exactly when there is one |
| `Vnodes.RemoveCounts` | original_asst3/kern/dev/lamebus/emu.c:510-527 | exactly one occurrence leaves the pool |
| `Vnodes.StepKeeps` | original_asst3/kern/vfs/vnode.c:79-123 | lookups, increfs, decrefs and both halves of a reclaim keep counts and pool in step and fail no assertion |
| `Vnodes.StepDoes` | original_asst3/kern/dev/lamebus/emu.c:466-534 | for every step: which vnode gets or loses a reference, a lookup finds the vnode of its handle or adds a new one, a reclaim takes exactly its vnode from the pool; nothing else changes |
| `Vnodes.RunDoes` | original_asst3/kern/dev/lamebus/emu.c:466-534 | so does every step of every run |
| `Vnodes.RunHolders` | original_asst3/kern/vfs/vnode.c:79-123 | in every run the references of a vnode are the lookups and increfs of it minus the decrefs, since it was loaded |
| `Vnodes.RunSafe` | original_asst3/kern/dev/lamebus/emu.c:466-534 | in every run a count is its holders plus at most one pending reclaim plus lost references, the pool is exactly the vnodes there are, and a vnode goes only when the reclaim's reference is the last |
| `OpenFiles.Files.Create` | original_asst3/kern/syscall/openfile.c:46-75 | one reference, in the caller's hands |
| `OpenFiles.Files.Incref` | original_asst3/kern/syscall/openfile.c:122-128 | one more reference, in the caller's hands |
| `OpenFiles.Files.Decref` | original_asst3/kern/syscall/openfile.c:134-149 | the file is destroyed exactly when no table and no call refers to it any more |
| `OpenFiles.Files.PlaceAt` | original_asst3/kern/syscall/filetable.c:229-237 | the slot takes over the caller's reference and the caller gets the slot's |
| `OpenFiles.Files.FreeSlot` | original_asst3/kern/syscall/filetable.c:200-214 | the lowest free descriptor, or none exactly when all are in use |
| `OpenFiles.Files.Open` | original_asst3/kern/syscall/file_syscalls.c:97-104 | the new file is at the lowest free descriptor with one reference, or leaves no trace |
| `OpenFiles.Files.Close` | original_asst3/kern/syscall/file_syscalls.c:201-225 | the slot is empty, and the file exists afterwards exactly if something else refers to it |
| `OpenFiles.Files.Dup2` | original_asst3/kern/syscall/file_syscalls.c:294-334 | when it succeeds, what the table is then, and that no reference is lost or kept |
| `OpenFiles.Files.NewTable` | original_asst3/kern/syscall/filetable.c:44-60 | a new table of empty slots changes no count |
| `OpenFiles.Files.Copy` | original_asst3/kern/syscall/filetable.c:98-127 | the new table equals the old, and every file has one more reference per slot |
| `OpenFiles.Files.DestroyTable` | original_asst3/kern/syscall/filetable.c:66-81 | every reference of the table is dropped, and no other table changes |
| `OpenFiles.Quiescent` | original_asst3/kern/syscall/openfile.c:122-149 | with no call in progress, a file's count is the number of slots that hold it, and it exists exactly if there is one |
| `OpenFiles.StillOpen` | original_asst3/kern/syscall/openfile.c:122-149 | whatever a process has in its table or in hand is open |
| `OpenFiles.OthersDrop` | original_asst3/kern/syscall/openfile.c:134-149 | another process dropping a reference of its own leaves this one its table and its references |
| `OpenFiles.OthersPlace` | original_asst3/kern/syscall/filetable.c:229-237 | so does another process putting a reference into its own table |
| `OpenFiles.OthersGet` | original_asst3/kern/syscall/openfile.c:46-128 | so does another process getting a reference |
| `OpenFiles.OthersTable` | original_asst3/kern/syscall/filetable.c:44-81 | so does another process getting a table or giving its own up |
| `OpenFiles.UndisturbedTwice` | original_asst3/kern/syscall/openfile.c:122-149 | and so does any number of such steps |
| `BoundedBuffer.NeverBad` | asst1/producerconsumer.c:24-47 | a thread about to write has room, one about to read has an item |
| `BoundedBuffer.MoveKeeps` | asst1/producerconsumer.c:24-47 | every semaphore operation and buffer access keeps the ring equal to what was sent and not yet read |
| `BoundedBuffer.StepKeeps` | asst1/producerconsumer_driver.c:51-202 | every step of producers, consumers and driver keeps the protocol's invariant |
| `BoundedBuffer.StartGood` | asst1/producerconsumer.c:55-61 | start-up establishes it |
| `BoundedBuffer.RunSafe` | asst1/producerconsumer_driver.c:51-123 | in every run what is received is the first part of what was sent, in order; nothing is overwritten or read twice, no item is sent twice, and stop tokens come last |
| `BoundedBuffer.FinishedEmpty` | asst1/producerconsumer_driver.c:164-202 | at the end every item of every producer has been received once, each consumer has taken one token, and nothing is left |
| `BoundedBuffer.Progress` | asst1/producerconsumer_driver.c:51-202 | there is no deadlock: until the driver has finished, some thread can take a step |
| `BoundedBuffer.StepLess` | asst1/producerconsumer_driver.c:51-202 | every step leaves less to do |
| `BoundedBuffer.RunEnds` | asst1/producerconsumer_driver.c:51-202 | a run has at most twenty steps for each item and token and a few for each thread, so every run ends |
| `BoundedBuffer.RunCompletes` | asst1/producerconsumer_driver.c:51-202 | a run that cannot go on has finished, and every item of every producer has been received once |
| `Printf.DigitsRound` | original_asst3/common/libc/printf/__printf.c:439-459 | the digits printed for a number have that number as their value, in each base |
| `Printf.Convert` | original_asst3/common/libc/printf/__printf.c:420-467 | for every 64-bit value and base the loop stays in the buffer and leaves exactly the number's digits, all of them digits of the base, before the terminator |
| `Printf.OctalFills` | original_asst3/common/libc/printf/__printf.c:76-84 | octal with the top bit set takes the whole buffer |
| `Printf.Output.Filled` | original_asst3/common/libc/printf/__printf.c:348-357 | that many fill characters are sent and counted |
| `Printf.Output.PrintStuff` | original_asst3/common/libc/printf/__printf.c:365-404 | the text sent is the field with its padding in the right place, and is counted |
| `Printf.FieldLength` | original_asst3/common/libc/printf/__printf.c:371-381 | a field is as wide as asked, or as long as its text if that is longer |
| `Printf.Output.PrintNum` | original_asst3/common/libc/printf/__printf.c:413-491 | sign, base prefix and digits are sent as one field |
| `Printf.WidthRead` | original_asst3/common/libc/printf/__printf.c:180-233 | a decimal number among the modifiers is read as that field width, zeros included |
| `Printf.SnprintfSend` | original_asst3/common/libc/printf/snprintf.c:73-93 | what fits of the text so far becomes what fits of the longer text |
| `Printf.Vsnprintf` | original_asst3/common/libc/printf/snprintf.c:98-142 | the buffer gets the longest part that fits, terminated, nothing beyond is written, and the full length is returned |
| `Printf.Atoi` | original_asst3/common/libc/stdlib/atoi.c:49-101 | blanks, sign, digits up to the first other character, the value modulo the word size |
| `Printf.AtoiIs` | original_asst3/common/libc/stdlib/atoi.c:49-101 | for blanks and tabs, a sign or none, digits and any rest: the number those digits spell, negative exactly after a minus, modulo the word size |
| `Printf.ZerosMatter` | original_asst3/common/libc/stdlib/atoi.c:70-92 | modulo the word size, a number with zeros behind it is the number itself only if it is 0 |
| `Printf.RoundTrip` | original_asst3/common/libc/printf/__printf.c:240-311 | for every int and every sequence of modifiers, atoi of the %d text is the int, except exactly when a number other than 0 has zeros put behind it |
| `Printf.RoundTripFails` | original_asst3/common/libc/printf/__printf.c:400-403 | an instance of the exception |
| `Printf.PrintAndRead` | original_asst3/common/libc/printf/snprintf.c:98-142 | snprintf of %d with any modifiers and atoi of the buffer: the int comes back exactly as RoundTrip says if the text fits, otherwise atoi of the part that does |

## Left out

- Division by zero: excluded by precondition; the code raises a machine trap.
- Kmalloc.BlockType: sizes above 2048 are excluded by precondition, because the code panics on them and `kmalloc` never passes one.
- KernelHeap.Heap.Kmalloc: requests above 2^32 - 4096 are excluded, because the page count wraps and the result does not cover them (`NPagesCover`).
- Kmalloc.FindClear: scans the bits of a root one by one; the code's skipping of full 32-bit words is not modelled.
- KernelHeap.Heap: memory contents other than the link word of each block, guard bands, labels and the SLOW checks, which are compiled out.
- Scheduler: the assembly context switch, interrupt levels, address-space activation, stack guard checks and `thread_panic`; channels are not created or destroyed.
- Scheduler.MigrationSends: the count of all queues is any number not below the own queue's length, since the queues are counted one by one without a common lock.
- Migration.Migrate: other threads at work between the locked parts, `t_cpu` and the interrupt, which are in Scheduler; the share is given.
- Semaphores and Monitors: creation and destruction of the objects.
- PidTable: processes with several threads; `proc.c`, which calls these functions, is not part of this model.
- PageTable: the TLB, region checks and page contents; `vm_copy`'s unchecked frame allocation is taken to succeed.
- PageTable.Vm.Fault: address-space and process lookup before the table is consulted.
- FrameTable: `ram_stealmem`, used before the table exists.
- Vnodes: device I/O, and the out-of-memory and array-growth failures of `emufs_loadvnode`; a failed close is a lost reference.
- OpenFiles.Files: the methods for whole system calls have no step of another process in between; what such a step leaves alone is `Undisturbed`.
- OpenFiles.Files.Open: path lookup and `vfs_open`, which only decide whether there is a file to place.
- OpenFiles.Files.DestroyTable: each slot is cleared before its reference is dropped, the other way round than in the code; the table is no one else's by then.
- BoundedBuffer.FinishedEmpty: needs at least one consumer, and the consumers' limit of 10000 items is not modelled.
- BoundedBuffer.Progress: needs at least one consumer; without any, producers can fill the buffer and stop there.
- Printf: `%s`, `%c`, plain text and the argument list; field widths are unbounded integers.
- bswap64, the other millicode, the bar problem of asst1 and the file layer of asst2, whose promises do not hold or are simple.
- Device drivers, system call plumbing, the menu, tests and boot order.
