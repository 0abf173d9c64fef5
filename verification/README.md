# Scheduler, disk and console: a verified model

The repository holds the exercises of an operating systems course in C. This project models three of its
programs in Dafny and proves what their operations keep, over any number of calls in any order.

**The scheduler** (`src/x86-64/examples/TP3.c`). Contexts sit in a ring; `yield` looks for the next one that
can run and unlinks the TERMINATED ones it passes; a semaphore threads the contexts blocked on it through a
second pointer. `yield` enables the interrupts between its choice and its switch, so a timer tick may come in
between, and its own `yield` then runs on top of the one interrupted.

- `SchedulerSpec` states the effect of every operation on values, exactly as the C code performs it, with
  `yield` as one step. `Preemption` splits `yield` into its two halves: a kernel with any number of pending
  switches on the stacks of its contexts, and runs in which ticks come anywhere and whatever context has
  the processor makes the calls.
- `SchedulerInvariant` has the joint invariant of the ring and of all blocked lists, and the one kind of call
  that breaks it. `SchedulerTheorems` proves what holds over the runs in which no tick falls inside a `yield`
  (outcome of the search, bounded waiting, life cycle, token conservation, mutual exclusion).
- `PreemptionTheorems`, `PreemptionTokens` and `PreemptionWaiting` say exactly what of this is left when ticks
  come anywhere. `SchedulerFlaws` and `PreemptionFlaws` have short runs that go wrong.
- `Scheduler` is the imperative code over `SchedulerMemory`: each method, including the unlinking loop of
  `yield`, is proved to do to the pointers what `Preemption` says.

**The disk** (`src/includes/*.c`, `src/vm/vm.c`). `Drive` is the driver over a model of the disk, `Partition`
the partition table and block addressing, `Volume` the code of `volume.c` and the commands `new` and `del`.
`DiskTheorems` proves that the sectors, seen through the table, behave like a sequence of volumes.
`SuperblocSpec`, `SuperblocTheorems` and `Superbloc` do for the free-list allocator what the scheduler modules
do for the scheduler. `Session` puts all this together: one machine of sectors, table, superblocks, lists and
memory, and sessions of all commands in any order; `Vm` are the commands of `vm.c`, each proved to be an
operation of that machine and to leave it in order exactly when `Session` allows it. `FirstBlocks` says what
load_vol finds in a first sector, byte by byte, or makes of it, and how long a volume keeps its serial number.
`SessionFlaws` has what `del` does to the superblock in memory, and a session after which a list node is taken for a
superblock.

**The console and the hexadecimal printer** (`my-kernel-asa/src/main.c`, `my-kernel-asa/testascii.c`).
`Screen` is a grid with a cursor, `Console` the code over the flat video memory, `Hex` the printing and
reading of hexadecimal numbers.

`dafny verify dfyconfig.toml` checks everything.

## What the code does not do

The model follows the code where the code departs from what it is evidently for.

- `yield` enables the interrupts before it switches (TP3.c:116-117), and `switch_to_ctx` masks them again
  (line 126) without looking at the context it switches to. A tick in between can let the target return, block
  or be freed. What this takes away, each exactly when:
  - a switch follows freed memory if and only if its target was freed, and otherwise leaves an ACTIVABLE context
    running if and only if the target is still READY or ACTIVABLE (`SwitchExact`);
  - when contexts alternate `sem_down` and `sem_up`, all those between the two have been given a token, at all
    times, if and only if no switch makes a context that is still WAITING return from `sem_down` (`LawExact`); as
    long as none does, mutual exclusion holds (`PreemptiveExclusion`), and otherwise it may fail
    (`MutualExclusionFails`);
  - the ring, the lists and the counters stay what they should be if and only if no WAITING context returns or
    blocks once more (`RunExact`);
  - TERMINATED is never left if and only if no context that has returned blocks on a semaphore or, the lists being
    wrong, is woken from one (`LifeRunExact`);
  - all of this at once, every switch leaving an ACTIVABLE context running, if and only if every switch finds its
    target neither freed nor TERMINATED nor WAITING (`PreemptionExact`). A TERMINATED context may be resumed
    (`TickBeforeSwitch`).
- `sem_up` does not increment `val` when it wakes a context (TP3.c:219-222). The counter and the length of the
  list agree exactly as long as nobody has been woken (`TokenConservation`, `UpKeepsLaw`), and a later `sem_up`
  may follow a NULL pointer (`UpCrash`, `SecondUpCrashes`). This fault is a crash and never a token too many:
  tokens are conserved over every run, whatever else it breaks (`Conservation`).
- Before the first `yield`, when `current_ctx` is NULL, a sem_down that has to block follows it, and the first
  `yield` follows `ctx_ring` even if no context was created (`FirstCalls`).
- `yield` lets `precedent` point to the context it has just freed (TP3.c:109-112). The ring keeps a freed
  node exactly when the walk passes two TERMINATED neighbours (`YieldReaps`, `RunIntact`, `IntactRunExact`);
  the next walk that reaches it follows freed memory (`YieldCrash`, `AdjacentTerminatedCrash`).
- `sem_init` takes an unsigned value and stores it in an int, and forgets who is blocked (`SemInitExact`).
- `read_sector` and `write_sector` leave the sector index in the count register (drive.c:37, 58). On a disk
  that obeys the count this is a one-sector write exactly for sectors of index 1 and for the last sector of the
  disk; with index 0 nothing is written, so that `save_mbr` saves nothing (`CountedWriteExact`,
  `Volume.SaveMbr`). The rest of the model takes a disk that moves one sector per command.
- `format_sector` started past the last sector of a cylinder does not visit the blocks `cytToSect` designates
  (`VisitsExact`).
- `load_super` knows a superblock by the magic number alone (superbloc.c:75), which list nodes begin with as well
  (superbloc.c:30). A node on the first sector of a volume is taken for a superblock whose list was never
  assigned. So a volume counts as never initialised if and only if its first sector does not begin with the
  number (`NewIsBlankExact`, `FormatExact`, `SectorWriteExact`); one created over the node of a deleted volume
  does not (`NodeInherited`), and neither does one formatted with the number.
- `new` checks neither the size nor the end of the disk (`NewExact`, `EditsExact`), and a volume created over
  the remains of a deleted one may inherit its superblock (`NewIsBlankExact`). `del` accepts a negative number,
  and takes a number past the end for the last volume (`Volume.Mbr.Del`).
- `del` does not tell the superblock in memory (vm.c:278-288): the volumes after the one deleted get new numbers,
  and `current_vol` keeps the old one. `save_super` goes back to where the superblock came from if and only if a
  volume after it was deleted, or its entry is the last of the table or beyond, which `del` leaves where it is
  (`GoesHomeExact`); otherwise it overwrites the superblock of the next volume (`DelMisplaces`,
  `SuperblockLost`).
- `free_bloc` accepts block 0, the superblock, which `new_bloc` then returns as its code for a full volume
  (`GiveExact`).
- `load_super` replaces the superblock in memory whatever state it is in. It keeps the lists of all volumes if
  and only if no superblock is in memory or the one there has the list its volume has on the disk, and the
  volume loaded has a superblock or two blocks at least (`LoadExact`, `SuperblocTheorems.StepExact`,
  `SuperblocTheorems.RunExact`). In particular a volume loaded again after an allocation follows freed memory
  (`ReloadUnsaved`), and so does, through an unassigned pointer, one loaded again right after its
  initialisation, because `init_volume` writes the superblock before it knows the list (`ReloadInitialised`).
- `init_volume` makes a list of one node even for a volume of one block, which then hands out a block it does
  not have (`InitGoodExact`, `SmallVolume`). The node lands on the first sector of the next volume, which takes it
  for a superblock (`InitSpillExact`).
- A backspace does not come back to a character in the last column: the cursor wraps first, and goes to the start
  of the next row, or of a cleared screen (`BackspaceExact`).
- The comments beside the cursor give it the ranges 0 to 79 and 0 to 24 (main.c:140-141); the code lets it rest
  in column 80 and in row 25 until the next character (`Screen.Putc`, `Console.Console.Putc`).
- The comment of `create_ctx` announces a failure code (TP3.c:55); the code checks no allocation and returns 0.
- `hex_to_int` misreads exactly the lower-case digits, as 20 more than they are (`HexToIntExact`).

## Model

The theorems come first, then the code proved against their specification, then the steps they rest on. An
atomic run is one in which no tick falls inside a `yield`; a run is one in which ticks come anywhere.

| member | source | states |
|---|---|---|
| PreemptionTokens.PreemptionExact | src/x86-64/examples/TP3.c:88-225 | over every run, the joint invariant and the law of tokens hold in all states, TERMINATED and freed are never left and every switch leaves an ACTIVABLE context running, if and only if every switch finds its target not freed and READY or ACTIVABLE |
| PreemptionTokens.LawExact | src/x86-64/examples/TP3.c:88-225 | over every run in which contexts alternate sem_down and sem_up, everyone between the two was given a token, in all states, if and only if no switch makes a context that is still WAITING return from sem_down |
| PreemptionTokens.PreemptiveExclusion | src/x86-64/examples/TP3.c:192-225 | over every run without such a switch, when contexts alternate sem_down and sem_up, at most the initial value of them have returned from sem_down and not called sem_up since; at most one if it is 1 |
| PreemptionFlaws.MutualExclusionFails | src/x86-64/examples/TP3.c:116-126 | eleven acts from a semaphore of value 1 bring two contexts that alternate sem_down and sem_up to be both between the two |
| PreemptionTheorems.RunExact | src/x86-64/examples/TP3.c:88-225 | over every run, the joint invariant of ring, lists and counters holds in all states if and only if no WAITING context returns or blocks once more |
| PreemptionTheorems.IntactRunExact | src/x86-64/examples/TP3.c:95-126 | over every run, whatever it breaks, the ring never holds a freed node if and only if no yield passes two TERMINATED neighbours |
| PreemptionTokens.LifeRunExact | src/x86-64/examples/TP3.c:88-225 | over every run, whatever it breaks, TERMINATED and freed are never left if and only if no TERMINATED context blocks on a semaphore or is woken by sem_up |
| PreemptionTokens.Conservation | src/x86-64/examples/TP3.c:192-225 | over every run, whatever it breaks, tokens granted minus tokens given back never exceed the initial value and fall short of it by what is left in `val`; `val` is the initial value plus ups minus downs minus wake-ups |
| PreemptionWaiting.PreemptiveWaiting | src/x86-64/examples/TP3.c:65-126 | over every run, whatever it breaks, a context that stays able to run but does not run has seen n - 2 + k + w * (n + k) switches at most, for a ring of n contexts, k creations meanwhile and w pending switches at the start; one more if nothing ran yet |
| PreemptionTheorems.SwitchExact | src/x86-64/examples/TP3.c:117-155 | a switch fails if and only if its target was freed, and otherwise leaves an ACTIVABLE context running if and only if the target is READY or ACTIVABLE |
| PreemptionTokens.SwitchLawExact | src/x86-64/examples/TP3.c:125-155 | a switch breaks the law of tokens if and only if it makes a context that is still WAITING return from sem_down |
| PreemptionTokens.LifeExact | src/x86-64/examples/TP3.c:88-225 | no act leaves freed; an act leaves TERMINATED if and only if it is a blocking sem_down of a TERMINATED context or a sem_up that wakes one |
| PreemptionFlaws.TickBeforeSwitch | src/x86-64/examples/TP3.c:116-126 | from any state of two contexts that can run, a tick between choice and switch lets one return and be resumed all the same |
| PreemptionFlaws.ExclusionLost | src/x86-64/examples/TP3.c:116-126 | from any such state in which one has the last token, both come to be between sem_down and sem_up |
| PreemptionTheorems.AtomicRun | src/x86-64/examples/TP3.c:88-126 | every atomic run is a run, with the same states between its yields |
| SchedulerInvariant.RunInv | src/x86-64/examples/TP3.c:58-225 | the joint invariant holds in every state of every atomic run |
| SchedulerTheorems.MutualExclusion | src/x86-64/examples/TP3.c:192-225 | over every atomic run in which contexts alternate down and up, at most the initial value of them hold a token; at most one if it is 1 |
| SchedulerTheorems.TokenConservation | src/x86-64/examples/TP3.c:192-225 | the conservation of tokens, over atomic runs |
| SchedulerTheorems.BoundedWaiting | src/x86-64/examples/TP3.c:65-118 | over an atomic run, a context that stays able to run but does not run has seen n - 2 + k yields at most; one more if the first yield is still to come |
| SchedulerTheorems.YieldGoesOn | src/x86-64/examples/TP3.c:88-119 | while a context waits to run and no freed node is on the ring, a yield neither exits nor crashes |
| SchedulerTheorems.LifeCycle | src/x86-64/examples/TP3.c:98-151 | over an atomic run TERMINATED and freed are never left, and an entry point is called once at most |
| SchedulerTheorems.Scheduled | src/x86-64/examples/TP3.c:98-145 | over an atomic run, the context a yield switches to is ACTIVABLE and not freed |
| SchedulerTheorems.RunIntact | src/x86-64/examples/TP3.c:58-119 | over an atomic run the ring never holds a freed node if and only if no yield passes two TERMINATED neighbours |
| SchedulerTheorems.YieldReaps | src/x86-64/examples/TP3.c:95-114 | a yield frees exactly the TERMINATED contexts it passes; the ring left is the old one turned, without them, and intact, if and only if no two of them are neighbours |
| SchedulerTheorems.YieldSearch | src/x86-64/examples/TP3.c:94-118 | over a ring without freed node, yield exits if and only if no context is READY or ACTIVABLE, and otherwise runs the first one after the current |
| SchedulerTheorems.YieldCrash | src/x86-64/examples/TP3.c:98-113 | yield follows freed memory if and only if a freed node precedes every context that can run |
| SchedulerTheorems.UpCrash | src/x86-64/examples/TP3.c:217-222 | sem_up follows NULL if and only if `val` is negative and all the blocked contexts were woken already |
| SchedulerTheorems.FirstCalls | src/x86-64/examples/TP3.c:88-209 | before the first yield, sem_down follows NULL if and only if no token is left, and yield does if and only if there is no context; otherwise it calls the entry point of the head of the ring |
| SchedulerTheorems.CreatedNext | src/x86-64/examples/TP3.c:58-119 | the running context may create another one, whose entry point the next yield calls if ctx_ring is the creator |
| SchedulerTheorems.UpKeepsLaw | src/x86-64/examples/TP3.c:215-225 | sem_up keeps the law between `val` and the length of the list if and only if `val` is not negative |
| SchedulerTheorems.SemInitExact | src/x86-64/examples/TP3.c:192-195 | sem_init keeps the invariant if and only if the value is below 2^31 and nobody is blocked on the semaphore |
| SchedulerSpec.AsInt32 | src/x86-64/examples/TP3.c:192-195 | the value stored is in the range of an int, and is the one given or 2^32 less |
| SchedulerFlaws.SecondUpCrashes | src/x86-64/examples/TP3.c:215-225 | a run of six calls after which sem_up follows NULL |
| SchedulerFlaws.AdjacentTerminatedCrash | src/x86-64/examples/TP3.c:103-113 | a run of three contexts after which the ring holds a freed node and yield follows it |
| Session.SessionExact | src/vm/vm.c:125-299 | over every session of all commands, sectors, table, superblocks, lists, memory and current_vol fit together in all states if and only if every command is allowed: no superblock overwritten but by an equivalent one and the magic number put on no other first sector, new volumes that fit, whose first sector does not begin with it, and that do not take the entry current_vol needs, no deletion that leaves current_vol astray, no load over an unsaved list or of a fresh volume of one block, no release of block 0 |
| Session.EachAlone | src/vm/vm.c:125-299 | after any session of allowed commands every free list is what the calls made while its volume was in memory made of it, started anew by a creation, a format, or the dropping of a superblock whose volume was formatted meanwhile, through all renumberings of the volumes |
| Session.EachBlockAlone | src/vm/vm.c:125-299 | after any such session every block, block 0 included, holds what was last written on its sector or formatted there, the superblock or the node of an initialisation, the superblock last saved from memory, or what its sector held when its volume was created |
| FirstBlocks.SerialKept | src/vm/vm.c:125-299 | over any such session, from the load_vol that initialises it on, a volume has the serial number given there on its first block, and in memory while it is loaded, until it is formatted or its first sector is written; whatever else is done and however the volumes are numbered since |
| FirstBlocks.LoadThenSave | src/includes/superbloc.c:65-95 | load_vol of a volume whose first sector is a superblock, then save_vol, leaves all sectors and the table as they were |
| FirstBlocks.SaveThenLoad | src/includes/superbloc.c:65-95 | save_vol, then load_vol of the same volume, brings back the superblock and the list that were in memory |
| FirstBlocks.LoadInitialises | src/includes/superbloc.c:36-81 | load_vol of a volume whose first sector does not read as 0xDEADBEEF puts a superblock with the new serial number and no list on block 0, node k, linked to node k + 1, on each other block k, and changes nothing else; of a volume of one block, node 1 on the sector after it |
| FirstBlocks.LoadMakesList | src/includes/superbloc.c:36-81 | and leaves in memory that superblock, its list headed by the node of block 1 and linked in the order of the blocks |
| FirstBlocks.LoadReads | src/includes/superbloc.c:65-81 | load_vol of a sector that does read as 0xDEADBEEF writes nothing, and takes as serial number and list what lies there: those of a superblock or of bytes, the block of a node, the magic number of a format, the type of the first volume of a table |
| FirstBlocks.MagicExact | src/includes/superbloc.c:75 | the test of load_super is that the first four bytes, the lowest first, read as 0xDEADBEEF, for each form of sector |
| Volume.BytesMagic | src/includes/superbloc.c:73-75 | bytes pass the test if and only if the first one, plus 256, 65536 and 16777216 times the next three, is 0xDEADBEEF |
| Volume.FilledMagic | src/includes/drive.c:90-93 | a format passes it if and only if the four bytes it writes, the highest of the value first, do |
| Session.TableComesBack | src/includes/volume.c:11-31 | after any such session the first sector holds the table last saved, in the form load_mbr reads |
| SessionFlaws.GoesHomeExact | src/vm/vm.c:278-288 | after `del`, save_super writes to the sector the superblock in memory came from if and only if its volume comes before the one deleted, or its entry is the last of the table or beyond |
| SessionFlaws.DelMisplaces | src/vm/vm.c:278-288 | otherwise save_super overwrites the superblock of the next volume and leaves that of its own as it was |
| SessionFlaws.SuperblockLost | src/vm/vm.c:160-292 | a session of four commands after which `del` of the first volume makes save_super destroy the superblock of the third |
| SessionFlaws.NodeInherited | src/includes/superbloc.c:65-81 | a session of seven allowed commands after which `new` gives a volume that begins with a list node; load_vol accepts it and new_vol follows a pointer never assigned |
| DiskTheorems.Refines | src/includes/volume.c:22-70 | block writes, formats, edits and table saves do to the sectors what they mean for a sequence of volumes: one block changes, one volume is filled, one volume comes or goes, nothing changes |
| DiskTheorems.ReadsLastWrite | src/includes/volume.c:47-70 | after any run a block holds what was last written or formatted there, or what was there at the start, or what its sector held when its volume was created, through all creations and deletions of volumes |
| SuperblocTheorems.RunExact | src/includes/superbloc.c:65-140 | over every session without a crash, free and held blocks partition the data blocks of every volume, with lists apart and without repetition, if and only if every call is disciplined: no load over an unsaved list or for a list of a volume of one block, no save of nothing, no release of block 0 |
| SuperblocTheorems.LoadExact | src/includes/superbloc.c:65-81 | load_super keeps this if and only if nothing is in memory or what is there is on the disk, and a volume to be initialised has two blocks or more |
| SuperblocTheorems.Switching | src/includes/superbloc.c:65-140 | after any disciplined session the free list of a volume is what the calls made while it was loaded made of it |
| SuperblocTheorems.HandedOutOnce | src/includes/superbloc.c:97-140 | between two new_bloc that return the same block of a volume, a free_bloc took it back |
| SuperblocTheorems.CodesExact | src/includes/superbloc.c:97-140 | no disciplined call crashes; what each code means: new_bloc gives a block nobody holds, and 0 if and only if all are held; free_bloc takes back exactly the held blocks and otherwise changes nothing |
| SuperblocTheorems.CrashExact | src/includes/superbloc.c:65-140 | in any state, save_super crashes if and only if nothing is in memory, new_bloc if and only if the list was never assigned or begins with a freed node, free_bloc if and only if the block is in the volume and the list was never assigned or has a freed node before any of that block; load_super never does |
| SuperblocTheorems.GiveExact | src/includes/superbloc.c:116-140 | free_bloc keeps the invariant if and only if the block is not 0; after block 0, new_bloc returns 0 |
| SuperblocTheorems.ReloadUnsaved | src/includes/superbloc.c:65-114 | new_bloc, then load_super of the same volume without save_super, breaks the list and makes the next new_bloc follow a freed node |
| SuperblocTheorems.ReloadInitialised | src/includes/superbloc.c:36-81 | a volume loaded twice before its first save has no usable list |
| SuperblocTheorems.InitGoodExact | src/includes/superbloc.c:45-59 | a new list has distinct nodes for exactly the blocks 1 to nbBlocs - 1 if and only if the volume has two blocks or more |
| SuperblocTheorems.SmallVolume | src/includes/superbloc.c:45-59 | new_bloc hands out block 1 of a smaller volume |
| Superbloc.InitSpillExact | src/includes/superbloc.c:36-62 | an initialisation leaves the first sector of the next volume its meaning if and only if the volume has two blocks or more; otherwise it stands for a superblock whose list was never assigned |
| Superbloc.BlockWriteExact | src/includes/volume.c:55-61 | a block write leaves all superblocks alone if and only if it is not on block 0, or stores an equivalent one |
| Superbloc.NewIsBlankExact | src/vm/vm.c:243-257 | a new volume counts as never initialised if and only if its first sector does not begin with the magic number |
| Superbloc.FormatExact | src/includes/volume.c:63-70 | a format leaves its volume without superblock, and the others theirs, if and only if the value does not read as the magic number; otherwise with one whose list was never assigned |
| Partition.EditsExact | src/vm/vm.c:225-292 | over any run of edits all tables are sound if and only if every `new` fitted when it was made |
| Partition.EightVolumes | src/vm/vm.c:233-257 | from any sound table of less than eight volumes a `new` that fits gives one more, right after the last; from eight volumes it changes nothing |
| SessionFlaws.EightNews | src/vm/vm.c:225-262 | from a blank disk eight `new` make eight volumes, all allowed; a ninth changes nothing |
| Partition.PlaceInjective | src/includes/volume.c:33-61 | in a sound table two blocks share an address if and only if they are the same block of the same volume, and none is sector (0,0) |
| Partition.VisitsExact | src/includes/volume.c:63-70 | the i-th address formatted is that of block i, for all i, if and only if the start sector is below 16 or nothing is formatted |
| Drive.CountedWriteExact | src/includes/drive.c:54-60 | a write that leaves the sector index as the count is a one-sector write, whatever disk and buffer hold, if and only if that index is 1 or the sector is the last of the disk; with index 0 it writes nothing |
| Screen.LineTheorem | my-kernel-asa/src/main.c:109-172 | after any number of lines of less than 80 characters, each ended by 10, on a cleared screen, each row shows the codes of one line of the last page of 25, the rest is blank, and the cursor is at the start of the row after the last line |
| Screen.PageTheorem | my-kernel-asa/src/main.c:109-172 | after n characters that are not control characters on a cleared screen, the 2000 cells hold the codes of the characters of the last page, as unsigned chars, and the rest hold 32 |
| Screen.NumberShown | my-kernel-asa/src/main.c:127-137 | after puthex on a cleared screen the cells before the cursor, read back in base 16 with hex_to_int, give the number as unsigned; the rest are blank |
| Screen.ReturnOverwrites | my-kernel-asa/src/main.c:161 | after 13 up to 80 characters overwrite the same row from column 0, and no other cell |
| Screen.BackspaceExact | my-kernel-asa/src/main.c:163 | 8 changes no cell, and takes the cursor back to the character put before it if and only if that is not in the last column |
| Screen.TabStop | my-kernel-asa/src/main.c:164 | 9 changes no cell and takes the cursor to the least multiple of 8 beyond its column |
| Screen.PutWraps | my-kernel-asa/src/main.c:151-159 | any character put past column 79 acts as from the start of the next row, past row 24 as on a cleared screen |
| Hex.RoundTrip | my-kernel-asa/testascii.c:4-10 | reading back what puthex prints gives the number as unsigned; no leading zero, nothing printed only for 0 |
| Hex.PairsExact | my-kernel-asa/testascii.c:12-29 | on any even number of upper-case digits, the bytes in base 256 are the number in base 16 |
| Hex.HexToIntExact | my-kernel-asa/testascii.c:4-10 | of the hexadecimal digits hex_to_int misreads exactly the lower-case ones, 'a' to 'f' being read as 30 to 35 |
| Scheduler.Scheduler.Choose | src/x86-64/examples/TP3.c:94-116 | the loop terminates; memory, outcome and the context chosen follow the first half of yield, called by the context or by a tick |
| Scheduler.Scheduler.Switch | src/x86-64/examples/TP3.c:117-155 | memory and outcome follow the second half, for the target of the innermost pending yield of the running context |
| Scheduler.Scheduler.SwitchToCtx | src/x86-64/examples/TP3.c:125-148 | current_ctx and etat follow the specification of the switch, to any context created so far, freed or not |
| Scheduler.Scheduler.Yield | src/x86-64/examples/TP3.c:88-119 | both halves without a tick between them follow the specification of yield |
| Scheduler.Scheduler.CreateCtx | src/x86-64/examples/TP3.c:58-86 | the memory follows the specification of create_ctx |
| Scheduler.Scheduler.Terminate | src/x86-64/examples/TP3.c:148-150 | the running context becomes TERMINATED; the lists stay valid if and only if it was not WAITING |
| Scheduler.Scheduler.Down | src/x86-64/examples/TP3.c:198-209 | the memory follows sem_down up to its yield |
| Scheduler.Scheduler.SemUp | src/x86-64/examples/TP3.c:215-225 | the memory and the outcome follow the specification of sem_up |
| Vm.Vm.New | src/vm/vm.c:225-262 | for any size, the command does to the machine what Session says, there is one volume more unless there were eight, and the machine is left in order if and only if Session allows it |
| Vm.Vm.Del | src/vm/vm.c:264-292 | for any number that is not negative, the command does what Session says, and leaves the machine in order if and only if Session allows it; a negative one makes the loop write outside the table |
| Vm.Vm.Save | src/vm/vm.c:294-299 | the command does what Session says, and leaves the machine in order |
| Vm.Vm.WriteBlock | src/vm/vm.c:125-142 | for any block of the disk counted from the start of a volume, the command does what Session says, and leaves the machine in order if and only if Session allows it |
| Vm.Vm.FormatVolume | src/vm/vm.c:144-157 | for any volume, in memory or not, and any value, the command does what Session says, and leaves the machine in order if and only if Session allows it |
| Vm.Vm.LoadVolume | src/vm/vm.c:160-169 | the command does what Session says, and leaves the machine in order if and only if Session allows it, whatever is in memory |
| Vm.Vm.SaveVolume | src/vm/vm.c:171-175 | the command does what Session says and leaves the machine in order; it follows NULL if and only if nothing is loaded |
| Vm.Vm.NewBlock | src/vm/vm.c:183-195 | the command does what Session says, leaves the machine in order, and prints the code of new_bloc |
| Vm.Vm.DelBlock | src/vm/vm.c:197-223 | the command does what Session says, leaves the machine in order if and only if Session allows it, and prints the code of free_bloc |
| Superbloc.Allocator.InitVolume | src/includes/superbloc.c:36-62 | exactly the superblock and the nodes are written, in blocks 0 to nbBlocs - 1, and the current superblock gets the list |
| Superbloc.Allocator.LoadSuper | src/includes/superbloc.c:65-81 | the magic number alone decides, nodes and other bytes included; globals, nodes and sectors follow the specification of load_super, with the assignment of src/vm/vm.c:167; of a volume of one block too, as far as sectors and globals go |
| Superbloc.Allocator.SaveSuper | src/includes/superbloc.c:83-95 | the superblock goes to the first sector of the entry current_vol is the number of, no other sector changes, NULL is followed if nothing is loaded; with current_vol in order this is the save of the specification |
| Superbloc.Allocator.NewBloc | src/includes/superbloc.c:97-114 | code, nodes and list follow the specification of new_bloc |
| Superbloc.Allocator.FreeBloc | src/includes/superbloc.c:116-140 | code, nodes and list follow the specification of free_bloc |
| Volume.Mbr.New | src/vm/vm.c:225-262 | the table and the rest of the array of eight entries after `new`; one more volume up to seven, nothing changes with eight |
| Volume.Mbr.Del | src/vm/vm.c:264-292 | the shifting loop removes exactly the volume named, keeps the order, and leaves the last entry where it was; a negative number makes it write outside the table |
| Volume.LoadMbr | src/includes/volume.c:11-20 | the table in memory becomes the one of sector (0,0), or whatever its bytes mean; on a disk that obeys the count, that of MASTERBUFFER |
| Volume.SaveMbr | src/includes/volume.c:22-31 | sector (0,0) becomes the table, no other sector changes; on a disk that obeys the count, none changes |
| Volume.ReadBloc | src/includes/volume.c:47-53 | the sector read is the one nbloc sectors after the start of the volume |
| Volume.WriteBloc | src/includes/volume.c:55-61 | the sector nbloc sectors after the start of the entry, and no other one, is written, for entries beyond the table too |
| Volume.FormatVol | src/includes/volume.c:63-70 | exactly the blocks of the volume are filled, and the addresses given to the disk |
| Drive.Disk.ReadSector | src/includes/drive.c:34-39 | the sector addressed is read, unless the disk counts and the index is 0 |
| Drive.Disk.WriteSector | src/includes/drive.c:54-60 | the sectors written; exactly the one addressed on a disk that moves one |
| Drive.Disk.FormatSector | src/includes/drive.c:80-106 | the addresses given to the disk are those of the walk, from any start; exactly they are filled, and they are the next `nsector` sectors when the walk stays on the disk |
| Console.Console.ClearScreen | my-kernel-asa/src/main.c:109-115 | whatever the memory held, the 2000 cells hold 32 in colour 0x0F |
| Console.Console.Putc | my-kernel-asa/src/main.c:151-172 | for any character the flat memory follows the grid, colours stay white, the cursor stays in its range and the hardware cursor at 2000 at most |
| Console.Console.Puts | my-kernel-asa/src/main.c:118-123 | the characters up to the zero are printed |
| Console.Console.PutHex | my-kernel-asa/src/main.c:127-137 | the number is printed as its unsigned value in base 16 without leading zeros |
| PreemptionTheorems.DoExact | src/x86-64/examples/TP3.c:88-225 | one act keeps the joint invariant if and only if it is not the return or a blocking sem_down of a WAITING context |
| PreemptionTheorems.IntactExact | src/x86-64/examples/TP3.c:95-126 | in any state, one act leaves a freed node on the ring if and only if it is a choice that passes two TERMINATED neighbours |
| PreemptionTokens.TokensStep | src/x86-64/examples/TP3.c:88-225 | one act keeps lists, tokens, calls and the contexts inside their semaphores in step, unless it makes a context that is still WAITING return from sem_down |
| SchedulerInvariant.WalkPasses | src/x86-64/examples/TP3.c:95-114 | every context the walk passes is live and TERMINATED or WAITING, the one it stops on is live and can run |
| SchedulerTheorems.WalkExact | src/x86-64/examples/TP3.c:95-114 | the walk finds the first context that can run, or that none can, or meets a freed node before any |
| SchedulerTheorems.LifeCycleStep | src/x86-64/examples/TP3.c:144-222 | all changes of etat, which operation makes each of them and on which context |
| SchedulerMemory.UnlinkCycle | src/x86-64/examples/TP3.c:95-114 | the `next` pointers the loop leaves form a single cycle through the ring of the specification |
| Partition.NewExact | src/vm/vm.c:225-262 | `new` puts the volume right after the last one, and keeps the table sound if and only if the size is positive and fits |
| Session.StepExact | src/vm/vm.c:125-299 | one command keeps the machine together if and only if it is allowed |
| Superbloc.SectorWriteExact | src/includes/volume.c:55-61 | a write to any sector leaves all superblocks alone if and only if it is not the first sector of a volume, or stores an equivalent superblock there |
| SuperblocTheorems.StepExact | src/includes/superbloc.c:65-140 | one call keeps the lists of all volumes if and only if it is disciplined |

## Left out

- Scheduler.Scheduler.SwitchToCtx: does not model stacks, stack pointers and the saving of registers; what a context does next is whatever acts the run has, within the pending yields of its stack. A TERMINATED context resumed past line 151 returns into nowhere; the model lets it call anything.
- Scheduler.Scheduler.Down: after a sem_down that blocks a context that is on a list already, the lists in memory are no longer lists; the model is exact up to and including that call, and says nothing about the calls after it.
- Scheduler.Scheduler.SemDown: leaves such a caller out, because nothing is said of the yield that follows; Scheduler.Scheduler.Down does not.
- Scheduler.Scheduler.Finish: leaves a WAITING caller out for the same reason; Scheduler.Scheduler.Terminate does not.
- Scheduler.Scheduler.CreateCtx: does not model the stack, `magic`, `entryPoint` and the argument, which the code never stores; malloc always succeeds and never hands out an address twice, and a freed block keeps its fields until then, which line 113 relies on.
- PreemptionTheorems.RunExact: speaks of runs that neither exit nor crash, as all run theorems do; when a step does is the subject of SwitchExact, YieldCrash, YieldSearch and UpCrash. A tick inside the very first yield is not modelled: it has nothing to come back to, as the stack of the program is never resumed.
- PreemptionWaiting.PreemptiveWaiting: promises nothing about a context that blocks: waking is last in, first out, so one blocked on a semaphore can starve.
- Session.SessionExact: says nothing about what follows a command that is not allowed, and takes the volumes named to exist, as vm.c does; entries beyond the table are reached through current_vol only. Deleting the volume in memory is not allowed: its superblock belongs to no volume then.
- Vm.Vm.Save: is stated, as all commands are, for a disk that moves one sector per command.
- Superbloc.Allocator.LoadSuper: requires that the sector after a volume of one block exist, as the disk is not known for addresses past its end; nor is it for reads and writes there. A format past the end is taken to do nothing.
- Volume.LoadMbr: takes what the bytes of a sector that never held a table mean from its caller.
- Volume.ReadBloc: is stated, as Volume.WriteBloc, the allocator and the sessions are, for a disk that moves one sector per command; Drive.CountedWriteExact compares it with one that obeys the count.
- Volume.HasMagic: takes a format to put the bytes of its value from the highest to the lowest, the order in which the disk gets them (src/includes/drive.c:90-93), and an int to be read from the lowest, as on the x86-64; what other bytes say as an int and as a pointer is part of the sector.
- Structures as contexts, semaphores and list nodes are addresses with one map per field instead of Dafny objects, which keeps aliasing and updates in place; sectors hold them as such instead of as bytes, but for the magic number and what load_super finds behind it.
- Pointers stored in a superblock mean something within one process only, so nothing is said about a later one.
- Overflow of the counters of semaphores and of volume sizes: int is unbounded, except where sem_init, puthex and hex_to_int convert.
- The hardware library, the interrupt tables, the timer, the keyboard, the prompts and the command loop of vm.c, display functions, `quit`.
- The other programs: `context.c` of the kernel is a weaker scheduler without waiting and reaping; `frmt`, `dmps`, `mkhd`, `part`, `mbr`, `dump0` and `tmr` only call what is modelled.
