# Verified models of the systems-programming exercises

A Dafny 4.11 project that models the concurrent and file-processing programs of the
repository whose behaviour is hard to get right, and proves what they guarantee in
every run. `dafny verify dfyconfig.toml` checks it all.

## What is modelled

**The sleeping barber (cw07).** One barber process and any number of client
processes, which share semaphores, a ring buffer of waiting clients and a `chair`
cell. The System V version (`zad1`) and the POSIX version (`zad2`) differ only in how
a client who finds the barber asleep shakes hands with it, so `BarberShop.dfy` is one
transition system that branches on the version at those places. A step is one
semaphore operation or one access to shared memory; a schedule is any sequence of
processes; a process that is scheduled while it is blocked does not move. `kill` adds
a pending signal to a client, `sigsuspend` waits for one and takes it. Two histories,
who was admitted and who was cut, are recorded beside the program state and never
read by it. Any set of process identifiers, any number of chairs and any number of
haircuts is covered.

- `BarberInvariant.dfy`: what every step keeps.
- `BarberTheorems.dfy`: service order, the semaphores' values, one haircut per
  admission, completed runs, and the refinement of the shop of cw07/Zadanie7.
- `BarberProgress.dfy`: from every reachable state the run can be completed.
- `BarberSessions.dfy`: what each process does in order and what alone can hold it up.
- `RingBuffer.dfy`: the ring buffer as a class and the bounded queue it stands for.
- `BarberMachine.dfy`: the programs run in place over the ring buffer; each step is
  proved to be a step of the transition system.

**Readers and writers (cw09).** `Baton*.dfy` is the semaphore version (`zad1b`), in
which the last reader passes a baton to a waiting writer; `Monitor*.dfy` is the
version with a mutex and a condition variable (`zad1a`), in which a sleeper may also
wake without a broadcast, as POSIX.1-2017 allows. Any number of threads; scans and
updates of the table go cell by cell and interleave freely. `Table.dfy` says what a
reader counts and what a writer leaves; the `...Sessions.dfy` files follow one thread
through its loop; the `...Machine.dfy` files run the thread functions in place.

**Sorting and shuffling records in a file (cw02/zad1).** `RecordFile.dfy` is a byte
array with a cursor, and the record level above it. `BubbleSort.dfy` and
`Shuffle.dfy` are the two programs, with two records in memory. `Sorting.dfy` says what
a stable sort is, `Passes.dfy` what the passes do and how many there are, `Sattolo.dfy`
is the theory of the permutations the shuffle can produce.

`Sums.dfy` holds sums over the processes of a system, used in termination measures;
`Threads.dfy` what the two readers-writers models share; `Rounds.dfy` says what it is for
operations to be rounds of a program.

## Where code and documentation differ

- The assignment (cw02/Zadanie2:13) asks for the first byte as an unsigned key; the
  code compares plain `char`. With signed `char` the promised order comes out exactly
  when all first bytes lie on one side of 128 (`Sorting.UnsignedSortIff`), fails
  for 255 before 0 (`Sorting.UnsignedSortCanFail`), and holds for every file the
  generator makes (`Sorting.GeneratedFilesSortAsPromised`).
- The assignment (cw02/Zadanie2:12) asks for a random permutation. The code draws
  `rand()%i` for index i, so exactly the (n-1)! single cycles can come out
  (`Sattolo.OutcomesAreTheCycles`); the identity, for one, cannot
  (`Shuffle.EveryRecordMoves`).

## Model

| member | source | states |
|---|---|---|
| `RingBuffer.PushMeaning` | cw07/zad2/fifo.c:32-41 | a push appends at the back, or changes nothing and returns -1 exactly when the room is full |
| `RingBuffer.PopMeaning` | cw07/zad2/fifo.c:21-30 | a pop takes the front and records it in `chair`, or changes nothing and returns -1 exactly when the room is empty |
| `RingBuffer.EmptyAndFull` | cw07/zad2/fifo.c:11-19 | `head == -1` means empty, `head == tail` means `max` clients, never more |
| `RingBuffer.RingRefinesBoundedQueue` | cw07/zad2/fifo.c:4-41 | for every capacity and every sequence of operations, wrap-around included, the ring answers as a bounded queue does |
| `RingBuffer.Fifo.constructor` | cw07/zad1/fifo.c:4-9 | a new room is empty and has the capacity asked for |
| `RingBuffer.Fifo.IsEmptyFifo` | cw07/zad1/fifo.c:11-14 | 1 exactly when nobody waits |
| `RingBuffer.Fifo.IsFullFifo` | cw07/zad1/fifo.c:16-19 | 1 exactly when `max` clients wait |
| `RingBuffer.Fifo.PopFifo` | cw07/zad1/fifo.c:21-30 | the in-place pop is the pop on values, and removes the longest-waiting client |
| `RingBuffer.Fifo.PushFifo` | cw07/zad1/fifo.c:32-41 | the in-place push is the push on values, and appends unless full |
| `BarberMachine.Premises.constructor` | cw07/zad2/barber.c:106-134 | the initial semaphore values, an empty room and newcomers only |
| `BarberMachine.Premises.Kill` | cw07/zad2/barber.c:96-104 | `cut` sends one signal to the client being cut |
| `BarberMachine.Premises.BarberStep` | cw07/zad2/barber.c:58-94 | the barber's program in place takes exactly the barber's transition, and is blocked exactly when that is |
| `BarberMachine.Premises.TakePlaceStep` | cw07/zad1/breeder.c:124-156 | `takePlace` in place, both handshakes, over the ring buffer, takes exactly the client's transition |
| `BarberMachine.Premises.GetCutStep` | cw07/zad2/breeder.c:99-116 | `getCut` in place takes exactly the client's transition |
| `BarberMachine.Premises.Run` | cw07/zad1/barber.c:57-93 | any interleaving in place ends in the state of the transition system |
| `BarberMachine.OpenShop` | cw07/zad1/breeder.c:97-122 | after any interleaving the admissions are the haircuts, then the chair, then the ring's contents; when all clients have returned, clients times `cutsNumber` haircuts were given |
| `BarberInvariant.InitInv` | cw07/zad1/barber.c:137-145 | the initial semaphore values meet the invariant |
| `BarberInvariant.RunKeepsInv` | cw07/zad2/breeder.c:99-146 | every step of either version keeps the invariant, so every reachable state has it |
| `BarberTheorems.WaitingRoomIsExclusive` | cw07/zad2/breeder.c:102-108 | no two processes are between wait and post on FIFO |
| `BarberTheorems.AdmissionsAreServedInOrder` | cw07/zad2/barber.c:65-74 | admissions equal haircuts, then at most one client in chair or hand, then the queue in order |
| `BarberTheorems.FirstComeFirstServed` | cw07/zad2/breeder.c:118-146 | the k-th admitted is the k-th cut in every continuation, with at most `chairs` ahead |
| `BarberTheorems.ZeroMeansAsleep` | cw07/zad2/breeder.c:119-124 | whenever FIFO is free, BARBER is 0 exactly when the barber sleeps in an empty shop |
| `BarberTheorems.PosixSemaphores` | cw07/zad2/barber.c:61-82 | in the POSIX version the program counters alone fix BARBER and SLOWER |
| `BarberTheorems.SystemVSemaphore` | cw07/zad1/breeder.c:125-143 | in the System V version BARBER stays in 0..2 and its value shows how far the double post has come |
| `BarberTheorems.GoingToSleepNeverBlocks` | cw07/zad2/barber.c:79 | the wait on BARBER that the barber makes while it holds FIFO never blocks, in either version |
| `BarberTheorems.OneHaircutPerAdmission` | cw07/zad2/breeder.c:55-57 | a waiting client is in exactly one place or has one pending signal; nobody else is; signals and haircuts match admissions |
| `BarberTheorems.ReturnedClientsAreServed` | cw07/zad2/breeder.c:99-116 | in every reachable state a client that has returned has `cutsCounter` equal to `cutsNumber`, has been admitted and cut exactly that often, has no signal pending and is nowhere in the shop |
| `BarberTheorems.CompletedRun` | cw07/zad1/breeder.c:97-122 | when all clients have returned each had `cutsNumber` haircuts, clients times `cutsNumber` in all, and the shop is empty |
| `BarberTheorems.StepRefines` | cw07/zad1/barber.c:57-106 | every semaphore-level step of either version is a step of the abstract shop or a stutter |
| `BarberTheorems.BarberShopIsImplemented` | cw07/Zadanie7:14-15 | every run of either version is a run of the shop of the assignment: asleep or awake, one seat, a bounded queue, clients turned away only when it is full |
| `BarberProgress.DeadlockFree` | cw07/zad2/barber.c:61-82 | in every reachable state of either version all is finished or some process can move |
| `BarberProgress.EveryRunCanFinish` | cw07/zad2/breeder.c:99-131 | from every reachable state a continuation lets every client return with `cutsNumber` haircuts and leaves the barber asleep |
| `BarberSessions.ClientBlockedOnlyByOthers` | cw07/zad2/breeder.c:99-131 | in every reachable state a client is blocked exactly when it waits for CHECKER while another client is between wait and post on it, for FIFO while anybody is in the waiting room, for SLOWER until the barber is up, or for the signal while it is in the line |
| `BarberSessions.BarberBlockedOnlyByOthers` | cw07/zad2/barber.c:61-82 | in every reachable state the barber is blocked exactly when it waits for FIFO while a client is in the waiting room, or to be woken in an empty shop that nobody is waking |
| `BarberSessions.AnswerMeans` | cw07/zad2/breeder.c:118-146 | on the way out of the waiting room `takePlace` has answered 1 exactly to the client in the chair, 0 exactly to one in the queue, -1 exactly to one in neither |
| `BarberSessions.ClientsRunTheirLoop` | cw07/zad1/breeder.c:97-156 | in every run the steps of a client, as the shared memory shows them, are rounds of `getCut` with one of its three arrivals, in the order of either version |
| `BarberSessions.TheBarberRunsItsLoop` | cw07/zad1/barber.c:57-106 | in every run the steps of the barber are rounds of `startWork`: woken, the chair, then client after client from the queue, then asleep, in the order of either version |
| `Table.CountNext` | cw09/zad1b/main.c:80-87 | reading one more cell adds one to the count exactly when it is divisible |
| `Table.OneMoreWrite` | cw09/zad1b/main.c:119-124 | of a table overwritten by a sequence of writes: one more write changes its own cell and no other |
| `BatonInvariant.InitInv` | cw09/zad1b/main.c:46-48 | the initial semaphore values meet the invariant |
| `BatonInvariant.RunKeepsInv` | cw09/zad1b/main.c:75-130 | every step of every thread keeps the invariant |
| `BatonTheorems.OneBaton` | cw09/zad1b/main.c:90-116 | `semCheck` + `semWait` + the number of threads holding the baton is always 1 |
| `BatonTheorems.CountersAreExact` | cw09/zad1b/main.c:76-78 | `readers` and `writers` are the numbers of threads in their regions, and at most one writer is announced |
| `BatonTheorems.MutualExclusion` | cw09/zad1b/main.c:108-128 | while a thread may write, no reader is inside and no other thread may write |
| `BatonTheorems.NoLostHandoff` | cw09/zad1b/main.c:90-116 | a writer at or before the wait on `semWait` has a counted reader still to leave, a last reader about to post, or the post made |
| `BatonTheorems.PostedBatonIsAwaited` | cw09/zad1b/main.c:90-96 | `semWait` never exceeds 1, and when it is posted a writer is waiting for it and no reader is inside |
| `BatonTheorems.ReadersArePreferred` | cw09/zad1b/main.c:113-116 | with a reader inside and the baton free, another reader can enter past a waiting writer |
| `BatonTheorems.OnlyWritersChangeTheTable` | cw09/zad1b/main.c:118-124 | the table changes only by an active writer, one cell at a time, to a value in 1..999 |
| `BatonTheorems.TableStaysInRange` | cw09/zad1b/main.c:118-124 | a table that starts with values in 1..999 has such values in every reachable state |
| `BatonTheorems.ScanSeesOneTable` | cw09/zad1b/main.c:80-88 | the table does not change during a reader's scan, and its final count is the number of divisible entries of that table |
| `BatonTheorems.FinishedScanIsExact` | cw09/zad1b/main.c:80-90 | in every reachable state a reader that has scanned and not yet left has the exact count of the table as it is |
| `BatonTheorems.NoThreadIsStuck` | cw09/zad1b/main.c:72-133 | from every reachable state all threads can come back to the heads of their loops |
| `BatonTheorems.DeadlockFree` | cw09/zad1b/main.c:90-96 | some thread can move in every reachable state |
| `BatonSessions.BlockedOnlyByOthers` | cw09/zad1b/main.c:76-116 | in every reachable state a thread is blocked exactly when it waits for `semCheck` while a thread has the baton or it is on its way to a waiting writer, for `semWriter` while another writer has the turn, or for `semWait` while a reader is inside or about to pass the baton |
| `BatonSessions.WriterSession` | cw09/zad1b/main.c:118-126 | however the other threads are interleaved, a writer that drew `roll` makes one update for every ten of `roll % 100` begun, the table is then the old one overwritten by its draws in order, and it goes on to `writers--` |
| `BatonSessions.EveryCellCanBeWritten` | cw09/zad1b/main.c:120-122 | an update can put any value in 1..999 in any cell, and changes no other |
| `BatonSessions.ReadersRunTheirLoop` | cw09/zad1b/main.c:75-99 | in every run the steps of a reader, as the semaphores and counters show them, are rounds of `rFunc`: wait, enter, post, 100 cells, wait, leave, test, post to one of the two semaphores |
| `BatonSessions.WritersRunTheirLoop` | cw09/zad1b/main.c:106-133 | in every run the steps of a writer are rounds of `wFunc`: two waits, announce, test, perhaps post and wait for the baton, 1 to 10 updates, retire, two posts |
| `BatonMachine.Program.ReaderStep` | cw09/zad1b/main.c:75-98 | `rFunc` in place takes exactly the reader's transition |
| `BatonMachine.Program.WriterStep` | cw09/zad1b/main.c:106-132 | `wFunc` in place takes exactly the writer's transition |
| `BatonMachine.Program.Run` | cw09/zad1b/main.c:138-156 | any interleaving in place ends in the state of the transition system |
| `BatonMachine.RunProgram` | cw09/zad1b/main.c:46-62 | after any interleaving of the threads in place: one baton, exact counters, a writing thread excludes all readers inside and other writing threads, a finished scan has the exact count, the table is in range |
| `MonitorInvariant.InitInv` | cw09/zad1a/main.c:17-18 | the initial counters meet the invariant |
| `MonitorInvariant.RunKeepsInv` | cw09/zad1a/main.c:71-128 | every step of every thread, spurious wakeups included, keeps the invariant |
| `MonitorTheorems.CountersAndExclusion` | cw09/zad1a/main.c:104-125 | the three counters are exact, at most one writer is active, and none beside a reader |
| `MonitorTheorems.NoLostWakeup` | cw09/zad1a/main.c:72-77 | whenever the mutex is free, every thread asleep on `cond` still has a true waiting condition |
| `MonitorTheorems.NeverAllAsleep` | cw09/zad1a/main.c:90-93 | when some thread is asleep, another is on its way, neither idle nor asleep |
| `MonitorTheorems.WritersComeFirst` | cw09/zad1a/main.c:73-76 | from a writer's registration until `writersInQueue` is 0 no reader gets in |
| `MonitorTheorems.OnlyWritersChangeTheTable` | cw09/zad1a/main.c:112-118 | the table changes only by an active writer, one cell at a time, to a value in 1..999 |
| `MonitorTheorems.TableStaysInRange` | cw09/zad1a/main.c:112-118 | a table that starts with values in 1..999 has such values in every reachable state |
| `MonitorTheorems.ScanSeesOneTable` | cw09/zad1a/main.c:80-88 | the table does not change during a reader's scan, and its final count is the number of divisible entries of that table |
| `MonitorTheorems.FinishedScanIsExact` | cw09/zad1a/main.c:80-90 | in every reachable state a reader that has scanned and not yet left has the exact count of the table as it is |
| `MonitorTheorems.NoThreadIsStuck` | cw09/zad1a/main.c:71-128 | from every reachable state all threads can come back to the heads of their loops by a continuation in which no sleeper wakes without a broadcast |
| `MonitorSessions.BlockedOnlyByTheOwner` | cw09/zad1a/main.c:72-93 | in every reachable state a thread is blocked exactly when it is about to lock while another is between lock and unlock |
| `MonitorSessions.OnlyBroadcastsWake` | cw09/zad1a/main.c:92 | the step of another thread wakes a sleeper exactly when it is a broadcast, so a broadcast wakes them all |
| `MonitorSessions.ReaderGetsInside` | cw09/zad1a/main.c:72-77 | with the mutex free and no writer registered a reader at the head of its loop needs four steps to be inside, beside all that were |
| `MonitorSessions.WriterRegisters` | cw09/zad1a/main.c:104-107 | with the mutex free a writer at the head of its loop needs three steps to be registered: asleep if anybody is in, else on its way in |
| `MonitorSessions.WriterSession` | cw09/zad1a/main.c:112-121 | however the other threads are interleaved, a writer that drew `roll` makes one update for every ten of `roll % 100` begun, the table is then the old one overwritten by its draws in order, and it goes for the mutex |
| `MonitorSessions.EveryCellCanBeWritten` | cw09/zad1a/main.c:114-116 | an update can put any value in 1..999 in any cell, and changes no other |
| `MonitorSessions.ReadersRunTheirLoop` | cw09/zad1a/main.c:71-96 | in every run the steps of a reader, as the mutex and the counters show them, are rounds of `rFunc`: lock, any number of waits on `cond`, enter, unlock, 100 cells, lock, leave, broadcast, unlock |
| `MonitorSessions.WritersRunTheirLoop` | cw09/zad1a/main.c:103-128 | in every run the steps of a writer are rounds of `wFunc`: lock, register, any number of waits on `cond`, start, unlock, 1 to 10 updates, lock, stop, deregister, broadcast, unlock |
| `MonitorMachine.Program.ReaderStep` | cw09/zad1a/main.c:71-96 | `rFunc` in place takes exactly the reader's transition |
| `MonitorMachine.Program.WriterStep` | cw09/zad1a/main.c:103-128 | `wFunc` in place takes exactly the writer's transition |
| `MonitorMachine.Program.Run` | cw09/zad1a/main.c:133-151 | any interleaving in place ends in the state of the transition system |
| `MonitorMachine.RunProgram` | cw09/zad1a/main.c:44-58 | after any interleaving of the threads in place, spurious wakeups included: exact counters, exclusion, no sleeper whose condition is false while the mutex is free, a finished scan has the exact count, the table is in range |
| `RecordFile.PutMeaning` | cw02/zad1/bsort.c:36-37 | writing one slot changes that record and no other record, and no byte after the last whole slot, wherever the file ends |
| `RecordFile.FileIsDetermined` | cw02/zad1/bsort.c:24-46 | two files of one length with the same records and the same remaining bytes are the same file |
| `RecordFile.OffsetIsProduct` | cw02/zad1/bsort.c:24 | slots laid one after another begin at the seeks `elemNumber * recordSize` |
| `RecordFile.SlotOnBytes` | cw02/zad1/bsort.c:24-26 | the record of a slot is the bytes from `i * recordSize` on, its first byte the one there |
| `RecordFile.File.SeekSlot` | cw02/zad1/bsort.c:24 | the seek to the product puts the cursor at the beginning of the slot |
| `RecordFile.File.ReadSlot` | cw02/zad1/shuffler.c:84-89 | seek and read fetch the record of the slot and report a whole record exactly when the file holds all of it |
| `RecordFile.File.WriteSlot` | cw02/zad1/shuffler.c:42-43 | seek and write replace the record of the slot |
| `BubbleSort.CompareExchange` | cw02/zad1/bsort.c:24-46 | two neighbours change places exactly when the first byte of the first is greater, and no other record or byte changes; a read error exactly when the second is not all there |
| `BubbleSort.InnerLoop` | cw02/zad1/bsort.c:21-49 | the records end as the pass carries the largest along as far as the file goes, with every exchange counted; every other byte is unchanged |
| `BubbleSort.Pass` | cw02/zad1/bsort.c:21-53 | one pass settles one more record, each swap removes one inversion, the most greater records that any record has ahead goes down by one, `change == 0` exactly when there were none; a read error exactly when the file ends within the slots it must read; every other byte is unchanged either way |
| `BubbleSort.SortLoop` | cw02/zad1/bsort.c:20-55 | the loop over passes ends in the stable sort, with as many passes as the input needs |
| `BubbleSort.BSort` | cw02/zad1/bsort.c:7-64 | on bytes, the file becomes the one stable sort of its records by first byte and every other byte is unchanged; swaps equal inversions; there are exactly as many passes as the record with the most greater ones ahead needs and one more, n-1 at most, so comparisons stay within the triangle number; it ends in a read error exactly when two or more records are asked for and the file does not hold them, and then holds exactly what the first pass has carried that far |
| `Sorting.StableSortOnBytes` | cw02/zad1/bsort.c:35-46 | on bytes: the first bytes, as signed chars, ascend; each record stands after exactly those with a smaller first byte and those with the same first byte that were ahead of it; later bytes are unchanged |
| `Sorting.StableSortPlaces` | cw02/zad1/bsort.c:35-46 | the k-th record of the input ends in the slot whose number counts the records that belong before it |
| `Sorting.SortedFirstBytes` | cw02/zad1/bsort.c:35 | sorted by key means that the first bytes ascend as signed chars |
| `Passes.AheadAfterPass` | cw02/zad1/bsort.c:23-49 | a pass takes one greater record from ahead of every record that has any, moving it up by one slot |
| `Passes.PassLowersDepth` | cw02/zad1/bsort.c:23-55 | so a pass takes one off the most that any record has ahead, which is how many passes find something to do |
| `Sorting.StableSortIsUnique` | cw02/zad1/bsort.c:35-46 | the stable sort by first byte of given records is unique |
| `BubbleSort.SortIsDetermined` | cw02/zad1/bsort.c:7-64 | any two outcomes of sorting one file, read error or not, are the same file byte for byte |
| `BubbleSort.SortFileAndCopy` | cw02/zad1/bsort.c:66-128 | sorting a file and a copy of it leaves identical files, whatever the file and the amount asked for, read error or not, so one sort can check the other |
| `Sorting.StableSortPermutes` | cw02/zad1/bsort.c:35-46 | a stable sort is a permutation of the records |
| `Sorting.SwapMeaning` | cw02/zad1/bsort.c:35-46 | exchanging neighbours out of order removes exactly one inversion and keeps equal keys in order |
| `Passes.TriangleFormula` | cw02/zad1/bsort.c:20-55 | the bound on comparisons is n(n-1)/2 |
| `Sorting.UnsignedSortIff` | cw02/Zadanie2:13 | the first bytes of the result ascend as unsigned chars exactly when those of the input lie on one side of 128 |
| `Sorting.UnsignedSortCanFail` | cw02/zad1/bsort.c:35 | a file whose sort by plain char is not sorted by unsigned char |
| `Sorting.GeneratedFilesSortAsPromised` | cw02/zad1/generator.c:29-31 | the first bytes of files made by the generator end up ascending as unsigned chars |
| `Sorting.GeneratedByte` | cw02/zad1/generator.c:30 | the generator yields only 46..84, 65 plus a remainder by 20 with the sign of the raw byte |
| `Sattolo.EveryOutcomeIsOneCycle` | cw02/zad1/shuffler.c:30-53 | whatever is drawn, the permutation is one cycle through all positions |
| `Sattolo.CycleMovesAll` | cw02/zad1/shuffler.c:32 | in a cycle of two or more no position keeps its record |
| `Sattolo.ChoicesCanBeReadBack` | cw02/zad1/shuffler.c:30-32 | different choices give different cycles |
| `Sattolo.EveryCycleIsAnOutcome` | cw02/zad1/shuffler.c:80-82 | every cycle through all positions is produced by some choices |
| `Sattolo.OutcomesAreTheCycles` | cw02/zad1/shuffler.c:80-108 | the outcomes for n+1 records are exactly the cycles on n+1 positions, n! of them |
| `Shuffle.LoopAppliesCycle` | cw02/zad1/shuffler.c:30-53 | the loop from index i down moves slots 0..i along the cycle of its choices and leaves the others |
| `Shuffle.EveryChoiceCanBeDrawn` | cw02/zad1/shuffler.c:32 | every sequence of choices is drawn by some values of `rand()`, all below the number of records |
| `Shuffle.DrawIsRemainder` | cw02/zad1/shuffler.c:32 | the draw for index i is `rand()%i` |
| `Shuffle.ExchangeRecords` | cw02/zad1/shuffler.c:84-108 | one round exchanges two records and no other record or byte; a read error, with the file unchanged, exactly when the slot of the higher index is not all there |
| `Shuffle.ShuffleLoop` | cw02/zad1/shuffler.c:80-113 | the loop over the file does to its records what the loop over records does with the choices drawn |
| `Shuffle.ShuffleRecords` | cw02/zad1/shuffler.c:64-121 | the records are moved along the single cycle that the draws select and every other byte is unchanged; a read error, with the file unchanged, exactly when two or more records are asked for and the file does not hold them |
| `Shuffle.ShuffleOnBytes` | cw02/zad1/shuffler.c:84-108 | on bytes: slot k holds what slot p[k] held, and later bytes are unchanged |
| `Shuffle.LastSlotFirst` | cw02/zad1/shuffler.c:80-108 | the first draw settles the last slot, with the record of slot `rand()%(n-1)`, which gets the last record; the following draws shuffle the other slots in the same way |
| `Shuffle.EveryRecordMoves` | cw02/zad1/shuffler.c:64-121 | with two or more records every slot gets another slot's record |

## Left out

- Process and thread creation, shared-memory and semaphore set-up, clean-up at exit, SIGINT, error exits, messages and timestamps: calls are taken to succeed, and only the initial values remain.
- Process identifiers are positive and distinct, so -1 is free as the empty answer of `popFifo`.
- Eventual service under a fair scheduler: clients who are turned away retry, and each readers-writers version lets one side starve the other by design. What is proved is that no state is a trap.
- Values of `rand()` are inputs of the model; nothing is said about their distribution. `sleep` and `usleep` have no effect.
- The stdio variant `bSortLib` makes the same seeks, reads and writes as `bSortSys`, and so does `ShuffleLib` beside `ShuffleSys` on a file that holds all the records; stdio's buffering is not modelled, so one method stands for both.
- Shuffle.ShuffleRecords: models the read error of `ShuffleLib`; on a file that does not hold all the records, where `ShuffleSys` goes on with what its buffers held before and makes the file longer, it does not model `ShuffleSys`.
- I/O errors other than the end of the file, and `int` overflow of `elemNumber * recordSize`.
- Delivery of several pending signals at once by `sigsuspend`: a client never has more than one pending.
- cw10, cw06, cw08, cw05, cw04, cw03, cw02/zad2 and cw02/zad3: sockets, message queues, plumbing, locks and signal demonstrations.
