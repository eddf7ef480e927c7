# Verified models of libnv's core algorithms

libnv is a C base library and daemon framework. This project models ten of its components in
Dafny and proves what each of them is for, over every input, every run or every reachable state.

| file | component | main results |
|---|---|---|
| `LogRing.dfy` | lock-free multi-producer log ring, DROP and BLOCK, every interleaving | occupancy bound, no text race, unreachable spin timeout, exactly-once in ticket order, conservation |
| `LogProgress.dfy` | the same ring | obstruction freedom: a push or pop that runs alone ends, with the right outcome |
| `LogDrops.dfy` | the same ring | which pushes are dropped: exactly the refused ones; every line accepted as often as offered and not refused |
| `LogOverwrite.dfy` | the same ring under OVERWRITE with overlapping calls | access by access: exactly which steps keep it sound, and order and conservation in all runs without a bad one |
| `OverwriteRuns.dfy` | the same | one run per kind of bad step, from every new ring |
| `OverwriteDrops.dfy` | the same | no line is turned away; the drop counter is refusals plus evictions plus timeouts |
| `LogQueue.dfy` | the same ring as an object, one call at a time, all three policies | refinement of a bounded queue; OVERWRITE keeps the newest lines, DROP and BLOCK the oldest |
| `RedBlack.dfy` | red-black tree with parent pointers, on the heap | insertion keeps every rule and adds exactly one key; logarithmic search |
| `ThreadPool.dfy` | bounded task queue with three condition variables | lost wake-ups counted exactly, graceful and immediate shutdown, acceptance order |
| `PoolAnswers.dfy` | the same pool | OK is answered exactly to the calls whose task was accepted, once each |
| `PoolShutdown.dfy` | the same pool after destroy | shutdown ends within a bound; callers are freed, waiters only under GRACEFUL |
| `PoolRuns.dfy` | the same pool | runs that lose a wake-up and strand a waiter |
| `PubSub.dfy` | publish/subscribe with calls outside the lock | quiescence of unsubscribe and cleanup, exact in-flight counts |
| `PubSubTopics.dfy` | the same bus | a handler runs exactly once per publish of its own topic while its subscription is active |
| `PubSubCleanup.dfy` | the same bus | exactly which late subscriptions cleanup leaves quiet |
| `PubSubDrain.dfy` | the same bus | calls in flight on an inactive subscription only drain; the waits end |
| `Pool.dfy` | bump allocator over blocks | allocations inside their block, aligned, disjoint, exactly if nothing wraps; exact statistics |
| `PoolRoom.dfy` | the same pool | requests within the room of the current block are served in order without memory from the system |
| `Md5.dfy` | MD5 streaming layer over an arbitrary block transform | chunking does not matter, padding leaves no byte and is unambiguous |
| `Crc16.dfy` | CRC-16 with polynomial 0x8408 | byte loop equals the bit-serial checksum; residue; bursts up to 16 bits, odd errors |
| `Crc16Pairs.dfy` | the same | two single-bit errors go undetected exactly at multiples of 32767 bits |
| `Crc16Zeros.dfy` | the same | leading zero bytes go unnoticed exactly at multiples of 32767 |
| `Timers.dfy` | intrusive timer list of the event loop | over any run of calls: list, deadlines and firings as in a value model, `next_timeout` bound and exact minimum |
| `LoadLib.dfy` | `loadlib` configuration lines | printing then parsing is the identity for lines |
| `LoadLibGrammar.dfy` | the same lines | an independent grammar: tokens, directives, skipped and rejected lines, both directions |
| `LoadLibFiles.dfy` | whole files of them | the same for files with any other lines between; long lines; exactly where comment stripper and tokenizer agree |
| `Heap.dfy` | growing binary max-heap | heap order kept, insert-then-drain sorts |
| `Powers.dfy` | powers of two and bit masks | shared arithmetic |

## How the models are built

* Concurrent code is a state machine. `Enabled` and `Apply` give one step per atomic access (log
  ring) or per lock-held region (thread pool, publish/subscribe), `Run` is any finite list of
  steps by any number of threads, and an inductive invariant carries each theorem. Beside the
  machine, a class holds the C structure's fields and each of its methods is proved to be one
  step or a part of one.
* Code that updates memory in place is a class or works on arrays, and its methods are proved
  against specification functions about which the lemmas speak. The red-black tree has real nodes;
  a ghost snapshot of their fields and a zipper (a tree with a hole on the path to the root) say what the links mean.
* Sizes, counters and shifts that can wrap in C wrap in the model where that matters (`size_t` in
  the pool's tests, the split MD5 counter, the ring's unsigned subtraction, the `int` timeout of
  the event loop). Clocks, memory from the system allocator, the path policy and what `fread` delivers are parameters.

## Where the code does less than it says

* `src/base/sys/nv_thread_pool.h:54-55` says that `nv_threadpool_wait_idle` waits until all
  submitted tasks have run. The code waits for an empty queue only: `WaitIdleIsNotCompletion` gives a run, and
  `WaitIdleReturns` shows that all accepted tasks have run exactly when no worker is busy.
* OVERWRITE with overlapping calls is sound exactly as long as no step is bad (`StepSoundIff`, `SoundIffCareful`), and the
  code prevents none of the bad steps: a push with an old tail evicts from an empty ring (`EvictsFromEmptyRing`), a line
  still being written is evicted (`EvictsUnpublished`), and so is one a pop is taking (`OverwriteLosesLine`,
  `LostLineBlocks`); between taking the head and freeing its slot, a ticket holder can run out of spins (`SpinsRunOut`) and a pop
  can take the evicted line (`PopsEvicted`). Runs without these keep order and conservation (`OverwriteConserves`).
* The full test of a push works on a tail that may be old: a push can be refused by an empty ring
  (`RefusedIff`, `RefusedByEmptyRing`).
* A timed `nv_threadpool_add_timeout` that was signalled may still return a timeout, which POSIX allows, and the
  source does not pass the signal on: the pool can stall with a caller asleep beside a free place
  (`StolenWakeupStalls`, `LostIffNotSpared`).
* A caller of `nv_threadpool_wait_idle` that waits while an IMMEDIATE destroy leaves tasks in the
  queue is never released (`WaiterIsStranded`, `WaiterLeavesIffEmpty`); GRACEFUL releases it (`GracefulFreesWaiters`).
* The pool counts the initial block and an auto-extension with their configured size, not the
  rounded one: the constructor's `Sized()` holds exactly when the initial size is a multiple of 8, and `Alloc` says which extension breaks it. A request so large that
  the fit test's sum wraps is granted over memory in use; `Alloc` says that these and only these break the pool (`OnlyWrapsPass`, `WrappedRequestRewinds`).
* Deleting or modifying a timer that is not linked loses the whole timer list (`DelTimer`), a
  deadline of 0 is taken for "none" (`AddTimer`), and a deadline 2^31 ms or more ahead can become
  an endless wait (`WaitTime`, `FarDeadlineWaits`). Adding a timer that is already linked makes the list endless (`Relink`, `NoEnd`).
  A timer that a handler deletes is still visited if it comes next: the pass ends there, and if it is due the whole list is lost (`PassDeleting`).
* An MD5 update of 2^32 bytes or more is counted modulo 2^32 (`HugeUpdateIsNotCounted`, `CounterRightIff`).
* A subscription made while cleanup waits escapes it unless it is unsubscribed (`LateSubscriberEscapes`, `LateQuietIff`), and cleanup can free a
  subscription while an unsubscriber is still inside its wait (`LeftBehind`), which can happen exactly while one is inside (`LeftBehindIff`).
* Inserting a key that is already in the red-black tree leaves the new node unlinked
  (`LinkedIffAbsent`) and the fix-up then reads its null parent (`CrashesIffPresent`); `Insert` reports that as a crash.
* A quote left open in a word without quotes hides a comment sign from the stripper but not from the tokenizer
  (`PlainPathIff`, `OpenRead`), and the tail of a comment longer than the line buffer is read as a line (`CommentTailIsRead`).

## Model

| member | source | states |
|---|---|---|
| `LogRing.InvStep` | src/log/nv_log.c:378-489 | every atomic step of any producer or of the consumer keeps the invariant: window, slot ownership read off `seq`, exclusive tickets, copied prefixes, counters |
| `LogRing.InvRun` | src/log/nv_log.c:378-489 | hence the invariant holds after every interleaving |
| `LogRing.InvInit` | src/log/nv_log.c:551-562 | a freshly initialised ring satisfies the invariant |
| `LogRing.Bounded` | src/log/nv_log.c:386-406 | in every reachable state `dequeue_pos <= enqueue_pos <= dequeue_pos + capacity` |
| `LogRing.PoppedInTicketOrder` | src/log/nv_log.c:386-407 | the popped lines are exactly the first lines by claimed ticket: each once, in order |
| `LogRing.SpinNeverTimesOut` | src/log/nv_log.c:471-484 | a producer that won its CAS always reads its own ticket in the slot; the timeout branch is unreachable |
| `LogRing.SeqIsTicket` | src/log/nv_log.c:464-473 | a ticket holder's slot carries that ticket |
| `LogRing.NoTextRace` | src/log/nv_log.c:398-489 | no slot's text is written while any other thread reads or writes it |
| `LogRing.Conservation` | src/log/nv_log.c:427-489 | with no call in progress, counted pushes = popped + pending + dropped, and the pending slots hold the accepted lines |
| `LogRing.PoppedWasPushed` | src/log/nv_log.c:432-438 | every popped line is, cut to the slot size, a line some producer pushed |
| `LogRing.NotFull` | src/log/nv_log.c:444 | passing the unsigned full test leaves the ticket within one lap of the head |
| `LogRing.LapInjective` | src/log/nv_log.c:392 | two tickets less than a lap apart use different slots |
| `LogRing.ClaimStep` | src/log/nv_log.c:464-468 | winning the CAS takes a free slot inside the window and keeps the invariant |
| `LogRing.PublishStep` | src/log/nv_log.c:489 | storing `seq = pos + 1` turns a held ticket into a published one |
| `LogRing.WriteFrame` | src/log/nv_log.c:486-488 | nobody but its holder depends on the text of a held slot |
| `LogRing.ReleaseStep` | src/log/nv_log.c:403-405 | storing `seq = pos + capacity` keeps the invariant |
| `LogRing.AdvanceStep` | src/log/nv_log.c:406 | advancing the head hands the slot to the ticket one lap on |
| `LogRing.TerminatedText` | src/log/nv_log.c:486-487 | a slot reads back as the line written before its terminator |
| `LogProgress.PushAlone` | src/log/nv_log.c:417-489 | in every state of the invariant, a push running alone ends within a bound, however often its weak compare-exchange fails for no cause: it is accepted under the next ticket and published if the ring has room and the tail it read is not refused, else one drop is counted; a ticket holder publishes |
| `LogProgress.RefusedIff` | src/log/nv_log.c:441-448 | a push that has read the tail is refused iff that tail is a lap ahead of the head or behind it, whatever room there is |
| `LogProgress.RefusedByEmptyRing` | src/log/nv_log.c:441-448 | a run from every new ring in which a push is refused by an empty ring |
| `LogProgress.OutOfDate` | src/log/nv_log.c:441-442 | the run up to there: a producer holds a tail that the head has passed |
| `LogProgress.StepLeft` | src/log/nv_log.c:440-489 | every access of a lone producer brings its call nearer to its end, but for a compare-exchange that fails for no cause, which costs one more round, and leaves head, consumer and other producers alone |
| `LogProgress.FetchAlone` | src/log/nv_log.c:398-407 | from the copy on, a pop takes exactly the line of the head ticket |
| `LogProgress.LookAlone` | src/log/nv_log.c:392-408 | a pop that has seen a line behind the head takes it exactly when it is published |
| `LogProgress.PopAlone` | src/log/nv_log.c:378-408 | a pop running alone takes the head ticket's line exactly when it is published, else changes nothing |
| `LogDrops.SeekOutcome` | src/log/nv_log.c:440-469 | before its claim a push keeps its line and enters the drop branch exactly on a look at the head that refuses it; a compare-exchange that fails, with or without cause, only starts over |
| `LogDrops.DropsIff` | src/log/nv_log.c:441-469 | in terms of head and tail: exactly when the tail read is a lap ahead of the head or behind it |
| `LogDrops.DropsAreRefusals` | src/log/nv_log.c:427-469 | over every run: drops counted or about to be counted are the refused calls plus the refused looks, and attempts are the calls made |
| `LogDrops.AcceptedUnlessRefused` | src/log/nv_log.c:417-489 | with no call open: accepted plus refused are all calls, and the counter holds the refusals |
| `LogDrops.LinesMove` | src/log/nv_log.c:417-469 | line by line over every run: accepted, still sought and turned away add up to what was offered |
| `LogDrops.LinesConserved` | src/log/nv_log.c:417-489 | with no call open: each line has as many tickets as times it was offered and not turned away |
| `LogOverwrite.StepSoundIff` | src/log/nv_log.c:378-489 | one atomic access at a time: a step keeps a sound ring sound iff it is not bad, that is: it does not take a head whose line is missing, unpublished or being taken; no ticket holder uses up its spins while its slot is still to be freed; no pop looks at the slot of an evicted line before it is freed |
| `LogOverwrite.GoodStep` | src/log/nv_log.c:378-489 | every other access of producers, consumer and evicters keeps the whole invariant, with an eviction half done included; a swap that takes the head adds its ticket to the evicted ones, and nothing else does |
| `LogOverwrite.BadStep` | src/log/nv_log.c:378-489 | a bad step leaves no sound ring, however its history is told |
| `LogOverwrite.SwapKeeps` | src/log/nv_log.c:451-453 | taking the head of a line that may be evicted is a pop in no time, but for the slot |
| `LogOverwrite.CountKeeps` | src/log/nv_log.c:456 | counting the drop keeps the account |
| `LogOverwrite.FreeKeeps` | src/log/nv_log.c:457-460 | freeing the slot completes the eviction |
| `LogOverwrite.RecheckTimesOut` | src/log/nv_log.c:472-484 | a holder whose slot is still to be freed gives up a claimed ticket |
| `LogOverwrite.LookTakes` | src/log/nv_log.c:392-396 | a pop that looks too early takes an evicted line |
| `LogOverwrite.SoundIffCareful` | src/log/nv_log.c:378-489 | over every run: the ring is sound in all states iff no step is bad |
| `LogOverwrite.OverwriteConserves` | src/log/nv_log.c:378-489 | in every run without a bad step: occupancy, popped lines once each in ticket order, and those missing are exactly the tickets that the run's successful swaps took, evicted + popped = `dequeue_pos`, no spin timeout, no text race, and with no call open attempts = popped + pending + dropped |
| `LogOverwrite.CarefulEvicts` | src/log/nv_log.c:449-463 | over every run without a bad step: sound, with exactly the tickets of its swaps evicted |
| `LogOverwrite.OvertakenSlot` | src/log/nv_log.c:392-396 | a pop whose head was evicted finds a slot that has moved on, once the slot is freed |
| `OverwriteDrops.EvictsIffFull` | src/log/nv_log.c:444-463 | a push starts an eviction exactly when its look at the head finds the ring full, keeps its line, and is never dropped for it |
| `OverwriteDrops.RunAccepts` | src/log/nv_log.c:440-469 | over every run, sound or not: each line claimed or sought as often as offered |
| `OverwriteDrops.OverwriteAccepts` | src/log/nv_log.c:417-489 | from every new ring with no call open: every line offered has got a ticket, none is turned away |
| `OverwriteDrops.DropsAreLosses` | src/log/nv_log.c:427-484 | over every run: drops counted or about to be counted are refused calls plus evictions plus timeouts |
| `OverwriteRuns.EvictedWhileTaken` | src/log/nv_log.c:450-461 | from every state with a full ring, a pop about to release and a push about to start: the push can be accepted into a slot that then says "free", and the popped line is also counted as dropped |
| `OverwriteRuns.OverwriteLosesLine` | src/log/nv_log.c:403-461 | third part violated: from every new ring, a push evicts the line a pop is taking; an accepted line is lost and conservation fails |
| `OverwriteRuns.EvictsFromEmptyRing` | src/log/nv_log.c:441-461 | first part violated: from every new ring, a push with an old tail evicts from an empty ring and the head passes the tail |
| `OverwriteRuns.EvictsUnpublished` | src/log/nv_log.c:450-488 | second part violated: from every new ring, a push evicts a line still being written, and two producers write one slot at once |
| `OverwriteRuns.SpinsRunOut` | src/log/nv_log.c:451-484 | from every new ring: an eviction that stops before it frees the slot lets the next ticket holder run out of spins; its ticket is claimed, held by nobody and never published |
| `OverwriteRuns.PopsEvicted` | src/log/nv_log.c:392-460 | from every new ring: a pop takes a line whose eviction has not freed the slot yet; the line is popped and counted as dropped, and conservation fails |
| `OverwriteRuns.LostLineBlocks` | src/log/nv_log.c:392-396 | at such a slot a pop finds nothing, again and again |
| `OverwriteRuns.SameUnderOverwrite` | src/log/nv_log.c:444-463 | a run without refusals is the same under every policy, whoever stands still in an eviction |
| `LogQueue.Masks` | src/log/nv_log.c:392 | `pos & mask` is the slot number for every power-of-two capacity |
| `LogQueue.RoundPow2` | src/log/nv_log.c:76-87 | the least power of two in the allowed range that is large enough |
| `LogQueue.Ring.constructor` | src/log/nv_log.c:540-562 | the initialised ring is an empty queue; its capacity is the least allowed power of two that holds the size asked for, or the largest |
| `LogQueue.Ring.Pop` | src/log/nv_log.c:378-408 | removes and returns the oldest line, or nothing when empty |
| `LogQueue.Ring.MakeRoom` | src/log/nv_log.c:440-470 | the retry loop ends, however often the weak compare-exchange fails for no cause; a full ring refuses or evicts exactly its oldest line and counts one drop |
| `LogQueue.Ring.Fill` | src/log/nv_log.c:471-489 | writes and publishes exactly one slot, or drops after the spin limit |
| `LogQueue.Ring.Push` | src/log/nv_log.c:417-489 | refines the bounded queue: missing line, stopped ring, empty line, room, refusal, eviction |
| `LogQueue.ReleaseHead` | src/log/nv_log.c:403-406 | releasing the head slot removes exactly the oldest line |
| `LogQueue.PublishTail` | src/log/nv_log.c:486-489 | publishing the tail slot adds exactly one line at the end |
| `LogQueue.PushKeeps` | src/log/nv_log.c:450-461 | an OVERWRITE push keeps: contents are the newest lines, drops count evictions |
| `LogQueue.PopKeeps` | src/log/nv_log.c:378-408 | so does a pop |
| `LogQueue.OverwriteKeepsNewest` | src/log/nv_log.c:378-489 | after any list of calls under OVERWRITE the queue holds the newest surviving lines in order and drops equal evictions |
| `LogQueue.LevelIs` | src/log/nv_log.c:378-489 | under every policy the ring holds as many lines as counting pushes and pops against the capacity says |
| `LogQueue.RefusingKeepsOldest` | src/log/nv_log.c:444-448 | under DROP and BLOCK what was popped and what is held are, in order, exactly the lines pushed while there was room |
| `LogQueue.Play` | src/log/nv_log.c:378-489 | a new ring driven by any list of calls under any policy does what the queue does, holds the right number of lines, and keeps the newest lines under OVERWRITE and exactly those pushed into room otherwise |
| `RedBlack.Node.constructor` | src/base/data/nv_rb_tree.c:5-16 | a new node is red and unlinked |
| `RedBlack.LeftRotate` | src/base/data/nv_rb_tree.c:21-50 | the stores turn a represented tree, in any context, into its left rotation, parent pointers included |
| `RedBlack.RightRotate` | src/base/data/nv_rb_tree.c:55-84 | the mirror image |
| `RedBlack.LeftZip` | src/base/data/nv_rb_tree.c:21-50 | the rotated links represent the rotated tree with the same nodes |
| `RedBlack.RightZip` | src/base/data/nv_rb_tree.c:55-84 | the mirror image |
| `RedBlack.RotationsKeepOrder` | src/base/data/nv_rb_tree.c:21-84 | rotations keep the in-order key sequence |
| `RedBlack.FixTurn` | src/base/data/nv_rb_tree.c:91-150 | one turn of the repair loop, all six cases, gives the specified subtree at the grandparent |
| `RedBlack.RecolorZip` | src/base/data/nv_rb_tree.c:102-107 | the red-uncle case on links and colours |
| `RedBlack.FixKeepsRules` | src/base/data/nv_rb_tree.c:91-150 | a turn keeps black heights and moves the only red-red violation two levels up or ends it |
| `RedBlack.FixKeepsOrder` | src/base/data/nv_rb_tree.c:91-150 | a turn keeps the in-order key sequence |
| `RedBlack.TurnKeeps` | src/base/data/nv_rb_tree.c:91-150 | both, for the whole tree |
| `RedBlack.PlugRules` | src/base/data/nv_rb_tree.c:91-92 | when the loop stops only the root's colour can be wrong |
| `RedBlack.InsertFix` | src/base/data/nv_rb_tree.c:87-154 | terminates with a black root, no red-red, equal black heights, consistent links and the same keys |
| `RedBlack.InsertBST` | src/base/data/nv_rb_tree.c:157-170 | links the new node at its search position and touches nothing outside; with a key already there it changes nothing at all |
| `RedBlack.LinkedIffAbsent` | src/base/data/nv_rb_tree.c:161-169 | the new node is linked exactly when its key is absent; otherwise the tree is unchanged |
| `RedBlack.CrashesIffPresent` | src/base/data/nv_rb_tree.c:91-92 | after insertBST the first look at the fix-up's loop guard reads a null parent iff the key was present |
| `RedBlack.DuplicateUnchanged` | src/base/data/nv_rb_tree.c:161-169 | with a key already there insertBST stores back what was there |
| `RedBlack.PathRules` | src/base/data/nv_rb_tree.c:157-170 | around the new node the colour and height rules hold |
| `RedBlack.PathSplits` | src/base/data/nv_rb_tree.c:161-167 | the search path splits the keys into the smaller and the larger ones |
| `RedBlack.ReadyToFix` | src/base/data/nv_rb_tree.c:172-179 | after the plain insertion only a red-red at the new node may be wrong, and the key is in its sorted place |
| `RedBlack.Insert` | src/base/data/nv_rb_tree.c:172-181 | every red-black tree and key: the null read happens iff the key is present, with the tree as it was; otherwise the result is a red-black tree with exactly that key added |
| `RedBlack.Build` | src/base/data/nv_rb_tree.c:172-181 | insertions into an empty tree crash iff a key repeats, and else give a red-black tree of exactly these keys |
| `RedBlack.Search` | src/base/data/nv_rb_tree.c:184-192 | returns a node of the tree with the key, or null exactly when the search path lacks it |
| `RedBlack.HasMeansIn` | src/base/data/nv_rb_tree.c:184-192 | in an ordered tree the search path has the key exactly when the tree has |
| `RedBlack.ManyNodes` | src/base/data/nv_rb_tree.c:172-181 | black height b forces at least 2^b - 1 nodes |
| `RedBlack.ShortPaths` | src/base/data/nv_rb_tree.c:184-192 | a search visits at most twice the black height |
| `RedBlack.SearchIsLogarithmic` | src/base/data/nv_rb_tree.c:184-192 | a search in n nodes visits at most 2*log2(n+1) of them and finds exactly the keys present |
| `ThreadPool.InvStep` | src/base/sys/nv_thread_pool.c:52-171 | every lock-held region of any caller, worker, waiter or of destroy keeps the invariant |
| `ThreadPool.InvRun` | src/base/sys/nv_thread_pool.c:52-171 | hence it holds after every run |
| `ThreadPool.NoLostWakeups` | src/base/sys/nv_thread_pool.c:57-147 | before shutdown: a worker asleep means woken workers >= queued tasks; a caller blocked means woken callers + stolen wake-ups >= free places; an idle-waiter waits only on a non-empty queue |
| `ThreadPool.NeverStalls` | src/base/sys/nv_thread_pool.c:57-147 | with a task queued some worker is not asleep; with more places free than wake-ups stolen some caller is not blocked |
| `ThreadPool.CoveredStep` | src/base/sys/nv_thread_pool.c:57-147 | a step leaves one more place uncovered only if a woken timed caller leaves with a timeout |
| `ThreadPool.StealHarmsIff` | src/base/sys/nv_thread_pool.c:85-89 | such a timeout loses a wake-up iff callers sleep and no more are awake than places are free |
| `ThreadPool.LostIffNotSpared` | src/base/sys/nv_thread_pool.c:57-147 | over every run: sleeping callers are covered in all states iff every stolen wake-up can be spared |
| `ThreadPool.UntimedNeverSteals` | src/base/sys/nv_thread_pool.c:52-84 | pools used through add, or add_timeout without a deadline, lose none |
| `PoolRuns.StolenWakeupStalls` | src/base/sys/nv_thread_pool.c:81-101 | a run from a new pool that ends with an empty queue, a sleeping worker and a caller of add asleep beside the free place, where nothing but a new call, destroy or a spurious wake-up can happen |
| `ThreadPool.SignalCovers` | src/base/sys/nv_thread_pool.c:66-69 | one signal per accepted task suffices for the workers |
| `ThreadPool.SignalCoversPlaces` | src/base/sys/nv_thread_pool.c:145-146 | one signal per freed place suffices for the callers |
| `ThreadPool.GracefulRunsEverything` | src/base/sys/nv_thread_pool.c:128-171 | after GRACEFUL destroy has joined, the queue is empty and every accepted task has run exactly once |
| `ThreadPool.ImmediateConserves` | src/base/sys/nv_thread_pool.c:128-171 | after IMMEDIATE, tasks run plus tasks left equal tasks accepted, and the ones left are the last accepted |
| `ThreadPool.FirstInFirstOut` | src/base/sys/nv_thread_pool.c:140-149 | a worker always takes the oldest accepted task not yet taken |
| `ThreadPool.WaitIdleReturns` | src/base/sys/nv_thread_pool.c:107-115 | wait_idle returns on an empty queue; all accepted tasks have then run iff no worker is busy |
| `ThreadPool.WaitIdleIsNotCompletion` | src/base/sys/nv_thread_pool.c:107-115 | a run in which wait_idle has returned and the only task has not finished |
| `ThreadPool.Pool.constructor` | src/base/sys/nv_thread_pool.c:34-47 | a new pool is an initial state of the machine |
| `ThreadPool.Pool.Enqueue` | src/base/sys/nv_thread_pool.c:3-9 | appends to the circular queue, or refuses exactly when full |
| `ThreadPool.Pool.Dequeue` | src/base/sys/nv_thread_pool.c:11-17 | removes the front of the circular queue, or refuses exactly when empty |
| `ThreadPool.Pool.Add` | src/base/sys/nv_thread_pool.c:52-105 | the lock-held part of add is the machine's caller step |
| `ThreadPool.Pool.TimeOut` | src/base/sys/nv_thread_pool.c:86-89 | the return on ETIMEDOUT is the machine's step |
| `ThreadPool.Pool.LookIdle` | src/base/sys/nv_thread_pool.c:109-113 | a look of wait_idle is the machine's step |
| `ThreadPool.Pool.Take` | src/base/sys/nv_thread_pool.c:122-149 | the lock-held part of a worker's turn is the machine's worker step and yields the task of its ticket |
| `ThreadPool.Pool.Close` | src/base/sys/nv_thread_pool.c:162-167 | the lock-held part of destroy is the machine's destroy step |
| `ThreadPool.Create` | src/base/sys/nv_thread_pool.c:19-50 | no pool exactly for a non-positive argument or missing memory |
| `PoolAnswers.TurnAnswers` | src/base/sys/nv_thread_pool.c:57-71 | a turn answers OK iff the pool is open and has room iff the task is accepted, shutdown iff the pool is closed, and never a timeout |
| `PoolAnswers.OkIffAccepted` | src/base/sys/nv_thread_pool.c:52-105 | over every run from a new pool: calls answered OK and accepted tasks match one to one, each ticket with the task of its own call; shutdown only once closed, a timeout only to a timed call |
| `PoolAnswers.NoOkAfterDestroy` | src/base/sys/nv_thread_pool.c:60-63 | after destroy nothing is accepted and nobody is told OK who was not told before |
| `PoolAnswers.ClosedAsAsked` | src/base/sys/nv_thread_pool.c:162-167 | the pool is closing in a mode iff the run has destroyed it in that mode |
| `PoolShutdown.WorkShrinks` | src/base/sys/nv_thread_pool.c:128-149 | after shutdown no step adds work and every worker step uses some up |
| `PoolShutdown.ShutdownEnds` | src/base/sys/nv_thread_pool.c:159-171 | after destroy's flag workers take at most 2 * queued + 2 * threads steps, and none can move exactly when all have left |
| `PoolShutdown.QueuedTaskCanMove` | src/base/sys/nv_thread_pool.c:124-149 | before shutdown, with a task queued, some worker step is enabled |
| `PoolShutdown.ShutdownFreesCallers` | src/base/sys/nv_thread_pool.c:57-63 | no caller of add sleeps after shutdown; each can leave with an answer at once |
| `PoolShutdown.WaiterLeavesIffEmpty` | src/base/sys/nv_thread_pool.c:107-131 | after IMMEDIATE, in every state from then on, a caller of wait_idle that has not returned leaves iff the queue is empty |
| `PoolRuns.WaiterIsStranded` | src/base/sys/nv_thread_pool.c:107-131 | a run from a new pool after which IMMEDIATE has let all workers go, a task is left and a caller of wait_idle sleeps |
| `PoolShutdown.ImmediateStrandsWaiters` | src/base/sys/nv_thread_pool.c:107-131 | after IMMEDIATE the queue never changes; with tasks left, no waiter is ever released |
| `PoolShutdown.GracefulFreesWaiters` | src/base/sys/nv_thread_pool.c:107-143 | once GRACEFUL has let all workers go, every waiter is released or will be by its next turn |
| `PubSub.InvStep` | src/core/bus/nv_core_pubsub.c:294-427 | every lock-held region and handler call keeps the invariant |
| `PubSub.InvRun` | src/core/bus/nv_core_pubsub.c:294-427 | hence it holds after every run with any number of publishers |
| `PubSub.CallsAreCounted` | src/core/bus/nv_core_pubsub.c:344-378 | `sub->calls` always equals the number of undischarged call records that refer to it |
| `PubSub.NoLostWakeups` | src/core/bus/nv_core_pubsub.c:315-320 | nobody sleeps on a count that is already zero |
| `PubSub.QuietStays` | src/core/bus/nv_core_pubsub.c:315-378 | an inactive subscription without calls stays so in every continuation |
| `PubSub.UnsubscribeQuiesces` | src/core/bus/nv_core_pubsub.c:307-324 | once unsubscribe has returned, the handler is not running and is never called again |
| `PubSub.CleanupQuiesces` | src/core/bus/nv_core_pubsub.c:421-427 | when the sweep ends, all subscriptions of its start are inactive with no calls at the same moment and can never be called |
| `PubSubCleanup.LateQuietIff` | src/core/bus/nv_core_pubsub.c:294-298 | a subscription made while cleanup waits is inactive at its end iff some unsubscribe of it has had a turn, and quiet iff moreover no call of it is in flight |
| `PubSubCleanup.CleanupReachesAll` | src/core/bus/nv_core_pubsub.c:421-427 | cleanup reaches all but the subscriptions made while it waited; with none of these all are quiet |
| `PubSubCleanup.LateSubscriberEscapes` | src/core/bus/nv_core_pubsub.c:421-438 | a run in which a subscription made while cleanup waits for a call is still active when cleanup is over |
| `PubSub.SnapshotOnce` | src/core/bus/nv_core_pubsub.c:358-367 | the snapshot holds every matching active subscription exactly once, and nothing else (what matches is in `PubSubTopics.PublishReaches`) |
| `PubSub.SweepStep` | src/core/bus/nv_core_pubsub.c:421-429 | the lock-held stretch of cleanup retires what it visits, passes subscriptions without calls, waits at the first with calls, and keeps the invariant |
| `PubSub.Bus.constructor` | src/core/bus/nv_core_pubsub.c:259-261 | an empty bus is an initial state |
| `PubSub.Bus.Add` | src/core/bus/nv_core_pubsub.c:268-305 | subscribe is the machine's step and returns the new subscription |
| `PubSub.Bus.CountMatches` | src/core/bus/nv_core_pubsub.c:345-349 | counts the matching subscriptions |
| `PubSub.Bus.Fill` | src/core/bus/nv_core_pubsub.c:358-367 | records them newest first and raises each count by one |
| `PubSub.Bus.Snapshot` | src/core/bus/nv_core_pubsub.c:344-369 | the lock-held part of publish is the machine's step |
| `PubSub.Bus.Finished` | src/core/bus/nv_core_pubsub.c:374-377 | discharging a call is the machine's step |
| `PubSub.Bus.Walk` | src/core/bus/nv_core_pubsub.c:422-427 | the visiting loop |
| `PubSub.Bus.Sweep` | src/core/bus/nv_core_pubsub.c:421-429 | a lock-held stretch of cleanup is the machine's step |
| `PubSub.Bus.Leave` | src/core/bus/nv_core_pubsub.c:315-320 | a pass of unsubscribe waits exactly while calls are in flight |
| `PubSubTopics.PublishReaches` | src/core/bus/nv_core_pubsub.c:344-369 | a publish gives exactly one record to each active subscription with that very topic, raises its count by one, and leaves every other subscription and publisher as it was |
| `PubSubTopics.NewestFirst` | src/core/bus/nv_core_pubsub.c:358-367 | the records are in order of subscription, newest first |
| `PubSubTopics.TopicsAsSubscribed` | src/core/bus/nv_core_pubsub.c:268-305 | over every run the subscriptions are those made, in order, each with its topic |
| `PubSubTopics.ActiveUntilRetired` | src/core/bus/nv_core_pubsub.c:286-427 | over every run a subscription is active exactly from its subscribe until an unsubscribe of it has a turn or cleanup visits it |
| `PubSubTopics.HearsItsTopic` | src/core/bus/nv_core_pubsub.c:344-378 | over every run: calls in flight plus discharged equal those at the start plus the publishes of its own topic while it was active |
| `PubSubTopics.InvokedOnce` | src/core/bus/nv_core_pubsub.c:371-378 | over every run: every call record enters the handler exactly once before it is discharged |
| `PubSubTopics.HandlerRunsPerPublish` | src/core/bus/nv_core_pubsub.c:326-384 | from an empty bus, with no call in flight: the handler has run exactly once per publish of its topic while active |
| `PubSubDrain.StepDrains` | src/core/bus/nv_core_pubsub.c:344-378 | no step gives an inactive subscription a new call |
| `PubSubDrain.InactiveDrains` | src/core/bus/nv_core_pubsub.c:315-378 | over any run, calls in flight plus calls discharged equal the calls in flight at its start |
| `PubSubDrain.UnsubscribeReturns` | src/core/bus/nv_core_pubsub.c:315-320 | once those calls are discharged the unsubscriber is awake, and its next turn returns if cleanup has not ended |
| `PubSubDrain.LeftBehind` | src/core/bus/nv_core_pubsub.c:421-441 | a run from an empty bus after which cleanup has freed the subscriptions with an unsubscriber still inside its wait |
| `PubSubDrain.LeftBehindIff` | src/core/bus/nv_core_pubsub.c:421-441 | in every state before its end: cleanup can end with an unsubscriber still inside, without a further unsubscribe call, iff one is inside now |
| `PubSubDrain.CleanupCanEnd` | src/core/bus/nv_core_pubsub.c:421-441 | in every state cleanup can be brought to its end by steps of publishers and cleanup alone, with the same unsubscribers back as before |
| `PubSubDrain.BackStays` | src/core/bus/nv_core_pubsub.c:307-324 | nobody is left behind if all unsubscribe calls are back when cleanup begins and none is made after |
| `PubSubDrain.PublisherCanMove` | src/core/bus/nv_core_pubsub.c:371-378 | while a call is in flight, the publisher that owes it can move |
| `Pool.AlignSizeExact` | src/base/nv_pool.c:609-611 | rounding gives the next multiple of 8 when the sum does not wrap |
| `Pool.AlignSizeRightIff` | src/base/nv_pool.c:609-611 | it covers the request iff the sum does not wrap; otherwise it is 0 |
| `Pool.FitTestExact` | src/base/nv_pool.c:119-130 | the fit test agrees with real room iff its sum does not wrap |
| `Pool.WrappedRequestRewinds` | src/base/nv_pool.c:119-130 | a request that wraps is granted and moves the mark back over memory in use |
| `Pool.BumpExact` | src/base/nv_pool.c:585-597 | a block that passes the test is bumped by exactly the size |
| `Pool.HandOut` | src/base/nv_pool.c:585-597 | handing out bytes at a block's mark keeps all ranges inside blocks, aligned and pairwise disjoint |
| `Pool.FreshIsApart` | src/base/nv_pool.c:585-597 | nothing handed out before reaches into the new range |
| `Pool.InsertBlock` | src/base/nv_pool.c:147-170 | adding a block of new memory keeps all that |
| `Pool.MemoryPool.constructor` | src/base/nv_pool.c:27-68 | a new pool is valid and accounted, with the rounded initial block first and current; it counts the configured size, which is exact iff a multiple of 8 |
| `Pool.Create` | src/base/nv_pool.c:27-68 | the configuration taken over, the default one with its numbers, failing allocations, the first block, and the exactness of the initial total |
| `Pool.MemoryPool.TakeFrom` | src/base/nv_pool.c:120-123 | bumps one block in size_t arithmetic and counts the allocation; sound where the test did not wrap and the size is what the caller needs |
| `Pool.MemoryPool.OnlyWrapsPass` | src/base/nv_pool.c:119-130 | if the fit test wraps in some block, only blocks where it wraps pass it |
| `Pool.MemoryPool.Pick` | src/base/nv_pool.c:118-139 | the current block if it passes the test, else the first that does |
| `Pool.MemoryPool.Grant` | src/base/nv_pool.c:119-136 | what is granted from a block that passes is sound iff no test wraps and the rounding is right |
| `Pool.MemoryPool.FindFit` | src/base/nv_pool.c:128-139 | the first block that passes the test |
| `Pool.MemoryPool.PushBlock` | src/base/nv_pool.c:145-154 | the new block is first and current; totals stay exact iff asked for in multiples of 8 |
| `Pool.MemoryPool.PushLarge` | src/base/nv_pool.c:167-181 | a block of its own for a large request, used up by it |
| `Pool.MemoryPool.GrowBlock` | src/base/nv_pool.c:142-161 | the extension: a block of the larger of request and `min_size`, rounded, in front and current, its first bytes given to the request, and nothing else moved |
| `Pool.MemoryPool.WantedIff` | src/base/nv_pool.c:142-168 | no block is made exactly for a request within `max_size` of a pool that must not extend or has `min_size` above `max_size`; else its size |
| `Pool.MemoryPool.Grow` | src/base/nv_pool.c:141-186 | extends, makes a large block, or fails exactly when neither applies or memory is missing; the whole block list, the large list and the current block afterwards; the total stays exact iff no `min_size` that is not a multiple of 8 is counted |
| `Pool.MemoryPool.Place` | src/base/nv_pool.c:118-186 | current block, else first fit, else a new block as in `Grow`; sound iff nothing wraps; a failure changes nothing |
| `Pool.MemoryPool.Alloc` | src/base/nv_pool.c:107-187 | for every size_t: NULL iff size 0 or nothing passes and no block can be made, never NULL with auto-extend, min <= max and memory; everything handed out lies inside a block, aligned and disjoint, iff the rounding and the fit tests do not wrap; then also which block, or the new block and where it is put, exact used and free, and total exact iff no extension counts a `min_size` that is not a multiple of 8 |
| `Pool.MemoryPool.Align` | src/base/nv_pool.c:255-267 | for every size_t and power of two: an aligned range of the requested size inside its own allocation, in a pool still sound, iff no sum wraps; NULL exactly as for the padded request |
| `Pool.MemoryPool.WrappedPadding` | src/base/nv_pool.c:257 | a padded size that wraps falls short of the request |
| `Pool.RoundsUp` | src/base/nv_pool.c:262 | masking with `~(alignment - 1)` gives the next aligned address |
| `Pool.MemoryPool.Free` | src/base/nv_pool.c:270-307 | succeeds iff the pointer lies in a block, counts it, gives nothing back |
| `Pool.MemoryPool.Reset` | src/base/nv_pool.c:310-342 | keeps every block in its place, empties all, the first is current, statistics exact |
| `Pool.EmptyEach` | src/base/nv_pool.c:318-331 | empties every block of a list and keeps its memory |
| `Pool.MemoryPool.Extend` | src/base/nv_pool.c:345-370 | adds a rounded block in front as current, or fails exactly on size 0 or missing memory and changes nothing |
| `Pool.FindBlock` | src/base/nv_pool.c:277-287 | the block that contains a pointer, if any |
| `PoolRoom.RoomMeansNoWrap` | src/base/nv_pool.c:119-130 | a request that one block has room for wraps the fit test of no other |
| `PoolRoom.ServeOne` | src/base/nv_pool.c:118-125 | a request within the room of the current block is given its next bytes, without memory from the system |
| `PoolRoom.Serve` | src/base/nv_pool.c:118-125 | any requests that fit there together are served in order, one behind the other, and nothing else moves |
| `PoolRoom.ExtendThenServe` | src/base/nv_pool.c:118-161 | after an extension the rest of the larger of request and `min_size` serves the next requests without further memory |
| `PoolRoom.NewPoolServes` | src/base/nv_pool.c:27-125 | a new pool serves requests up to its rounded initial size from its first block |
| `PoolRoom.ResetThenServe` | src/base/nv_pool.c:118-342 | a reset pool hands out its first block again from the start |
| `Md5.Context.constructor` | src/base/algo/nv_md5.c:40-46 | nothing absorbed, the four initial words, counters 0 |
| `Md5.Context.AddLength` | src/base/algo/nv_md5.c:100-102 | the split counter adds eight times the 32-bit length modulo 2^64 |
| `Md5.CounterAdds` | src/base/algo/nv_md5.c:100-102 | the two words with carry are one 64-bit sum |
| `Md5.Context.Blocks` | src/base/algo/nv_md5.c:110-111 | folds all whole blocks and leaves fewer than 64 bytes |
| `Md5.Context.Absorb` | src/base/algo/nv_md5.c:104-118 | state and buffer become those of buffered tail plus input |
| `Md5.Context.Update` | src/base/algo/nv_md5.c:96-119 | state, live buffer prefix and counter depend only on the concatenation |
| `Md5.Context.Final` | src/base/algo/nv_md5.c:122-137 | the digest is the fold of the padded message with the counted length |
| `Md5.FoldAppend` | src/base/algo/nv_md5.c:96-119 | folding in two pieces is folding at once |
| `Md5.PaddingFillsBlocks` | src/base/algo/nv_md5.c:129-133 | padding makes a multiple of 64 and leaves no byte unprocessed |
| `Md5.PaddedInjective` | src/base/algo/nv_md5.c:126-133 | no two messages or bit counts are padded alike |
| `Md5.LengthFieldHolds` | src/base/algo/nv_md5.c:126-127 | the eight length bytes are the bit count, its high half first |
| `Md5.DigestHoldsState` | src/base/algo/nv_md5.c:135-136 | bytes 4k to 4k + 3 of the digest, low byte first, are word k of the state |
| `Md5.LittleEndianValue` | src/base/algo/nv_md5.c:135-136 | for one word |
| `Md5.HashChunks` | src/base/algo/nv_md5.c:96-137 | any updates hash as their concatenation; with the true length if each is under 2^32 bytes |
| `Md5.HashString` | src/base/algo/nv_md5.c:140-150 | the digest of the bytes before the NUL |
| `Md5.HashFile` | src/base/algo/nv_md5.c:157-189 | the digest of the file's bytes however reads were cut, or failure |
| `Md5.ChunkingIsIrrelevant` | src/base/algo/nv_md5.c:140-181 | two cuttings of the same bytes, and one string of NUL-free bytes, give the same digest |
| `Md5.CounterRightIff` | src/base/algo/nv_md5.c:100-102 | the length field is right iff the whole multiples of 2^32 bytes inside the updates, which the counter does not see, are a multiple of 2^29 |
| `Md5.HugeUpdateIsNotCounted` | src/base/algo/nv_md5.c:100-102 | an update of 2^32 bytes leaves the counter at zero |
| `Crc16.ShiftOnce` | src/base/algo/nv_crc16.c:17-26 | one turn of the inner loop is one shift of the register |
| `Crc16.ShiftTimes` | src/base/algo/nv_crc16.c:17-26 | the inner loop is that many shifts |
| `Crc16.ShiftWordBits` | src/base/algo/nv_crc16.c:19-25 | on bits |
| `Crc16.PolyBits` | src/base/algo/nv_crc16.c:21 | 0x8408 is x^16 + x^12 + x^5 + 1, reflected |
| `Crc16.Byte` | src/base/algo/nv_crc16.c:15-26 | a byte xored in and shifted through is its eight bits fed one by one |
| `Crc16.FeedAhead` | src/base/algo/nv_crc16.c:15-26 | message bits may be xored in ahead of the shifts |
| `Crc16.Compute` | src/base/algo/nv_crc16.c:6-30 | the byte loop computes the bit-serial checksum of the message |
| `Crc16.CrcSnoc` | src/base/algo/nv_crc16.c:13-27 | one more byte feeds eight more bits |
| `Crc16.FeedAllLinear` | src/base/algo/nv_crc16.c:13-27 | the checksum is linear in register and message |
| `Crc16.AppendedChecksumIsZero` | src/base/algo/nv_crc16.c:6-30 | a message followed by its checksum, low byte first, has checksum 0 |
| `Crc16.DetectsBursts` | src/base/algo/nv_crc16.c:6-30 | different streams that differ only within 16 consecutive bits never collide |
| `Crc16.DetectsTwoBytes` | src/base/algo/nv_crc16.c:6-30 | different messages of any length that differ only in one byte and the next never collide |
| `Crc16.DetectsOddErrors` | src/base/algo/nv_crc16.c:6-30 | messages that differ in an odd number of bits never collide |
| `Crc16.OddFeedAll` | src/base/algo/nv_crc16.c:13-27 | the parity of the checksum is that of start value and message |
| `Crc16Pairs.PairUndetectedIff` | src/base/algo/nv_crc16.c:6-30 | streams that differ in exactly two bits collide iff these are a multiple of 32767 bits apart |
| `Crc16Pairs.DetectsTwoBits` | src/base/algo/nv_crc16.c:6-30 | messages that differ in exactly two bits less than 32767 bits apart never collide |
| `Crc16Pairs.ShiftPeriod` | src/base/algo/nv_crc16.c:17-26 | the register with its lowest bit set comes back to itself exactly after multiples of 32767 shifts |
| `Crc16Pairs.PeriodIff` | src/base/algo/nv_crc16.c:17-26 | because x has order 32767 = 7 * 31 * 151 modulo the polynomial |
| `Crc16Pairs.UpDoubles` | src/base/algo/nv_crc16.c:17-26 | squaring doubles the number of shifts |
| `Crc16Zeros.LeadingZerosIff` | src/base/algo/nv_crc16.c:6-30 | zero bytes in front of any message leave its checksum as it is iff they are a multiple of 32767 |
| `Crc16Zeros.OnesPeriod` | src/base/algo/nv_crc16.c:8-26 | the preset of all ones comes back to itself exactly after multiples of 32767 shifts |
| `Crc16Zeros.FixedIsOdd` | src/base/algo/nv_crc16.c:17-26 | a register that a shift leaves alone is zero or has an odd number of bits set |
| `Crc16Zeros.EmptyMessage` | src/base/algo/nv_crc16.c:8 | the checksum of the empty message has every bit set |
| `Timers.Timer.constructor` | src/event/nv_loop.c:542-543 | an unlinked timer |
| `Timers.Loop.constructor` | src/event/nv_loop.c:32-110 | no timers |
| `Timers.Loop.Link` | src/event/nv_loop.c:515-526 | the doubly linked list gains the timer in front |
| `Timers.Loop.Relink` | src/event/nv_loop.c:515-526 | adding a timer that is already linked closes a ring that the head leads into |
| `Timers.NoEnd` | src/event/nv_loop.c:467-487 | no walk along next in such a ring ends |
| `Timers.Loop.Splice` | src/event/nv_loop.c:529-544 | exactly the neighbours' links change |
| `Timers.Loop.Unlink` | src/event/nv_loop.c:529-544 | removes exactly that timer; an unlinked one takes the whole list with it |
| `Timers.Loop.AddTimer` | src/event/nv_loop.c:321-341 | linked with its deadline; `next_timeout` stays a non-zero lower bound iff the deadline is not 0 |
| `Timers.Loop.DelTimer` | src/event/nv_loop.c:344-351 | removes a linked timer and no other, clears its links, keeps the bound |
| `Timers.Loop.ModifyTimer` | src/event/nv_loop.c:585-604 | moves the timer to the front with its new deadline, keeps the bound iff it is not 0 |
| `Timers.Loop.WaitTime` | src/event/nv_loop.c:191-201 | -1, 0 or the difference modulo 2^32 as an int, which ends exactly at `next_timeout` if that is less than 2^31 ms ahead; the wait never passes the earliest deadline iff the conversion to int keeps the sign |
| `Timers.FarDeadlineWaits` | src/event/nv_loop.c:194-201 | a loop with one timer waits for ever iff its timeout modulo 2^32 is 2^31 ms or more |
| `Timers.LoneTimer` | src/event/nv_loop.c:321-490 | a timer fires in the first pass at or after now + timeout (modulo 2^64), in none before and in none after |
| `Timers.Loop.ProcessQuietly` | src/event/nv_loop.c:463-490 | a pass whose handlers add nothing leaves exactly the timers not due, and all deadlines |
| `Timers.Loop.Trigger` | src/event/nv_loop.c:472 | a handler that adds unlinked timers only grows the front of the list |
| `Timers.Loop.Fire` | src/event/nv_loop.c:472-477 | fires once, counts, and removes the fired timer alone |
| `Timers.Loop.Visit` | src/event/nv_loop.c:467-479 | a turn of the pass handles one timer of the list at its start |
| `Timers.Loop.FireDue` | src/event/nv_loop.c:467-479 | fires exactly the due timers, in order, once each; the others and the added ones stay |
| `Timers.Loop.Recompute` | src/event/nv_loop.c:482-487 | `next_timeout` is the exact minimum unless some deadline is 0 |
| `Timers.Loop.Process` | src/event/nv_loop.c:463-490 | both, for the whole pass; `timers_processed` grows by the number fired |
| `Timers.Step` | src/event/nv_loop.c:321-604 | one call of add, delete, modify or process takes list, every deadline, `next_timeout` and the firings to those of the value model `Play`, in which a pass fires exactly the timers linked at its start and due by the deadlines of that moment; links, flags and the bound are kept, and after a pass `next_timeout` is the exact minimum |
| `Timers.Drive` | src/event/nv_loop.c:321-604 | so over any list of calls from any sound state: list, deadlines, `next_timeout` and all firings are those of the model run `After`, handlers' additions included; `next_timeout` stays a non-zero lower bound and is the exact minimum after a pass |
| `Timers.LeastIsMinimum` | src/event/nv_loop.c:482-487 | the recomputation gives the least deadline of the list when none is 0 |
| `Timers.AddReqsFront` | src/event/nv_loop.c:321-341 | the additions of a handler go in front, keep the list free of repeats and leave the deadlines of linked timers alone |
| `Timers.VisitKeepsPass` | src/event/nv_loop.c:467-479 | a visit in the model takes a pass one timer further: kept timers, timers to come and firings are those of the list and deadlines at its start |
| `Timers.RemoveIs` | src/event/nv_loop.c:529-544 | taking a timer out by name is taking out its place |
| `Timers.Loop.PassDeleting` | src/event/nv_loop.c:467-479 | a handler deletes the timer after its own: the walk visits the deleted timer and ends there; if that one is due it fires and the whole list is lost, else the others stay unvisited |
| `Timers.Loop.VisitDeleting` | src/event/nv_loop.c:468-477 | the turn itself: both timers leave the list and the walk goes on at the deleted one, whose links are null |
| `Timers.PickPartitions` | src/event/nv_loop.c:467-479 | due and not due split the list: nothing lost, nothing doubled |
| `LoadLib.StripComment` | src/core/loadlib/nv_core_loadlib.c:36-59 | the line in the buffer becomes its stripped text |
| `LoadLib.Trim` | src/core/loadlib/nv_core_loadlib.c:16-34 | the returned position holds the text without surrounding spaces |
| `LoadLib.ParseToken` | src/core/loadlib/nv_core_loadlib.c:61-105 | return code, buffer and cursor report the next token; nothing moves unless it is OK |
| `LoadLib.CopyQuoted` | src/core/loadlib/nv_core_loadlib.c:79-92 | the quoted loop, escapes, full buffer and missing quote included |
| `LoadLib.CopyBare` | src/core/loadlib/nv_core_loadlib.c:94-99 | the loop for a token without quotes |
| `LoadLib.HasKeyword` | src/core/loadlib/nv_core_loadlib.c:283-286 | the keyword test |
| `LoadLib.ParseFields` | src/core/loadlib/nv_core_loadlib.c:288-310 | path, optional arguments, nothing after them |
| `LoadLib.ParseLine` | src/core/loadlib/nv_core_loadlib.c:278-310 | a line is skipped, rejected or a directive as its text says (the texts are in `LoadLibGrammar.LineMeans`) |
| `LoadLib.ParseConfig` | src/core/loadlib/nv_core_loadlib.c:247-320 | nothing after startup, an empty list without a file, else what the line loop makes of it (in terms of lines: `LoadLibFiles.FileLoads`) |
| `LoadLib.ParseFile` | src/core/loadlib/nv_core_loadlib.c:270-316 | the libraries of a file in order, with their resolved paths, up to the first failing line |
| `LoadLib.ReadText` | src/core/loadlib/nv_core_loadlib.c:270 | what a line read with a NUL in it is taken for |
| `LoadLib.StripQuote` | src/core/loadlib/nv_core_loadlib.c:41-58 | the stripper passes over every quoted string, whatever it holds |
| `LoadLib.StripRender` | src/core/loadlib/nv_core_loadlib.c:36-59 | stripping a printed line removes exactly its comment |
| `LoadLib.StripThrough` | src/core/loadlib/nv_core_loadlib.c:41-58 | stripping goes through a string and on with the flags it leaves |
| `LoadLib.QuotedEscaped` | src/core/loadlib/nv_core_loadlib.c:79-92 | the tokenizer undoes the printer's escapes, or fails exactly when the string does not fit |
| `LoadLib.TokenQuote` | src/core/loadlib/nv_core_loadlib.c:61-105 | so for the whole token, leaving exactly the rest of the line |
| `LoadLib.StripField` | src/core/loadlib/nv_core_loadlib.c:41-58 | so over a plain word |
| `LoadLib.TokenField` | src/core/loadlib/nv_core_loadlib.c:61-105 | a quoted string or plain word is the next token, and exactly the rest is left |
| `LoadLib.LineRoundTrip` | src/core/loadlib/nv_core_loadlib.c:278-310 | a printed directive, its strings quoted or plain, its arguments present or missing, with any spaces and comment, parses to exactly its path and arguments iff the path is not empty and both fit, and is rejected otherwise |
| `LoadLibGrammar.TokenSound` | src/core/loadlib/nv_core_loadlib.c:61-105 | a text written by the grammar as a token, with any escapes, is read as that token if it fits, else refused |
| `LoadLibGrammar.TokenComplete` | src/core/loadlib/nv_core_loadlib.c:61-105 | every text is blank, a token, or an open quote, which is refused |
| `LoadLibGrammar.TokenIff` | src/core/loadlib/nv_core_loadlib.c:61-105 | the tokenizer returns a value and a rest iff the grammar derives them, and declines iff the text is blank |
| `LoadLibGrammar.FieldsIff` | src/core/loadlib/nv_core_loadlib.c:288-310 | path and arguments are read iff the text is one token that is not empty, perhaps a second, and spaces; everything else is rejected |
| `LoadLibGrammar.ThirdTokenRejected` | src/core/loadlib/nv_core_loadlib.c:304-309 | a third token is refused, whatever it is |
| `LoadLibGrammar.TrimIsCore` | src/core/loadlib/nv_core_loadlib.c:16-34 | trimming gives the text without the spaces around it, and there is only one such text |
| `LoadLibGrammar.StripIs` | src/core/loadlib/nv_core_loadlib.c:36-59 | stripping cuts at the first semicolon outside quotes and nowhere else |
| `LoadLibGrammar.LineMeans` | src/core/loadlib/nv_core_loadlib.c:278-310 | any line: skipped iff its text does not start with the word loadlib, a directive iff what follows is one by the grammar, else rejected |
| `LoadLibGrammar.SpacesAre` | src/core/loadlib/nv_core_loadlib.c:23 | the six characters that count as space |
| `LoadLibFiles.FileRoundTrip` | src/core/loadlib/nv_core_loadlib.c:247-320 | every file of printed directives and any other lines that fit the line buffer: the directives are read back in order, the other lines passed over |
| `LoadLibFiles.OtherLine` | src/core/loadlib/nv_core_loadlib.c:278-287 | every line that fits the buffer and does not start with the word loadlib is passed over, NULs, quotes and comments in it or not |
| `LoadLibFiles.FileLoads` | src/core/loadlib/nv_core_loadlib.c:247-320 | such a file loads the libraries of the lines before the first that does not fit or resolve, and succeeds iff there is none |
| `LoadLibFiles.LongLine` | src/core/loadlib/nv_core_loadlib.c:270 | of a longer line the first 1023 characters are a line and the rest a fresh one |
| `LoadLibFiles.CommentTailIsRead` | src/core/loadlib/nv_core_loadlib.c:270 | so what follows the first 1023 characters of a comment is read |
| `LoadLibFiles.StripAgreesIff` | src/core/loadlib/nv_core_loadlib.c:41-58 | the stripper passes over a word and goes on as from the start iff its quotes are closed and no `;` stands outside them |
| `LoadLibFiles.PlainPathIff` | src/core/loadlib/nv_core_loadlib.c:278-310 | a path without quotes around it is read back before every comment iff it is balanced so |
| `LoadLibFiles.OpenRead` | src/core/loadlib/nv_core_loadlib.c:278-310 | after an open quote in a word the comment is read as the arguments |
| `Heap.UpStep` | src/base/data/nv_heap.c:42-53 | a swap with the parent moves the only violation up |
| `Heap.DownStep` | src/base/data/nv_heap.c:56-72 | a swap with the larger child moves the only violation down |
| `Heap.RootIsMax` | src/base/data/nv_heap.c:33-39 | the root of an ordered heap is a largest element |
| `Heap.IntHeap.constructor` | src/base/data/nv_heap.c:13-19 | an empty heap |
| `Heap.IntHeap.SiftUp` | src/base/data/nv_heap.c:42-53 | restores the order and keeps the multiset |
| `Heap.IntHeap.SiftDown` | src/base/data/nv_heap.c:56-72 | restores the order and keeps the multiset |
| `Heap.IntHeap.Grow` | src/base/data/nv_heap.c:76-79 | twice the capacity, same contents |
| `Heap.IntHeap.Insert` | src/base/data/nv_heap.c:75-83 | adds exactly one element, keeps the order, and doubles the array exactly when it is full |
| `Heap.IntHeap.Remove` | src/base/data/nv_heap.c:86-96 | takes out one largest element, or reports an empty heap |
| `Heap.DrainStep` | src/base/data/nv_heap.c:86-96 | taking a largest remaining element keeps the output descending |
| `Heap.Drain` | src/base/data/nv_heap.c:75-96 | inserting any sequence and removing until empty gives the same multiset in non-increasing order |

## Left out

- Weak memory: the ring's atomics are sequentially consistent steps; the orderings named in the source are not modelled.
- The ring's 64-bit tickets do not wrap; the unsigned subtraction of the full test does.
- LogOverwrite.OverwriteConserves: the capacity is at least 2, as the source's minimum of 64 implies.
- LogDrops.DropsIff: the tail read is less than 2^64 - capacity tickets old; `SeekOutcome` has no such bound.
- LogProgress.RefusedIff: the tail read is less than 2^64 - capacity tickets old.
- The log consumer's write loop, signalling, formatting, files, rotation and syslog: I/O.
- The red-black in-order printer: output only.
- Failing `malloc` and `calloc` in publish/subscribe, tree and heap.
- ThreadPool.Create: does not model a thread that could not be started, which the source does not notice.
- Thread pool: destroy is called once; freeing after the join is not modelled. A caller that wakes without a signal and then times out counts as one that was signalled.
- Fairness: progress is stated as bounded work and enabled steps, not over infinite runs.
- LogProgress.PushAlone: a producer among others may retry without bound, as in the source; only a lone one is bounded.
- Publish/subscribe over sockets, the payload and its length limit, lazy initialisation, and freeing the subscriptions.
- PubSub.CleanupQuiesces: a handler that unsubscribes itself waits for ever in the source and appears as a run that does not go on.
- Pool.MemoryPool.Align: the alignment is a power of two, as the mask demands.
- Pool.MemoryPool.constructor: the choice of the configuration and failing allocations are in `Pool.Create`; a configured `min_size` is not within 7 bytes of the word's end.
- `nv_pool_realloc`, `nv_pool_reset_stats`, `nv_pool_shrink`, `nv_pool_compact`: the first two break the invariants, the others do nothing; zeroing, dumping and iterating are output or bookkeeping.
- The pool's `size_t` statistics and the heap's `int` capacity are unbounded numbers.
- The pool's block lists are sequences of values; their `next` pointers are not modelled.
- The MD5 transform is an arbitrary function, and nothing is claimed about RFC 1321; hexadecimal output is formatting.
- Timers.Loop.Process: handlers add timers that are not linked and do nothing else to the list; `PassDeleting` says what one that deletes the next timer does, and one that adds the timer being fired corrupts the list in the source.
- Timers.Loop.AddTimer: takes a timer that is not linked; `Relink` and `NoEnd` say what happens to one that is.
- Timers.Loop.Trigger: handlers only add timers that are not linked, and so for Fire, Visit and FireDue.
- Timers.Loop.DelTimer: takes a timer that is in the list or has null links, which are the two states the list operations leave it in.
- Descriptor, signal, idle and priority events of the loop, and its statistics other than fired timers.
- LoadLib.ParseConfig: the path policy is a parameter that refuses or returns the path to load; logging is not modelled.
- LoadLibFiles.FileRoundTrip: lines of at most 1023 characters; `LongLine` says what longer ones become.
- Heap.IntHeap.Remove: the source ends the process on an empty heap; the model returns nothing.
- Base64, JSON, XML, SQLite, lists, stacks, queues, sets, graphs, hash tables, dictionaries, TCP and UDP buffers, sockets, serial and bus devices, CLI, telnet, worker supervision: routine or system calls beside the components above.
