# Verified models of the real-time labs and the motor controller

The repository holds a series of VxWorks exercises and a semestral project that drives a stepper motor over
a network and plots its history. This project models the parts of it whose correctness is not visible in any
single function, and proves what they promise. `dafny verify dfyconfig.toml` checks the whole project.

| File | What it models |
|---|---|
| `HistoryRing.dfy` | the lock-free cyclic history: one writer, any number of readers, every array store, array read and index update a step of its own; window and ring sizes are symbolic |
| `MotorHistory.dfy` | the same history as a class over four arrays, the endless writer loop and its 32-bit clock arithmetic |
| `SvgDocument.dfy`, `SvgPlot.dfy`, `SvgGenerator.dfy`, `WebPage.dfy` | the SVG emitter as a class that prints tokens, a reader that checks the markup and renders it, what a plot shows, and the page with its three plots |
| `Diggers.dfy` | diggers, shovels and soil of labs 2 and 3: any number of tasks, two counting semaphores, a mutex, timeouts, deferred deletion |
| `Registry.dfy` | the shared company registry of lab 3 and its initialisation by whichever process comes first |
| `PointerChase.dfy` | the random cycle of lab 5, in place on arrays, and the timed walk along it |
| `Quadrature.dfy`, `Controller.dfy`, `StepperMotor.dfy` | the encoder decoder, the saturating controller, the packed PWM register and the driver object |
| `MotorProtocol.dfy` | interrupt handler, motor task and UDP receiver as interleaved steps |
| `Timespec.dfy` | carry and borrow of `timespec`, and the running maximum of lab 4 |
| `Bits.dfy`, `Division.dfy`, `Options.dfy` | shifts, xor, or, division by a variable, optional values |

Concurrent parts are state machines: `Enabled` and `Apply` give the steps, `Inv` an invariant, `StepKeeps`
its preservation, and `After(..., events)` the state after an arbitrary interleaving. History variables
(fields that no step looks at) record what the theorems talk about. Code that runs without interference has
the source's own form: loops over arrays, and methods that update the fields of an object.

What the proofs show about the code beyond its documentation:

- The gap of C - N slots protects a copied window from C - N writes, but a sample that the writer is in the
  middle of when the reader reads the start index counts as one of them. `BoundIsExact` gives, for all sizes
  and every entry k, a run with one sample in flight and (C - N) + k later ones in which the entries before k
  are intact and entry k is wrong; `ColumnIsFromWindow` says for every single read which record the value comes from.
- The motor task computes the duty before it disables interrupts. An interrupt in between sets the right duty,
  which the task then overwrites with the one for the position before the interrupt, and nothing wakes it up
  again: `RestsOffSetPoint` is a run that ends with the shaft one step off its set-point, the motor off and
  nothing pending. `RestsAtSetPoint` says for all runs exactly when the motor stands still at rest, in terms of
  the net movement in that window, and `StaleDuty` what any interrupts in it leave behind.
- Labels and colors are printed without escaping. A plot is nested whatever they are, and well formed if they
  contain no markup, as those of `generate_html_file` do not; with a bracket for a label it is not
  (`BracketLabelBreaks`).
- `timespec_subtract` sets its sign flag although the difference is zero exactly if the arguments are the same
  instant in different forms and either y has more nanoseconds than x or x has exactly 10^9 more than y.
  lab4_priority_inheritance_kernel_module/utils.h:20-22 promises otherwise; for normalised arguments it holds.
- The motor is driven one percent harder backwards than forwards for the distances 28..159 that are not
  multiples of 16, because the shift of a negative product rounds down.
- The digger protocol has no deadlock but one: there are only upper diggers, all waiting for soil, and the heap
  is empty. `DeadlockIsReachable` is a run that gets there. Without any digger there is of course nothing to do.
- The test before the command I looks at the number of lower diggers: it refuses an upper digger when fifty
  lower ones live (`LowerDiggersCanBe`) and bounds the number of upper diggers by nothing (`UpperDiggersCanBe`).
- If the process that creates the registry fails to size or map it (`CreationCanFail`), no later process ever
  initialises it (`BrokenForEver`), and every later company finds it full (`LaterCompanyFindsNoSlot`).

## Model

| member | source | states |
|---|---|---|
| HistoryRing.StepKeeps | semestral_project/src/statistics_updater.c:24-30 | every step of the writer and of every reader keeps the invariant: each column holds the last C records up to the last one stored, each reader is at its place in the window it opened |
| HistoryRing.AfterKeeps | semestral_project/src/svg_generator.c:28-37 | the invariant holds after every interleaving of writer and readers, for all N < C |
| HistoryRing.CopiedEntryIsIntact | semestral_project/src/svg_generator.c:28-37 | in any run, the k-th copied entry is the k-th of the last N samples at the moment the start index was read, as long as at most (C - N) + k samples were begun since then, one in flight included |
| HistoryRing.FinishedCopyIsWindow | semestral_project/src/svg_generator.c:30-37 | a reader whose loop test fails has copied exactly N entries, and they are the whole window if at most C - N samples were begun meanwhile |
| HistoryRing.LoopTest | semestral_project/src/svg_generator.c:30-31 | from any start index the modular loop test first fails after exactly N turns |
| HistoryRing.ColumnIsFromWindow | semestral_project/src/svg_generator.c:30-36 | in any run, column j of entry k is read from the latest record whose column j is in that slot, and that is the record of the window the reader opened if and only if column j was stored at most (C - N) + k times since |
| HistoryRing.BoundIsExact | semestral_project/include/shared.h:15-18 | for all sizes and every k there is a run in which a sample is in flight when the start index is read and (C - N) + k further ones follow, and which leaves the first k entries intact and corrupts entry k |
| HistoryRing.SampledKeeps | semestral_project/src/statistics_updater.c:24-30 | the six single steps of one undisturbed turn of the writer lead to the state with one more sample published, and the invariant holds there |
| MotorHistory.History.constructor | semestral_project/src/shared.c:10-12 | a zeroed history stands for no samples and N zero records |
| MotorHistory.History.Append | semestral_project/src/statistics_updater.c:24-30 | the five assignments to four arrays and the index together append one record to a growing sequence |
| MotorHistory.SlotContents | semestral_project/src/statistics_updater.c:24-30 | after any number of samples the N slots from the start index are the last N of N zero records followed by all samples, in all four arrays |
| MotorHistory.History.CopyEntry | semestral_project/src/svg_generator.c:32-36 | one turn of the copy moves all four columns of one slot and touches nothing else |
| MotorHistory.History.CopySlots | semestral_project/src/svg_generator.c:28-37 | the copying loop ends, stays in bounds and unrolls the ring in order |
| MotorHistory.History.CopyWindow | semestral_project/src/svg_generator.c:22-37 | the four local arrays become the four columns of the last N samples, oldest first |
| MotorHistory.UpdateStatistics | semestral_project/src/statistics_updater.c:15-33 | any number of turns appends one record a turn, with the desired position, position and duty that this turn has read, each in its own column, and with its stamp |
| MotorHistory.ElapsedIsExact | semestral_project/src/statistics_updater.c:16-22 | the accumulated 32-bit differences never exceed the true elapsed ticks, over any number of counter wraps, and equal them if and only if every gap is below 2^32 ticks |
| MotorHistory.StampIsMilliseconds | semestral_project/src/statistics_updater.c:28 | 64-bit product, division and 32-bit store give the floor of the milliseconds as long as that floor fits 32 bits |
| MotorHistory.StampAt | semestral_project/src/statistics_updater.c:16-28 | every stored stamp is the true elapsed time in milliseconds |
| MotorHistory.WindowIsSorted | semestral_project/src/svg_generator.c:322 | every window, zero records included, is ordered by time, which is what the plotter assumes of its x values |
| SvgDocument.NoRepair | semestral_project/src/svg_generator.c:51-184 | tags that are malformed, and given markup, stay so whatever is printed after them |
| SvgDocument.PrefixIsSound | semestral_project/src/svg_generator.c:51-184 | a reader that follows a nested document while it is printed never meets a malformed tag or an element closed out of order |
| SvgDocument.BracketBreaks | semestral_project/src/svg_generator.c:284-285 | in any nested document of the generator, a single bracket as a text puts a bracket in front of white space or of another bracket in the printed characters |
| SvgDocument.LiteralIsPlain | semestral_project/src/svg_generator.c:364-378 | no attribute value that is spelled out in the generator contains markup |
| SvgGenerator.MaxMin | semestral_project/src/svg_generator.c:307-317 | both results occur in the data and bound all of it |
| SvgGenerator.Context.Opta | semestral_project/src/svg_generator.c:98-116 | adds an attribute that the tag does not have yet; the document stays free of given markup if and only if the value is |
| SvgGenerator.Context.OptStroke | semestral_project/src/svg_generator.c:122-127 | adds the three stroke attributes and leaves the tag open |
| SvgGenerator.Context.OptEndOf | semestral_project/src/svg_generator.c:68-70 | ends a start tag, leaving its element open unless it closes itself; a finished line tag draws its segment |
| SvgGenerator.Context.TagEndOf | semestral_project/src/svg_generator.c:182-184 | closes the innermost open element, whose name it must bear |
| SvgGenerator.Context.SvgLine | semestral_project/src/svg_generator.c:194-204 | the reader sees one more segment, where all open transforms put it, and no element left open |
| SvgGenerator.Context.SvgArrow | semestral_project/src/svg_generator.c:214-225 | the same for an arrow |
| SvgGenerator.Context.SvgPathData | semestral_project/src/svg_generator.c:234-247 | for any number of points, the path data are one subpath, begun by a moveto, that joins exactly the given points in order, where cordx, cordy and all open transforms put them |
| SvgGenerator.Context.SvgRect | semestral_project/src/svg_generator.c:257-266 | a complete element without repeated attributes that draws one box with the given corner and size |
| SvgGenerator.Context.SvgText | semestral_project/src/svg_generator.c:275-286 | a complete element without repeated attributes that shows exactly the given text; the document stays free of given markup if and only if the text is |
| SvgGenerator.Context.RotatedNumber | semestral_project/src/svg_generator.c:391-402 | a complete group element that shows exactly the given number |
| SvgGenerator.Context.Begin | semestral_project/src/svg_generator.c:371-377 | exactly the root element is open after the marker definition |
| SvgPlot.ExactGrid | semestral_project/src/svg_generator.c:385 | in exact arithmetic a grid loop visits exactly the nine tenths of a positive span, and nothing for any other span |
| SvgGenerator.ExactLoopsEnd | semestral_project/src/svg_generator.c:408 | so both grid loops end for all data |
| SvgGenerator.Context.VerticalLines | semestral_project/src/svg_generator.c:381-403 | for any rounding, factor and span, the loop draws one vertical line for every value it visits, where the factor puts it and with that value as a number, and leaves no element open |
| SvgGenerator.Context.HorizontalLines | semestral_project/src/svg_generator.c:404-415 | the same for the horizontal lines |
| SvgPlot.CurvePlace | semestral_project/src/svg_generator.c:423-428 | translate, scale and translate compose to the flip of the y axis and the shift into the frame (section 7.6 of SVG 1.1) |
| SvgPlot.CurveIsPlotted | semestral_project/src/svg_generator.c:417-434 | the curve's route through cordx, cordy and the group transform equals the direct formula of the grid lines for every point and all factors |
| SvgGenerator.Context.DrawCurve | semestral_project/src/svg_generator.c:417-442 | for any data and factors, adds every data point where the grid's formula puts it and restores the identity mapping |
| SvgGenerator.Context.DrawAxes | semestral_project/src/svg_generator.c:443-514 | adds exactly the two axes, their captions and the numbers of the four extremes |
| SvgGenerator.SvgDrawToFileXy | semestral_project/src/svg_generator.c:329-517 | for any data, any color and labels, any number of points and any arithmetic in which the grid loops end, with any number of lines, the output is properly nested; if color and labels contain no markup it is well formed; it shows grid, axes, numbers, captions and every data point in its place; nothing is printed for no points |
| SvgGenerator.BracketLabelBreaks | semestral_project/src/svg_generator.c:284 | with a bracket for a label the printed plot is not well formed |
| SvgPlot.PlotStaysInFrame | semestral_project/src/svg_generator.c:341-346 | in exact arithmetic, with spans that are not zero and ordered x, every point lies in [50,950] x [50,250]; exactly the extreme values lie on the sides |
| SvgPlot.PointsMeetGrid | semestral_project/src/svg_generator.c:385-411 | a data point with the value of a grid line lies on that line, whatever the factors |
| SvgPlot.GridIsTrue | semestral_project/src/svg_generator.c:385-411 | in exact arithmetic the nine lines divide the frame into tenths |
| SvgPlot.PlotIsLinear | semestral_project/src/svg_generator.c:373-374 | in exact arithmetic equal differences of values take equal lengths everywhere in the frame |
| SvgPlot.PictureIsComplete | semestral_project/src/svg_generator.c:378-505 | a plot adds one curve through all data points in their order, one line for each grid value and the two axes, and no other line |
| SvgPlot.PictureIsLabelled | semestral_project/src/svg_generator.c:393-514 | a plot prints the number of every grid line, the four extremes and the captions, in this order |
| SvgPlot.TruncateRoundsToZero | semestral_project/src/svg_generator.c:393 | numbers are rounded toward zero |
| SvgPlot.AxesCross | semestral_project/src/svg_generator.c:471-505 | the axes cross where both values are least, and reach beyond the frame |
| WebPage.DrawColumn | semestral_project/src/svg_generator.c:40-42 | one plot shows one column of the window over its stamps and leaves the page well formed, for any window; it stays inside its frame, in exact arithmetic, if the column varies and the stamps are in order and not all the same |
| WebPage.DrawColumns | semestral_project/src/svg_generator.c:40-42 | the three plots follow each other in the order actual, desired, duty, each with its caption |
| WebPage.GenerateHtmlFile | semestral_project/src/svg_generator.c:22-43 | for any window, flat or disordered too, and any arithmetic in which the grid loops end, the page stays well formed and is three complete plots: actual position, desired position and duty of the last N samples, every point in its place |
| WebPage.ServeCopied | semestral_project/src/svg_generator.c:22-43 | a page drawn from what a reader has copied while the writer kept going is well formed, and shows the window of the moment at which it read the start index if at most C - N samples were begun meanwhile |
| WebPage.PageShowsRecords | semestral_project/src/svg_generator.c:32-42 | the three curves of the page are the position, the desired position and the duty of the records over their stamps, in this order, each with its caption |
| WebPage.RecordAndServe | semestral_project/src/statistics_updater.c:15-33 | from power-up on, the page shows what the last N turns of any run of the writer have read, each value in its own column, well formed in exact arithmetic; if the samples came often enough and the time fits 32 bits, its stamps are in order, so every column that varies lies in its frame unless all stamps are the same |
| Diggers.StepKeeps | lab3_real_time_processes/company.c:22-129 | every step of a digger, of the command task and of other processes keeps conservation of shovels and soil, ownership of the mutex, and the id arrays in step with the living tasks |
| Diggers.AfterKeeps | lab2_mutex_semaphore/task2.c:21-120 | the invariant holds after every interleaving, for both labs |
| Diggers.ShovelsAreConserved | lab3_real_time_processes/company.c:22-61 | free shovels plus diggers holding one are always three, so at most three work at once |
| Diggers.SoilIsConserved | lab3_real_time_processes/company.c:31-56 | loads dug are on the heap, carried, finished or lost; losses never exceed upper deletions; the shared counter never exceeds the loads dug and counts every finished load |
| Diggers.EndReturnsAllShovels | lab2_mutex_semaphore/task2.c:104-115 | once E has gone through both id arrays nobody is left, all three shovels are back, and every load dug is on the heap, finished or lost |
| Diggers.AnyoneLeaves | lab3_real_time_processes/company.c:26-57 | from every state of any run every digger can leave its safe section within eighteen steps of diggers and lock holders, none a timeout |
| Diggers.DeletionCompletes | lab3_real_time_processes/company.c:104-115 | so a deferred deletion can always complete within nineteen steps |
| Diggers.EndCompletes | lab2_mutex_semaphore/task2.c:104-115 | given in any reachable state, E can always come to its end in a bounded number of steps, whatever the diggers hold: nobody is left and all shovels are back |
| Diggers.ReleaseCompletes | lab3_real_time_processes/company.c:116-123 | given in any reachable state, E of lab 3 can come to its end in at most seven steps, with the counter zero and the mutex free |
| Diggers.YoungestIsDeleted | lab3_real_time_processes/company.c:104-115 | whenever o or O deletes, it deletes the youngest live digger of its kind and nobody else |
| Diggers.LoadCanBeFinished | lab3_real_time_processes/company.c:43-58 | from every reachable state with a live upper digger and a load on the heap or in its hands, at most 38 steps without a timeout lead to exactly one more finished load, which lab 3 also counts |
| Diggers.TimeoutCanCome | lab3_real_time_processes/company.c:43-46 | an upper digger that can get at a load is at most two steps from a timeout |
| Diggers.TimeoutReturnsSoil | lab3_real_time_processes/company.c:46-50 | a timeout hands the soil back and changes nothing else |
| Diggers.LowerDiggersAreBounded | lab3_real_time_processes/company.c:94-98 | there are never more than 50 live lower diggers |
| Diggers.LowerDiggersCanBe | lab3_real_time_processes/company.c:94-103 | any number of live lower diggers up to fifty is reached, and diggers of both kinds are accepted below fifty and refused at fifty |
| Diggers.UpperDiggersCanBe | lab3_real_time_processes/company.c:99-103 | any number of live upper diggers is reached |
| Diggers.LockHolderMoves | lab3_real_time_processes/company.c:53-55 | whoever holds the mutex waits for nothing |
| Diggers.StuckExactly | lab3_real_time_processes/company.c:22-61 | in every run some digger or lock holder can move other than by a timeout if and only if it is not the case that the mutex is free and all diggers, if any, are upper diggers waiting at an empty heap |
| Diggers.DeadlockIsReachable | lab3_real_time_processes/company.c:104-109 | a run ends with an upper digger waiting for ever, the only lower digger having been deleted before it dug |
| Diggers.NoDeadlockWithLowerDigger | lab3_real_time_processes/company.c:22-37 | while a lower digger lives there is no deadlock |
| Diggers.HolderFinishes | lab3_real_time_processes/company.c:29-56 | a shovel holder not kept from the mutex digs a load or frees the shovel within five steps of its own |
| Diggers.ShovelCanBeFreed | lab3_real_time_processes/company.c:45-56 | with all shovels taken, at most six steps free one or dig a load |
| Diggers.AnotherLoadCanBeDug | lab3_real_time_processes/company.c:22-37 | from every reachable state with a live lower digger, unless the process has begun to end, at most eleven steps without a timeout lead to another load being dug |
| Registry.StepKeeps | lab3_real_time_processes/shm.c:17-93 | every step of any process keeps mutual exclusion, the life cycle of the shared object, and the agreement of its slots with their owners |
| Registry.AfterKeeps | lab3_real_time_processes/monitor.c:14-35 | the invariant holds after every interleaving of companies, monitors and failures |
| Registry.SlotsAreNotShared | lab3_real_time_processes/shm.c:81-90 | two processes that have claimed and not released a slot have different ones, each showing its owner's name |
| Registry.ScanIsFirstFit | lab3_real_time_processes/shm.c:82-88 | in any run the scan claims the lowest empty slot, and fails if and only if there is none |
| Registry.CompanyGetsSlot | lab3_real_time_processes/shm.c:37-90 | in any run, a company that arrives at an initialised registry that is not full comes to own the lowest empty slot, which shows its name and zero; no other slot changes |
| Registry.InitialisedOnce | lab3_real_time_processes/shm.c:26-73 | the object is initialised at most once, before any claim, and by the time anyone has attached if and only if its creator did not fail; otherwise nobody ever owns a slot |
| Registry.FirstProcessInitialises | lab3_real_time_processes/shm.c:26-73 | the first process, undisturbed, leaves an initialised registry with fifty empty slots and free mutex |
| Registry.CreationCanFail | lab3_real_time_processes/shm.c:45-49 | a run in which the creator fails to size the object |
| Registry.BrokenForEver | lab3_real_time_processes/shm.c:28-73 | after any such run, whatever any processes do next, the object is never initialised |
| Registry.LaterCompanyFindsNoSlot | lab3_real_time_processes/shm.c:37-90 | however long after, every company that arrives scans all fifty slots in vain |
| Registry.FullMeansAllOwned | lab3_real_time_processes/shm.c:82-90 | an initialised registry is full only if every slot is owned by a process |
| Registry.EmptySlotsAreClean | lab3_real_time_processes/company.c:118-121 | in every run an empty slot has counter zero, so whoever claims it starts to count at zero, whatever its former owners did |
| Registry.OwnedSlotCounts | lab3_real_time_processes/company.c:53-55 | in any run a slot keeps its owner's name, and its counter changes only by one when its owner counts a load and to zero when its owner releases it |
| Registry.OwnerCounts | lab3_real_time_processes/company.c:53-55 | an owner that takes the free mutex counts one load and changes nothing else |
| Registry.SectionEnds | lab3_real_time_processes/shm.c:26-73 | in every run whoever holds the mutex, at any point of any critical section, gives it back after at most 54 steps of its own |
| Registry.CompanyRegistry.constructor | lab3_real_time_processes/shm.c:67-70 | all 50 slots are empty and zero |
| Registry.CompanyRegistry.Claim | lab3_real_time_processes/shm.c:82-90 | the loop finds the first empty slot, changes only its name and mark, and returns 50 with nothing changed if there is none |
| Registry.CompanyRegistry.Release | lab3_real_time_processes/company.c:119-120 | only the given slot changes: empty, counter zero |
| Registry.ReleaseUndoesClaim | lab3_real_time_processes/company.c:118-121 | a claim moves the first empty slot up, a release moves it back to the same slot |
| PointerChase.RandPairBijection | lab5_cache_memory_influences/main.c:7-13 | combining two 15-bit random values yields every value below 2^30 for exactly one pair, and nothing else |
| PointerChase.LongRandReaches | lab5_cache_memory_influences/main.c:7-13 | every index below max is a possible result for max up to 2^30 |
| PointerChase.LongRandFolds | lab5_cache_memory_influences/main.c:9 | two pairs of random values give the same index if and only if their combined values differ by a multiple of max |
| PointerChase.ShuffledIsPermutation | lab5_cache_memory_influences/main.c:31-36 | whatever the random numbers, the swap loop leaves a permutation |
| PointerChase.EveryPermutationIsReachable | lab5_cache_memory_influences/main.c:28-36 | every permutation is the result of the shuffle for some outcomes of rand |
| PointerChase.FillIdentity | lab5_cache_memory_influences/main.c:28-30 | the index array starts as the identity |
| PointerChase.ShuffledExchanges | lab5_cache_memory_influences/main.c:31-36 | turn m exchanges the entries m and draws[m], whichever is larger, and leaves all others |
| PointerChase.ShuffleInPlace | lab5_cache_memory_influences/main.c:31-36 | the in-place loop goes from 0..n-1 to its result by exactly these exchanges, one a turn, and touches only the first n entries |
| PointerChase.LinkInOrder | lab5_cache_memory_influences/main.c:37-42 | the first n elements become one cycle in the order of the permutation |
| PointerChase.SeqArray | lab5_cache_memory_influences/main.c:16-22 | the same cycle specification with the identity order |
| PointerChase.RanArray | lab5_cache_memory_influences/main.c:25-43 | the index array ends as these exchanges leave it, and the links form one cycle through exactly the first n elements in that order; the rest is untouched |
| PointerChase.WalkAlongCycle | lab5_cache_memory_influences/main.c:37-42 | k links from the j-th element of the order lead to the ((j + k) mod n)-th |
| PointerChase.FirstReturn | lab5_cache_memory_influences/main.c:37-42 | the first return to any element is after exactly n links |
| PointerChase.HitsAreBalanced | lab5_cache_memory_influences/main.c:49 | a walk of m positions round n places stands on each place floor(m/n) or ceil(m/n) times |
| PointerChase.TrailIsBalanced | lab5_cache_memory_influences/main.c:45-53 | so does a walk along the links of any such cycle for its elements |
| PointerChase.Measurement | lab5_cache_memory_influences/main.c:45-53 | the timed loop follows links through exactly `jumps` positions counting the start and visits all elements evenly |
| PointerChase.MeasureSize | lab5_cache_memory_influences/main.c:62-68 | the walk stays in the first n elements, is balanced over them, and goes round them in index order in one mode and in shuffled order in the other; the result is the clock difference mod 2^32 per jump |
| PointerChase.MeasureCache | lab5_cache_memory_influences/main.c:55-72 | one such measurement and one result for each size 256, 512, ... that fits the array and no other; none for an unknown mode |
| Quadrature.TableIsTransition | semestral_project/src/stepper_motor.c:18-30 | the table is the step of the Gray phase: one on, one back, or nothing |
| Quadrature.TransitionIsPhaseStep | semestral_project/src/stepper_motor.c:18-30 | every table entry, plus two for a skipped phase, is the change of phase up to a turn; reversing the states negates it |
| Quadrature.TravelFollowsPhase | semestral_project/src/stepper_motor.c:79-82 | over any run position + 2 * skips is congruent mod 4 to the change of phase, and the position is bounded by the number of interrupts |
| Quadrature.TransitionIsMovement | semestral_project/src/stepper_motor.c:81 | an interrupt reports the true movement if and only if it is at most one step |
| Quadrature.TravelIsDisplacement | semestral_project/src/stepper_motor.c:79-82 | if the shaft moves at most one step between interrupts the position is its net displacement |
| Quadrature.ThereAndBack | semestral_project/src/stepper_motor.c:79-82 | any path followed by its reverse, skips included, returns the position to its start |
| Controller.ClampIsRedundant | semestral_project/src/stepper_motor.c:58-68 | the controller equals the one without the clamp to 200 and with a floor division for the shift |
| Controller.PwmIsMonotone | semestral_project/src/stepper_motor.c:58-68 | a larger distance never gives a smaller duty |
| Controller.PwmShape | semestral_project/src/stepper_motor.c:58-68 | the duty lies within 100, has the sign of the distance, is zero only at zero and otherwise at least the minimum, and is saturated exactly from 160 steps on |
| Controller.PwmIsSquare | semestral_project/src/stepper_motor.c:60 | between the minimal duty and saturation the duty is the square of the distance over 256, rounded down |
| Controller.PwmIsAlmostOdd | semestral_project/src/stepper_motor.c:60 | backwards is the negative of forwards or one more, and equal if and only if the distance is at most 27, at least 160 or a multiple of 16 |
| Controller.EncodeRoundTrip | semestral_project/src/stepper_motor.c:42-51 | the register word decodes to the percentage, with exactly one direction bit and a duty no longer than the period |
| Controller.ControllerIsAccepted | semestral_project/src/stepper_motor.c:85-86 | what the controller computes is never rejected by the range check |
| StepperMotor.MotorDriver.constructor | semestral_project/src/stepper_motor.c:96-115 | counters, duty and register are zero and agree; the last state is the one on the pins |
| StepperMotor.MotorDriver.SetMotorDutycycle | semestral_project/src/stepper_motor.c:42-51 | the register reads back the percentage, or is left alone for one out of range |
| StepperMotor.MotorDriver.CountMovement | semestral_project/src/stepper_motor.c:75-82 | the table look-up moves the position by the step of the Gray phase and the counter by one mod 2^32 |
| StepperMotor.DistanceIsWrapped | semestral_project/src/stepper_motor.c:85 | the distance is set-point minus position, wrapped into 32 bits |
| StepperMotor.DrivesTowards | semestral_project/src/stepper_motor.c:58-68 | the motor is driven forwards exactly if the set-point lies ahead and backwards exactly if it lies behind, as long as the way fits 31 bits |
| StepperMotor.LeadingBitCountsUp | semestral_project/src/stepper_motor.c:75-80 | a turn of the encoder with bit a leading counts four steps up, with bit b leading four steps down |
| StepperMotor.MotorDriver.FollowDesired | semestral_project/src/stepper_motor.c:84-88 | the duty drives towards the set-point, and the register reads it back |
| StepperMotor.MotorDriver.MotorIsr | semestral_project/src/stepper_motor.c:74-91 | one interrupt counts; a board that drives its motor then drives it towards the set-point from the new position, and any other leaves duty and register alone |
| StepperMotor.InterruptedIsConsistent | semestral_project/src/stepper_motor.c:79-88 | after an interrupt the duty in force drives towards the set-point from the new position, and the register stands for it |
| StepperMotor.PositionIsTravel | semestral_project/src/stepper_motor.c:79-82 | over any run of interrupts the driver's position is the decoder's travel and its counter counts them mod 2^32 |
| MotorProtocol.StepKeeps | semestral_project/src/stepper_motor.c:134-152 | every step of interrupt handler, motor task and receiver keeps: a stale set-point is followed by a new pass, a position once read is off by no more than the interrupts since, the register explains the duty |
| MotorProtocol.AfterKeeps | semestral_project/src/server.c:68-70 | the invariant holds after every interleaving, whatever the register holds at power-up |
| MotorProtocol.NoSetPointIsLost | semestral_project/src/stepper_motor.c:141-152 | whenever the motor task waits at an empty semaphore and the receiver is not between write and give, the duty in force is the controller's for the current set-point and the position before the net movement in the window of the last pass, which is at most one step for each interrupt there and none after any later interrupt |
| MotorProtocol.SetPointTakesEffect | semestral_project/src/server.c:68-70 | from every reachable state after motor_init, an arriving set-point is followed, in a stated number of steps of receiver and motor task alone, by a state at rest in which the register drives towards it from the current position, with exactly the controller's duty |
| MotorProtocol.RestsAtSetPoint | semestral_project/src/stepper_motor.c:141-152 | in every resting state of every run the motor stands still if and only if the set-point is the current position less the net movement between reading the position and disabling interrupts, mod 2^32; it stands still off the set-point exactly if, besides, that movement is not zero mod 2^32 |
| MotorProtocol.StaleDuty | semestral_project/src/stepper_motor.c:146-150 | interrupts between the reading of the position and the disabling of interrupts, whatever they sample, end in a resting state with the duty for the position before them |
| MotorProtocol.RestsOffSetPoint | semestral_project/src/stepper_motor.c:146-150 | a run of this driver ends at rest with the shaft one step off its set-point and the motor off |
| MotorProtocol.RegisterStandsForDuty | semestral_project/src/stepper_motor.c:84-88 | outside the two critical sections the register decodes to `pwm_duty`, and never holds two direction bits or too long a duty |
| MotorProtocol.OurBoardIsSound | semestral_project/src/stepper_motor.c:42-68 | the arithmetic of this driver meets everything the protocol proofs assume of a board |
| MotorProtocol.StandsStill | semestral_project/src/stepper_motor.c:58-68 | the duty is zero if and only if set-point and position agree mod 2^32 |
| MotorProtocol.HandlerAgrees | semestral_project/src/stepper_motor.c:74-88 | the interrupt step of the protocol is the one of the driver object |
| MotorProtocol.StartIsInit | semestral_project/src/stepper_motor.c:96-119 | motor_init leaves the protocol's driver as the driver object starts, with interrupts enabled |
| Timespec.Subtract | lab4_priority_inheritance_kernel_module/utils.c:54-76 | the result is the exact difference with nanoseconds in [0, 10^9], a full second exactly in the listed cases, even if the structs are the same; otherwise both carry steps keep the total nanoseconds of y, x is unchanged, and the flag is the sign of the seconds |
| Timespec.FlagExactness | lab4_priority_inheritance_kernel_module/utils.h:20-22 | the returned flag is right if and only if the arguments are not the same instant with a carry that leaves a full second |
| Timespec.FlagCounterexample | lab4_priority_inheritance_kernel_module/utils.c:54-76 | a call that reports a negative difference of zero |
| Timespec.NormalisedDifference | lab4_priority_inheritance_kernel_module/utils.c:54-76 | for normalised arguments the nanoseconds are below 10^9 and the flag is exact |
| Timespec.ToMsIsFloor | lab4_priority_inheritance_kernel_module/utils.c:92-94 | the result is the floor of the total time in milliseconds, also for negative seconds |
| Timespec.Measure | lab4_priority_inheritance_kernel_module/utils.c:33-41 | one measurement yields the floor of the true waiting time in milliseconds |
| Timespec.HighPriority | lab4_priority_inheritance_kernel_module/utils.c:27-50 | the loop prints exactly the specified numbers |
| Timespec.PrintedEndsInMaximum | lab4_priority_inheritance_kernel_module/utils.c:30-45 | they increase strictly from 0, and the last is the maximum of 0 and all measured times |
| Timespec.PrintedAreRecords | lab4_priority_inheritance_kernel_module/utils.c:42-45 | exactly the new maxima are printed after the heading, and nothing that was not measured |

## Left out

- SvgGenerator.SvgDrawToFileXy: rounding is open in the two divisions and in the grid loops, whose number of lines depends on it; the other operations, which only yield coordinates, are exact on reals, and infinities and NaN are not told apart from other values. It requires that the grid loops end: the C loops never do if a tenth of the span is too small to change t.
- WebPage.GenerateHtmlFile: the copy in it runs undisturbed; ServeCopied is the page of a task that copied while the writer kept going.
- Registry.EmptySlotsAreClean: diggers that still run after their company has released its slot, and count into a slot that may have a new owner, are not modelled; release and process end are one step.
- Timespec.Subtract: `int` and `time_t` are unbounded. With a result that is also an argument, the flag compares seconds that the call has overwritten.
- PointerChase.Measurement: requires at least one jump; the C loop would otherwise run 2^32 times.
- Diggers.LowerDiggersAreBounded: the upper id array is an unbounded sequence; what a C array of fifty entries holds beyond that is not modelled.
- Registry.ScanIsFirstFit: a company that finds no slot stops in state NoSlot; the C code goes on with index 50, outside the array.
- Quadrature.TravelFollowsPhase: the position is unbounded; it would take 2^31 interrupts to overflow the C `int32_t`.
- Concurrent parts are state machines over values, not tasks over a shared heap. Memory is sequentially consistent and every 32-bit access is one step; the FIFO order of semaphores is left open, which allows more runs.
- `taskSpawn` always succeeds, `taskDelay` is no step, and diggers of a company stop with its process when it has released its slot. A company without a name is not modelled.
- `update_statistics` and the command loops are endless; the model covers every finite beginning.
- An interrupt is one atomic step, on one core; interrupt controller set-up and all hardware registers but the PWM word and the two encoder bits are left out.
- Where texts are placed (with the unsigned arithmetic on `strlen` in one position), arrow heads, strokes and colours.
- Uniformity of the shuffle: it is not a Fisher-Yates shuffle.
- Sockets, HTTP headers, console input and output, and the arguments of `shm_open` and `mmap`, which only succeed or fail here; a failed `recvfrom` keeps the old set-point.
- Priority inheritance, scheduling, starvation and real-time delays: the scheduler is not in this repository.
- Labs 1, 6 and 7: busy loops, histograms over hardware timers and a UDP client would only add counting claims.
