# A model of the table merger and its neighbours

The repository aligns tables of beam-synchronous data. Every input PV
publishes tables (NTTable of the EPICS Normative Types) whose rows carry a
time and a pulse id; the merger buffers the updates of all PVs, cuts out one
window of time after the other and posts one table per window, with one row
per time that occurs anywhere and one block of columns per PV. A writer appends
such tables to datasets of an HDF5 file, a stacker makes tables from the
samples of a scalar PV, a manager restarts the merger when the file listing
the PVs changes, and all programs parse their command lines with clipp.

The project models these parts in Dafny and proves what they keep, lose and
promise. `dafny verify dfyconfig.toml` checks it.

## Where to start

* **One window.** `Merging.dfy` has the row callback of the extraction as it is
  written, with both of its peculiar branches, and proves what it makes of one
  buffer: exactly the longest common prefix of the union of times and the
  buffer's own times is valid (`MergeExact`), this is the full outer join
  exactly for initial runs (`OuterJoinIffInitialRun`). `MergeTrace.dfy` follows the
  callback row by row for rows in any order: what becomes of every output row
  (`TraceExact`), when one stays unwritten (`WrittenIff`), and what is kept
  (`KeptFromEndIff`). `Alignment.dfy` lifts this to all buffers and adds the
  frontier of a window, progress, what is lost, and the influence of chunking.
* **The buffers.** `TableBuffer.dfy` is the class over chunks, index and cached
  times; `RowQueues.dfy` is the flat queue it refines, with the meaning of
  consuming rows by a stateful callback that stops early.
* **The table.** `TimeAlignedTable.dfy`, with its loops in `BufferLists.dfy` and
  `ExtractLoops.dfy`: the layout invariant under push, initialisation and
  extraction.
* **Whole runs.** `Runs.dfy` is the step system of listener and reactor sharing
  one table: pushes, decisions of the reactor, extractions, in any order.
  `Frontiers.dfy` says exactly when the frontier of the windows is kept and when
  published times increase, `RaceExample.dfy` has the race that breaks both.
  `RunSoundness.dfy` says that every valid row was pushed, in which order rows are
  reported, and exactly when every cell is written; `RunProgress.dfy` that rows
  are worked off; `Timeouts.dfy` exactly when the reactor gives up;
  `RunLosses.dfy` counts the rows of a run and says exactly when
  none is lost, `RunLossless.dfy` that lockstep inputs lose none. `FlatRuns.dfy`
  says exactly when a run shows how rows were split into updates, `RunChunking.dfy`
  that it does not for pulse ids other than 0; `LossExamples.dfy` has runs in which
  rows are lost and in which the split shows.
* **The objects.** `Threads.dfy` says which steps a schedule of updates, clock
  readings and turns of the main thread amounts to, given that a loop can end.
  `Merger.dfy` runs the real objects under any schedule and refines this.
  `RunOrderly`, with `PostedTables.dfy`, carries the theorems about runs over to
  the columns of the posted values, and `Origins.dfy` follows every valid cell of
  them back, under its name and element type, to a cell of an update.
* **Downstream.** `Naming.dfy`, `Splitting.dfy`, `Separators.dfy`,
  `FileStructure.dfy`, `Writer.dfy` and their composition `MergerToWriter.dfy`:
  which merged tables the writer can store, exactly. `Stacker.dfy` and
  `Watcher.dfy` are the two small machines.
* **clipp.** `CliTree.dfy`, `Traverser.dfy`, `PotentialMiss.dfy`, `JoinedFlags.dfy`,
  `LongestFlags.dfy`, `SanitizeArgs.dfy`: the explicit-stack traversal against
  pre-order, the search for missing parameters against its structural recursion,
  joined flags, and the repair of torn numbers.

## How the model stands to the code

* Objects whose methods update fields are classes with these fields; loops are
  loops. A deque is a sequence field, a `std::map` a sorted sequence of names
  beside the values, a `std::set` of times an ascending sequence. Each method is
  proved against a function of the old state, and the theorems are about these
  functions.
* Times are seconds and nanoseconds with a tag, seconds 32 bits wide; durations
  are integer nanoseconds. Adding a period wraps around where the C++ type does;
  theorems that need it assume that it does not (`NoWrap`).
* There is one cell type with a default per column type. `Unwritten` stands for
  memory of a fresh array that nothing has been stored in.
* The callback passed to `consume_each_row` captures variables by reference. In
  the model it is a function from its captured state and a row to the new state
  and the stop flag.
* A buffer holds each update as a list of rows, converted once when it is pushed.
* What the environment must keep to is a predicate on schedules. `Runs.WellFormed`
  asks that updates are not empty and continue their buffer in strictly ascending
  order; it says nothing about when the listener gets its turn, and most theorems
  about runs need no more. `Frontiers.Orderly` asks besides that updates bring
  nothing older than the end of the window extracted last. `Frontiers.Undisturbed`
  is the case without the race described below: nothing from before the start of a
  window arrives between its choice and its extraction.
* The user tag of window bounds is 0, as in the code: times are compared with
  their tags, window ends are not.

## Where the code differs from its documentation, or surprises

The model follows the code in each case.

* The header of the buffer asks for non-decreasing times. With a repeated time
  the extraction can pass an output row without writing it
  (`Merging.NonDecreasingIsNotEnough`). The header orders times without pulse ids,
  so rows of one time may come with falling pulse ids, and then it can do so where
  the common prefix ends in no repetition (`MergeTrace.FallingPulseIdsLeaveRow`).
  `MergeTrace.WrittenIff` is the exact condition for rows in any order,
  `Merging.DefinedIffNoRepeat` its form for rows ordered by time and pulse id.
* The reactor takes the lock of the table once to choose a window and once to
  extract it (`mergerApp/src/mergerMain.cpp:242` and `:268`,
  `mergerApp/src/taligntable.cpp:113` and `:203`). An update that arrives in between,
  for a PV that had no row waiting, can bring rows from before the window. The first
  of them then skips an output row unwritten, and the merge can run out of output
  rows and keep rows of the window: the next table may publish the same times again
  (`RaceExamples.RaceRepeatsTime`), although every PV ascends and nothing older than
  the end of a window extracted was sent. Cells stay unwritten exactly if an
  extraction finds such a row (`RunSoundness.CellsWrittenIff`), and published times
  fail to ascend exactly if a table follows an extraction that kept a row from before
  its window end (`Frontiers.TimesIncreaseIff`). What is valid is right in any case
  (`RunSoundness.PublishedIsPushed`, `ReportedInOrder`).
* One malformed update ends the merger. An update that does not fit the type of
  its PV, after a restart of its source with another layout, say, makes the push
  throw, which ends the listener loop; an update of an unknown PV does not. No
  later update of any PV reaches the table (`Threads.DeafForGood`), at most the rows
  that wait are still published (`OneMisfitEndsMerger`), and the main thread closes
  the output PV and stops the reactor (`ReapedForGood`).
* A buffer that lacks a time of the window loses its remaining rows up to and
  including the window end: the branch for a buffer that is ahead uses up its row
  (`Alignment.NothingLostIff`, and `RunLosses.NothingLostOverRunIff` for whole
  runs). A row exactly at the window end can be lost so, although it belongs to
  the next window (`LossExamples.RowAtEndIsLost`).
* The time scan starts at row 0 of the first update, so rows consumed earlier can
  put their times into a later window (`FlatRuns.ChunksInvisibleIff`). With pulse
  id 0 this happens: such a time, published in no table before, heads the table,
  and every row of the window is lost (`LossExamples.SplittingShows`).
* The merger announces timeout 0 as "wait forever". In the reactor loop it makes
  the wait test false, so the reactor never waits for laggards
  (`RunProgress.TimeoutZeroNeverWaits`).
* The width of column prefixes is computed for base 16 and used for a decimal
  number (`Naming.WidthIsCeilLog16`); the prefixes are distinct all the same.
* `common_flag_prefix` is described as the longest common prefix of all flags. It
  leaves out parameters whose own flags share nothing, so it need not be a prefix
  of theirs (`CommonFlagPrefixCoversIff`), and matching joined flags then need not
  end (`UncoveredPrefixCanCycle`, `LongestFlags.UncoveredNeverEnds`). The loop takes
  the longest flag each time; for flags that leave some character unused it ends
  for every argument exactly when no flag is a proper part of the prefix or the
  prefix is itself a flag (`LongestFlags.LongestEndsIff`). Whatever flag were taken,
  it would end for certain exactly when no flag is a proper part of the prefix
  (`AlwaysEndsIff`).
* The stacker warns that it skips a sample with a non-increasing time; it also
  throws away everything stacked so far (`Stackers.NothingLostIff`). Its tables
  leave the pulseId column empty and so do not satisfy the validation that the
  merger and the writer apply (`Stackers.PublishedTableInvalid`).
* The manager announces that it restarts only after a quiet time behind the last
  edit. Two looks check earlier, and no others (`Watchers.CheckedEarlyIff`): one
  that finds a fresh save at least the grace period after the save seen last
  (`FirstSaveCheckedAtOnce`), and the first one, when the file was saved shortly
  before start-up (`FreshFileReadAtStart`).
* An input PV with a column named "valid" or a repeated column name gives a merged
  table with two columns of one name, which the writer cannot store
  (`LayoutNamesDistinctIff`, `MergedTableBuildsIff`). A column separator of digits
  can give two PVs the same column name, separator 0 for 11 to 16 PVs and again
  for 101 to 256 (`Separators.PrefixesApartIff`, `DigitKeepsPrefixesApartIff`,
  `DigitSeparatorClashes`, `MergerToWriter.AlwaysDistinctIff`).
* Separators may be longer than one character. The writer then cuts one character
  behind the start of the separator and leaves its rest in the name of the dataset
  (`Splitting.JointOnce`, `LongSeparatorStays`).

## Model

| member | source | states |
|---|---|---|
| `Merging.MergeExact` | mergerApp/src/taligntable.cpp:253-302 | for one buffer with strictly ascending rows: the output rows of the longest common prefix of union and buffer are valid copies, all others are blank with default cells; the rows consumed are that prefix alone if it ends the union, else everything up to and including the window end |
| `Merging.MergeSorted` | mergerApp/src/taligntable.cpp:263-302 | the same for rows that merely do not decrease, as long as the row ending the common prefix does not repeat the time before it |
| `Merging.OuterJoinIffInitialRun` | mergerApp/src/taligntable.cpp:253-302 | the published columns of a buffer are the full outer join of union and rows, stated without reference to any merge order, if and only if the buffer's times before the window end are an initial run of the union |
| `MergeTrace.TraceExact` | mergerApp/src/taligntable.cpp:256-302 | for rows in any order, output row by output row: the copy of the row the callback matches to it, else untouched if the first row seen at it is already behind it, else blank with default cells |
| `MergeTrace.WrittenIff` | mergerApp/src/taligntable.cpp:256-302 | for rows in any order: an output row of the freshly allocated columns is left unwritten if and only if the first row the callback sees at it is already behind it |
| `MergeTrace.WrittenIffNoneEarly` | mergerApp/src/taligntable.cpp:256-302 | for strictly ascending rows of any window and a table with at least one time: all flags of the buffer are written, and all its cells if its rows are complete, if and only if none of its rows lies before the start of the window |
| `MergeTrace.KeptFromEndIff` | mergerApp/src/taligntable.cpp:268-296 | for strictly ascending rows and any set of times: what the merge leaves in the buffer is at or after the window end if and only if output rows are left whenever the callback stands at a row before the window end |
| `MergeTrace.NothingPassedIff` | mergerApp/src/taligntable.cpp:268-296 | for rows in any order: every consumed row is shown if and only if the common prefix exhausts the union, or ends the rows, or is followed by a row behind the window end |
| `Merging.DefinedIffNoRepeat` | mergerApp/src/taligntable.cpp:256-302 | for rows whose times with pulse ids do not decrease: every cell gets written if and only if the row ending the common prefix does not repeat the time of the row before it |
| `Merging.UndefinedAfterRepeat` | mergerApp/src/taligntable.cpp:291-295 | the exact cell that stays unwritten when it does repeat |
| `Merging.NonDecreasingIsNotEnough` | mergerApp/src/tablebuffer.h:56-57 | the documented non-decreasing order does not prevent unwritten cells: times 1, 1, 2 leave the row of time 2 unwritten |
| `MergeTrace.FallingPulseIdsLeaveRow` | mergerApp/src/tablebuffer.h:51-57 | nor does it where nothing repeats: it orders times without pulse ids, and rows of one time with pulse ids 1, 3, 2, 1 leave the row of id 3 unwritten |
| `Merging.FirstDifferenceIsAhead` | mergerApp/src/taligntable.cpp:283-295 | with non-decreasing, non-repeating rows the first mismatch finds the buffer ahead of the output row, so the branch that passes a row unwritten is not reached |
| `Merging.PassedRowsAreFinal` | mergerApp/src/taligntable.cpp:268-296 | output rows before the current one are never written again, for any rows and any point of the scan |
| `Merging.NeverBroken` | mergerApp/src/taligntable.cpp:142-143 | the width check of the row copy never fails for rows of the buffer's width, in whatever order they come |
| `Merging.FillRestBlanks` | mergerApp/src/taligntable.cpp:298-302 | the closing loop blanks exactly the rows from the current one on and leaves the earlier ones alone |
| `Merging.RemainingAtOrAfterEnd` | mergerApp/src/taligntable.cpp:270-272 | what the merge leaves in the buffer is at or after the window end, what it takes is at or before it |
| `ExtractLoops.MergeOne` | mergerApp/src/taligntable.cpp:254-307 | the extraction loop for one buffer: allocate, consume through the callback, fill up; ends with the merged columns and the queue without the consumed rows |
| `ExtractLoops.MergeAll` | mergerApp/src/taligntable.cpp:254-308 | over all buffers in map order; no buffer is touched but through its own merge |
| `ExtractLoops.CollectTimestamps` | mergerApp/src/taligntable.cpp:215-221 | the set of timestamps equals the union of the windows of all buffers |
| `ExtractLoops.ExtractAll` | mergerApp/src/taligntable.cpp:215-312 | the whole extraction equals the value-level extraction of the old queues, and the queues become its remainders |
| `Alignment.UnionIsHeldWindow` | mergerApp/src/tablebuffer.cpp:207-233 | the timestamps to publish ascend, lie in the half-open window, and are exactly those some buffer still holds, consumed rows of its first update included |
| `Alignment.UnionCovers` | mergerApp/src/tablebuffer.cpp:215-230 | every unconsumed row before the window end has its time among them |
| `Alignment.ExtractExact` | mergerApp/src/taligntable.cpp:202-334 | merge exactness for every buffer of a whole extraction, and the outer-join equivalence with it |
| `Alignment.ExtractWrittenIff` | mergerApp/src/taligntable.cpp:202-334 | which rows of a published table are written for a buffer, exactly, whatever the order of its rows |
| `Alignment.ExtractDefinedIff` | mergerApp/src/taligntable.cpp:202-334 | definedness of a whole extraction for rows whose times with pulse ids do not decrease, exactly |
| `Alignment.ExtractWrittenIffNoneEarly` | mergerApp/src/taligntable.cpp:202-334 | for a whole extraction: every flag of a buffer is written, and every cell if its rows are complete, if and only if none of its unconsumed rows is older than the start of the window |
| `Alignment.ExtractKeepsIff` | mergerApp/src/taligntable.cpp:268-296 | for a whole extraction, rows before the window included: a buffer keeps only rows at or after the window end if and only if output rows are left whenever the merge sees one of its rows before that end |
| `Alignment.ExtractFrontier` | mergerApp/src/taligntable.cpp:268-295 | window frontier: every buffer keeps a suffix of its rows, none of it before the window end, and nothing after the window end was consumed |
| `Alignment.ExtractProgress` | mergerApp/src/taligntable.cpp:268-295 | a buffer whose first row lies in the window gets shorter, and the time of that row is published |
| `Alignment.NothingLostIff` | mergerApp/src/taligntable.cpp:283-289 | for ascending rows, rows before the window included: consumed rows are exactly the shown ones if and only if the common prefix exhausts the union or no row up to the window end lies behind it |
| `Alignment.LockstepLossless` | mergerApp/src/taligntable.cpp:202-334 | buffers carrying the same times in the window: the table's times are these times, every cell is a valid copy of its source, and exactly the rows from the window end on remain |
| `Alignment.UnionIgnoresChunksIff` | mergerApp/src/tablebuffer.cpp:222 | the scan from row 0 sees the same timestamps as the flat queue if and only if every consumed row still held inside the window is doubled by an unconsumed row of some buffer |
| `Alignment.ChunkingIrrelevant` | mergerApp/src/tablebuffer.cpp:153-233 | two sets of buffers with the same unconsumed rows, in any order and however split into updates, publish the same table and keep the same rows under that condition |
| `TableBuffers.TableBuffer.constructor` | mergerApp/src/tablebuffer.cpp:104-106 | a new buffer holds no rows and has no type |
| `TableBuffers.TableBuffer.Push` | mergerApp/src/tablebuffer.cpp:144-151 | an accepted update appends its rows to the flat queue, one for each of its rows, with its seconds, nanoseconds and pulse id and the cells of its data columns in their order; a rejected one leaves the queue alone but may already have fixed the type; the type never changes once set |
| `TableBuffers.TableBuffer.Append` | mergerApp/src/tablebuffer.cpp:148-150 | appending keeps the cache current |
| `TableBuffers.TableBuffer.UpdateTimestamps` | mergerApp/src/tablebuffer.cpp:78-102 | the cached times become those of the first unconsumed and the last row, without tag |
| `TableBuffers.TableBuffer.GetTimeSpan` | mergerApp/src/tablebuffer.cpp:127-133 | the reported span is that of the unconsumed rows, invalid exactly when there are none |
| `TableBuffers.TableBuffer.ConsumeEachRowInner` | mergerApp/src/tablebuffer.cpp:153-192 | the nested loops over chunks call the callback exactly as one scan of the flat row sequence would, for every stateful callback and every chunking, and answer where that scan stopped |
| `TableBuffers.TableBuffer.ConsumeEachRow` | mergerApp/src/tablebuffer.cpp:194-205 | FIFO refinement: the final callback state is that of the flat scan, and exactly the rows before the one it stopped at are removed |
| `TableBuffers.TableBuffer.RemoveConsumed` | mergerApp/src/tablebuffer.cpp:198-204 | removes whole updates, then moves the index, keeping the invariant |
| `TableBuffers.TableBuffer.ExtractTimestampsBetween` | mergerApp/src/tablebuffer.cpp:207-233 | inserts exactly the window times of all held rows, from row 0 of the first update |
| `RowQueues.ConsumeStopsAtFirstTrue` | mergerApp/src/tablebuffer.h:121-125 | the promise of the interface: the callback sees the rows in order up to and including the first it answers true on, and the rows before that one are the consumed ones |
| `RowQueues.Queue.PushedLive` | mergerApp/src/tablebuffer.cpp:144-151 | pushing appends to the flat queue and keeps its structure |
| `RowQueues.Queue.DroppedLive` | mergerApp/src/tablebuffer.cpp:198-203 | dropping chunks and moving the index drops rows from the front of the flat queue |
| `RowQueues.Queue.DroppedStale` | mergerApp/src/tablebuffer.cpp:198-203 | a consumed row that is still held was held before or has just been consumed |
| `RowQueues.Queue.EmptyIffNoChunks` | mergerApp/src/tablebuffer.cpp:113-115 | no chunk is held exactly when no unconsumed row is |
| `RowQueues.GatherElements` | mergerApp/src/tablebuffer.cpp:215-230 | gathering adds exactly the times of the scanned rows inside the window |
| `TableBuffers.StopPosition` | mergerApp/src/tablebuffer.cpp:194-205 | a stop position (chunk, row) names the same queue as a number of dropped rows |
| `TableBuffers.FirstAndLast` | mergerApp/src/tablebuffer.cpp:82-101 | the cached pair is the span of the flat queue |
| `TimeStamps.OperatorsFormTotalOrder` | mergerApp/src/tablebuffer.cpp:54-76 | the six comparison operators, three of them defined by negation, agree on one strict total order on (time, tag) |
| `TimeStamps.OrderedByTicks` | mergerApp/src/tablebuffer.cpp:54-76 | and this order is that of the nanoseconds and, where they agree, of the tags |
| `TimeStamps.AddTicksExact` | mergerApp/src/mergerMain.cpp:260-262 | adding a period is exact, keeps the tag and stays normalised while the 32-bit seconds do not overflow |
| `TimeStamps.CarryAndWrap` | mergerApp/src/mergerMain.cpp:261-262 | nanoseconds carry into the seconds, and seconds wrap around at 32 bits, on concrete times |
| `TimeStamps.TicksOrder` | mergerApp/src/mergerMain.cpp:249-255 | differences in nanoseconds order times as the operators do |
| `TimeStamps.InsertElements` | mergerApp/src/tablebuffer.cpp:225-226 | set insertion adds exactly one element and keeps ascending order |
| `TimeStamps.AscendingUnique` | mergerApp/src/taligntable.cpp:215-221 | an ascending sequence is determined by its elements |
| `TimeBoundsOf.Compute` | mergerApp/src/taligntable.h:25-43 | the range constructor equals the fold over all spans |
| `TimeBoundsOf.BoundsTight` | mergerApp/src/taligntable.h:32-42 | the four bounds are the exact minimum and maximum of starts and ends over the valid spans, each attained; none valid leaves the initial values |
| `TimeBoundsOf.ShortestWithinLongest` | mergerApp/src/mergerMain.cpp:249-255 | 0 <= shortest span <= longest span whenever the bounds are valid |
| `BufferLists.TimeSpans` | mergerApp/src/taligntable.cpp:115-119 | collects the span of every buffer in map order |
| `TimeAlignedTables.TimeAlignedTable.GetTimebounds` | mergerApp/src/taligntable.cpp:112-122 | the bounds over the unconsumed rows of all buffers |
| `TimeAlignedTables.TimeAlignedTable.constructor` | mergerApp/src/taligntable.cpp:78-86 | one empty buffer per distinct name, names in strict map order |
| `TimeAlignedTables.TimeAlignedTable.Initialize` | mergerApp/src/taligntable.cpp:45-76 | sets the type exactly when all buffers have one, and never changes a set type; the type has the three time columns, then for every buffer in order its flag column of booleans and its data columns, each with its own element type, under prefixed names and labels |
| `TimeAlignedTables.TimeAlignedTable.ForceInitialize` | mergerApp/src/taligntable.cpp:93-110 | keeps exactly the initialised buffers in order and always ends with a type; a no-op on a table that has one |
| `TimeAlignedTables.TimeAlignedTable.Push` | mergerApp/src/taligntable.cpp:124-134 | an update is taken if and only if there is a buffer of that name and the update fits the type that buffer then has, by this update if it is the first; its rows go behind the rows of that buffer and nowhere else; unknown names are reported; the layout invariant is kept |
| `TimeAlignedTables.TimeAlignedTable.Extract` | mergerApp/src/taligntable.cpp:202-334 | publishes the aligned table of the window, valid for the type, and consumes the rows; only start > end fails, and then nothing changes |
| `TimeAlignedTables.ColumnCountsAgree` | mergerApp/src/taligntable.cpp:317-319 | the number of output columns is that of the layout, so the size check cannot fail |
| `TimeAlignedTables.PublishedFits` | mergerApp/src/taligntable.cpp:323-333 | a published table satisfies the validation of its own type |
| `BufferLists.GatherColumns` | mergerApp/src/taligntable.cpp:64-73 | the data columns are, per buffer in map order, a boolean column "valid" and the buffer's data columns with their own element types, all under prefixed names and labels |
| `BufferLists.SelectInitialized` | mergerApp/src/taligntable.cpp:96-106 | the remaining buffers are the initialised ones, in unchanged order |
| `BufferLists.PushInto` | mergerApp/src/taligntable.cpp:129-130 | one buffer takes the update if and only if it fits the type it then has; all others and all set types stay |
| `NameOrder.InsertNameKeeps` | mergerApp/src/taligntable.cpp:82-83 | map keys stay strictly sorted and gain exactly the given name |
| `NameOrder.BeforeIff` | mergerApp/src/taligntable.cpp:82-83 | the order of the keys is that of std::string: by the first character that differs, or the string that ends first |
| `TimeTables.FromValue` | commonApp/timetable.cpp:56-102 | a type is derived exactly when both fields are present, labels match columns in number and the time columns come first by name |
| `TimeTables.IsValid` | commonApp/timetable.cpp:109-194 | validation accepts exactly the values with the labels, names and types of the specification in order and columns of one length |
| `TimeTables.AtMostOneLength` | commonApp/timetable.cpp:147-191 | a set of lengths has at most one element exactly when all lengths agree |
| `TimeTables.Create` | commonApp/timetable.cpp:196-198 | a created value carries the labels, names and types of its type |
| `TimeTables.TypeRoundTrip` | commonApp/timetable.cpp:56-206 | a type stored in a value is derived from it again, and the value is valid exactly when its columns are of one length |
| `Runs.RunKeepsSound` | mergerApp/src/mergerMain.cpp:105-275 | under every interleaving of listener and reactor, pushes between the choice of a window and its extraction included: every buffer stays in order, and a chosen window stays one that is not empty and begins at the first row of some buffer |
| `Frontiers.StepKeepsInv` | mergerApp/src/mergerMain.cpp:105-275 | with updates that bring nothing older than the end of the window extracted last: every push and reactor decision keeps the frontier invariant, and an extraction keeps it if and only if it finds output rows left for every row before the window end; the floor below which everything is published never falls |
| `Frontiers.RunKeepsInv` | mergerApp/src/mergerMain.cpp:105-275 | window frontier over whole runs, whenever the listener gets its turn, as long as every extraction meets that condition: no unconsumed row below the end of the last window, published times ascend within and across tables |
| `Frontiers.TimesIncreaseIff` | mergerApp/src/mergerMain.cpp:228-271 | published times strictly ascend, within and across tables, if and only if no extraction that fails that condition is followed by another table |
| `Frontiers.PublishedTimesIncrease` | mergerApp/src/mergerMain.cpp:228-271 | the same from start-up, for any two published times |
| `Frontiers.NeverEarlyIsKept` | mergerApp/src/mergerMain.cpp:242-268 | the condition is met in every run in which no extraction finds a row from before its window |
| `Frontiers.UndisturbedIsNeverEarly` | mergerApp/src/mergerMain.cpp:242-268 | and no extraction does if no update that arrives between the choice of a window and its extraction brings a row from before its start |
| `Frontiers.UndisturbedRuns` | mergerApp/src/mergerMain.cpp:105-275 | without such an update every orderly run from start-up keeps the frontier, and its published times strictly ascend |
| `RaceExamples.RaceRepeatsTime` | mergerApp/src/mergerMain.cpp:242-268 | with one it can fail: two ascending PVs, nothing older than the end of a window extracted, and yet two tables publish the same single time, a row of the first one stays unwritten, and a row before the end of its window stays queued |
| `Runs.ChosenWindow` | mergerApp/src/mergerMain.cpp:242-262 | a chosen window starts at the time of some first row, and no unconsumed row is before it when it is chosen |
| `Runs.TakeHasTimes` | mergerApp/src/mergerMain.cpp:260-270 | whatever is pushed between choosing and extracting, the first row of some buffer lies in the window, is published and is consumed |
| `Runs.TakeResult` | mergerApp/src/mergerMain.cpp:268-270 | extraction of a chosen window never throws |
| `Runs.TakeLeavesSuffix` | mergerApp/src/mergerMain.cpp:268 | an extraction leaves a suffix of every queue |
| `RunSoundness.PublishedIsPushed` | mergerApp/src/mergerMain.cpp:105-275 | under every interleaving: every row a published table marks valid is a copy of a row pushed into that buffer with exactly that timestamp, every other row is blank or untouched, untouched only if some extraction found a row from before its window, and what is still queued is the tail of what was pushed |
| `RunSoundness.FlagsWrittenIff` | mergerApp/src/mergerMain.cpp:228-271 | under every interleaving: every valid flag of every table is written if and only if no extraction found a row from before the start of its window |
| `RunSoundness.CellsWrittenIff` | mergerApp/src/mergerMain.cpp:228-271 | from start-up, with complete updates: every cell of every table is written if and only if no extraction found a row from before the start of its window |
| `RunSoundness.ReportedInOrder` | mergerApp/src/mergerMain.cpp:228-271 | under every interleaving: if the rows sent for a PV ascend over the run, its valid rows ascend within and across tables |
| `RunSoundness.ReportedAtMostOnce` | mergerApp/src/mergerMain.cpp:228-271 | so no row is reported as valid twice |
| `RunSoundness.ReportedOnceBehindFrontier` | mergerApp/src/mergerMain.cpp:228-271 | nor is it where nothing older than the end of the last window is sent and published times ascend |
| `RunSoundness.StartWithRows` | mergerApp/src/mergerMain.cpp:166-204 | rows received before the reactor starts are a sound beginning of a run, provided each buffer ascends |
| `RunProgress.TakeConsumes` | mergerApp/src/mergerMain.cpp:260-268 | every extraction strictly decreases the number of waiting rows |
| `RunProgress.PublicationsWithinRows` | mergerApp/src/mergerMain.cpp:228-271 | under every interleaving, tables published plus rows waiting never exceed rows waiting at the start plus rows pushed |
| `RunProgress.BacklogIsWorkedOff` | mergerApp/src/mergerMain.cpp:228-271 | without further pushes, after as many cycles as there are rows the reactor has nothing left to extract or has given up, whatever the timeout |
| `RunProgress.BacklogDrains` | mergerApp/src/mergerMain.cpp:228-271 | with timeout 0 that many cycles empty every buffer |
| `RunProgress.RestIsFinal` | mergerApp/src/mergerMain.cpp:244-258 | a reactor that rests or has stopped publishes and consumes nothing until the next push |
| `RunProgress.TimeoutZeroNeverWaits` | mergerApp/src/mergerMain.cpp:255 | with timeout 0 the reactor sleeps if and only if there is no row at all, and never gives up |
| `RunProgress.BoundsValidIffRows` | mergerApp/src/mergerMain.cpp:242-247 | bounds are valid exactly when some row waits |
| `RunLossless.RunIsLossless` | mergerApp/src/mergerMain.cpp:228-271 | lossless lockstep as an invariant of runs: the tables show exactly the consumed rows of every buffer, all valid, unchanged and in order |
| `RunLossless.LockstepRunLosesNothing` | mergerApp/src/mergerMain.cpp:228-271 | from start-up: what all tables show of a PV, followed by what is queued, is exactly what was pushed for it |
| `RunLossless.CompleteIsLockstep` | mergerApp/src/taligntable.cpp:253-302 | buffers that follow the same times and reach the window end carry the same times in the window |
| `RunChunking.RunsAgree` | mergerApp/src/mergerMain.cpp:105-275 | two states with the same unconsumed rows publish the same tables under every schedule that keeps the frontier, if pulse ids are not 0 |
| `RunChunking.SplittingIsInvisible` | mergerApp/src/tablebuffer.cpp:144-233 | under every interleaving: splitting one update of a schedule into two changes nothing that is published, then or later, whenever both runs meet the condition of the next rows |
| `RunChunking.SplittingAnUpdateChangesNothing` | mergerApp/src/tablebuffer.cpp:144-233 | so it does for pulse ids other than 0 in every run that keeps the frontier |
| `FlatRuns.ChunksInvisibleIff` | mergerApp/src/tablebuffer.cpp:144-233 | under every interleaving: a run publishes what it would publish with buffers that forget rows once consumed if and only if every extraction of it finds each consumed row still held inside its window doubled by an unconsumed one |
| `FlatRuns.ChunkingsAgree` | mergerApp/src/tablebuffer.cpp:144-233 | two ways to hold the same rows go on alike, in what is published and what stays queued, under every schedule in which both meet that condition |
| `RunChunking.TaggedRunsSeeFlat` | mergerApp/src/tablebuffer.cpp:222 | with pulse ids other than 0 every run that keeps the frontier meets it |
| `LossExamples.SplittingShows` | mergerApp/src/tablebuffer.cpp:215-230 | with pulse id 0 it can fail, from start-up and under an orderly schedule: one update sent in one piece or in two leads to different tables, and in one piece all rows of the second table are lost |
| `RunLosses.TakeShows` | mergerApp/src/taligntable.cpp:253-312 | for one extraction, rows before the window included: the rows shown as valid of a buffer, read back from its columns, are exactly the rows the callback matched, in order, and a suffix of the rows stays queued |
| `RunLosses.RunAccounts` | mergerApp/src/mergerMain.cpp:105-275 | conservation under every interleaving: rows reported, rows queued and rows used up without being shown add up to what there was and what was pushed, for every buffer |
| `RunLosses.LostBehindGap` | mergerApp/src/taligntable.cpp:283-289 | how many rows an extraction loses when none lies before its window: none if the common prefix exhausts the union, else those up to and including the window end behind that prefix |
| `RunLosses.NothingLostOverRunIff` | mergerApp/src/mergerMain.cpp:228-271 | from start-up, under every interleaving: the rows reported of a PV followed by those still queued are exactly those pushed for it if and only if no extraction finds a row of it up to the window end behind a gap; otherwise exactly as many are missing as the extractions lost |
| `RunLosses.NothingLostAnywhereIff` | mergerApp/src/mergerMain.cpp:228-271 | the same for all PVs at once |
| `LossExamples.RowAtEndIsLost` | mergerApp/src/taligntable.cpp:270-289 | a run in which a row exactly at the window end is neither reported nor kept, because its PV missed a time of the window |
| `LossExamples.RowBehindGapIsLost` | mergerApp/src/taligntable.cpp:283-289 | an extraction in which a row behind a gap is neither reported nor kept |
| `Mergers.Merger.constructor` | mergerApp/src/mergerMain.cpp:166-175 | a merger starts with both loops alive, nothing chosen and nothing posted |
| `Mergers.Merger.Deliver` | mergerApp/src/mergerMain.cpp:121-145 | one listener pass is accepted if and only if the PV is known and the update fits its type, and then it is the push step of the system; an unknown PV changes nothing; a refused update of a known PV changes nothing but ends the listener loop |
| `Mergers.Merger.Decide` | mergerApp/src/mergerMain.cpp:232-262 | the reactor tests, in the order of the loop, decide as the step system does; it gives up exactly when there is a timeout and more than that has passed since the last table, and otherwise waits exactly when no window is due |
| `Timeouts.ReactorEndsIff` | mergerApp/src/mergerMain.cpp:228-271 | over every run: the reactor ends if and only if there is a timeout and some look, with no window chosen, comes more than that timeout after the take that published last, or after the start if none has |
| `Timeouts.LoopEndsIff` | mergerApp/src/mergerMain.cpp:105-275 | the same for the threads, from the clock readings of the schedule itself, as long as main has not stopped the loop |
| `Mergers.Merger.Look` | mergerApp/src/mergerMain.cpp:228-262 | the first half of a reactor pass is the look step |
| `Mergers.Merger.TakeWindow` | mergerApp/src/mergerMain.cpp:268-270 | the second half is the take step |
| `Mergers.Merger.Run` | mergerApp/src/mergerMain.cpp:105-275 | refinement: the threads on the real objects end, under any schedule of updates, clock readings and turns of main, in the state that Threads.After computes, and the table in that of the run of exactly the steps the schedule amounts to; every posted value is valid for the type |
| `Mergers.Merger.StopOthers` | mergerApp/src/mergerMain.cpp:379-391 | the turn of main: it stops both loops exactly when one has ended |
| `Threads.AfterIsRun` | mergerApp/src/mergerMain.cpp:105-275 | the threads do the steps of the schedule: an update pushes if the listener is alive, its PV known and it fits, half passes look and take until main has stopped the reactor |
| `Threads.ListensIff` | mergerApp/src/mergerMain.cpp:121-145 | the listener is alive after a schedule if and only if it was before, every update of a known PV fitted, and main never found the reactor ended |
| `Threads.DeafForGood` | mergerApp/src/mergerMain.cpp:121-145 | once the listener has ended no update reaches the table any more, fitting or not |
| `Origins.NothingUnheard` | mergerApp/src/mergerMain.cpp:121-145 | as long as the listener lives, what is pushed for a PV is exactly the rows of all its updates in the schedule, in order |
| `Threads.PassesAreCycles` | mergerApp/src/mergerMain.cpp:228-271 | passes of the reactor loop that main has not stopped are the cycles of the step system |
| `Threads.PassesDrain` | mergerApp/src/mergerMain.cpp:228-271 | so with timeout 0 a loop that makes as many passes as rows are waiting has taken them all |
| `Threads.OneMisfitEndsMerger` | mergerApp/src/mergerMain.cpp:121-145 | behind one refused update of a known PV there are, whatever comes, never more further tables than rows were waiting |
| `Threads.ReapedForGood` | mergerApp/src/mergerMain.cpp:379-391 | and once main has had its turn nothing changes any more |
| `Mergers.Merger.RunOrderly` | mergerApp/src/mergerMain.cpp:105-275 | on the real objects, under a schedule whose updates bring nothing older than the end of the last window: the time columns of all posted values strictly ascend, within and across values, if and only if no extraction that kept a row before its window end is followed by another value; every flag is written if and only if no extraction found a row from before its window; and for every PV each posted row shows nothing, or exactly a row that was pushed, or was left unwritten; where the flag of a PV is set, all its data columns hold, each under its own name and element type, the cells of one row of one of its updates, and the time columns the time of that row; and the reactor loop ends exactly by a pass later than the timeout after the last value |
| `Mergers.PostsAreSound` | mergerApp/src/mergerMain.cpp:228-271 | what the step system proves of its posts, read off the posted values column by column |
| `PostedTables.PublishedAscend` | mergerApp/src/taligntable.cpp:323-333 | the time columns of the posted values strictly ascend if and only if the published times do |
| `PostedTables.PublishedShowsOnly` | mergerApp/src/taligntable.cpp:253-312 | the flag column and the data columns of each PV show only what its merge produced, and all its flags are there if and only if the merge wrote them |
| `PostedTables.FittingIsTyped` | mergerApp/src/taligntable.cpp:323-333 | every posted value has the time columns in front and, for every PV, a boolean flag column and its data columns under their prefixed names, each with the element type of the PV's own column |
| `Origins.PostsAreTraced` | mergerApp/src/tablebuffer.cpp:158-181 | from posted cells back to the updates: where the flag of a PV is set, every data column of that PV has the name and element type of a column of one of its updates and holds the cell that this column had at a row whose seconds, nanoseconds and pulse id are the posted ones |
| `Origins.TracedByName` | mergerApp/src/tablebuffer.cpp:167-171 | by name: in a value with distinct column names, the column named by prefix and column name holds the cell of the update's column of that name |
| `Origins.PushedFrom` | mergerApp/src/tablebuffer.cpp:144-151 | every row that a schedule brings a buffer is a row of one of its updates of that PV, which fitted |
| `Mergers.FinishPrepare` | mergerApp/src/mergerMain.cpp:191-204 | start-up succeeds if and only if some PV has been initialised, and then the table has its type |
| `Naming.ParseDecimalRoundTrip` | mergerApp/src/taligntable.cpp:37 | a printed index can be read back |
| `Naming.ParseZeroPad` | mergerApp/src/taligntable.cpp:37 | zero padding does not change the number |
| `Naming.WidthIsCeilLog16` | mergerApp/src/taligntable.cpp:35 | the width is the number of hexadecimal digits of the total, although the index is printed in decimal |
| `Naming.ColPrefixInjective` | mergerApp/src/taligntable.cpp:35-38 | different buffers get different column prefixes, also where the width is too small for the decimal index |
| `Naming.ColPrefixIs` | mergerApp/src/taligntable.cpp:35-38 | a prefix is "tbl" followed by the decimal digits of the index, padded with zeros only to the width |
| `Naming.LayoutIsLaidOut` | mergerApp/src/taligntable.cpp:34-76 | the merged layout, column by column: three time columns, then for every input a boolean column "valid" and its data columns with their own element types, names behind prefix and separator, labels behind PV name and separator |
| `Splitting.RFindIsLast` | writerApp/src/writer.cpp:73 | the search from the end finds the last occurrence, or none exists |
| `Splitting.SplitInjective` | writerApp/src/writer.cpp:69-85 | prefix and suffix together determine the name, for separators of any length |
| `Splitting.SplitUndoesJoin` | writerApp/src/writer.cpp:69-85 | with a one-character separator, splitting undoes joining if the suffix is free of the separator |
| `Splitting.JoinUndoesSplit` | writerApp/src/writer.cpp:69-85 | with a one-character separator, joining undoes splitting; a name splits exactly when it contains the separator |
| `Splitting.SplitJoined` | writerApp/src/writer.cpp:69-85 | for separators of any length: where a joined name is cut depends on the separator and what follows it only |
| `Splitting.JointOnce` | writerApp/src/writer.cpp:82 | where the separator does not occur again, all but its first character stays with the suffix |
| `Splitting.LongSeparatorStays` | writerApp/src/writer.cpp:82 | an instance: a::b is cut into a and :b |
| `FileStructure.Build` | writerApp/src/writer.cpp:122-166 | the loops create the groups and datasets of the specification, or stop at the first failure |
| `FileStructure.BuildSucceedsIff` | writerApp/src/writer.cpp:122-166 | the structure is built if and only if the time columns have different names and so have the data columns, every data column splits, brings a new PV name exactly when it brings a new group, and no group is named like a time column; and then exactly the expected groups and paths exist |
| `FileStructure.ColumnFitsIff` | writerApp/src/writer.cpp:135-166 | the same for one more column on top of what stands |
| `FileStructure.NewDataPath` | writerApp/src/writer.cpp:155-160 | distinct column names have distinct dataset paths |
| `FileStructure.ColumnAdds` | writerApp/src/writer.cpp:145-160 | a created column adds exactly its group, its PV name and its path |
| `MergerToWriter.MergedTableBuildsIff` | writerApp/src/writer.cpp:122-166 | for PVs and columns of any names, and any two separators of which the one for columns keeps the prefixes apart: every column the merger generates splits, and the file structure is built if and only if no input has two columns of one name, counting "valid", and every column is the first one of all inputs with its PV name exactly when it is the first of its input with its name head |
| `MergerToWriter.ApartNamesBuildIff` | writerApp/src/writer.cpp:135-166 | where no PV name, followed by the separator, begins another so, the second half means: within every input label heads and name heads begin together |
| `MergerToWriter.AlwaysDistinctIff` | mergerApp/src/taligntable.cpp:34-76 | a column separator gives merged tables with distinct names for all inputs of distinct names if and only if it keeps the column prefixes of that many inputs apart |
| `Separators.ApartIff` | mergerApp/src/taligntable.cpp:34-43 | two different names are apart if and only if no two joined names made from them are the same |
| `Separators.PrefixesApartIff` | mergerApp/src/taligntable.cpp:35-38 | for which separators and numbers of inputs the column prefixes are apart: exactly when each string of digits that the separator repeats with leads to an index that is not reached |
| `Separators.NonDigitKeepsPrefixesApart` | mergerApp/src/taligntable.cpp:35-38 | so any separator with a character other than a digit keeps them apart, for any number of inputs |
| `Separators.DigitKeepsPrefixesApartIff` | mergerApp/src/taligntable.cpp:35-38 | and a single digit d does if and only if there are at most 10 to the power of the width (but at least 10), plus d, inputs |
| `Separators.DigitSeparatorClashes` | mergerApp/src/taligntable.cpp:35-43 | the least clash: with separator 0 two of 11 inputs can get the same column name, and no fewer |
| `MergerToWriter.PlainInputsBuild` | writerApp/src/writer.cpp:135-166 | inputs in whose labels and column names the separators do not occur again, for PV names of any kind: built if and only if no input repeats a column name or has a column "valid"; one group per PV, named by the column prefix, one dataset per column, which keeps what the separator has behind its first character |
| `MergerToWriter.WhereStored` | mergerApp/src/taligntable.cpp:34-43 | group, dataset and PV name of a merged column in terms of the input it comes from, for any names and separators |
| `MergerToWriter.ColumnsApart` | mergerApp/src/taligntable.cpp:34-43 | where no PV name and no column prefix, followed by its separator, begins another so, columns of different inputs differ in name, PV name and group |
| `MergerToWriter.LayoutNamesDistinctIff` | mergerApp/src/taligntable.cpp:34-76 | where the column prefixes are apart, the columns of a merged table have different names, time columns included, if and only if the columns of every input have, the flag column "valid" among them |
| `Writers.Writer.Start` | writerApp/src/writer.cpp:206-212 | the first update fixes the type and creates an empty dataset per column, exactly when type and structure allow |
| `Writers.Writer.Write` | writerApp/src/writer.cpp:199-260 | once there is a type: an update whose seconds column has rows is accepted exactly if it has the names, labels, types and one length of all columns, and then every dataset grows by its column; one without rows changes nothing; the first update with columns becomes the content of the datasets; which first updates are accepted, exactly; a refused update changes no dataset |
| `Writers.Writer.WriteAll` | writerApp/src/writerMain.cpp:266-278 | draining a queue succeeds if and only if every update is accepted by the type the earlier ones fixed; in any case exactly the updates before the first refused one are stored, the first one and the later ones with rows, in order; for a writer with a type it fails exactly if some update with rows does not fit |
| `Writers.TimeRowsIff` | writerApp/src/writer.cpp:217-224 | the count of rows is positive exactly where a seconds column has some |
| `Writers.Writer.AppendAll` | writerApp/src/writer.cpp:230-256 | every dataset is found and grows by its own column |
| `Writers.AppendedGrows` | writerApp/src/writer.cpp:186-197 | appending one update keeps the append-only invariant of all datasets |
| `Writers.DatasetsEquallyLong` | writerApp/src/writer.cpp:186-260 | all datasets of a running writer are equally long |
| `Writers.ColumnsEquallyLong` | writerApp/src/writer.cpp:186-197 | columns of accepted updates concatenate to one length |
| `Traversal.NextDropsOne` | commonApp/clipp.h:2966-2978 | ++ moves past exactly the current node in pre-order, so the number of remaining nodes measures every traversal |
| `Traversal.NextSiblingDropsSubtree` | commonApp/clipp.h:2980-2994 | next_sibling drops exactly the current node and everything under it |
| `Traversal.NextAfterSiblingsDropsList` | commonApp/clipp.h:2996-3003 | next_after_siblings drops exactly the rest of the sibling list with everything under it |
| `Traversal.VisitAll` | commonApp/clipp.h:2966-2978 | iterating ++ over a tree without empty groups visits every node once, in pre-order, and stops |
| `Traversal.Traverser.Increment` | commonApp/clipp.h:2966-2978 | operator ++ on the explicit stack equals its recursive meaning |
| `Traversal.Traverser.MoveToNextSibling` | commonApp/clipp.h:2980-2994 | the popping loop of next_sibling |
| `Traversal.Traverser.MoveAfterSiblings` | commonApp/clipp.h:2996-3003 | the jump of next_after_siblings |
| `Traversal.Traverser.Restore` | commonApp/clipp.h:3083-3092 | undo on the stack |
| `Traversal.MoveAndReturn` | commonApp/clipp.h:3075-3092 | saving the position, moving and undoing on the object brings it back if and only if the run never left the saved level, or that is the outermost one |
| `Traversal.UndoRestoresIff` | commonApp/clipp.h:3075-3092 | undoing restores the exact stack after a run of ++ and next_sibling if and only if the run never left the saved level, or the saved level is the outermost one |
| `Traversal.RemainingOnlyShrinks` | commonApp/clipp.h:2966-3003 | no move brings back what was passed |
| `Traversal.DroppingPassesAncestors` | commonApp/clipp.h:2980-3003 | once the level has dropped, no more remains than lies behind the ancestors |
| `PotentialMisses.ForEachPotentialMiss` | commonApp/clipp.h:5024-5048 | the loop on the explicit stack with skipping and level bound reports exactly the list of the structural recursion, and terminates |
| `PotentialMisses.MissStep` | commonApp/clipp.h:5029-5046 | one pass reports the next part of that list and gets nearer to the end |
| `PotentialMisses.AllOptionalHasNoMisses` | commonApp/clipp.h:5032-5033 | looking into an all-optional group would report nothing, so skipping it loses nothing |
| `PotentialMisses.MissesIffRequired` | commonApp/clipp.h:5024-5048 | where no optional positional parameter cuts a list short, something is reported if and only if some node of the list is required |
| `PotentialMisses.MissesIffSeen` | commonApp/clipp.h:5024-5048 | for every list: something is reported if and only if some required parameter is in sight, that is, neither in its list nor in those of the groups around it does an optional positional parameter come before it, and none of these groups is skipped |
| `PotentialMisses.MissesAreRequiredParams` | commonApp/clipp.h:5038-5039 | only required parameters of the list are reported |
| `PotentialMisses.RequiredIffEntered` | commonApp/clipp.h:2668-2676 | a non-empty group is required exactly when the loop looks into it |
| `CliTree.RequiredIff` | commonApp/clipp.h:2668-2676 | a parameter is required as it says, a group of alternatives if all its children are, any other group if one is |
| `PotentialMisses.MissesOfBoth` | commonApp/clipp.h:5024-5048 | the report of two lists in a row is that of both, or of the first alone if an optional positional parameter cuts it |
| `PotentialMisses.AllRequiredReported` | commonApp/clipp.h:5024-5048 | where nothing is hidden by such a parameter or in a skipped group, all required parameters of the tree are reported, each once and in pre-order |
| `JoinedFlags.LongestCommonPrefix` | commonApp/clipp.h:794-829 | the character loop computes the longest common prefix |
| `JoinedFlags.LongestCommonIsLongest` | commonApp/clipp.h:794-829 | which is a common prefix, and every common prefix is a prefix of it |
| `JoinedFlags.GatherPrefixes` | commonApp/clipp.h:3489-3501 | collects the non-empty prefixes of all parameters, at any depth |
| `JoinedFlags.CommonFlagPrefixCoversIff` | commonApp/clipp.h:3462-3501 | the common flag prefix is a prefix of every flag if and only if it is empty or no parameter was left out for sharing no prefix among its own flags |
| `JoinedFlags.RestIsShorter` | commonApp/clipp.h:4838-4845 | matching a flag and re-inserting a prefix that all flags share still leaves less to match |
| `JoinedFlags.TryMatchJoined` | commonApp/clipp.h:4824-4859 | for whatever flag is found next, if no match in an argument that starts with the prefix is a proper part of it: the loop terminates with at most two matches per character, and the matches less re-inserted prefixes concatenate to the argument; with no prefix, the matches themselves do; it succeeds if and only if the argument is not empty and is used up and the parser has no complaint, otherwise the parser found nothing in what is left; every match is what the parser answers to the rest that the matches before it leave |
| `JoinedFlags.AlwaysEndsIff` | commonApp/clipp.h:4824-4859 | independent of the choice of flag: the loop ends for every argument and every way to find the next flag if and only if no non-empty flag is a proper part of the prefix |
| `JoinedFlags.EndsInTwicePerCharacter` | commonApp/clipp.h:4824-4859 | and under the condition of TryMatchJoined within two passes per character |
| `JoinedFlags.InsideMatchesAgain` | commonApp/clipp.h:4838-4845 | a flag that is a proper part of the prefix can be matched again after every match of it |
| `JoinedFlags.OwnPrefixesAlwaysEnd` | commonApp/clipp.h:3462-3501 | for the common prefix of a group the loop always ends if every parameter with flags has a prefix of its own |
| `JoinedFlags.UncoveredPrefixCanCycle` | commonApp/clipp.h:4833-4849 | an instance of the other case that the common prefix of a group reaches: flags --a, --b and x, - |
| `LongestFlags.LongestPrefixMatch` | commonApp/clipp.h:879-902 | the loop over the flags of one parameter finds the longest that the argument starts with |
| `LongestFlags.LongestMatch` | commonApp/clipp.h:4428-4455 | the traversal of a group finds the longest of all its flags |
| `LongestFlags.LongestEndsIff` | commonApp/clipp.h:4824-4859 | the loop as it is, which takes the longest flag: if some character is used by no flag, it ends for every argument if and only if no non-empty flag is a proper part of the prefix, or the prefix is itself a flag |
| `LongestFlags.LongestEndsIffBytes` | commonApp/clipp.h:4824-4859 | so for all flags that do not use all 256 characters |
| `LongestFlags.LongestEndsIf` | commonApp/clipp.h:4833-4849 | the one half of it without that hypothesis |
| `LongestFlags.JoinedLetters` | commonApp/clipp.h:4827-4849 | what joined flags are for: with flags of one letter behind the prefix, the prefix followed by letters is used up if and only if every letter has its flag, and then the matches are these flags, in order |
| `LongestFlags.GoesOnAlwaysEnds` | commonApp/clipp.h:4833-4849 | it also ends where the prefix followed by any character is a flag |
| `LongestFlags.UsedUpAlphabetCanEnd` | commonApp/clipp.h:4833-4849 | so the hypothesis is needed: over a and b, flags a, aaa and aab with prefix aa |
| `LongestFlags.UncoveredNeverEnds` | commonApp/clipp.h:4833-4849 | with flags --a, --b and x, - the loop never ends on --c |
| `LongestFlags.OneLetterPasses` | commonApp/clipp.h:4833-4849 | and for such flags the loop ends |
| `Sanitizing.SanitizeArgs` | commonApp/clipp.h:5172-5204 | the in-place loop equals the fold of its steps |
| `Sanitizing.SameCharacters` | commonApp/clipp.h:5172-5204 | the concatenation of all arguments stays the same, and so does their number |
| `Sanitizing.Idempotent` | commonApp/clipp.h:5172-5204 | sanitizing twice changes nothing more |
| `Sanitizing.SanitizedMoves` | commonApp/clipp.h:5178-5203 | what is moved, exactly: an argument that begins with a point and a digit gets the trailing digits, with their sign, of what the argument before it then is; no other argument gets anything, and all keep the rest |
| `Sanitizing.FindTail` | commonApp/clipp.h:5184-5195 | finds the trailing digits with their sign |
| `Stackers.Stacker.Push` | test/stackerApp/src/stackerSup.cpp:75-127 | one push is one step of the batching machine: drop, publish and restart, or append; the parallel vectors stay the columns of the batch |
| `Stackers.Stacker.Publish` | test/stackerApp/src/stackerSup.cpp:129-155 | posts the table of the batch |
| `Stackers.Stacker.Reset` | test/stackerApp/src/stackerSup.cpp:157-165 | empties all vectors |
| `Stackers.PushAll` | test/stackerApp/src/stackerSup.cpp:75-127 | pushing a whole input leads to the state of the run |
| `Stackers.BatchesSound` | test/stackerApp/src/stackerSup.cpp:75-127 | for every input and positive period, batches are not empty, strictly increasing and span less than the period |
| `Stackers.NothingLostIff` | test/stackerApp/src/stackerSup.cpp:84-110 | batches and buffer partition the input if and only if the input is strictly increasing; every other input loses samples |
| `Stackers.StartsApart` | test/stackerApp/src/stackerSup.cpp:99-109 | with strictly increasing input, batch starts are at least a period apart |
| `Stackers.PublishedTableInvalid` | test/stackerApp/src/stackerSup.cpp:129-155 | a posted batch leaves its pulseId column empty, so it is valid for its own type if and only if it is empty, which it never is |
| `Stackers.PostedColumns` | test/stackerApp/src/stackerSup.cpp:129-149 | which columns a posted table has for every configuration, with names, types and, for every sample, its cells |
| `Stackers.PostedLabels` | commonApp/timetable.cpp:22-33 | every column of a posted table is labelled with its name |
| `Stackers.BatchesAreFinal` | test/stackerApp/src/stackerSup.cpp:75-127 | later samples add batches and take none back |
| `Stackers.TimesInNanoseconds` | test/stackerApp/src/stackerSup.cpp:86-105 | samples are compared by seconds and then nanoseconds, and the distance that is held against the period is in nanoseconds |
| `Stackers.StartsAfresh` | test/stackerApp/src/stackerSup.cpp:92-97 | a late sample is dropped with all that is buffered, and the samples behind it are stacked as from the start |
| `Watchers.Watcher.constructor` | managerApp/bsasManager.py:421-456 | start-up: the grace period is clamped, a missing file counts as changed now, a check is pending |
| `Watchers.Watcher.LookForChanges` | managerApp/bsasManager.py:564-630 | one look is one step of the watcher; the merger is restarted exactly when a check brings another set of PVs |
| `Watchers.Watcher.CheckForChangedPVs` | managerApp/bsasManager.py:632-722 | an unreadable or empty file changes nothing; the symmetric difference decides the restart |
| `Watchers.PendingIffOwed` | managerApp/bsasManager.py:600-630 | after every run of looks a check is pending if and only if some noticed change has had no check since |
| `Watchers.QuietLookSettles` | managerApp/bsasManager.py:604-608 | a quiet look past the grace period settles every change noticed before |
| `Watchers.ChecksAnswerChanges` | managerApp/bsasManager.py:600-630 | every check answers a change of its own: saves close to each other share one |
| `Watchers.UpToDateUnlessPending` | managerApp/bsasManager.py:600-689 | while nothing is pending, the PVs in force are those of the file as last seen, if checks can read it |
| `Watchers.PvsAreLastRead` | managerApp/bsasManager.py:600-689 | the PVs in force are those of the last look that found lines in the file; looks at an unreadable or empty file change nothing |
| `Watchers.UnreadableCheckForgets` | managerApp/bsasManager.py:646-651 | a check that cannot read the file is not retried while the file stays as it is |
| `Watchers.CheckedEarlyIff` | managerApp/bsasManager.py:601-630 | over every run from start-up, a look reads the file before the last edit is a grace period old if and only if it finds a fresh save at least a grace period after the one seen last, or is the first to find the file and finds it freshly saved as noted at start-up |
| `Watchers.AlwaysQuietIff` | managerApp/bsasManager.py:601-630 | so the announced quiet time is kept exactly by the runs without such a look |
| `Watchers.EarlyIff` | managerApp/bsasManager.py:604-624 | the same for one look, from any state in which a pending check waits for the last change, which every look keeps |
| `Watchers.FirstSaveCheckedAtOnce` | managerApp/bsasManager.py:614-616 | an instance: the first save after a quiet time is checked at once, and a second save within the grace period leaves another check pending |
| `Watchers.FreshFileReadAtStart` | managerApp/bsasManager.py:604-608 | the other instance: started a second after a save, the first look reads the file |

## Left out

- Networking, subscriptions, posting through shared PVs, threads, locks and signals: push, decision and extraction are atomic steps, in any order.
- Logging, lock files, subprocess control and the clock: times are inputs.
- The simulator and all build files.
- Floating-point seconds: durations are exact integers, without the rounding of the C++ doubles; `epicsTimeDiffInSeconds` is the plain difference.
- Per-type switches of row copies and dataset writes: one cell type, no conversion, so the errors for unknown element types do not occur.
- Alarms, attributes, metadata datasets, flushing, file naming and file rotation of the writer; HDF5 names are single path components, so names that are empty or contain a slash are not modelled.
- Writers.Writer.Start: for updates with at least three columns; for fewer the code reads out of range. Write and WriteAll likewise.
- Writers.Writer.Write: assumes that HDF5 calls on existing datasets succeed, and describes a writer whose file structure could be built; after a failure there the program ends.
- TableBuffers.TableBuffer.Push: assumes the documented table format, at least three columns and at least one row; for other tables the code reads out of range.
- TableBuffers.TableBuffer.ConsumeEachRow: the callback gets a row rather than the containers and an index, and cannot throw; an exception out of the callback cannot occur for rows of the right width.
- ExtractLoops.MergeOne: the columns are values that get one cell per write, not arrays changed in place; the read of the row iterator before the test of the row count is guarded.
- TimeAlignedTables.TimeAlignedTable.Extract: columns are stored in the output value by position; by name this is the same where no input has a column named "valid" or a repeated name (MergerToWriter.LayoutNamesDistinctIff).
- RunLossless.LockstepRunLosesNothing: for schedules in which the reactor sees every buffer non-empty and a shortest span of at least a period when it chooses a window, which with equal times suffices; RunLosses.NothingLostOverRunIff has the exact condition, for any times.
- RunProgress.BacklogIsWorkedOff: for rows so far from the end of the 32-bit clock that a period can be added.
- RunChunking.RunsAgree: for pulse ids other than 0 and runs that keep the frontier; with pulse id 0 it fails in the run of LossExamples.SplittingShows. FlatRuns.ChunksInvisibleIff has the exact condition without either hypothesis.
- Origins.PostsAreTraced: a cell of a time column that is no non-negative number, which its element type does not admit, is read as 0.
- Frontiers.UndisturbedRuns: for runs without the race; Frontiers.TimesIncreaseIff and RunSoundness.CellsWrittenIff have the exact conditions with it.
- Frontiers.RunKeepsInv: asks that updates bring nothing older than the end of the last window; an older row can begin a later window, and then published times do not ascend.
- Splitting.Split: for separators that are not empty; with an empty one the code asks for a suffix behind the end of the name and throws.
- LongestFlags.LongestEndsIff: for flags that leave some character unused; without that the equivalence can fail, as LongestFlags.UsedUpAlphabetCanEnd shows, and LongestEndsIf and GoesOnAlwaysEnds hold without it.
- LongestFlags.LongestMatch: for groups without blocking parameters (commands), all of whose parameters the scoped traverser reaches at every match.
- Threads.After: what the reactor still extracts once the main thread has closed the PV is not modelled; nothing of it is published.
- Stackers.StartsApart: for strictly increasing input only; after a dropped sample a batch may start anywhere.
- Watchers.UpToDateUnlessPending: for a file whose lines are a function of its modification time; the time of a look is one instant, and lines come already stripped.
- JoinedFlags.TryMatchJoined: for matches that do not take a proper part of the prefix where the argument starts with it, without which the loop need not end. The temporary parser is a function that answers with a flag of the group at the front of the argument, or not at all; what is recorded for later replay is not modelled.
- The scoped traverser, the parser proper, actions and usage formatting of clipp.
- Parameter values, repeatability and predicates of clipp: a parameter is an id, two flags and its spellings.
- Mergers.FinishPrepare: the waiting loop before it only observes the table.
