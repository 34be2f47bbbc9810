# nvtop in Dafny

This project models the parts of nvtop whose correctness rests on state, loops and
arithmetic, and proves what they promise. The modules follow the program:

- **Hash table** (`include/uthash.h`): `Sequences`, `HashBuckets`, `UtHashTable`, `HashRuns`, `MergeSort`, `HashSort`. Linked
  chains and the application-order list are heap structures; the table is proved to be a finite map that remembers the
  order of insertion, over any run, and the in-place list sort to be a stable sort that leaves the chains alone.
- **Window layout** (`src/interface_layout_selection.c`): `TaggedSums`, `ChartMerging`, `ChartPacking`, `ChartSearch`,
  `PackingBest`, `ChartPlan`, `StackBalance`, `StackOrder`, `StackFilling`, `ChartGrid`, `HeaderLayout`, `WindowLayout`,
  `ChartOrder`. Charts are merged, packed, spread and given windows; packing is proved to miss no arrangement, infos are
  conserved, no stack stays empty, windows tile the screen, and it is proved for which devices the charts stay in order.
- **Process pool** (`djeti/sys_proc_pool.c`, `src/interface.c`): `ProcHandoff` and `ProcShutdown` are the step system of
  the two threads, `ProcPool` and `ProcRuns` the heap of records and its life, `ProcOrder` the comparator and the sorted
  frame, `ProcStat` the parser of the stat file.
- **Monitored GPUs** (`src/interface_options.c`, `include/list.h`): `IntrusiveList`, `FdinfoCallbacks`, `MonitoredGpus`.
- **Configuration** (`src/ini.c`, `src/interface_options.c`): `IniText`, `IniReader`, `IniParser`, `IniRoundTrip`,
  `IniLines`, `ConfigNames`, `ConfigFile`, `ConfigHandler`, `ConfigLines`, `ConfigSettings`, `ConfigDevices`,
  `ConfigText`, `ConfigRoundTrip`.
- **Caches, descriptors and samples** (`src/extract_*.c`): `Generations`, `ClientCache`, `ProcessCache`, `FdinfoSweep`,
  `UtilizationFilter`.
- `Arithmetic`, `CIntegers`, `Decimal`, `Options`, `PlotLimits` and `ProcessFields` are shared helpers.

Objects that the program changes in place are classes or arrays, and their methods are proved against functions on
sequences and maps; the properties are then proved of those functions. What the environment does (the process directory,
`stat`, `kcmp`, the driver's answers, the clock, printing of floating point numbers) is an input.

## Where the code does not do what is said of it

- Balancing stacks can move a chart below a later one, although its name says that the order is preserved. A chart can
  move down if and only if it leaves the next stack no wider than its own was (`StackOrder.CanMoveExactly`), and the move
  keeps the order if and only if the chart is the last of its stack (`StackOrder.MoveKeepsOrder`). The whole search keeps
  the order of charts that do not get wider (`StackOrder.NarrowingStaysInOrder`); hence every chart gets a window that its
  infos divide whenever no device draws more infos than one before it, and either no two neighbours can share a chart or
  there are rows for a stack each (`ChartOrder.NarrowingDevicesGetTheirWindows`). Otherwise it can fail: devices drawing
  1, 4 and 4 infos on 80 columns and 23 rows get a window with 14 columns for 4 infos
  (`ChartOrder.OutOfOrderChartGetsWrongWindow`), which the assertion in `src/interface.c:2621` does not allow. The
  condition on the whole search goes one way only: a chart that was passed can later follow, so that a lost order can come
  back (`ChartOrder.LostOrderCanComeBack`).
- The two unsigned subtractions of the device header do not wrap around if and only if there is a device and the screen is
  as wide as one header, or there is neither a device nor a column (`HeaderLayout.HeaderSubtractionsAreSafe`).
- The device windows end above the bands below them if and only if there is no device or the screen has rows for all
  header rows; with fewer rows the last header row ends below the screen (`WindowLayout.ComputeSizesFromLayout`).
- `plot_height_modifier` is described as rows added to the plots (`include/nvtop/interface_options.h:55`); the code
  subtracts it, as an unsigned number. It adds rows only if it is 0, if it takes away exactly the rows there are, or if it
  is the least integer on a screen of at least 2^31 rows (`WindowLayout.ModifierAddsNoRows`); with 40 rows and a modifier
  of 3 there are 37 (`WindowLayout.ThreeRowsLess`).
- If the process directory cannot be opened after the collection, the frame keeps pointers to freed records exactly if a
  process of the frame is gone (`ProcPool.Pool.Produce`). The same method states that a frame without any process, after
  more than 32 slots were allocated, releases the slot arrays and keeps using them.
- The comment on the pool says that a reused pid starts with a clean baseline; when it does is `ProcPool.CleanStart`.
- The stat file is read by its first line, anchored at the last parenthesis so that any program name is read. A name can
  hold a newline: of the names shorter than 44 characters (Linux keeps at most 15) those with a newline are never read,
  so their process does not appear, and all others are (`ProcStat.StatRoundTrip`).
- Priority and nice columns are compared as unsigned numbers: they are in numerical order if and only if the signs agree
  (`ProcOrder.SignedColumnsNeedOneSign`, `ProcOrder.NegativeNiceComesLast`).
- The header of the pool says that `sys_proc_pool_frame_begin` blocks; it does not, and the model follows the code.
- A CPU usage is measured against the latest row of the same process, which may belong to another device of the same
  refresh (`ProcessCache.MeasuredFromLatestVisit`).
- If a client is measured twice at the same time, the share of each engine that was not busy is a division by zero
  (`ClientCache.NoTimeElapsed`).
- After a failed query the usage function returns before the rows without a sample are set to 0
  (`UtilizationFilter.RowsAreComplete` says exactly when all rows are complete).
- Saved options come back unchanged only under the conditions of `ConfigRoundTrip.SettingsComeBack` and
  `ConfigRoundTrip.DeviceComesBack`; an empty column set and the plot height are not restored.

## Model

| member | source | states |
|---|---|---|
| HashBuckets.FindInBucket | include/uthash.h:744-762 | the walk along a chain ends with the element whose hash and key match, or with none if the chain has none |
| HashBuckets.AddToBucket | include/uthash.h:766-784 | the element becomes the head of the chain of its hash, the links of that chain in both directions and its count are right, every other bucket is as before |
| HashBuckets.DelInBucket | include/uthash.h:788-801 | the element leaves its chain, the rest keeps its order, links and count |
| HashBuckets.RehashAll | include/uthash.h:832-868 | every element of the old buckets is in the new chain of its hash and in no other; nonideal_items is the sum of the chain excesses over the ideal length, and every multiplier is the least multiple of that length that holds the chain, or its excess if that is less |
| UtHashTable.CeilDivIsRoundedUp | include/uthash.h:849-851 | the ideal chain length computed with division and remainder is items over buckets, rounded up |
| UtHashTable.ExpandBuckets | include/uthash.h:832-882 | the number of buckets doubles with the same elements; ideal length and excess are measured anew, and two ineffective expansions in a row inhibit further ones |
| UtHashTable.AddToTable | include/uthash.h:766-784 | the table is expanded if and only if the chain reached its capacity and expansion is not inhibited; otherwise the chain of the hash gets the element as its head and nothing else changes |
| UtHashTable.MakeTable | include/uthash.h:213-242 | a new table has 32 empty buckets |
| UtHashTable.HashTable.CountsAddUp | include/uthash.h:517-564 | the consistency check of the header: bucket counts are chain lengths, add up to num_items, and each element is in the chain of its hash |
| UtHashTable.HashTable.FindKey | include/uthash.h:154-175 | the lookup gives the element of the order with the key, or NULL if there is none |
| UtHashTable.HashTable.Add | include/uthash.h:397-416 | the element goes to the end of the application order and all invariants of list, chains and counters hold again, whether or not the table was expanded |
| UtHashTable.HashTable.Delete | include/uthash.h:451-478 | exactly this element leaves the order and the table; the last one takes the table with it |
| UtHashTable.BindsAfterAdd | include/uthash.h:397-416 | adding rebinds the key of the element and no other |
| UtHashTable.BindsAfterDelete | include/uthash.h:451-478 | deleting unbinds the key of the element and no other |
| HashRuns.Run | include/uthash.h:154-478 | over any run of additions, lookups and deletions on a new table every lookup gives what a finite map holds, and the application order is the order of insertion |
| HashRuns.Execute | include/uthash.h:154-478 | one operation keeps table, map and order in agreement |
| MergeSort.MergeSorts | include/uthash.h:917-955 | merging two runs of which the left one came first gives a sorted run that keeps the old order of equal elements |
| MergeSort.PassDoublesRuns | include/uthash.h:901-960 | a pass makes sorted runs of twice the length out of sorted runs |
| MergeSort.StableSort | include/uthash.h:889-971 | the passes end in a permutation that is sorted and stable |
| HashSort.MergeRuns | include/uthash.h:917-955 | relinking the elements of two runs yields the merge of the two sequences, with back links right and the rest of the list untouched |
| HashSort.Pass | include/uthash.h:900-966 | one pass relinks the list to the pass over the sequence, with forward and back links inverse, and counts at most one merge if and only if the list has at most two runs |
| HashSort.SortTable | include/uthash.h:889-971 | the sort terminates; head, tail and links of the order are those of the sorted sequence, while buckets and chains are not written |
| HashSort.SortIsStable | include/uthash.h:889-971 | the new order is a permutation, sorted and stable for every comparison of elements that orders those of the table, and binds every key as before |
| ChartMerging.WhoToMerge | src/interface_layout_selection.c:33-56 | a pair is found if and only if two neighbouring non-empty charts may be merged; it has the smallest sum, and is the rightmost of those |
| ChartMerging.BestMergeIsUnique | src/interface_layout_selection.c:30-32 | that choice is unique |
| ChartMerging.MergeKeepsConsistent | src/interface_layout_selection.c:165-172 | a merge keeps the infos of every chart equal to the sum over its devices and the devices in order |
| ChartMerging.InUseAfterMerge | src/interface_layout_selection.c:165-173 | a merge removes exactly one chart, so the retries end |
| ChartPacking.PackOnce | src/interface_layout_selection.c:133-181 | the loop with its repeated index terminates with the outcome of next-fit packing: placed, too wide or too few rows |
| ChartPacking.PlacedIsNextFit | src/interface_layout_selection.c:139-181 | charts that were placed are in order, no stack is empty or too wide, a stack is opened only when the one before is full, and seven rows a stack fit |
| PackingBest.NextFitIsFirst | src/interface_layout_selection.c:139-181 | no arrangement in order has a chart on an earlier stack than next-fit packing |
| PackingBest.PackingMissesNothing | src/interface_layout_selection.c:139-181 | packing succeeds if and only if the charts can be arranged in order on stacks of the columns and of seven rows each |
| PackingBest.TooWideForScreen | src/interface_layout_selection.c:151-154 | it is given up without merging only for a chart wider than the screen |
| ChartSearch.SettlesOnce | src/interface_layout_selection.c:130-181 | merging and packing until it fits has one outcome |
| ChartSearch.SettledPlan | src/interface_layout_selection.c:130-181 | in the outcome no info is lost by any number of merges and devices are still in order |
| ChartSearch.OneChartPerDeviceWhenRoomy | src/interface_layout_selection.c:130-132 | when a stack for every drawing device fits, nothing is merged |
| ChartSearch.ArrangeableIsLaid | src/interface_layout_selection.c:130-132 | charts of single devices that can be arranged in order are never merged |
| ChartSearch.MergedChartsAreSmall | src/interface_layout_selection.c:162-173 | a merged chart draws at most four infos |
| ChartSearch.NoRoomMeans | src/interface_layout_selection.c:130-181 | no place is found only if merged charts remain that cannot be arranged in order, of which one is wider than the screen or no two neighbours draw few enough infos |
| ChartPlan.CompactCharts | src/interface_layout_selection.c:183-207 | charts in use move over the empty ones in order, empty ones are left behind them, and every drawing device follows its chart to the new number |
| ChartPlan.RenumberedInfos | src/interface_layout_selection.c:186-207 | renumbering keeps the infos of every chart in use |
| ChartPlan.RenumberedOrder | src/interface_layout_selection.c:186-207 | renumbering keeps drawing devices in order |
| ChartPlan.SearchConfiguration | src/interface_layout_selection.c:130-181 | the retry loop terminates with the outcome of the search |
| ChartPlan.PreliminaryPlotPositioning | src/interface_layout_selection.c:111-208 | stacks are opened exactly when something is drawn, the rows suffice and the search succeeds; then charts number from 0, each has the infos of its devices and is not empty, devices map monotonically, stacks are nondecreasing, fit the columns and have seven rows |
| ChartPlan.LayoutConservesInfos | src/interface_layout_selection.c:75-84 | the charts of a layout draw together what the devices draw |
| StackBalance.SizeDifferencesBetweenStacks | src/interface_layout_selection.c:96-109 | the score is the sum of pairwise differences, and 0 if and only if all stacks are equally wide |
| StackBalance.MovePlotToStack | src/interface_layout_selection.c:58-73 | the chart moves if and only if it is elsewhere and fits; the allocated columns stay the true sums within the limit, and a refused move changes nothing |
| StackBalance.TryMoveDown | src/interface_layout_selection.c:217-235 | a move down is kept exactly when it fits and does not worsen the score; otherwise moving back succeeds and restores the state |
| StackBalance.BalanceInfoOnStacks | src/interface_layout_selection.c:210-237 | the search terminates although moves with equal score are accepted, with the columns in step with the stacks |
| StackBalance.BalancedResult | src/interface_layout_selection.c:210-237 | charts only move to later stacks, the score never grows, and at the end no single move to the next stack fits without worsening it |
| StackOrder.CloserIsMoreEven | src/interface_layout_selection.c:96-109 | making two neighbouring stacks more alike lowers the score by at least as much |
| StackOrder.CanMoveExactly | src/interface_layout_selection.c:217-235 | the two tests of the search come to one: a chart can move down if and only if there is a next stack and it leaves that no wider than its own was |
| StackOrder.MoveKeepsOrder | src/interface_layout_selection.c:210-237 | a move down keeps charts in order if and only if the chart is the last of its stack |
| StackOrder.NarrowingStaysInOrder | src/interface_layout_selection.c:210-237 | the search ends with the charts in order if they started so and do not get wider |
| StackFilling.MoveStaysBacked | src/interface_layout_selection.c:217-235 | a move can empty a stack, but never one before a stack with two charts |
| StackFilling.BalancingFillsStacks | src/interface_layout_selection.c:210-237 | balancing a packing over no more stacks than charts leaves a chart on every stack |
| ChartGrid.PositionsMatchCharts | src/interface_layout_selection.c:376-404 | position k is made for chart k for all k if and only if the stack numbers are nondecreasing |
| ChartGrid.SeatsForAll | src/interface_layout_selection.c:379-404 | the positions are made for every chart, each once |
| ChartGrid.PlaceStack | src/interface_layout_selection.c:380-401 | the charts of a stack stand side by side, each where the ones before it end; each has the columns its infos are due, at least its minimum, and a multiple of its infos besides the frame |
| ChartGrid.DueWidthIsFair | src/interface_layout_selection.c:388-395 | the drawing columns of a chart are the largest multiple of its infos within its part of the columns of the stack |
| ChartGrid.SlotIsPart | src/interface_layout_selection.c:388-398 | the next chart of a stack begins behind all whole columns of the part of the one before |
| ChartGrid.StackUsesItsColumns | src/interface_layout_selection.c:388-401 | the columns of a stack that its charts leave unused are fewer than its infos |
| ChartGrid.PlaceCharts | src/interface_layout_selection.c:376-404 | every position gets the window of its chart on the band of its stack |
| ChartGrid.GridTiles | src/interface_layout_selection.c:370-404 | no two chart windows overlap, and all lie inside the columns and the band of the stacks |
| HeaderLayout.HeaderGridFits | src/interface_layout_selection.c:247-252 | the device grid has a cell for every device, and a row of devices fits a screen at least one device wide |
| HeaderLayout.HeaderGridIsSmallest | src/interface_layout_selection.c:247-250 | no grid of devices that fits the screen has fewer rows |
| HeaderLayout.HeaderRowsAreFull | src/interface_layout_selection.c:247-252 | either all rows of the grid are full or none has room for a further device; on a narrower screen every device has a row |
| HeaderLayout.HeaderSubtractionsAreSafe | src/interface_layout_selection.c:342-346 | the header subtractions, the second of them under its guard, do not wrap around if and only if there is a device and the screen is as wide as one header, or there is neither device nor column |
| WindowLayout.TableMinimum | src/interface_layout_selection.c:19-21 | the table asks for seven rows, or one more than three a device or a third of the screen, whichever is less |
| WindowLayout.TableGetsItsRows | src/interface_layout_selection.c:254-269 | a table is shown if and only if it is wanted and two rows are left below the header; it gets its minimum, or all of these rows |
| WindowLayout.StatsGridFits | src/interface_layout_selection.c:279-299 | the grid of the CPU/mem band has a cell for half of the processors and one more, and no row to spare, for the sub-columns of each range |
| WindowLayout.ReserveRows | src/interface_layout_selection.c:254-308 | header, process table, plots and CPU/mem band share the rows without overlap; the table has its minimum, shrunk where the screen is too small; plots and band get what header and table leave, less the height modifier as an unsigned number; the band gets all it wants of the rows beyond a second table minimum |
| WindowLayout.ModifierAddsNoRows | src/interface_layout_selection.c:272-273 | the modifier adds rows, as it is described, only if it is 0, takes exactly all rows away, or is the least integer on a huge screen; a positive one removes rows |
| WindowLayout.ThreeRowsLess | src/interface.c:2863-2868 | one press of the key takes three rows away |
| HeaderLayout.HeaderDisjoint | src/interface_layout_selection.c:352-368 | device windows do not overlap |
| HeaderLayout.PlaceHeaders | src/interface_layout_selection.c:349-368 | device k has the window of the cell in row k / perRow and column k % perRow |
| HeaderLayout.LastRowIsUsed | src/interface_layout_selection.c:247-252 | the last device is in the last row of the grid, so no header row is reserved in vain |
| HeaderLayout.ArrangeHeader | src/interface_layout_selection.c:341-368 | device windows are in their cells with the blanks there is room for, disjoint, on the screen, and end exactly within the rows of the grid and its blank lines |
| WindowLayout.AddStacks | src/interface_layout_selection.c:320-325 | stacks are added as long as there are charts for them, eleven rows for each, and no further |
| WindowLayout.InfoInPlot | src/interface_layout_selection.c:75-84 | the infos of a chart with a drawing device are the sum over its devices, and not 0, as the source asserts |
| WindowLayout.PackedHasCharts | src/interface_layout_selection.c:327-331 | every chart of a layout has a drawing device, so that assertion cannot fail |
| WindowLayout.SpreadCharts | src/interface_layout_selection.c:327-339 | the recorded columns are the true sums and no stack is too wide, before and after balancing |
| WindowLayout.StackRows | src/interface_layout_selection.c:372-376 | every stack has at least seven rows, at most twelve beside a process table, and the stacks fit the rows of the plots |
| WindowLayout.StackHeightIsLargest | src/interface_layout_selection.c:372-376 | stacks are as high as the rows of the charts allow, but at most twelve rows beside a table |
| WindowLayout.ArrangeCharts | src/interface_layout_selection.c:370-420 | the chart windows tile the band under the header |
| WindowLayout.PlanCharts | src/interface_layout_selection.c:306-339 | charts are shown if and only if something is drawn, rows suffice and the search finds a place; their stacks follow from the plan, the added stacks and balancing |
| WindowLayout.SpreadFillsStacks | src/interface_layout_selection.c:318-339 | no stack of the layout is without a chart, also after stacks were added |
| WindowLayout.ComputeSizesFromLayout | src/interface_layout_selection.c:238-434 | for all inputs charts, CPU/mem band and process table are stacked in order below the header and end at the last row; table and band have the rows they are due, every device its cell of the grid, every chart its window and every stack a chart; blank lines, stacks and their height are as large as the rows allow, and the device windows end above the bands if and only if the screen has rows for them |
| ChartOrder.OrderedChartsGetTheirWindows | src/interface.c:2612-2622 | with nondecreasing stacks the drawing columns of every chart window divide among its infos, so the assertion on the buffer holds |
| ChartOrder.NarrowingChartsGetTheirWindows | src/interface.c:2612-2622 | so they do in every layout whose charts do not draw more infos than those before them |
| ChartOrder.NarrowingDevicesGetTheirWindows | src/interface.c:2612-2622 | so they do if no device draws more infos than one before it, and no two can share a chart or there are rows for a stack each |
| ChartOrder.LostOrderCanComeBack | src/interface_layout_selection.c:210-237 | for five charts on 55 columns the second move of balancing loses the order, and the end is in order again |
| ChartOrder.BalancingBreaksOrder | src/interface_layout_selection.c:210-237 | charts of widths 15, 45 and 45 on 80 columns are balanced to stacks 1, 0, 1, and to nothing else |
| ChartOrder.OutOfOrderChartGetsWrongWindow | src/interface.c:2621-2622 | laying out three devices on 80 columns and 23 rows gives a chart of four infos a window with 14 columns for them |
| ProcHandoff.RunKeepsInv | djeti/sys_proc_pool.c:363-506 | one token moves between the semaphores and the threads, in every state of every interleaving |
| ProcHandoff.NeverTogether | src/interface.c:681-721 | frame_ready + frame_done + producer inside + consumer holding is 1; the threads are never at the frame together, and records are released only after the producer returned |
| ProcHandoff.EveryFrameOnce | src/interface.c:1723-1755 | frames are shown in the order in which they are produced, each once; while running at most one is not shown yet |
| ProcHandoff.JoinIsNotBlocked | src/interface.c:709-721 | no reachable state has the producer blocked while the main thread is in join |
| ProcShutdown.StopEnds | src/interface.c:709-721 | once the flag is cleared every interleaving ends within a bounded number of steps and at most one more frame is produced |
| ProcShutdown.OnlyFreedIsFinal | djeti/sys_proc_pool.c:339-357 | a reachable state has no next step if and only if the pool is released |
| ProcShutdown.AtMostTwoFramesLost | djeti/sys_proc_pool.c:363-368 | over a whole life of the pool at most two frames are produced and never shown |
| ProcShutdown.TwoFramesCanBeLost | djeti/sys_proc_pool.c:363-368 | that bound is reached |
| ProcOrder.StrCmpIsTransitive | djeti/sys_proc_pool.c:294-295 | the order of the command column is transitive |
| ProcOrder.PidDifference | djeti/sys_proc_pool.c:300-301 | the tie-break by unsigned subtraction and conversion is the difference of the pids for positive pids |
| CIntegers.ConversionsWrap | djeti/sys_proc_pool.c:300-301 | conversions to a type of fixed width keep a number up to whole turns of the type |
| ProcOrder.DescendingIsReverse | djeti/sys_proc_pool.c:288-303 | descending order compares the other way round, and records compare equal only if pids and keys are equal |
| ProcOrder.ComparatorIsOrder | djeti/sys_proc_pool.c:288-303 | for every column and direction the comparator is a total order, strict between different pids |
| ProcOrder.FrameIsSorted | djeti/sys_proc_pool.c:477-484 | the frame is a permutation of the scanned records in strictly ascending order |
| ProcOrder.OneOrder | djeti/sys_proc_pool.c:480-483 | there is one such order, whatever qsort does |
| ProcOrder.FrameIgnoresScanOrder | djeti/sys_proc_pool.c:394-484 | the frame does not depend on the order of the directory |
| ProcOrder.TogglingReverses | djeti/sys_proc_pool.c:302 | toggling the direction reverses the frame exactly |
| ProcOrder.NumberColumns | djeti/sys_proc_pool.c:269-276 | size, thread and time columns sort by their own values |
| ProcOrder.PidColumns | djeti/sys_proc_pool.c:261-264 | the pid columns sort by pid and parent, and columns without a value of their own by pid |
| ProcOrder.ShareColumns | djeti/sys_proc_pool.c:277-280 | CPU and memory columns sort by their own share in hundredths of a percent |
| ProcOrder.CommandColumn | djeti/sys_proc_pool.c:294-295 | commands are ordered by the first character that differs, a command before its continuations |
| ProcOrder.FrameFollowsColumn | djeti/sys_proc_pool.c:288-303 | ascending frames begin with the least value, descending ones with the greatest, and equal values go by pid |
| ProcOrder.SignedColumnsNeedOneSign | djeti/sys_proc_pool.c:265-268 | priority and nice are ordered numerically if and only if both values are negative or neither is |
| ProcOrder.NegativeNiceComesLast | djeti/sys_proc_pool.c:267-268 | a nice value of -5 sorts after 0 |
| ProcPool.Pool.constructor | djeti/sys_proc_pool.c:309-337 | a new pool owns no record and has an empty frame |
| ProcPool.Pool.Collect | djeti/sys_proc_pool.c:380-392 | exactly the records of the frame whose process is gone are freed, each once, and their index entries cleared |
| ProcPool.Pool.Scan | djeti/sys_proc_pool.c:394-453 | every entry has its record in the index, allocated if needed and otherwise the same one as before; slot i holds the i-th readable process |
| ProcPool.Pool.ShrinkRecords | djeti/sys_proc_pool.c:455-464 | unused slots are at most 32 afterwards and the slots in use are kept; the array is lost exactly for a request of zero bytes |
| ProcPool.Pool.ResizeSorted | djeti/sys_proc_pool.c:466-476 | the frame array has between h and h + 32 slots, also when the difference wraps around |
| ProcPool.Pool.BuildFrame | djeti/sys_proc_pool.c:477-484 | the frame points to the index records of the scanned pids, pairwise distinct and in order |
| ProcPool.Pool.Produce | djeti/sys_proc_pool.c:370-484 | index, frame and ownership invariants hold after every successful scan; nothing is freed twice or lost; after a failed one a frame pointer dangles if and only if its process is gone |
| ProcPool.Pool.FrameDone | djeti/sys_proc_pool.c:502-506 | exactly the records of the frame are no longer fresh |
| ProcPool.Pool.FreeAll | djeti/sys_proc_pool.c:339-357 | every record allocated and not yet freed is freed, once |
| ProcPool.CollectedAt | djeti/sys_proc_pool.c:380-392 | a pid loses its record if and only if it is in the frame and its process is gone |
| ProcPool.VisitedOnce | djeti/sys_proc_pool.c:411-449 | each process is measured against its own previous sample, wherever the directory lists it |
| ProcPool.ReadRecord | djeti/sys_proc_pool.c:405-446 | a process that is read shows every value as read, its memory share, and has the sample as its next baseline |
| ProcPool.ReadCpuShare | djeti/sys_proc_pool.c:425-441 | the CPU share is user and kernel time together, in percent of the ticks since the process's own last sample, and 0 if no time has passed |
| ProcPool.FirstReading | djeti/sys_proc_pool.c:412-418 | without a baseline the share is 0; a process that cannot be read keeps its record or gets an empty one |
| ProcPool.RenderedAt | djeti/sys_proc_pool.c:502-506 | after frame_done exactly the records of the frame are not fresh, and nothing else of any record changed |
| ProcRuns.WholeLife | djeti/sys_proc_pool.c:309-506 | after any run of successful scans that list a process, index, frame and every baseline are a function of the history, and the release leaves no record allocated |
| ProcRuns.LastSampleIsBaseline | djeti/sys_proc_pool.c:418-449 | after any run the baseline of a process that was read last is its last sample |
| ProcPool.ScanOrderDoesNotMatter | djeti/sys_proc_pool.c:394-484 | records and frame are the same for every order of the directory |
| ProcPool.CleanStart | djeti/sys_proc_pool.c:375-379 | a process starts without a baseline if and only if its pid had no record, or one without a sample, or one in the last frame that was collected |
| ProcStat.Tokenize | djeti/sys_proc_pool.c:111-126 | the field pointers are the beginnings of the first blank-separated fields and the places behind them |
| ProcStat.TokensOfLine | djeti/sys_proc_pool.c:111-126 | tokenizing a written line finds its fields, as many as there is room for |
| ProcStat.TailIsLine | djeti/sys_proc_pool.c:139-149 | the last closing parenthesis is the anchor of the fields, whatever the program name contains |
| ProcStat.ReadStat | djeti/sys_proc_pool.c:128-170 | the parser computes the function that the round trip is about |
| Decimal.AnyNumber | djeti/sys_proc_pool.c:153-163 | numbers that do not fit saturate, and negative ones wrap around where they are read as unsigned |
| Decimal.LeadIsSkipped | djeti/sys_proc_pool.c:153-163 | white space in front of a number and a plus sign do not count |
| ProcStat.StatRoundTrip | djeti/sys_proc_pool.c:136-168 | if 22 fields follow and the line fits the buffer, state, parent, times, priority, nice, threads and sizes are read as they were written for every program name in one line; names shorter than 44 characters are read if and only if they are in one line, and otherwise nothing is read |
| IntrusiveList.Unlink | include/list.h:87-91 | linking the neighbours of an element to each other leaves the ring without it |
| IntrusiveList.Delete | include/list.h:87-98 | the element leaves the ring, the others keep their order and both links |
| IntrusiveList.Add | include/list.h:67-73 | the element becomes the first of the ring |
| IntrusiveList.AddTail | include/list.h:77-83 | the element becomes the last of the ring |
| IntrusiveList.MoveTail | include/list.h:118-122 | the element leaves one ring and ends the other |
| IntrusiveList.Move | include/list.h:110-114 | the element leaves one ring and begins the other |
| FdinfoCallbacks.Registry.Enable | src/extract_processinfo_fdinfo.c:80-86 | exactly the callbacks of the device change |
| MonitoredGpus.DemoteFlagged | src/interface_options.c:68-82 | the first loop moves the flagged devices behind the others, list and array in step |
| MonitoredGpus.PromoteFlagged | src/interface_options.c:83-96 | the second loop moves the unflagged devices behind the monitored ones, list and array in step, and visits every device |
| MonitoredGpus.CheckAndFixMonitoredGpus | src/interface_options.c:65-107 | afterwards the array lists the devices of both lists in order, the result is the number of monitored ones, and the callbacks are those of before, enabled for the one list and disabled for the other |
| MonitoredGpus.FixedIsPermutation | src/interface_options.c:65-107 | no device is lost or duplicated, flags agree with the lists, and some device is monitored if there is any |
| MonitoredGpus.FlaggedInOrder | src/interface_options.c:65-107 | devices that go to the same list keep their order |
| MonitoredGpus.OneIsKept | src/interface_options.c:97-103 | if no device is to be monitored, the first of those that were not is, or else the first of all |
| MonitoredGpus.FixingTwiceChangesNothing | src/interface_options.c:65-107 | a second call changes nothing |
| MonitoredGpus.CallbacksFollow | src/interface_options.c:104-105 | enabling one list and disabling the other leaves every callback of a listed device active if and only if the device is monitored, and drops, moves or changes no other callback |
| IniText.RstripInPlace | src/ini.c:48-53 | white space at the end is removed, and only that |
| IniText.FindCharsOrComment | src/ini.c:65-78 | the search stops at the first wanted character, or semicolon after white space |
| IniText.Strncpy0 | src/ini.c:82-89 | the copy is the text, or as much of it as fits |
| IniLines.FindsMark | src/ini.c:62-78 | the search ends at a wanted character if and only if there is one before any comment |
| IniLines.StripSplit | src/ini.c:47-53 | only white space is dropped at the end |
| IniLines.SkipSplit | src/ini.c:55-60 | only white space is passed at the beginning, and all of it |
| IniLines.SpaceCodes | src/ini.c:48-60 | white space is what isspace accepts |
| IniReader.StringContext.Read | src/ini.c:252-275 | a read gives the next chunk and leaves the rest |
| IniReader.ChunksConcat | src/ini.c:252-275 | the chunks put together are the text |
| IniReader.ChunksAreLines | src/ini.c:252-275 | a chunk has at most num - 1 characters, and a newline at its end only |
| IniParser.ParseOne | src/ini.c:150-214 | one line: comment, continuation, section, pair or error |
| IniParser.ParseStream | src/ini.c:92-230 | the loop makes the calls of all lines in order and returns the number of the first line in error |
| IniLines.LineShape | src/ini.c:150-159 | white space around the text of a line is dropped, and the line is indented if there was any before it |
| IniLines.MarkedLine | src/ini.c:142-149 | a byte order mark before the first line is dropped, and makes it indented |
| IniLines.EmptyLine | src/ini.c:150-153 | a line of white space does nothing |
| IniLines.CommentDoesNothing | src/ini.c:152-154 | a line that begins with a semicolon or hash, indented or not, makes no call and is no error |
| IniLines.ContinuationLine | src/ini.c:156-163 | an indented line after a pair calls the handler with the name of that pair and the whole line |
| IniLines.PairWithComment | src/ini.c:187-204 | a name, an equals sign or colon, and a value give the handler name and value, without white space and without the comment behind the value |
| IniLines.SectionBegins | src/ini.c:165-177 | a section line sets the section, whatever follows the bracket, and ends continuation |
| IniLines.LineInError | src/ini.c:178-214 | a line is in error if and only if its section is not closed, or it has no separator, outside of comments |
| IniLines.ErrorDoesNothing | src/ini.c:178-214 | a line in error makes no call and changes nothing |
| IniLines.ErrorIsFirst | src/ini.c:120-230 | the result is the number of the first line in error or with a rejected call, and 0 if there is none |
| IniLines.AllLinesCall | src/ini.c:120-230 | all lines make their calls in order, also after an error |
| IniRoundTrip.PairLine | src/ini.c:187-204 | a printed pair is read as the same name and value |
| IniRoundTrip.SectionLine | src/ini.c:172-186 | a printed section is read as the same section |
| IniRoundTrip.RoundTrip | src/ini.c:92-284 | printed sections and pairs cause exactly the calls they stand for, in order, and the result is 0 if and only if the handler accepts all of them |
| ConfigNames.LookUp | src/interface_options.c:298-313 | the loop over the names finds the place of the word |
| ConfigFile.File.Save | src/interface_options.c:396-469 | the written text consists of the lines of the notice, the settings and the devices, in order |
| ConfigHandler.Handler.Handle | src/interface_options.c:211-354 | the handler changes exactly the option that section and name stand for, and only for a value it knows |
| ConfigHandler.Handler.HandleAll | src/interface_options.c:211-354 | the handler over all calls of the parser |
| ConfigLines.GeneralLine | src/interface_options.c:214-236 | a line of the general section changes the option it names only, for a value it knows |
| ConfigLines.IntervalWithoutDigits | src/interface_options.c:223-227 | an interval without a digit is not read |
| ConfigLines.HeaderLine | src/interface_options.c:238-260 | so does a line of the header section |
| ConfigLines.ReverseLine | src/interface_options.c:263-270 | the chart direction is set by true and false only |
| ConfigLines.ColorLine | src/interface_options.c:271-278 | the name of a color sets the color of the plot line that is named |
| ConfigLines.OtherChartLine | src/interface_options.c:271-278 | other names and colors do nothing |
| ConfigLines.ListLine | src/interface_options.c:281-297 | the flags of the process list are set by true and false only |
| ConfigLines.OrderLine | src/interface_options.c:315-322 | the sort order is set by its two words only |
| ConfigLines.FieldLine | src/interface_options.c:298-314 | the name of a column displays it besides the others, or sorts by it |
| ConfigLines.OtherFieldLine | src/interface_options.c:298-314 | other names of columns do nothing |
| ConfigLines.DeviceLine | src/interface_options.c:326-334 | the name of a device selects the first one that has it, or none |
| ConfigLines.NoDevice | src/interface_options.c:335 | without a selected device the other lines do nothing |
| ConfigLines.MonitorLine | src/interface_options.c:346-351 | the flag of the selected device is set, of no other |
| ConfigLines.MetricLine | src/interface_options.c:336-345 | a metric is drawn as long as there are less than four, and the set marked as long as there is room after that |
| ConfigLines.NoMetricLine | src/interface_options.c:336-345 | the word none marks the set, other words do nothing |
| ConfigLines.OtherDeviceLine | src/interface_options.c:325-353 | other names of a device section do nothing |
| ConfigLines.OtherSection | src/interface_options.c:211-354 | lines of other sections do nothing |
| ConfigSettings.Load | src/interface_options.c:357-368 | loading parses the file into fresh options, repairs the sort column and replaces what was not given by defaults |
| ConfigSettings.ScannedInt | src/interface_options.c:223-227 | a printed interval is read as the same number |
| ConfigSettings.FirstOfIsFirst | src/interface_options.c:493-519 | the default sort column is the first candidate that is displayed |
| ConfigSettings.FieldNameRead | src/interface_options.c:298-313 | the name of a column is read as the column, and "none" as none |
| ConfigSettings.ColumnsApplied | src/interface_options.c:440-448 | the saved columns are read as the same set, marked as given unless it is empty |
| ConfigDevices.ShownApplied | src/interface_options.c:455-463 | the saved metrics are read as the drawn set, marked as given also when it is empty |
| ConfigDevices.DeviceApplied | src/interface_options.c:324-353 | a device section changes the first device of its name and nothing else, and nothing if there is none |
| ConfigDevices.DrawnSetRestored | include/nvtop/interface_options.h:71-76 | the drawn set is restored if and only if it has at most four metrics |
| ConfigText.FileWell | src/interface_options.c:396-469 | every written line is one the parser reads back, and fits its buffer |
| ConfigRoundTrip.SavedIsParsed | src/interface_options.c:357-368 | parsing a saved file calls the handler for every pair and returns 0 |
| ConfigRoundTrip.LoadingSaved | src/interface_options.c:357-368 | what loading a saved file gives, for all options and for devices found in any order and number |
| ConfigRoundTrip.SettingsComeBack | src/nvtop.c:285-304 | the settings come back unchanged if and only if the timer survives printing, a column is displayed, the sort column is displayed or the default, and the plot height is unmodified |
| ConfigRoundTrip.DeviceComesBack | src/interface_options.c:450-465 | a device comes back unchanged if and only if it draws at most four metrics |
| ConfigRoundTrip.FirstIsIn | src/interface_options.c:493-519 | the default sort column is a displayed one, and there is none exactly if no candidate is displayed |
| Generations.Cache.TakeLast | src/extract_gpuinfo.c:221-223 | an entry that is taken out of the last generation is in no table |
| Generations.Cache.Swap | src/extract_gpuinfo.c:267-277 | exactly the entries not seen are freed, once, and the current generation becomes the last one |
| ClientCache.ParseClient | src/extract_gpuinfo_amdgpu.c:1099-1184 | usages are measured against the previous entry of the client; its entry moves to the current generation, or a second one is freed |
| ClientCache.UsagesAreMeasured | src/extract_gpuinfo_amdgpu.c:1103-1141 | every engine is measured by its own times, if both are there, do not fall and fit the time elapsed; otherwise its usage stays; the GPU shows graphics and compute together |
| ClientCache.SharedEngine | src/extract_gpuinfo_amdgpu.c:1151-1155 | a shared engine shows encoding and decoding together |
| ClientCache.RoundedToNearest | include/nvtop/extract_gpuinfo_common.h:264-268 | the busy share is the percentage rounded to the nearest, and at most 100 |
| ClientCache.NoTimeElapsed | src/extract_gpuinfo_amdgpu.c:1106-1115 | if no time has elapsed, exactly the engines that were not busy are divided by it |
| ClientCache.Refresh | src/extract_gpuinfo_amdgpu.c:1187-1198 | over a refresh no entry is lost or freed twice, and each file contributes what its place in the refresh allows |
| ClientCache.ClientDuringRefresh | src/extract_gpuinfo_amdgpu.c:1099-1184 | what both generations hold of a client after any files |
| ClientCache.GenerationsStayApart | src/extract_gpuinfo_amdgpu.c:1157-1166 | no client is ever in both generations |
| ClientCache.MeasuredOncePerRefresh | src/extract_gpuinfo_amdgpu.c:1155-1166 | a file is measured against the last refresh if and only if it is the first of its client and the client was there |
| ClientCache.UsagesBetweenRefreshes | src/extract_gpuinfo_amdgpu.c:1099-1184 | over two refreshes every engine shows what it did between the first files of the client, by its own times |
| ClientCache.OnlyTheLastRefreshIsRemembered | src/extract_gpuinfo_amdgpu.c:1187-1198 | after any run exactly the clients of the last refresh are remembered, as seen first |
| ProcessCache.VisitRow | src/extract_gpuinfo.c:202-249 | the usage is measured against what either generation knows of the pid, and the entry ends in the current one |
| ProcessCache.Refresh | src/extract_gpuinfo.c:202-288 | over a refresh of all devices no entry is lost, and each row has the usage of its latest earlier reading |
| ProcessCache.MeasuredFromLatestVisit | src/extract_gpuinfo.c:233-249 | that reading is of the same refresh if the pid had an earlier row, otherwise of the last one |
| ProcessCache.MeasuredFromRow | src/extract_gpuinfo.c:228-249 | a row after another one of its process shows the share since that, 0 if that could not be read, and nothing if it cannot be read itself |
| ProcessCache.MeasuredFromLastRefresh | src/extract_gpuinfo.c:228-249 | the first row of a process shows the share since the last refresh, or 0 if it was not read there |
| ProcessCache.OnlyTheLastRefreshIsRemembered | src/extract_gpuinfo.c:267-288 | after any run the cache holds exactly the processes of the last refresh, with their last readings |
| FdinfoSweep.GpuInfo.Record | src/extract_processinfo_fdinfo.c:214-288 | a contribution is added to the row of the process, or to a new one; the array grows by its increment exactly when it is full |
| FdinfoSweep.IsSeen | src/extract_processinfo_fdinfo.c:167-172 | a descriptor counts as seen if and only if the comparison with an earlier one is not positive |
| FdinfoSweep.Ask | src/extract_processinfo_fdinfo.c:192-210 | the first active callback that accepts gets the descriptor |
| FdinfoSweep.EventIsFirstAnswer | src/extract_processinfo_fdinfo.c:164-212 | a new DRM descriptor contributes what the first active callback that accepts makes of it, as graphical work if no kind is given |
| FdinfoSweep.NoEvent | src/extract_processinfo_fdinfo.c:150-210 | a descriptor that is no DRM device, was seen, cannot be opened or is not accepted contributes nothing |
| FdinfoSweep.Sweep | src/extract_processinfo_fdinfo.c:101-300 | every device has the rows that the events of all directories make, in order; nothing happens without an active callback |
| FdinfoSweep.CountedFdsDiffer | src/extract_processinfo_fdinfo.c:164-182 | the descriptors counted for a process are pairwise different open files, and each counts for one device at most |
| FdinfoSweep.SweepTotals | src/extract_processinfo_fdinfo.c:101-300 | each device has one row for each contributing process; every counter is the sum over the unique descriptors its callback was the first to accept, and kinds and valid counters are those reported for any of them |
| FdinfoSweep.RefreshRows | src/extract_gpuinfo.c:279-285 | a refresh drops the rows of all listed devices and sweeps; then each has one row for each contributing process with the sums, and other devices keep theirs but for what active callbacks of theirs accept |
| UtilizationFilter.Device.GetProcessUtilization | src/extract_gpuinfo_nvidia.c:1017-1071 | rows and time stamp after a call, for every answer of the driver |
| UtilizationFilter.NewestCovers | src/extract_gpuinfo_nvidia.c:1033-1059 | the new time stamp covers every accepted sample |
| UtilizationFilter.NewestIsAccepted | src/extract_gpuinfo_nvidia.c:1033-1059 | the new time stamp is the old one or that of an accepted sample |
| UtilizationFilter.MarkGrows | src/extract_gpuinfo_nvidia.c:1059 | the time stamp never decreases over any sequence of calls |
| UtilizationFilter.NoSampleTwice | src/extract_gpuinfo_nvidia.c:1040-1059 | samples applied by a later call are newer than all applied before |
| UtilizationFilter.UsagesAreBounded | src/extract_gpuinfo_nvidia.c:1046-1070 | no usage exceeds 100 percent |
| UtilizationFilter.RowsAreComplete | src/extract_gpuinfo_nvidia.c:1021-1070 | all rows have all usages if and only if no query failed, or they had them before |
| UtilizationFilter.NoSampleNoChange | src/extract_gpuinfo_nvidia.c:1037-1058 | a row for which no sample is accepted keeps what it had |
| UtilizationFilter.LastSampleCounts | src/extract_gpuinfo_nvidia.c:1037-1058 | a row shows the last accepted sample of its process |
| UtilizationFilter.SampleIsShown | src/extract_gpuinfo_nvidia.c:1037-1058 | after a call the row shows the GPU, encoder and decoder usage of that sample |
| UtilizationFilter.AcceptedExactly | src/extract_gpuinfo_nvidia.c:1046-1048 | a sample is accepted if and only if it is newer than the mark, at most 100 percent each, and of a listed process |
| UtilizationFilter.WithoutSample | src/extract_gpuinfo_nvidia.c:1061-1070 | a row without an accepted sample keeps its usages and shows 0 for those it did not have |

## Left out

- ProcPool.Pool.Produce: the directory is a list of distinct positive pids within the limit of the kernel; names that are not numbers, the user column, the separate user and kernel shares and truncation of the command are not modelled, and CPU and memory shares are real numbers without rounding.
- ProcStat.StatRoundTrip: reading and closing of the file, and lines longer than the buffer, are not part of the statement; the resident size is the number of pages.
- HashRuns.Run: hash functions, bloom filters, the selection macro and out-of-memory variants are left out; the hash is an arbitrary function of the key, masking with a power of two is the remainder, and element and handle are one object.
- WindowLayout.ComputeSizesFromLayout: one function of the program is several methods here; sums of columns and infos are unbounded integers, and variables the program computes but does not use are omitted.
- WindowLayout.ReserveRows: the number of processors is an input.
- ChartPlan.LayoutConservesInfos: devices that draw nothing may carry the number of any chart after renumbering; nothing is said about them.
- ProcHandoff.NeverTogether: semaphore operations and accesses to the running flag are single steps in one order; sampling of the system statistics outside the semaphores is left out.
- IniParser.ParseStream: text without NUL characters; the handler's answer depends on the call only.
- ConfigRoundTrip.LoadingSaved: how a floating point number is printed and read is an input; creating directories and opening files are left out, as are the command line options of main.
- ClientCache.ParseClient: reading the keys of the file is an input, and so is the rounding of the busy share, which is described by itself; the same cache of the Intel, Mali and MSM files is modelled once, the v3d cache not at all.
- ProcessCache.VisitRow: user name, command line and memory columns of the row are left out; rounding of the percentage is an input.
- FdinfoSweep.Sweep: the directory lists a process once; counters do not overflow; a callback's answer does not depend on values left behind by another callback.
- FdinfoCallbacks.Registry.Enable: dropping a callback is left out.
- UtilizationFilter.Device.GetProcessUtilization: the number of samples is the length of the answer.
- MonitoredGpus.CheckAndFixMonitoredGpus: a list element is the device itself, without the offset of its link field.
- Vendor queries, terminal drawing, signals and name tables are not modelled.
