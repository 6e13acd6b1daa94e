# CPU scheduling simulator: a verified model of its engine

The simulator is a single browser script, `javascript01.js`. The user adds
process rows, each with an arrival time, a burst time and a priority. The script
numbers the rows 0, 1, 2, … and builds a process record from each row, dropping
rows whose burst is not positive. It then runs one of four scheduling loops:

- Round-Robin with a time quantum;
- Shortest-Remaining-Time, which is preemptive;
- Shortest-Job-Next;
- non-preemptive Priority.

Each loop advances a clock and appends Gantt-chart entries
`(pid, execTime, startTime, endTime)`. It also updates the records in place:
their remaining time and, when a process finishes, its completion, turnaround
and waiting times.

This project models that engine in Dafny and proves what it guarantees.

- `records.dfy` (`Records`) holds the records and their preparation from form
  rows, the finishing metrics, and the sums over the chart and over the records.
- `sorting.dfy` (`Sorting`) models `Array.prototype.sort` with a numeric
  comparator as a stable sort by a lexicographic key. It proves that the result
  is a sorted permutation and that elements with equal keys keep their input
  order, so its head is the first element with the least key.
- `queues.dfy` (`Queues`) holds ready queues as sequences of positions in the
  process array. It has the admission loop `forEach … push` and the filters.
- `timeline.dfy` (`Timeline`) covers what every engine keeps and returns: the
  Gantt chart, per-process accounting, and the step that records one slice.
  It also holds `WholeBook`, the part of the loop invariant that SJN and
  Priority share because both run every chosen process to completion.
- `round_robin.dfy`, `srt.dfy`, `sjn.dfy`, `priority.dfy` and
  `arrival_order.dfy` hold the four engines and the initial in-place sort by
  arrival that two of them perform. Each comparator the engines pass to `sort`
  is written out as it stands in the code, next to the key the model sorts by,
  with a lemma that the comparator's sign follows the key order.
- `ready_loop.dfy` (`ReadyLoop`) holds the loop invariant that SRT and SJN
  share, with its admission and idle-tick steps.
- `dispatch.dfy` (`Dispatch`) is `runScheduling`. It prepares the records,
  derives the engine from the selected algorithm, and runs it.

The engines are imperative. Each one is a `method` over an `array<Proc>` with a
`while` loop, a ghost invariant `Inv` and a termination measure. The measure is
the work left, paired with how far the clock is below the last arrival, and it
covers the idle `currentTime++` ticks. Each engine ends with `Schedule`, which
says:

- every process is finished;
- its metrics are stamped from the end of its last Gantt entry, with
  `turnaround = completion - arrival` and `waiting = turnaround - burst >= 0`;
- it was served exactly its burst;
- the chart is in time order and made of positive slices, and no slice of a
  process starts before the process arrives;
- the total of `execTime` is the total burst, and the total waiting time is the
  total turnaround minus the total burst.

Each engine's loop body is a `Serve` method whose contract fixes one decision
completely:

- which process is chosen, and why it is the right one;
- the slice it gets;
- the new chart, clock, array and queue.

JavaScript identifies a record by its object reference
(`!readyQueue.includes(p)`). The model uses the record's position in the array,
which stays fixed while the engine runs. The initial sorts of SRT and SJN happen
before that, and the model proves them to be a permutation.

Some behaviours of the code worth knowing, and how the model treats them:

- Admission order is array order, for every engine. For Round-Robin that is
  input order, not an order by arrival time.
- Round-Robin with a quantum of 0 gives empty slices, and with a negative
  quantum it gives negative slices: the clock runs backwards and the remaining
  time grows. Either way the loop never ends once some record exists. The
  model's engine requires `quantum > 0`. For a quantum of 0 or less,
  `RunScheduling` reports `InvalidQuantum` when there are records. With no records the code's loop
  does not start, and the model runs nothing and returns the empty schedule.
- The code does not reject negative arrival times or priorities, and the model
  does not require them to be non-negative.
- The lookup upper-cases only the first character. So `RoundRobin`, `Srt`,
  `Sjn` and `Priority` also select an engine (see `ParsePolicyExactly`).
  Outside ASCII the code accepts still more: `'ſ'.toUpperCase()` is `'S'`, so
  `ſrt` and `ſjn` select SRT and SJN. The model's upper case is ASCII only, so
  the "only if" half of `ParsePolicyExactly` holds for the model, not for the
  code.
- SRT's slice is cut at the next later arrival of any process, shorter or not.
  The model keeps that simplified rule.
- Priority sets `remainingTime = 0` directly. The model does the same, and
  proves it equals subtracting the slice.

## Model

| member | source | states |
|---|---|---|
| Records.Initial | javascript01.js:67-84 | no contract; the record built from one row, characterised by `Records.Prepare` and `Records.PrepareFromRows` |
| Records.Prepare | javascript01.js:67-86 | every prepared record has a positive burst, remaining time equal to its burst, and zero completion, turnaround and waiting; a row gives a record exactly when its burst is positive; there are never more records than rows |
| Records.PrepareFromRows | javascript01.js:67-86 | nothing else is in the prepared list: every record is the one built from some row whose burst is positive |
| Records.PrepareAppend | javascript01.js:67-86 | preparation maps and filters row by row without reordering: preparing two blocks of rows is preparing each and concatenating |
| Records.PrepareIdsIncreasing | javascript01.js:29 | rows numbered `first, first+1, …`, as `addProcess` numbers them, give records with strictly increasing ids, none below `first` |
| Dispatch.PreparedForms | javascript01.js:67-86 | rows numbered from 0 prepare to fresh records with pairwise distinct ids, which is what every engine demands |
| Records.PreparedPermutation | javascript01.js:180 | any reordering of prepared records with distinct ids still has fresh records and distinct ids |
| Records.Stamp | javascript01.js:224-226 | stamping at time `c` sets completion to `c`, turnaround to `c - arrival` and waiting to `turnaround - burst`, keeping the input fields and the remaining time |
| Records.Advance | javascript01.js:219-226 | running a record for `e` lowers its remaining time by `e`; if that reaches 0 its metrics are stamped with the clock, otherwise they are unchanged; the input fields are kept |
| Records.Progress | javascript01.js:150 | lowering the remaining time of an unfinished record lowers the total work left, which is what makes every engine terminate |
| Records.CountDoneAll | javascript01.js:182 | the count of finished records reaches `n` exactly when each of the first `n` records is finished, so `completed < length` is the loop condition `some(p => remainingTime > 0)` |
| Records.CountDoneUpdate | javascript01.js:228 | finishing one unfinished record raises the number of finished records by exactly one |
| Records.CountDoneSame | javascript01.js:222 | a slice that leaves a record unfinished leaves the number of finished records unchanged |
| Records.TotalIsSumServed | javascript01.js:137-142 | when every entry belongs to one of the processes, the total `execTime` of the chart is the sum over the processes of the time each was served |
| Records.ServedAll | javascript01.js:137-150 | when each process is served its burst, the sum of the time served is the total burst |
| Records.TotalTurnaround | javascript01.js:418 | no contract; the sum `totalTAT`, characterised by `Records.TotalsRelation` |
| Records.TotalWaiting | javascript01.js:419 | no contract; the sum `totalWT`, characterised by `Records.TotalsRelation` and `Records.TotalWaitingNonNegative` |
| Records.TotalsRelation | javascript01.js:411-419 | the total waiting time is the total turnaround time minus the total burst |
| Records.TotalWaitingNonNegative | javascript01.js:419 | the total waiting time is non-negative when each waiting time is |
| Sorting.SortBy | javascript01.js:180 | no contract; the stable sort used at lines 180, 197, 243, 260 and 312, characterised by `Sorting.SortByCorrect`, `Sorting.SortByStable` and `Sorting.SortByHead` |
| Sorting.Insert | javascript01.js:197 | no contract; one insertion step of that sort, characterised by the lemmas `InsertElements`, `InsertSorted` and `InsertStable` |
| Sorting.SortByCorrect | javascript01.js:197 | the sort returns a permutation of its input, of the same length, ordered by the comparator's key |
| Sorting.SortByStable | javascript01.js:197 | the sort is stable: for every key, the elements with that key come out in the order they went in |
| Sorting.FirstMin | javascript01.js:198 | the first position holding the least key: no key is smaller, and every earlier key is strictly larger |
| Sorting.SortByHead | javascript01.js:197-198 | `sorted[0]` is the first element of the input with the least key, which is how the stable sort breaks ties |
| ArrivalOrder.SortByArrival | javascript01.js:180 | the array is sorted in place: its new contents are the stable sort of the old contents by arrival time |
| ArrivalOrder.ArrivalKey | javascript01.js:180 | no contract; the comparator `a.arrivalTime - b.arrivalTime` of lines 180 and 243 as the key (arrival), characterised by `ArrivalOrder.ArrivalKeyAgrees` and `ArrivalOrder.SortByArrivalPrepared` |
| ArrivalOrder.ArrivalCompare | javascript01.js:180 | no contract; the comparator of lines 180 and 243 as written, characterised by `ArrivalOrder.ArrivalKeyAgrees` |
| ArrivalOrder.ArrivalKeyAgrees | javascript01.js:180 | the comparator is negative exactly when the first record's key is smaller and zero exactly when the keys are equal, so the sort by the key orders records as the comparator does |
| ArrivalOrder.SortByArrivalPrepared | javascript01.js:180 | sorting prepared records by arrival gives a permutation that is still prepared, with arrivals non-decreasing |
| ArrivalOrder.SameInputsSorted | javascript01.js:243 | running an engine does not disturb the arrival order of the sorted records |
| Queues.Eligible | javascript01.js:114 | no contract; the admission test of lines 114 and 160, characterised by `Queues.Arrivals` and `Queues.ArrivalsNext` |
| Queues.Arrivals | javascript01.js:113-117 | position `x` is admitted exactly when it is a process that has arrived by the clock, is not queued, is unfinished and is not the excluded process; nothing is admitted twice |
| Queues.Admit | javascript01.js:113-117 | the admission loop appends exactly `Arrivals` to the tail of the queue |
| Queues.ArrivalsNext | javascript01.js:114 | each index is appended exactly when eligible, and is never already among the admitted ones |
| Queues.ArrivalsOrdered | javascript01.js:113-117 | admitted positions come in increasing array order |
| Queues.AdmitOk | javascript01.js:184-188 | admission keeps the queue without repeats and without finished or future processes, and afterwards every arrived, unfinished process (other than the excluded one) is queued |
| Queues.TailOk | javascript01.js:126 | `shift()` keeps the queue well formed and the removed head is not left in it |
| Queues.PushOk | javascript01.js:164 | pushing an arrived, unfinished, unqueued process keeps the queue well formed |
| Queues.PermutationOk | javascript01.js:197 | re-sorting the queue keeps it well formed and with the same members |
| Queues.SortedQueue | javascript01.js:197-198 | sorting the ready queue by remaining time keeps it well formed; its head is the queue's first process with the least remaining time, and no queued process has less |
| Queues.RemainingKey | javascript01.js:197 | no contract; the comparator `a.remainingTime - b.remainingTime` of lines 197 and 260 as the key (remaining time) of a queue position, characterised by `Queues.RemainingKeyAgrees` and `Queues.SortedQueue` |
| Queues.RemainingCompare | javascript01.js:197 | no contract; the comparator of lines 197 and 260 as written, characterised by `Queues.RemainingKeyAgrees` |
| Queues.RemainingKeyAgrees | javascript01.js:197 | on two positions of the records, the comparator is negative exactly when the first key is smaller and zero exactly when the keys are equal |
| Queues.KeepUnfinished | javascript01.js:287 | the filter keeps exactly the queued processes that are unfinished, and keeps the queue without repeats |
| Queues.KeepUnfinishedAppend | javascript01.js:287 | the filter works element by element, so it keeps queue order: filtering a queue in two parts is filtering each and concatenating |
| Queues.KeepUnfinishedHead | javascript01.js:287 | when only the head of the queue has finished, the filter removes exactly the head |
| Queues.KeepUnfinishedAll | javascript01.js:287 | the filter keeps a queue of unfinished processes unchanged |
| Queues.QueueOkAdvance | javascript01.js:219-220 | running a queued process without finishing it, while the clock moves on, keeps the queue well formed |
| Timeline.Execute | javascript01.js:137-150 | one slice: the chart gets the entry `(pid, exec, t, t + exec)`, the clock becomes `t + exec`, and only the chosen record changes, by `Advance` |
| Timeline.ChainedOrdered | javascript01.js:137-149 | a chart grown one entry at a time, each starting no earlier than the last ended, is in time order, with each entry's end being its start plus its length |
| Timeline.RunSlice | javascript01.js:137-155 | a slice of an arrived process keeps every process's accounting: served time plus remaining time is the burst, metrics are 0 until it finishes and then stamped from its last entry |
| Timeline.SliceBook | javascript01.js:137-155 | a slice of `0 < e <= remaining` for an arrived process keeps the whole bookkeeping of the run |
| Timeline.Finish | javascript01.js:152-155 | when every process is finished the bookkeeping gives `Schedule`: metrics stamped, waiting non-negative, each process served its burst, chart ordered and attributed, totals related |
| Timeline.WholeSliceStep | javascript01.js:264 | a slice as long as the process's burst keeps "every entry is a whole burst" |
| Timeline.WholeRuns | javascript01.js:264-276 | with distinct ids, a chart of whole bursts, one for each process, has every entry as long as the burst of its process |
| Timeline.ServedWhole | javascript01.js:264-276 | if every entry of a process has length `b`, it is served `b` times its number of entries |
| Timeline.OneEntryEach | javascript01.js:318-334 | in a finished non-preemptive schedule every process has exactly one Gantt entry |
| Timeline.WholeStart | javascript01.js:237-240 | before the SJN or Priority loop starts, no process has run, the chart is empty and nothing is counted |
| Timeline.WholeStep | javascript01.js:318-334 | running an unfinished process for all of its remaining time, as SJN (lines 264-283) and Priority do, keeps every entry a whole burst and adds one entry and one finished process |
| Timeline.WholeFinish | javascript01.js:245 | when the SJN or Priority loop exits, the bookkeeping gives `Schedule`, one whole-burst entry per process, and the records' input fields unchanged |
| RoundRobinEngine.Min | javascript01.js:132 | `Math.min`: no larger than either argument and equal to one of them |
| RoundRobinEngine.Pending | javascript01.js:111 | no contract; the loop condition `some(p => p.remainingTime > 0)`, which is false exactly when every record is finished, so `RoundRobinEngine.FinishInv` applies at loop exit |
| RoundRobinEngine.RunRoundRobin | javascript01.js:98-170 | with `quantum > 0` the loop terminates with `Schedule`, the input fields of every record unchanged, every slice at most one quantum, and a slice shorter than the quantum being its process's last |
| RoundRobinEngine.Simulate | javascript01.js:111-168 | the loop keeps the queue well formed, the bookkeeping and the quantum discipline, and ends with the schedule |
| RoundRobinEngine.Serve | javascript01.js:125-165 | the head runs for `min(quantum, remaining)`, the chart, clock and array change by exactly that slice, and work left drops; a finished head leaves the queue; a preempted head goes behind the processes admitted at the new clock |
| RoundRobinEngine.QuantizedBounded | javascript01.js:132 | the per-entry quantum discipline gives the whole-chart one: no slice exceeds the quantum, and no process runs after a short slice of its own |
| RoundRobinEngine.QuantumStep | javascript01.js:132-165 | a `min(quantum, remaining)` slice keeps the quantum discipline, since a short slice finishes its process |
| RoundRobinEngine.RequeueInv | javascript01.js:157-164 | admitting the slice's arrivals and then pushing the preempted process keeps the queue without repeats and without finished processes |
| RoundRobinEngine.IdleInv | javascript01.js:120-123 | an idle tick happens only while some unfinished process has not yet arrived, so the clock stays below the last arrival |
| RoundRobinEngine.SliceInv | javascript01.js:126-155 | a slice for the dequeued head keeps the invariant for the rest of the queue |
| SrtEngine.Later | javascript01.js:205 | keeps exactly the records arriving strictly after the clock |
| SrtEngine.NextArrival | javascript01.js:204-206 | the head of the arrival-sorted later records: a later arrival time that no other later record undercuts |
| SrtEngine.ArrivesDuring | javascript01.js:202 | no contract; the `some` test for an arrival while the head runs, characterised by `SrtEngine.SliceLength` (`e < r` exactly when it holds) |
| SrtEngine.SliceLength | javascript01.js:200-208 | `0 < exec <= remaining`; `exec < remaining` exactly when a process arrives while the head runs, and then the slice ends at the earliest later arrival |
| SrtEngine.RunSrt | javascript01.js:173-234 | the records are first sorted by arrival; the loop terminates with `Schedule`, the records' input fields matching the arrival-sorted input |
| SrtEngine.Simulate | javascript01.js:182-230 | the loop keeps the bookkeeping, the queue and the count of finished processes, and ends with the schedule |
| SrtEngine.Serve | javascript01.js:196-229 | the chosen process is the first in the queue with the least remaining time, none queued has less; it runs for `SliceLength`; the chart, clock and array change by that slice; the queue is the sorted queue, without its head if it finished |
| ReadyLoop.AdmitInv | javascript01.js:184-188 | admission keeps the invariant of the SRT and SJN loops, and afterwards every arrived, unfinished process is in the ready queue |
| ReadyLoop.IdleInv | javascript01.js:191-194 | an idle tick of the SRT or SJN loop keeps its invariant, and happens only while the clock is below the last arrival |
| SrtEngine.SortInv | javascript01.js:197-198 | the sorted ready queue is well formed and its head is the least remaining time in the queue |
| SrtEngine.SliceInv | javascript01.js:219-229 | a slice keeps the invariant; a finished head is shifted off the queue and counted |
| SjnEngine.RunSjn | javascript01.js:236-292 | sorted by arrival first, then terminates with `Schedule`, one entry per process as long as its burst, input fields matching the arrival-sorted input |
| SjnEngine.Simulate | javascript01.js:245-288 | the loop keeps the bookkeeping, with every finished process run once for its whole burst and the others untouched |
| SjnEngine.Serve | javascript01.js:259-287 | the chosen process has the least burst among all that have arrived and are unfinished, the first in the queue among equals; it runs for its whole burst and finishes; the filter leaves exactly the rest of the sorted queue |
| SjnEngine.SortInv | javascript01.js:260-261 | the head of the sorted ready queue is the shortest ready job, and it has not run yet |
| SjnEngine.SliceInv | javascript01.js:264-287 | running the head to completion keeps the invariant, adds one finished process, and the filter leaves the tail |
| PriorityEngine.Ready | javascript01.js:303 | the filter: exactly the processes that have arrived and are unfinished, in array order |
| PriorityEngine.RunPriority | javascript01.js:295-339 | terminates with `Schedule`, one entry per process as long as its burst, and the records' input fields unchanged |
| PriorityEngine.Serve | javascript01.js:303-334 | the chosen process is ready, and no ready process has a smaller priority value, or the same priority and an earlier arrival, or both the same and an earlier position; it runs for its whole burst and finishes |
| PriorityEngine.SelectInv | javascript01.js:312-315 | the head of the sorted ready list is the highest-priority ready process, ties going to the earlier arrival and then to array order |
| PriorityEngine.PriorityKey | javascript01.js:312 | no contract; the comparator of line 312 (the priority difference, or the arrival difference when that is 0) as the lexicographic key (priority, arrival), characterised by `PriorityEngine.PriorityKeyAgrees` and `PriorityEngine.SelectInv` |
| PriorityEngine.PriorityCompare | javascript01.js:312 | no contract; the comparator as written, where a priority difference of 0 counts as false and the arrival difference decides, characterised by `PriorityEngine.PriorityKeyAgrees` |
| PriorityEngine.PriorityKeyAgrees | javascript01.js:312 | on two positions of the records, the comparator is negative exactly when the first key is lexicographically smaller (lower priority value, or the same one and an earlier arrival) and zero exactly when both fields are equal |
| PriorityEngine.SliceInv | javascript01.js:318-334 | running the chosen process to completion keeps the invariant and counts it |
| PriorityEngine.IdleInv | javascript01.js:305-309 | an idle tick happens only before the last arrival |
| Dispatch.Upper | javascript01.js:90 | `toUpperCase` on one character: ASCII lower-case letters become upper-case, everything else is unchanged |
| Dispatch.EngineName | javascript01.js:90 | no contract; the global names `runRoundRobin`, `runSrt`, `runSjn` and `runPriority` of lines 98, 173, 236 and 295 that the lookup reaches, characterised by `Dispatch.LookupExactly` and `Dispatch.EngineNamesDiffer` |
| Dispatch.MenuValue | javascript01.js:57 | no contract; the menu values `roundRobin`, `srt`, `sjn` and `priority`, characterised by `Dispatch.MenuSelects` and `Dispatch.ParsePolicyExactly` |
| Dispatch.Capitalize | javascript01.js:90 | `charAt(0).toUpperCase() + slice(1)`: same length, first character upper-cased, the rest unchanged |
| Dispatch.Lookup | javascript01.js:90 | the global lookup resolves a name exactly to the engine of that name, and nothing else |
| Dispatch.MenuSelects | javascript01.js:57 | each algorithm value of the menu (`roundRobin`, `srt`, `sjn`, `priority`) selects its own engine |
| Dispatch.LookupExactly | javascript01.js:90 | a name resolves to an engine if and only if it is that engine's name |
| Dispatch.EngineNamesDiffer | javascript01.js:90 | no two engines share a name |
| Dispatch.CapitalizeCollides | javascript01.js:90 | two values capitalize alike exactly when they are equal or one is the other capitalized |
| Dispatch.ParsePolicy | javascript01.js:90 | no contract; the lookup of `run` followed by the value with its first character upper-cased, characterised by `Dispatch.ParsePolicyExactly` |
| Dispatch.ParsePolicyExactly | javascript01.js:90 | an algorithm value selects an engine if and only if it is that engine's menu value or the same with its first letter upper-cased |
| Dispatch.RunEngine | javascript01.js:90 | the selected engine run on the prepared records: it ends in a schedule with that engine's own guarantees, and with no records nothing runs |
| Dispatch.RunScheduling | javascript01.js:60-91 | an unknown algorithm runs nothing and reports it; Round-Robin with `quantum <= 0` on at least one record is reported; a run happens exactly otherwise, and then it has the schedule and the engine's own guarantees; with no records the schedule is empty |

## Left out

- The user interface is not modelled: `toggleQuantumInput`, the table that `addProcess` builds, all rendering in `displayResults`, and `alert`. From `addProcess` only the numbering of rows from 0 is kept, as the precondition `IdsFrom(forms, 0)`. `RunScheduling` returns what would be displayed: the records and the chart.
- Reading the form is not modelled. `parseInt(value) || 0` is taken as already done, and each row arrives as integers.
- The averages are floating-point (`toFixed(2)`), and are `NaN` for an empty list. They are not modelled. The integer totals they divide are modelled (`TotalsRelation`).
- The lookup on `window` can also find names outside the four engines, such as `runScheduling` itself. The model's lookup is the closed table of the four engines.
- With at least one record, a quantum of 0 makes every Round-Robin slice empty, and a negative quantum makes the slices negative, so the remaining time grows and never reaches 0: the loop runs forever. A terminating method cannot model that, so `RunRoundRobin` requires `quantum > 0`, and `RunScheduling` reports `InvalidQuantum` in place of the endless run. With no records the loop does not start, and the model returns the empty schedule as the code does.
- A quantum field that does not parse gives a `NaN` quantum. Then `Math.min` gives `NaN`, the clock and the remaining time become `NaN`, and the loop either stops, with `NaN` entries in the chart, or spins forever when some process was not yet admitted. The model's quantum is an integer, so neither outcome is modelled.
- `Dispatch.Upper` only upper-cases ASCII letters. `toUpperCase` on other characters (which can even change the length, as `ß` does) is not modelled.
- Dispatch.ParsePolicyExactly: its "only if" half is about the ASCII upper case of the model; in the code, values such as `ſrt`, whose first character upper-cases to an ASCII letter, also select an engine.
- JavaScript numbers are doubles. The model's integers are unbounded, so behaviour above 2^53 is not modelled.
- The sorts are modelled by their result, not by the sorting algorithm of the JavaScript engine, because the stable sort's result is determined by the comparator. The in-place re-sort of a ready queue is a reassignment of the sorted sequence. The in-place sort of the record array is a copy of the sorted sequence into the array.
- RoundRobinEngine.RunRoundRobin: its contract states properties of the schedule, not the unique chart the code produces; each decision is pinned down by `RoundRobinEngine.Serve`.
- RoundRobinEngine.Simulate: the same schedule-level end state as `RunRoundRobin`, for the same reason.
- SrtEngine.RunSrt: its contract states properties of the schedule, not the unique chart the code produces; each decision is pinned down by `SrtEngine.Serve`.
- SrtEngine.Simulate: the same schedule-level end state as `RunSrt`, for the same reason.
- SjnEngine.RunSjn: its contract states properties of the schedule, not the unique chart the code produces; each decision is pinned down by `SjnEngine.Serve`.
- SjnEngine.Simulate: the same schedule-level end state as `RunSjn`, for the same reason.
- PriorityEngine.RunPriority: its contract states properties of the schedule, not the unique chart the code produces; each decision is pinned down by `PriorityEngine.Serve`.
- Two small runs are not proved as concrete runs: Round-Robin with quantum 2 on the processes (arrival 0, burst 5) and (arrival 1, burst 3), and SJN on (0, 7), (2, 4) and (4, 1). The contracts of the `RunX` methods state properties of the schedule and do not fix the chart, as the lines above say, so a caller cannot derive the concrete chart from them. Each step of those runs follows the contracts of the engines' `Serve` methods.
