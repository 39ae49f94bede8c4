# CPU scheduling simulator core, in Dafny

This project models the simulation engine of `cpu_scheduler.py`, a
discrete-time simulator for a single processor. The engine has three parts:

- A process record. Its inputs are name, arrival time, burst time, priority
  and an optional deadline. The policies write the simulation state into it:
  remaining time, start time, completion time and first response time.
- Seven scheduling policies:
  - FCFS;
  - SJF;
  - SRTF;
  - Priority;
  - Round Robin;
  - Earliest Deadline First (EDF);
  - Rate Monotonic (RM).

  Each policy takes the records, writes into them as it simulates, and
  returns a timeline of `(start, end, name)` slices.
- `calculate_metrics`. It reads the records back and produces one row of
  turnaround, waiting and response time per completed process, plus an
  average row.

The Python list of records is an `array<Process>` of record values.
A process is identified by its index in that array, and the policies'
working lists (`remaining_processes`, `ready_queue`, the sorted order) are
sequences of indices.

Each policy has two parts:

- A pure state machine in Dafny. There is a `State` of the loop's
  variables, a `Step` for one iteration of the loop, a `Run` with a
  termination measure, and a `Schedule` that gives the final records and
  timeline.
- A method on the array with the source's loop, written with `while`/`for`.
  It is proved, by loop invariant, to leave exactly the records and return
  exactly the timeline that `Schedule` describes.

The properties of each policy are proved about `Schedule` through an
invariant that each step preserves.

Modules:

- `Processes`: the record, slices, and the predicates the timeline is
  judged by.
- `Selection`: the list comprehensions, `min`/`max` with first-extremum
  tie breaking, the idle skip, and `list.remove`.
- `Fcfs`.
- `NonPreemptive`: SJF, Priority, EDF and RM, which share one loop and
  differ only in the selection rule.
- `Srtf`.
- `RoundRobin`.
- `Metrics`.

Two behaviours of the code that are easy to misread:

- **Round Robin admits newcomers in list order.** Both admissions, at the
  top of the loop (`cpu_scheduler.py:213-216`) and after each slice
  (`cpu_scheduler.py:233-236`), append the arrived processes in the order
  of the input list, not sorted by arrival time.
  `RoundRobin.StepAdmitsInListOrder` states this for the first admission
  and `RoundRobin.DispatchQueueOrder` for the second.
- **The average row divides by `len(processes)`.** The column totals are
  summed over the completed records only, but each is divided by the
  number of all records (`cpu_scheduler.py:42-48`), as `Metrics.MetricsShape`
  states. After any policy run every record is completed, so the average
  is then the mean over the rows (`Metrics.AverageAfterRun`).

## Model

| member | source | states |
|---|---|---|
| Processes.NewProcess | cpu_scheduler.py:7-17 | A new record holds the given inputs, priority 0 and no deadline by default, remaining time equal to the burst, and no start, completion or first response. |
| Selection.Filter | cpu_scheduler.py:127 | A list comprehension keeps exactly the listed records that pass the test, each of them passing it. |
| Selection.FirstBestPrecedes | cpu_scheduler.py:133 | `min` by key over a list in list order picks a record that beats every other one: a strictly smaller key, or an equal key and earlier in the list. |
| Selection.MinArrival | cpu_scheduler.py:130 | The idle skip's target is the arrival time of some pending process, and no pending process arrives earlier. |
| Selection.IdleSkipMakesAvailable | cpu_scheduler.py:129-131 | When every pending process is eligible, something is available after the idle skip, so the skip makes progress. |
| Selection.RemoveIncreasing | cpu_scheduler.py:140 | `remove` on a list without repeats drops exactly that process and keeps the order of the rest. |
| Fcfs.SortByArrivalSorted | cpu_scheduler.py:106 | The sort lists each record exactly once, by non-decreasing arrival, with equal arrivals in list order (a stable sort). |
| Fcfs.ServesInArrivalOrder | cpu_scheduler.py:106-108 | FCFS dispatches every process exactly once, by non-decreasing arrival, with ties in input order. |
| Fcfs.StartsAtLaterOfClockAndArrival | cpu_scheduler.py:109-117 | Each slice starts at the later of the previous slice's end (0 for the first) and its process's arrival, and lasts exactly the burst. The record gets that start as start time and first response, and the slice's end as completion time. |
| Fcfs.TimelineOrdered | cpu_scheduler.py:109-117 | The FCFS timeline is sorted by start, with non-empty slices that do not overlap, from time 0 on. |
| Fcfs.CompletesEveryProcess | cpu_scheduler.py:112-114 | Every record ends completed with its inputs unchanged and its remaining time untouched. Start equals first response, which is no earlier than the arrival, and completion is exactly one burst later. |
| Fcfs.Fcfs | cpu_scheduler.py:103-119 | The loop on the array leaves exactly the records, and returns exactly the timeline, that the FCFS schedule describes. |
| NonPreemptive.DispatchesEachOnce | cpu_scheduler.py:126-140 | Each process is dispatched exactly once, as one slice of its whole burst that starts no earlier than its arrival. The record holds that start as start time and first response, and the slice's end as completion. |
| NonPreemptive.CompletesEveryProcess | cpu_scheduler.py:134-136 | Every record ends completed with its inputs unchanged. Start equals first response, completion is one burst later, and the remaining time is not written. |
| NonPreemptive.TimelineOrdered | cpu_scheduler.py:129-139 | The timeline is sorted by start, with non-empty slices that do not overlap, from time 0 on: the clock never goes back. |
| NonPreemptive.SelectsBest | cpu_scheduler.py:127-133 | Read off the finished timeline: a process that was dispatched later but had already arrived when an earlier slice started lost to that slice's process under the policy's rule. |
| NonPreemptive.NeverIdlesWhileWaiting | cpu_scheduler.py:129-131 | Each slice starts when the previous one ends, or else exactly at its own process's arrival, when no process still to run had arrived earlier. |
| NonPreemptive.SjfPicksShortestBurst | cpu_scheduler.py:121-142 | SJF: among the processes that had arrived when a slice started, the one dispatched has the shortest burst, with ties to the earliest in the list. |
| NonPreemptive.PriorityPicksHighest | cpu_scheduler.py:182-203 | Priority: among the arrived processes, the one dispatched has the highest priority, with ties to the earliest in the list. |
| NonPreemptive.DeadlinePicksEarliest | cpu_scheduler.py:245-291 | EDF and RM: among the arrived processes, the one dispatched has the earliest deadline, with ties to the earliest in the list. |
| NonPreemptive.RunNonPreemptive | cpu_scheduler.py:124-140 | The shared loop on the array leaves exactly the records, and returns exactly the timeline, that the policy's schedule describes. |
| NonPreemptive.Sjf | cpu_scheduler.py:121-142 | `sjf` on the array equals the SJF schedule. |
| NonPreemptive.PriorityScheduling | cpu_scheduler.py:182-203 | `priority_scheduling` on the array equals the Priority schedule, with the key negated so that the maximum comes first. |
| NonPreemptive.EarliestDeadlineFirst | cpu_scheduler.py:245-266 | `earliest_deadline_first` on the array equals the EDF schedule when every record has a deadline. |
| NonPreemptive.RateMonotonic | cpu_scheduler.py:268-291 | `rate_monotonic` on the array equals the same schedule as EDF when every record has a deadline. |
| NonPreemptive.MissingDeadlineStalls | cpu_scheduler.py:251-255 | As written: once a pending process without a deadline has arrived and nothing with a deadline is available, the idle skip sets the clock to no later than now, and nothing is available at the new time either. |
| NonPreemptive.MissingDeadlineExample | cpu_scheduler.py:275-279 | A single process arriving at 0 without a deadline: nothing is available at time 0, and the idle skip goes back to 0. |
| NonPreemptive.DeadlineScheduleValidated | cpu_scheduler.py:245-266 | EDF/RM with validation: the result is an error exactly when some record lacks a deadline, and then the records are left untouched. Otherwise the result is the EDF schedule. |
| Srtf.CompletesEveryProcess | cpu_scheduler.py:171-177 | Every record ends completed, with nothing remaining, its inputs unchanged and no start time written. Its first response is no earlier than its arrival, and its completion leaves room for the whole burst after the first response. |
| Srtf.BusyEqualsBurst | cpu_scheduler.py:163-176 | The slices of each process add up to exactly its burst. |
| Srtf.TimelineOrdered | cpu_scheduler.py:163-176 | The timeline is sorted by start, with non-empty slices that do not overlap, and each slice carries its owner's name. |
| Srtf.TickRunsShortestRemaining | cpu_scheduler.py:152-172 | Each busy iteration runs, for one second, the arrived pending process with the least remaining time, with ties to the earliest in the list; or it keeps the running process when nothing pending has arrived. Only that process's remaining time drops, by one, and the clock advances by one. |
| Srtf.FirstResponseRecordedOnce | cpu_scheduler.py:158-169 | During a run, an iteration gives a process a first response exactly when it runs that process and the process had none. That first response is the clock at the start of the iteration, and a recorded first response never changes. |
| Srtf.CompletesWhenFinished | cpu_scheduler.py:174-178 | An iteration records a completion for a process exactly when it takes that process's remaining time from positive to zero, and the completion it records is the new clock. |
| Srtf.SwitchFields | cpu_scheduler.py:163-169 | A switch to a process that is not running gives it the current time as first response if it has none, and changes nothing else in any record. |
| Srtf.TickFields | cpu_scheduler.py:171-176 | A tick takes one second off the running record, records its completion at the new clock when that reaches zero, and touches no other record. |
| Srtf.ContextSwitch | cpu_scheduler.py:163-169 | The switch on the array equals the switch step of the schedule. |
| Srtf.RunOneSecond | cpu_scheduler.py:171-178 | The tick on the array equals the tick step of the schedule. |
| Srtf.Srtf | cpu_scheduler.py:144-180 | `srtf` on the array leaves exactly the records, and returns exactly the timeline, that the SRTF schedule describes. |
| RoundRobin.CompletesEveryProcess | cpu_scheduler.py:229-241 | Every record ends completed, with nothing remaining, its inputs unchanged and no start time written. Its first response is no earlier than its arrival, and its completion leaves room for the whole burst after the first response. |
| RoundRobin.BusyEqualsBurst | cpu_scheduler.py:226-230 | The slices of each process add up to exactly its burst. |
| RoundRobin.TimelineOrdered | cpu_scheduler.py:218-230 | The timeline is sorted by start, with non-empty slices that do not overlap, and each slice carries its owner's name. |
| RoundRobin.SlicesWithinQuantum | cpu_scheduler.py:226-241 | Every slice lasts between one second and one quantum, and a slice shorter than the quantum ends exactly when its owner completes. |
| RoundRobin.DispatchRunsOneSlice | cpu_scheduler.py:222-241 | One dispatch runs the head of the queue for `min(quantum, remaining)` seconds, at least one, recorded as a single slice. The head's remaining time drops by that much, and when it reaches zero the head completes at the new clock. |
| RoundRobin.StepAdmitsInListOrder | cpu_scheduler.py:211-227 | Each pass first appends the processes that have arrived by the current time to the ready queue, in list order and after those already there. The one slice it then runs, if any, belongs to the record at the head of that queue, by index and not just by name. When the queue is empty, nothing runs. |
| RoundRobin.DispatchQueueOrder | cpu_scheduler.py:233-239 | After a dispatch the queue is the rest of the old queue, then the processes that arrived by the end of the slice, in list order, and only then the head again, when it has time left. |
| RoundRobin.RunHeadAt | cpu_scheduler.py:222-230 | `pop(0)`, the first response, the slice and the clock on the array equal the run step of the schedule. |
| RoundRobin.FinishAt | cpu_scheduler.py:238-241 | The re-queue or the completion on the array equals the finish step of the schedule. |
| RoundRobin.RoundRobin | cpu_scheduler.py:205-243 | `round_robin` on the array leaves exactly the records, and returns exactly the timeline, that the Round Robin schedule describes. |
| Metrics.ProcessRowsOfCompleted | cpu_scheduler.py:25-40 | There is one process row per completed record, in input order, with turnaround, waiting and response computed from that record. |
| Metrics.MetricsShape | cpu_scheduler.py:25-49 | The table is the rows of the completed records, in input order, then an average row exactly when the list is non-empty. Each average is its column's total divided by the number of all records. |
| Metrics.RowsAfterRun | cpu_scheduler.py:26-29 | After any policy run every record has a row, in input order, with its own name, turnaround equal to waiting plus burst, and no negative waiting or response time. |
| Metrics.AverageAfterRun | cpu_scheduler.py:42-48 | After any policy run on a non-empty list, the average row is the exact mean over all rows, and the average waiting and response times are not negative. |
| Metrics.Mean | cpu_scheduler.py:46-48 | The average multiplied by the record count gives back the column total, and a non-negative total has a non-negative average. |
| Metrics.CompletedIndices | cpu_scheduler.py:26 | The completed records, listed once each, in input order. |
| Metrics.CalculateMetrics | cpu_scheduler.py:19-51 | The loop with running totals produces exactly the table `Metrics` describes. |

## Left out

- `main` and `create_gantt_chart` are not modelled. They are the Streamlit user interface, session state and Plotly rendering. The model keeps only what the interface guarantees to the engine: fresh copies of the records, a burst of at least one second, and a quantum of at least one.
- The pandas `DataFrame` returned by `calculate_metrics` is modelled as a sequence of rows. The average row's `'Process': 'Average'` label is represented by the row's constructor.
- Python's floating-point division for the averages is modelled as exact division on reals. Rounding is not modelled.
- Record identity is modelled by array index. `current_process != next_process` in `srtf` is an identity comparison and becomes an index comparison. Aliasing between two list entries holding the same record object is not modelled.
- `for p in new_arrivals: remaining_processes.remove(p)` in `round_robin` is modelled by its result: the processes still waiting are those that arrive after the clock, in list order.
- The `owners` sequence in each outcome names the record behind each slice. It exists only to state per-process properties. The program itself tells slices apart by name only.
- Integers are unbounded, as Python's are.
- Re-running a policy on fresh copies of the same records gives the same timeline and metrics. This is not stated as a lemma: each `Schedule` is a function of its input.
- Concrete example runs are not proved as lemmas. For example, FCFS on `P1` (arrival 0, burst 5) and `P2` (arrival 1, burst 3) gives slices (0, 5) and (5, 8). The general properties above cover the behaviour such runs illustrate.
- NonPreemptive.EarliestDeadlineFirst: requires every record to carry a deadline. A record without one never passes the filter, so it is never removed from the pending list and the source never returns on such input (see Findings). `NonPreemptive.DeadlineScheduleValidated` is the form that reports the missing deadline instead.
- NonPreemptive.RateMonotonic: requires every record to carry a deadline, for the same reason. It uses the EDF rule, as the source does: the deadline stands in for the period.
- Srtf.Srtf: requires fresh records with a burst of at least one second, as the user interface guarantees. With a zero burst the source takes the remaining time below zero, never sees it reach zero, and loops forever.
- RoundRobin.RoundRobin: requires fresh records with a burst of at least one second, and a quantum of at least one, as the user interface guarantees (`cpu_scheduler.py:399`). A quantum of zero never ends in the source. A zero burst would give an empty slice, which the model does not cover.
- NonPreemptive.DispatchesEachOnce: the lemmas about the schedule require fresh records with a burst of at least one second. The `Sjf` and `PriorityScheduling` methods themselves accept any records, as the source does.

## Findings

| source | as written | input that shows it | evidently intended | confidence | as-written member | corrected member |
|---|---|---|---|---|---|---|
| cpu_scheduler.py:251-254, 275-278 | The idle skip takes the earliest arrival over all pending processes, including those without a deadline, which the selection skips. Once such a process has arrived and nothing with a deadline is available, the clock does not advance and the loop never ends. | One process `P1` arriving at 0 with burst 1 and no deadline, under EDF or RM | Reject a process set in which some record lacks a deadline before simulating | high, not executed | NonPreemptive.MissingDeadlineStalls | NonPreemptive.DeadlineScheduleValidated |
