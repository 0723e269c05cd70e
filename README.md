# Queued run coordinator daemon — a Dafny model

Dagster can queue pipeline runs instead of launching them at once. The queued
run coordinator daemon then launches them in rounds. Each round
(`run_iteration`) does four things:

1. It computes the free launch slots: `max_concurrent_runs` minus the number
   of runs in progress. When that is zero or less, it stops.
2. It reads the queued runs from the run store and reverses the store's
   newest-first order, so the oldest come first.
3. It sorts them stably by an integer priority read from the priority tag.
   A missing tag, or one that is not an integer, counts as 0.
4. For each run at the front of that order, up to the number of free slots,
   it records a PIPELINE_DEQUEUED event and then launches the run.

Layout:

- `wrappers.dfy`: `Option`.
- `priority.dfy` (module `RunPriority`): the `Run` value, a decimal integer
  parser `ParseInt` standing in for Python's `int()` at line 93 of the
  daemon, and `get_priority` (`GetPriority`). The lemmas about `ParseInt`
  say which texts it accepts and what value each one gives.
- `priority_sort.dfy` (module `PrioritySorting`): `_priority_sort`. Like
  Python's `sorted(runs, key=get_priority, reverse=True)`, the sort takes a
  key function. It is a stable insertion sort by descending key, proved
  sorted, a permutation, stable within each key, and idempotent. It is also
  proved to be the only sequence with these properties, so it agrees with
  Python's sort. `PrioritySort` applies it with `Priority` as the key.
- `queued_run_coordinator_daemon.dfy` (module `QueuedRunCoordinator`): the
  FIFO reversal, the pure selection rule `SelectToLaunch`, and the log of
  instance calls. It also holds two classes. `Instance` records
  `handle_new_event` and `launch_run` calls in one ordered log.
  `QueuedRunCoordinatorDaemon` holds `max_concurrent_runs`, and its
  `RunIteration` method runs the source's loop. The method is proved to
  append exactly `DequeueAndLaunch(SelectToLaunch(...))` to the log.

The run store's answers are parameters of `RunIteration`: the queued runs in
store order, and the in-progress count.

## Model

| member | source | states |
|---|---|---|
| `QueuedRunCoordinator.QueuedRunCoordinatorDaemon.constructor` | python_modules/dagster/dagster/daemon/run_coordinator/queued_run_coordinator_daemon.py:26-28 | the daemon keeps the instance and `max_concurrent_runs` it is given |
| `QueuedRunCoordinator.QueuedRunCoordinatorDaemon.RunIteration` | python_modules/dagster/dagster/daemon/run_coordinator/queued_run_coordinator_daemon.py:34-74 | one round appends to the instance log, for each selected run in launch order, its dequeued event and then its launch, and nothing else; with no free slot the log is unchanged |
| `QueuedRunCoordinator.Instance.HandleNewEvent` | python_modules/dagster/dagster/daemon/run_coordinator/queued_run_coordinator_daemon.py:72 | handing an event to the instance appends exactly that event to its log |
| `QueuedRunCoordinator.Instance.LaunchRun` | python_modules/dagster/dagster/daemon/run_coordinator/queued_run_coordinator_daemon.py:74 | launching a run appends exactly that run's launch to the log |
| `QueuedRunCoordinator.SelectToLaunch` | python_modules/dagster/dagster/daemon/run_coordinator/queued_run_coordinator_daemon.py:35-56 | no run is selected when in-progress runs reach or exceed the maximum, including a negative slot count; otherwise exactly min(free slots, queued runs) are selected; never more than either bound; the selection is a prefix of the priority-sorted FIFO queue |
| `QueuedRunCoordinator.SelectionOutranksRest` | python_modules/dagster/dagster/daemon/run_coordinator/queued_run_coordinator_daemon.py:54-56 | every selected run is a queued run (as a multiset), and each has priority at least that of every queued run left behind |
| `QueuedRunCoordinator.OldestFirstWithinPriority` | python_modules/dagster/dagster/daemon/run_coordinator/queued_run_coordinator_daemon.py:97-98 | for every priority, the selected runs of that priority are the oldest queued runs of that priority, oldest first (the reverse of the store's order) |
| `QueuedRunCoordinator.QueuedRuns` | python_modules/dagster/dagster/daemon/run_coordinator/queued_run_coordinator_daemon.py:76-82 | the FIFO queue has the store's runs, position i holding the store's run at position n-1-i |
| `QueuedRunCoordinator.QueuedRunsClasses` | python_modules/dagster/dagster/daemon/run_coordinator/queued_run_coordinator_daemon.py:79-81 | reversing the store order reverses, within every priority, the order of that priority's runs |
| `QueuedRunCoordinator.DequeueAndLaunchAt` | python_modules/dagster/dagster/daemon/run_coordinator/queued_run_coordinator_daemon.py:56-74 | the k-th selected run's PIPELINE_DEQUEUED event, carrying its run id and pipeline name, is call 2k, and its launch is call 2k+1 |
| `QueuedRunCoordinator.DequeuedBeforeLaunched` | python_modules/dagster/dagster/daemon/run_coordinator/queued_run_coordinator_daemon.py:57-74 | every launch in the log is immediately preceded by the dequeued event of the same run |
| `QueuedRunCoordinator.LaunchesExactlySelected` | python_modules/dagster/dagster/daemon/run_coordinator/queued_run_coordinator_daemon.py:56-74 | the launched run ids, and the dequeued-event run ids, are each exactly the selected runs' ids in launch order |
| `QueuedRunCoordinator.UnselectedUntouched` | python_modules/dagster/dagster/daemon/run_coordinator/queued_run_coordinator_daemon.py:56 | a run that is not selected gets neither an event nor a launch |
| `RunPriority.GetPriority` | python_modules/dagster/dagster/daemon/run_coordinator/queued_run_coordinator_daemon.py:90-95 | the priority is 0 when the priority tag is absent, 0 when its value does not parse as an integer, and otherwise the parsed integer |
| `RunPriority.PriorityOfWrittenInt` | python_modules/dagster/dagster/daemon/run_coordinator/queued_run_coordinator_daemon.py:91-93 | a tag holding the decimal text of any integer n gives priority n |
| `RunPriority.PriorityOfMalformedTag` | python_modules/dagster/dagster/daemon/run_coordinator/queued_run_coordinator_daemon.py:92-95 | any tag value that is not an integer text ("high", "", "-", "1.5") gives priority 0 |
| `RunPriority.ParseIntRoundTrip` | python_modules/dagster/dagster/daemon/run_coordinator/queued_run_coordinator_daemon.py:93 | the integer parse reads back the decimal text of every integer, negative ones included |
| `RunPriority.ParseIntRejectsNonInteger` | python_modules/dagster/dagster/daemon/run_coordinator/queued_run_coordinator_daemon.py:92-95 | every text that is not an integer fails to parse (the ValueError case), including the empty text, a lone "-", and any text with a character that is neither a digit nor a leading minus |
| `RunPriority.ParseIntAcceptsExactly` | python_modules/dagster/dagster/daemon/run_coordinator/queued_run_coordinator_daemon.py:92-95 | the parse succeeds if and only if the text is an integer text: at least one digit, and nothing but digits apart from an optional leading minus |
| `RunPriority.ParseIntIgnoresLeadingZero` | python_modules/dagster/dagster/daemon/run_coordinator/queued_run_coordinator_daemon.py:93 | leading zeros do not change the parsed value, with or without a minus sign ("007" is 7, "-0" is 0) |
| `PrioritySorting.SortDescending` | python_modules/dagster/dagster/daemon/run_coordinator/queued_run_coordinator_daemon.py:97-98 | sorting by a key (for runs, `Priority`) gives a permutation of the input whose keys do not increase from front to back |
| `PrioritySorting.PrioritySort` | python_modules/dagster/dagster/daemon/run_coordinator/queued_run_coordinator_daemon.py:89-98 | `_priority_sort` returns a permutation of the queued runs with priorities not increasing from front to back |
| `QueuedRunCoordinator.LaunchOrder` | python_modules/dagster/dagster/daemon/run_coordinator/queued_run_coordinator_daemon.py:47-54 | the order the daemon launches from holds as many runs as the store returned, highest priority first |
| `QueuedRunCoordinator.DequeueAndLaunch` | python_modules/dagster/dagster/daemon/run_coordinator/queued_run_coordinator_daemon.py:56-74 | the calls made for the selected runs are two per run; DequeueAndLaunchAt says which |
| `PrioritySorting.Insert` | python_modules/dagster/dagster/daemon/run_coordinator/queued_run_coordinator_daemon.py:98 | inserting one element into a sorted sequence keeps it sorted and adds exactly that element |
| `PrioritySorting.SortStable` | python_modules/dagster/dagster/daemon/run_coordinator/queued_run_coordinator_daemon.py:97-98 | for every key value, its elements appear in the sorted sequence in their input order, so runs of equal priority keep FIFO order |
| `PrioritySorting.SortedIsFixpoint` | python_modules/dagster/dagster/daemon/run_coordinator/queued_run_coordinator_daemon.py:98 | a sequence already in descending key order comes back unchanged |
| `PrioritySorting.SortIdempotent` | python_modules/dagster/dagster/daemon/run_coordinator/queued_run_coordinator_daemon.py:98 | sorting twice gives the same sequence as sorting once |
| `PrioritySorting.SortedWithSameClassesIsSort` | python_modules/dagster/dagster/daemon/run_coordinator/queued_run_coordinator_daemon.py:97-98 | any sequence in descending key order that keeps each key's elements in input order equals the model's sort, so the model agrees with every stable descending sort, Python's included |

## Left out

- GetPriority: Python's `int()` also accepts surrounding whitespace, a leading `+`, `_` digit separators and non-ASCII decimal digits. The model's parser accepts only an optional `-` followed by ASCII digits. Such tag values get priority 0 here, where Python reads a number. In the other direction, current CPython's `int()` refuses texts of more than 4300 digits with a ValueError, which gives priority 0. The model reads those texts as the number.
- The priority tag's key is defined in `dagster/core/storage/tags.py`, which is not part of this model. The model uses `"dagster/priority"`; only its being one fixed key matters.
- `_count_in_progress_runs` and the IN_PROGRESS_STATUSES filter: the count is a run store query. It is the `inProgress` parameter of `RunIteration`.
- The run store query behind `_get_queued_runs` is also a parameter: the queued runs in the store's order, newest first. Only the reversal is modelled.
- `external_pipeline_from_run` is a context manager that loads the run's pipeline. It is external I/O and is not modelled. A failure while loading or launching, which would end the round early, is not modelled either.
- Event record details (message, level, `time.time()` timestamp, error info) are left out. The dequeued event carries only the run id and pipeline name.
- Log messages, the `@experimental` decorator, `daemon_type`, the `check.int_param` type check and the interval-based polling loop of the daemon base class are left out. Only one iteration is modelled, with no concurrent daemons or concurrent changes to the run store.
