/**
 * One iteration of the queued run coordinator daemon: count the free launch
 * slots, read the queued runs in FIFO order, sort them by priority, and for
 * each run taken from the front record a PIPELINE_DEQUEUED event and then
 * launch it. The run store's queries are parameters; the instance's
 * `handle_new_event` and `launch_run` are appends to one call log.
 */
module QueuedRunCoordinator {
  import opened RunPriority
  import opened PrioritySorting

  /** An event the daemon hands to the instance: only PIPELINE_DEQUEUED is emitted here. */
  datatype DagsterEvent = PipelineDequeued(runId: string, pipelineName: string)

  /** One call the daemon makes on the instance, in the order made. */
  datatype InstanceCall =
    | EventHandled(event: DagsterEvent)
    | RunLaunched(runId: string)

  function CallRunId(call: InstanceCall): (id: string) {
    match call
    case EventHandled(e) => e.runId
    case RunLaunched(id) => id
  }

  /**
   * `_get_queued_runs`: the store returns queued runs newest first, so the
   * daemon reverses them to get the oldest first.
   */
  function QueuedRuns(runsInStore: seq<Run>): (q: seq<Run>)
    ensures |q| == |runsInStore|
    ensures forall i :: 0 <= i < |q| ==> q[i] == runsInStore[|runsInStore| - 1 - i]
  {
    if runsInStore == [] then []
    else QueuedRuns(runsInStore[1..]) + [runsInStore[0]]
  }

  lemma {:induction false} QueuedRunsAppend(a: seq<Run>, b: seq<Run>)
    ensures QueuedRuns(a + b) == QueuedRuns(b) + QueuedRuns(a)
  {
    if a == [] {
      assert a + b == b;
    } else {
      assert (a + b)[1..] == a[1..] + b;
      QueuedRunsAppend(a[1..], b);
    }
  }

  /** Reversing the store order reverses the order within every priority. */
  lemma {:induction false} QueuedRunsClasses(runsInStore: seq<Run>, p: int)
    ensures WithKey(QueuedRuns(runsInStore), Priority, p) == QueuedRuns(WithKey(runsInStore, Priority, p))
  {
    if runsInStore != [] {
      var s := runsInStore;
      var head := if Priority(s[0]) == p then [s[0]] else [];
      QueuedRunsClasses(s[1..], p);
      WithKeyAppend(QueuedRuns(s[1..]), [s[0]], Priority, p);
      assert WithKey([s[0]], Priority, p) == head;
      QueuedRunsAppend(head, WithKey(s[1..], Priority, p));
      assert QueuedRuns(head) == head;
    }
  }

  function Min(a: int, b: int): (m: int) {
    if a <= b then a else b
  }

  /** The priority-sorted queue the daemon launches from. */
  function LaunchOrder(runsInStore: seq<Run>): (r: seq<Run>)
    ensures |r| == |runsInStore|
    ensures Sorted(r, Priority)
  {
    PrioritySort(QueuedRuns(runsInStore))
  }

  /**
   * The runs one iteration launches, in launch order: none when there is no
   * free slot, otherwise the front of the sorted queue, as many as there
   * are free slots or queued runs, whichever is fewer.
   */
  function SelectToLaunch(runsInStore: seq<Run>, inProgress: nat, maxConcurrentRuns: int): (r: seq<Run>)
    ensures maxConcurrentRuns - inProgress <= 0 ==> r == []
    ensures maxConcurrentRuns - inProgress > 0 ==>
              |r| == Min(maxConcurrentRuns - inProgress, |runsInStore|)
    ensures |r| <= |runsInStore| && |r| <= if maxConcurrentRuns - inProgress > 0 then maxConcurrentRuns - inProgress else 0
    ensures r == LaunchOrder(runsInStore)[..|r|]
  {
    var maxRunsToLaunch := maxConcurrentRuns - inProgress;
    if maxRunsToLaunch <= 0 then []
    else
      var sortedRuns := LaunchOrder(runsInStore);
      sortedRuns[..Min(maxRunsToLaunch, |sortedRuns|)]
  }

  /**
   * The launched runs are queued runs, and every launched run has a
   * priority at least that of every queued run left behind.
   */
  lemma SelectionOutranksRest(runsInStore: seq<Run>, inProgress: nat, maxConcurrentRuns: int)
    ensures var r := SelectToLaunch(runsInStore, inProgress, maxConcurrentRuns);
            var order := LaunchOrder(runsInStore);
            && multiset(r) <= multiset(runsInStore)
            && forall i, j :: 0 <= i < |r| <= j < |order| ==> Priority(r[i]) >= Priority(order[j])
  {
    var r := SelectToLaunch(runsInStore, inProgress, maxConcurrentRuns);
    var order := LaunchOrder(runsInStore);
    PrefixSubMultiset(order, |r|);
    ReversedMultiset(runsInStore);
    PrefixOutranksRest(order, Priority, |r|);
  }

  lemma {:induction false} ReversedMultiset(s: seq<Run>)
    ensures multiset(QueuedRuns(s)) == multiset(s)
  {
    if s != [] {
      ReversedMultiset(s[1..]);
      assert s == [s[0]] + s[1..];
    }
  }

  /**
   * FIFO within a priority: among runs of equal priority, those launched are
   * the ones that have waited longest, oldest first (the reverse of the
   * store's order).
   */
  lemma OldestFirstWithinPriority(runsInStore: seq<Run>, inProgress: nat, maxConcurrentRuns: int, p: int)
    ensures var r := SelectToLaunch(runsInStore, inProgress, maxConcurrentRuns);
            var fifo := QueuedRuns(WithKey(runsInStore, Priority, p));
            && |WithKey(r, Priority, p)| <= |fifo|
            && WithKey(r, Priority, p) == fifo[..|WithKey(r, Priority, p)|]
  {
    var r := SelectToLaunch(runsInStore, inProgress, maxConcurrentRuns);
    var order := LaunchOrder(runsInStore);
    assert order == r + order[|r|..];
    WithKeyAppend(r, order[|r|..], Priority, p);
    SortStable(QueuedRuns(runsInStore), Priority);
    assert WithKey(order, Priority, p) == WithKey(QueuedRuns(runsInStore), Priority, p);
    QueuedRunsClasses(runsInStore, p);
  }

  /** The calls made for `runs`: for each run in turn, its dequeued event, then its launch. */
  function DequeueAndLaunch(runs: seq<Run>): (calls: seq<InstanceCall>)
    ensures |calls| == 2 * |runs|
  {
    if runs == [] then []
    else
      var run := runs[|runs| - 1];
      DequeueAndLaunch(runs[..|runs| - 1])
        + [EventHandled(PipelineDequeued(run.runId, run.pipelineName)), RunLaunched(run.runId)]
  }

  /** Handling one more run appends its dequeued event and its launch. */
  lemma DequeueAndLaunchStep(runs: seq<Run>, i: nat)
    requires i < |runs|
    ensures DequeueAndLaunch(runs[..i + 1])
         == DequeueAndLaunch(runs[..i])
            + [EventHandled(PipelineDequeued(runs[i].runId, runs[i].pipelineName)), RunLaunched(runs[i].runId)]
  {
    assert runs[..i + 1][..i] == runs[..i];
  }

  /** The `k`-th run's dequeued event is call `2k` and its launch is call `2k + 1`. */
  lemma {:induction false} DequeueAndLaunchAt(runs: seq<Run>, k: nat)
    requires k < |runs|
    ensures DequeueAndLaunch(runs)[2 * k] == EventHandled(PipelineDequeued(runs[k].runId, runs[k].pipelineName))
    ensures DequeueAndLaunch(runs)[2 * k + 1] == RunLaunched(runs[k].runId)
  {
    if k < |runs| - 1 {
      DequeueAndLaunchAt(runs[..|runs| - 1], k);
    }
  }

  /**
   * Every launch is immediately preceded by the PIPELINE_DEQUEUED event of
   * the same run.
   */
  lemma DequeuedBeforeLaunched(runs: seq<Run>, j: nat)
    requires j < |DequeueAndLaunch(runs)| && DequeueAndLaunch(runs)[j].RunLaunched?
    ensures j > 0
    ensures DequeueAndLaunch(runs)[j - 1].EventHandled?
    ensures DequeueAndLaunch(runs)[j - 1].event.runId == DequeueAndLaunch(runs)[j].runId
  {
    DequeueAndLaunchAt(runs, j / 2);
  }

  /** The ids of the runs, in order. */
  function RunIds(runs: seq<Run>): (ids: seq<string>)
    ensures |ids| == |runs|
  {
    if runs == [] then [] else RunIds(runs[..|runs| - 1]) + [runs[|runs| - 1].runId]
  }

  /** The ids of the launched runs in a call log, in launch order. */
  function LaunchedIds(calls: seq<InstanceCall>): (ids: seq<string>) {
    if calls == [] then []
    else
      var last := calls[|calls| - 1];
      LaunchedIds(calls[..|calls| - 1]) + (if last.RunLaunched? then [last.runId] else [])
  }

  /** The ids of the runs with a dequeued event in a call log, in order. */
  function DequeuedIds(calls: seq<InstanceCall>): (ids: seq<string>) {
    if calls == [] then []
    else
      var last := calls[|calls| - 1];
      DequeuedIds(calls[..|calls| - 1]) + (if last.EventHandled? then [last.event.runId] else [])
  }

  /**
   * The log launches exactly the selected runs, in order, and records a
   * dequeued event for exactly the selected runs, in the same order.
   */
  lemma {:induction false} LaunchesExactlySelected(runs: seq<Run>)
    ensures LaunchedIds(DequeueAndLaunch(runs)) == RunIds(runs)
    ensures DequeuedIds(DequeueAndLaunch(runs)) == RunIds(runs)
  {
    if runs != [] {
      var init := runs[..|runs| - 1];
      var calls := DequeueAndLaunch(runs);
      LaunchesExactlySelected(init);
      assert calls[..|calls| - 1][..|calls| - 2] == DequeueAndLaunch(init);
    }
  }

  /** A run that is not selected has neither an event nor a launch. */
  lemma UnselectedUntouched(runs: seq<Run>, id: string)
    requires id !in RunIds(runs)
    ensures forall call :: call in DequeueAndLaunch(runs) ==> CallRunId(call) != id
  {
    forall call | call in DequeueAndLaunch(runs) ensures CallRunId(call) != id {
      var j :| 0 <= j < |DequeueAndLaunch(runs)| && DequeueAndLaunch(runs)[j] == call;
      DequeueAndLaunchAt(runs, j / 2);
      RunIdsAt(runs, j / 2);
    }
  }

  lemma {:induction false} RunIdsAt(runs: seq<Run>, k: nat)
    requires k < |runs|
    ensures RunIds(runs)[k] == runs[k].runId
  {
    if k < |runs| - 1 {
      RunIdsAt(runs[..|runs| - 1], k);
    }
  }

  /** The dagster instance, seen only through the calls the daemon makes on it. */
  class Instance {
    var log: seq<InstanceCall>

    constructor ()
      ensures log == []
    {
      log := [];
    }

    /** `handle_new_event`: stores an event record. */
    method HandleNewEvent(event: DagsterEvent)
      modifies this
      ensures log == old(log) + [EventHandled(event)]
    {
      log := log + [EventHandled(event)];
    }

    /** `launch_run`: hands the run to the run launcher. */
    method LaunchRun(runId: string)
      modifies this
      ensures log == old(log) + [RunLaunched(runId)]
    {
      log := log + [RunLaunched(runId)];
    }
  }

  class QueuedRunCoordinatorDaemon {
    const instance: Instance
    const maxConcurrentRuns: int

    constructor (instance: Instance, maxConcurrentRuns: int)
      ensures this.instance == instance && this.maxConcurrentRuns == maxConcurrentRuns
    {
      this.instance := instance;
      this.maxConcurrentRuns := maxConcurrentRuns;
    }

    /**
     * `run_iteration`, given the store's queued runs (newest first) and the
     * number of runs in progress. The instance receives, for each selected
     * run in launch order, a dequeued event and then a launch, and nothing else.
     */
    method RunIteration(runsInStore: seq<Run>, inProgress: nat)
      modifies instance
      ensures instance.log
           == old(instance.log) + DequeueAndLaunch(SelectToLaunch(runsInStore, inProgress, maxConcurrentRuns))
      ensures maxConcurrentRuns <= inProgress ==> instance.log == old(instance.log)
    {
      var maxRunsToLaunch := maxConcurrentRuns - inProgress;
      // Negative when more runs are in progress than allowed, e.g. runs that bypassed the queue.
      if maxRunsToLaunch <= 0 {
        return;
      }
      var sortedRuns := LaunchOrder(runsInStore);
      // Python's slice `[:maxRunsToLaunch]` stops at the end of a shorter list.
      var toLaunch := sortedRuns[..Min(maxRunsToLaunch, |sortedRuns|)];
      assert toLaunch == SelectToLaunch(runsInStore, inProgress, maxConcurrentRuns);
      for i := 0 to |toLaunch|
        invariant instance.log == old(instance.log) + DequeueAndLaunch(toLaunch[..i])
      {
        var run := toLaunch[i];
        instance.HandleNewEvent(PipelineDequeued(run.runId, run.pipelineName));
        instance.LaunchRun(run.runId);
        DequeueAndLaunchStep(toLaunch, i);
      }
      assert toLaunch[..|toLaunch|] == toLaunch;
    }
  }
}
