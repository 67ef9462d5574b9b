/** Producers, the queue and the worker thread of src/db_sync.c as a step system.  A step
    is a region run under the queue lock, or the worker finishing a task. */
module WorkerProtocol {
  import opened TaskText
  import TaskQueue

  datatype Worker = Waiting | Working(task: Packed) | Exited

  /** How a task left the queue. */
  datatype Gone = Dropped(task: Packed) | Popped(task: Packed)

  datatype State = State(queue: seq<Packed>, shutdown: bool, worker: Worker,
                         pushed: seq<Packed>, removed: seq<Gone>, handled: seq<Packed>)

  datatype Step = Push(task: Packed) | SetShutdown | Take | Done | Exit

  const MAX := TaskQueue.QUEUE_MAX_SIZE

  predicate Enabled(s: State, step: Step) {
    match step
    case Push(_) => true
    case SetShutdown => true
    case Take => s.worker.Waiting? && s.queue != []
    case Done => s.worker.Working?
    case Exit => s.worker.Waiting? && s.shutdown && s.queue == []
  }

  function Apply(s: State, step: Step): State
    requires Enabled(s, step)
  {
    match step
    case Push(t) =>
      s.(queue := TaskQueue.AfterPush(s.queue, t), pushed := s.pushed + [t],
         removed := s.removed + if |s.queue| >= MAX then [Dropped(s.queue[0])] else [])
    case SetShutdown => s.(shutdown := true)
    case Take => s.(queue := s.queue[1..], worker := Working(s.queue[0]), removed := s.removed + [Popped(s.queue[0])])
    case Done => s.(worker := Waiting, handled := s.handled + [s.worker.task])
    case Exit => s.(worker := Exited)
  }

  ghost predicate Run(s: State, steps: seq<Step>)
    decreases |steps|
  {
    steps == [] || (Enabled(s, steps[0]) && Run(Apply(s, steps[0]), steps[1..]))
  }

  ghost function Final(s: State, steps: seq<Step>): State
    requires Run(s, steps)
    decreases |steps|
  {
    if steps == [] then s else Final(Apply(s, steps[0]), steps[1..])
  }

  const START := State([], false, Waiting, [], [], [])

  function TasksOf(gone: seq<Gone>): (r: seq<Packed>)
    ensures |r| == |gone|
  {
    if gone == [] then [] else TasksOf(gone[..|gone| - 1]) + [gone[|gone| - 1].task]
  }

  function PoppedOf(gone: seq<Gone>): seq<Packed> {
    if gone == [] then []
    else
      var last := gone[|gone| - 1];
      PoppedOf(gone[..|gone| - 1]) + (if last.Popped? then [last.task] else [])
  }

  function InFlight(w: Worker): seq<Packed> { if w.Working? then [w.task] else [] }

  /** Nothing is lost, reordered or invented: what left the queue, followed by what is
      in it, is what was pushed, and what was handled, followed by the task in the
      worker's hands, is what was popped. */
  ghost predicate History(s: State) {
    && |s.queue| <= MAX
    && s.pushed == TasksOf(s.removed) + s.queue
    && s.handled + InFlight(s.worker) == PoppedOf(s.removed)
  }

  lemma LeaveOne(gone: seq<Gone>, g: Gone)
    ensures TasksOf(gone + [g]) == TasksOf(gone) + [g.task]
    ensures PoppedOf(gone + [g]) == PoppedOf(gone) + (if g.Popped? then [g.task] else [])
  {
    assert (gone + [g])[..|gone|] == gone;
  }

  lemma LeaveHead(gone: seq<Gone>, g: Gone, queue: seq<Packed>, rest: seq<Packed>)
    requires queue != [] && g.task == queue[0]
    ensures TasksOf(gone + [g]) + (queue[1..] + rest) == TasksOf(gone) + queue + rest
  {
    LeaveOne(gone, g);
    assert queue == [queue[0]] + queue[1..];
  }

  lemma HistoryPush(s: State, t: Packed)
    requires History(s)
    ensures History(Apply(s, Push(t)))
  {
    if |s.queue| >= MAX {
      LeaveHead(s.removed, Dropped(s.queue[0]), s.queue, [t]);
      LeaveOne(s.removed, Dropped(s.queue[0]));
      assert PoppedOf(s.removed) + [] == PoppedOf(s.removed);
    } else {
      assert s.removed + [] == s.removed;
      assert s.pushed + [t] == TasksOf(s.removed) + (s.queue + [t]);
    }
  }

  lemma HistoryTake(s: State)
    requires History(s) && Enabled(s, Take)
    ensures History(Apply(s, Take))
  {
    LeaveHead(s.removed, Popped(s.queue[0]), s.queue, []);
    LeaveOne(s.removed, Popped(s.queue[0]));
    assert s.queue[1..] + [] == s.queue[1..] && s.handled + [] == s.handled;
    assert TasksOf(s.removed) + s.queue + [] == s.pushed;
  }

  lemma HistoryStep(s: State, step: Step)
    requires History(s) && Enabled(s, step)
    ensures History(Apply(s, step))
  {
    if step.Push? {
      HistoryPush(s, step.task);
    } else if step.Take? {
      HistoryTake(s);
    } else if step.Done? {
      assert s.handled + [s.worker.task] + [] == s.handled + [s.worker.task];
    }
  }

  lemma {:induction false} HistoryAlways(s: State, steps: seq<Step>)
    requires History(s) && Run(s, steps)
    ensures History(Final(s, steps))
    decreases |steps|
  {
    if steps != [] {
      HistoryStep(s, steps[0]);
      HistoryAlways(Apply(s, steps[0]), steps[1..]);
    }
  }

  /** Positions in `pushed` of the tasks that were popped. */
  function Positions(gone: seq<Gone>): (r: seq<nat>)
    ensures |r| == |PoppedOf(gone)|
    ensures forall k :: 0 <= k < |r| ==> r[k] < |gone| && TasksOf(gone)[r[k]] == PoppedOf(gone)[k]
    ensures forall j, k :: 0 <= j < k < |r| ==> r[j] < r[k]
  {
    if gone == [] then []
    else Positions(gone[..|gone| - 1]) + (if gone[|gone| - 1].Popped? then [|gone| - 1] else [])
  }

  /** In every run the handled tasks are a subsequence of the pushed ones: each comes
      from its own push, in push order, so no task is handled twice. */
  lemma HandledInOrder(steps: seq<Step>) returns (positions: seq<nat>)
    requires Run(START, steps)
    ensures var s := Final(START, steps);
            && |positions| == |s.handled|
            && (forall k :: 0 <= k < |positions| ==>
                  positions[k] < |s.pushed| && s.pushed[positions[k]] == s.handled[k])
            && (forall j, k :: 0 <= j < k < |positions| ==> positions[j] < positions[k])
  {
    HistoryAlways(START, steps);
    var s := Final(START, steps);
    positions := Positions(s.removed)[..|s.handled|];
    forall k | 0 <= k < |positions|
      ensures positions[k] < |s.pushed| && s.pushed[positions[k]] == s.handled[k]
    {
      assert PoppedOf(s.removed)[k] == s.handled[k];
    }
  }

  /** A push loses a task exactly when the queue is full, and then the oldest one. */
  lemma DropsOldestWhenFull(s: State, t: Packed)
    requires History(s)
    ensures var s' := Apply(s, Push(t));
            && (s'.removed == s.removed <==> |s.queue| < 10000)
            && (s'.removed != s.removed ==>
                  s'.removed == s.removed + [Dropped(s.queue[0])] && s.pushed[|s.removed|] == s.queue[0])
            && s'.queue[|s'.queue| - 1] == t
  {
  }

  /** The worker has something to do exactly while it holds a task, tasks wait, or it has
      been told to stop; with none of these it waits. */
  lemma WorkerProgressIff(s: State)
    requires !s.worker.Exited?
    ensures Enabled(s, Take) || Enabled(s, Done) || Enabled(s, Exit)
       <==> s.worker.Working? || s.queue != [] || s.shutdown
    ensures Enabled(s, Exit) ==> s.shutdown && s.queue == []
    ensures Enabled(s, SetShutdown) && forall t :: Enabled(s, Push(t))
  {
  }

  // ---------------------------------------------------------------------- shutdown

  ghost predicate PushFree(steps: seq<Step>) { forall i :: 0 <= i < |steps| ==> !steps[i].Push? }

  /** Worker steps still to come once nobody pushes. */
  function Remaining(s: State): nat {
    if s.worker.Exited? then 0
    else 2 * |s.queue| + (if s.worker.Working? then 2 else 1)
  }

  function WorkerSteps(steps: seq<Step>): nat {
    if steps == [] then 0
    else (if steps[0].SetShutdown? then 0 else 1) + WorkerSteps(steps[1..])
  }

  /** Handled, in hand and queued, in that order. */
  function Ahead(s: State): seq<Packed> { s.handled + InFlight(s.worker) + s.queue }

  lemma DrainStep(s: State, step: Step)
    requires s.shutdown && Enabled(s, step) && !step.Push?
    ensures var s' := Apply(s, step);
            && s'.shutdown && Ahead(s') == Ahead(s) && s'.pushed == s.pushed
            && Remaining(s) == Remaining(s') + (if step.SetShutdown? then 0 else 1)
            && (s'.worker.Exited? ==> s.worker.Exited? || s.queue == s'.queue == [])
            && (s.worker.Exited? ==> s'.worker.Exited? && s'.queue == s.queue)
  {
    if step.Take? {
      assert s.queue == [s.queue[0]] + s.queue[1..];
    }
  }

  /** With the stop flag set and the producers silent, every run of the worker comes one
      step nearer to its end with every step, can go on until it has exited, exits on an
      empty queue, and has then handled its current task and the whole queue, in order.
      No task, SHUTDOWN included, ends it sooner. */
  lemma {:induction false} ShutdownDrains(s: State, steps: seq<Step>)
    requires s.shutdown && !s.worker.Exited? && Run(s, steps) && PushFree(steps)
    ensures var f := Final(s, steps);
            && WorkerSteps(steps) + Remaining(f) == Remaining(s)
            && Ahead(f) == s.handled + InFlight(s.worker) + s.queue && f.pushed == s.pushed
            && (f.worker.Exited? ==> f.queue == [] && f.handled == s.handled + InFlight(s.worker) + s.queue)
            && (!f.worker.Exited? ==> Enabled(f, Take) || Enabled(f, Done) || Enabled(f, Exit))
    decreases |steps|
  {
    if steps != [] {
      var s' := Apply(s, steps[0]);
      DrainStep(s, steps[0]);
      if s'.worker.Exited? {
        NothingAfterExit(s', steps[1..]);
      } else {
        ShutdownDrains(s', steps[1..]);
      }
    }
  }

  lemma {:induction false} NothingAfterExit(s: State, steps: seq<Step>)
    requires s.worker.Exited? && s.shutdown && Run(s, steps) && PushFree(steps)
    ensures Final(s, steps) == s && WorkerSteps(steps) == 0
    decreases |steps|
  {
    if steps != [] {
      assert Apply(s, steps[0]) == s;
      NothingAfterExit(s, steps[1..]);
    }
  }

  /** Whatever happened before, when the stopped worker has exited with nobody pushing any
      more, every accepted task has either been dropped or been handled, exactly once. */
  lemma EveryTaskAccountedFor(before: seq<Step>, after: seq<Step>)
    requires Run(START, before) && Final(START, before).shutdown && !Final(START, before).worker.Exited?
    requires Run(Final(START, before), after) && PushFree(after)
    requires Final(Final(START, before), after).worker.Exited?
    ensures var f := Final(Final(START, before), after);
            && History(f) && f.pushed == TasksOf(f.removed) && f.handled == PoppedOf(f.removed)
            && |f.pushed| == |f.handled| + (|f.removed| - |PoppedOf(f.removed)|)
  {
    HistoryAlways(START, before);
    var s := Final(START, before);
    ShutdownDrains(s, after);
    HistoryAlways(s, after);
  }

  /** The SHUTDOWN task that db_sync_stop_worker pushes costs a full queue its oldest
      task, which is then never handled. */
  lemma StoppingAFullQueueDropsATask(s: State, after: seq<Step>)
    requires History(s) && |s.queue| == MAX && !s.worker.Exited? && PushFree(after)
    requires Run(Apply(Apply(s, Push(PackTask(Shutdown))), SetShutdown), after)
    ensures var f := Final(Apply(Apply(s, Push(PackTask(Shutdown))), SetShutdown), after);
            f.worker.Exited? ==>
              f.handled == s.handled + InFlight(s.worker) + (s.queue[1..] + [PackTask(Shutdown)])
  {
    ShutdownDrains(Apply(Apply(s, Push(PackTask(Shutdown))), SetShutdown), after);
  }
}
