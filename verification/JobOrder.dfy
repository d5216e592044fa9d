/** In what order jobs are served, and when their ends are dated (`src/server/jobs/jobs.cpp`). */
module JobOrder {
  import opened Strings
  import opened Jobs
  import opened JobRuns
  import JobEndings
  import TokenBuffer

  /** The keys in the order they were first handed in. */
  function Arrivals(actions: seq<Action>): seq<Key>
    decreases |actions|
  {
    if actions == [] then []
    else
      var before, last := Arrivals(actions[..|actions| - 1]), actions[|actions| - 1];
      if last.Enqueue? && last.key !in before then before + [last.key] else before
  }

  /** `j` arrived before `k`. */
  ghost predicate Before(arrivals: seq<Key>, j: Key, k: Key) {
    exists p, q :: 0 <= p < q < |arrivals| && arrivals[p] == j && arrivals[q] == k
  }

  ghost predicate InOrder(arrivals: seq<Key>, queue: seq<Key>) {
    forall i, l :: 0 <= i < l < |queue| ==> Before(arrivals, queue[i], queue[l])
  }

  /** The jobs known are those that arrived, and those queued stand in order of arrival. */
  ghost predicate Lined(s: Sys, arrivals: seq<Key>) {
    && (forall k :: k in s.book.store <==> k in arrivals)
    && (forall k :: k in s.book.queue ==> k in s.book.store)
    && InOrder(arrivals, s.book.queue)
  }

  lemma Longer(arrivals: seq<Key>, key: Key, queue: seq<Key>)
    requires InOrder(arrivals, queue) && forall k :: k in queue ==> k in arrivals
    ensures InOrder(arrivals + [key], queue) && InOrder(arrivals + [key], queue + [key])
  {
    var all, more := arrivals + [key], queue + [key];
    forall i, l | 0 <= i < l < |queue| ensures Before(all, queue[i], queue[l]) {
      assert Before(arrivals, queue[i], queue[l]);
      var p, q :| 0 <= p < q < |arrivals| && arrivals[p] == queue[i] && arrivals[q] == queue[l];
      assert all[p] == queue[i] && all[q] == queue[l];
    }
    forall i, l | 0 <= i < l < |more| ensures Before(all, more[i], more[l]) {
      if l == |queue| {
        assert queue[i] in queue;
        var p :| 0 <= p < |arrivals| && arrivals[p] == queue[i];
        assert all[p] == queue[i] && all[|arrivals|] == key;
      }
    }
  }

  lemma {:induction false} WithoutInOrder(arrivals: seq<Key>, queue: seq<Key>, key: Key)
    requires InOrder(arrivals, queue)
    ensures InOrder(arrivals, Jobs.Without(queue, key)) && forall k :: k in Jobs.Without(queue, key) ==> k in queue
    decreases |queue|
  {
    if queue != [] {
      var head, rest := queue[0], queue[1..];
      assert InOrder(arrivals, rest) by {
        assert forall i :: 0 <= i < |rest| ==> rest[i] == queue[i + 1];
      }
      WithoutInOrder(arrivals, rest, key);
      if head != key {
        var left := Jobs.Without(rest, key);
        var all := [head] + left;
        forall i, l | 0 <= i < l < |all| ensures Before(arrivals, all[i], all[l]) {
          if i == 0 {
            assert left[l - 1] in rest;
            var m :| 0 <= m < |rest| && rest[m] == left[l - 1];
            assert Before(arrivals, queue[0], queue[m + 1]);
          }
        }
      }
    }
  }

  /** What is left behind the first known job is in order too, and behind it. */
  lemma {:induction false} KnownInOrder(arrivals: seq<Key>, tasks: set<Key>, queue: seq<Key>)
    requires InOrder(arrivals, queue)
    ensures var (next, rest) := FirstKnown(tasks, queue);
      && InOrder(arrivals, rest) && (forall k :: k in rest ==> k in queue)
      && (next.Some? ==> next.value in queue && forall k :: k in rest ==> Before(arrivals, next.value, k))
    decreases |queue|
  {
    if queue != [] {
      var rest := queue[1..];
      assert InOrder(arrivals, rest) by {
        assert forall i :: 0 <= i < |rest| ==> rest[i] == queue[i + 1];
      }
      if queue[0] in tasks {
        forall k | k in rest ensures Before(arrivals, queue[0], k) {
          var m :| 0 <= m < |rest| && rest[m] == k;
          assert Before(arrivals, queue[0], queue[m + 1]);
        }
      } else {
        KnownInOrder(arrivals, tasks, rest);
      }
    }
  }

  lemma StepLined(s: Sys, a: Action, arrivals: seq<Key>)
    requires Lined(s, arrivals)
    ensures Lined(Step(s, a), if a.Enqueue? && a.key !in arrivals then arrivals + [a.key] else arrivals)
  {
    hide InOrder, FirstKnown, Jobs.Without;
    match a
    case Enqueue(key, _, _) => Longer(arrivals, key, s.book.queue);
    case FindToCancel(_, key) => WithoutInOrder(arrivals, s.book.queue, key);
    case WaitNext => KnownInOrder(arrivals, s.book.tasks, s.book.queue);
    case _ => SameLine(s, a);
  }

  lemma SameLine(s: Sys, a: Action)
    requires !a.Enqueue? && !a.FindToCancel? && !a.WaitNext?
    ensures Step(s, a).book.queue == s.book.queue && Step(s, a).book.store.Keys == s.book.store.Keys
  {
  }

  lemma {:induction false} RunLined(actions: seq<Action>)
    ensures Lined(Run(INIT, actions), Arrivals(actions))
    decreases |actions|
  {
    if actions != [] {
      var n := |actions| - 1;
      assert actions == actions[..n] + [actions[n]];
      RunLined(actions[..n]);
      StepLined(Run(INIT, actions[..n]), actions[n], Arrivals(actions[..n]));
      JobEndings.RunLast(INIT, actions[..n], actions[n]);
    }
  }

  /** First come, first served: in every interleaving, the job the worker takes has been in the queue
      longest, and what it leaves behind still waits in order of arrival. */
  lemma FirstComeFirstServed(actions: seq<Action>, k: Key)
    requires Run(INIT, actions).worker == Waiting && Step(Run(INIT, actions), WaitNext).worker == Popped(k)
    ensures var rest := Step(Run(INIT, actions), WaitNext).book.queue;
      InOrder(Arrivals(actions), rest) && forall j :: j in rest ==> Before(Arrivals(actions), k, j)
  {
    var s := Run(INIT, actions);
    RunLined(actions);
    KnownInOrder(Arrivals(actions), s.book.tasks, s.book.queue);
    var (next, rest) := FirstKnown(s.book.tasks, s.book.queue);
    assert next == Some(k) && Step(s, WaitNext).book.queue == rest;
  }

  // ---------------------------------------------------------------------------------------
  // Going on
  // ---------------------------------------------------------------------------------------

  /** A waiting worker takes the job at the head of the queue, and leaves when it is asked to stop. */
  lemma WorkerWakes(actions: seq<Action>)
    requires Run(INIT, actions).worker == Waiting
    ensures var s := Run(INIT, actions); var next := Step(s, WaitNext);
      if s.stop then next.worker == Gone && next.book == s.book
      else if s.book.queue == [] then next == s
      else next.worker == Popped(s.book.queue[0]) && next.book.queue == s.book.queue[1..]
  {
    var s := Run(INIT, actions);
    FromTheStart(actions);
    FirstKnownIs(s.book.tasks, s.book.queue);
  }

  /** How many steps the worker has at most before it waits again. */
  function WorkLeft(pc: WorkerPc): nat {
    match pc
    case Waiting => 0
    case Popped(_) => 11
    case Check(_) => 10
    case Doom(_) => 5
    case Start(_) => 9
    case Generate(_) => 8
    case Pushing(_) => 7
    case Judge(_) => 6
    case Settle(_, _) => 5
    case Ends(_, ending) => EndLeft(ending)
    case Gone => 0
  }

  function EndLeft(ending: Ending): nat {
    match ending
    case TakeCallback => 4
    case RunCallback(_) => 3
    case ChooseRelease => 2
    case Release(_) => 1
  }

  /** The worker is never stuck: each of its steps brings it nearer to waiting for the next job. */
  lemma WorkerAdvances(s: Sys, outcome: Outcome, now: int)
    requires Inv(s) && s.worker != Waiting && s.worker != Gone
    ensures WorkLeft(Step(s, WorkerStep(outcome, now)).worker) < WorkLeft(s.worker)
  {
    hide TokenBuffer.Cancel, TokenBuffer.SetDone, Terminal;
  }

  /** Left to itself it is there after eleven, with its job finished unless it left for a stop request. */
  lemma {:induction false} WorkerGetsThere(s: Sys, k: Key, steps: seq<Action>)
    requires Inv(s) && WorkerKey(s.worker) == Some(k) && |steps| >= WorkLeft(s.worker)
    requires forall i :: 0 <= i < |steps| ==> steps[i].WorkerStep?
    ensures var after := Run(s, steps);
      && (after.worker == Waiting || after.worker == Gone) && k in after.book.store
      && (after.worker == Waiting ==> Finished(after.book.store[k].state))
    decreases |steps|
  {
    var next, rest := Step(s, steps[0]), steps[1..];
    StepKeeps(s, steps[0]);
    OwnTask(s, k);
    WorkerAdvances(s, steps[0].outcome, steps[0].now);
    StaysWith(s, steps[0], k);
    assert forall i :: 0 <= i < |rest| ==> rest[i] == steps[i + 1];
    if WorkerKey(next.worker) == Some(k) {
      WorkerGetsThere(next, k, rest);
    } else {
      Idles(next, rest);
    }
  }

  lemma StaysWith(s: Sys, a: Action, k: Key)
    requires a.WorkerStep? && WorkerKey(s.worker) == Some(k) && k in s.book.store && TaskOk(s.book.store[k], WorkerStage(s.worker))
    ensures var r := Step(s, a);
      && k in r.book.store && (WorkerKey(r.worker) == Some(k) || r.worker == Waiting || r.worker == Gone)
      && (r.worker == Waiting ==> Finished(r.book.store[k].state))
  {
    hide TokenBuffer.Cancel, TokenBuffer.SetDone, TokenBuffer.Valid;
  }

  lemma {:induction false} Idles(s: Sys, steps: seq<Action>)
    requires (s.worker == Waiting || s.worker == Gone) && forall i :: 0 <= i < |steps| ==> steps[i].WorkerStep?
    ensures Run(s, steps) == s
    decreases |steps|
  {
    if steps != [] {
      assert Step(s, steps[0]) == s;
      Idles(s, steps[1..]);
    }
  }

  function CancelLeft(pc: CancelPc): nat {
    match pc
    case Returned => 0
    case Ask(_, flagged) => if flagged then 1 else 2
    case Notify(_, stage) =>
      match stage
      case Flag => 7
      case StopStream => 6
      case Mark => 5
      case Ending(ending) => EndLeft(ending)
  }

  /** Nor is a cancelling thread. */
  lemma CancellerAdvances(s: Sys, t: Thread, now: int)
    requires Inv(s) && t in s.cancellers && s.cancellers[t] != Returned
    ensures var r := Step(s, CancelStep(t, now)); t in r.cancellers && CancelLeft(r.cancellers[t]) < CancelLeft(s.cancellers[t])
  {
    hide TokenBuffer.Cancel, TokenBuffer.SetDone, Terminal;
  }

  /** Once a stop is asked for, a worker that has not started a job starts none. */
  lemma {:induction false} StopHolds(s: Sys, actions: seq<Action>)
    requires s.stop && (s.worker.Waiting? || s.worker.Popped? || s.worker.Gone?)
    ensures var r := Run(s, actions); r.stop && (r.worker.Waiting? || r.worker.Popped? || r.worker.Gone?)
    decreases |actions|
  {
    if actions != [] {
      StopSteps(s, actions[0]);
      StopHolds(Step(s, actions[0]), actions[1..]);
    }
  }

  lemma StopSteps(s: Sys, a: Action)
    requires s.stop && (s.worker.Waiting? || s.worker.Popped? || s.worker.Gone?)
    ensures var r := Step(s, a); r.stop && (r.worker.Waiting? || r.worker.Popped? || r.worker.Gone?)
  {
    hide TokenBuffer.Cancel, TokenBuffer.SetDone, TokenBuffer.Push, TokenBuffer.Pull, TokenBuffer.PullAll, EndStep;
  }

  /** So no job is started after that: what is running then is the job that was. */
  lemma NoneStartsAfterStop(before: seq<Action>, actions: seq<Action>, k: Key)
    requires var s := Run(INIT, before); s.stop && (s.worker.Waiting? || s.worker.Popped? || s.worker.Gone?)
    ensures var b := Run(Run(INIT, before), actions).book; k in b.store ==> b.store[k].state != Running
  {
    var s := Run(INIT, before);
    FromTheStart(before);
    AnyRun(s, actions);
    StopHolds(s, actions);
    var r := Run(s, actions);
    if k in r.book.store && r.book.store[k].state == Running {
      RunningIsTheWorkers(r, k);
      OwnTask(r, k);
    }
  }

  ghost predicate Dated(before: Task, after: Task, a: Action) {
    if Finished(before.state) || !Finished(after.state) then after.finishedAt == before.finishedAt
    else (a.WorkerStep? || a.CancelStep?) && after.finishedAt == a.now
  }

  lemma WorkerDates(s: Sys, a: Action, k: Key)
    requires a.WorkerStep? && WorkerKey(s.worker) == Some(k) && k in s.book.store && TaskOk(s.book.store[k], WorkerStage(s.worker))
    ensures k in Step(s, a).book.store && Dated(s.book.store[k], Step(s, a).book.store[k], a)
  {
    hide TokenBuffer.Valid, TokenBuffer.Cancel, TokenBuffer.SetDone;
  }

  lemma CancellerDates(s: Sys, a: Action, k: Key)
    requires a.CancelStep? && a.thread in s.cancellers && NotifyKey(s.cancellers[a.thread]) == Some(k)
    requires k in s.book.store && TaskOk(s.book.store[k], NotifyStageOf(s.cancellers[a.thread].stage))
    ensures k in Step(s, a).book.store && Dated(s.book.store[k], Step(s, a).book.store[k], a)
  {
    hide TokenBuffer.Valid, TokenBuffer.Cancel, TokenBuffer.SetDone;
  }

  /** A step of nobody who has the job. */
  lemma NotDated(s: Sys, a: Action, k: Key)
    requires k in s.book.store && (a.WorkerStep? ==> WorkerKey(s.worker) != Some(k))
    requires a.CancelStep? && a.thread in s.cancellers ==> NotifyKey(s.cancellers[a.thread]) != Some(k)
    ensures var r := Step(s, a).book.store;
      k in r && r[k].state == s.book.store[k].state && r[k].finishedAt == s.book.store[k].finishedAt
  {
    hide TokenBuffer.Cancel, TokenBuffer.Push, TokenBuffer.Pull, TokenBuffer.PullAll, EndStep, Terminal;
  }

  /** The end of a job is dated by the step that brings it, and not dated again. */
  lemma EndIsDated(s: Sys, a: Action, k: Key)
    requires Inv(s) && k in s.book.store
    ensures k in Step(s, a).book.store && Dated(s.book.store[k], Step(s, a).book.store[k], a)
  {
    hide Inv, Step, TaskOk;
    if a.WorkerStep? && WorkerKey(s.worker) == Some(k) {
      OwnTask(s, k);
      WorkerDates(s, a, k);
    } else if a.CancelStep? && a.thread in s.cancellers && NotifyKey(s.cancellers[a.thread]) == Some(k) {
      JobEndings.CancellerOwns(s, a.thread, k);
      CancellerDates(s, a, k);
    } else {
      NotDated(s, a, k);
    }
  }
}
