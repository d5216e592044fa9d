/** Whose requests and whose pieces a job carries, told from the schedule (`src/server/jobs/jobs.cpp`). */
module JobStreams {
  import opened Strings
  import opened Jobs
  import opened JobRuns
  import JobEndings
  import TokenBuffer

  // ---------------------------------------------------------------------------------------
  // Requests
  // ---------------------------------------------------------------------------------------

  /** A cancelling thread that has found the job sets its request flag. */
  ghost predicate Asks(s: Sys, a: Action, k: Key) {
    && k in s.book.store && a.CancelStep? && a.thread in s.cancellers
    && (s.cancellers[a.thread] == Ask(k, false) || s.cancellers[a.thread] == Notify(k, Flag))
  }

  ghost predicate Asked(actions: seq<Action>, k: Key) {
    exists i :: 0 <= i < |actions| && Asks(Run(INIT, actions[..i]), actions[i], k)
  }

  predicate Requested(s: Sys, k: Key) {
    k in s.book.store && s.book.store[k].cancelRequested
  }

  lemma StepRequests(s: Sys, a: Action, k: Key)
    ensures Requested(Step(s, a), k) <==> Requested(s, k) || Asks(s, a, k)
  {
    hide TokenBuffer.Cancel, TokenBuffer.SetDone, TokenBuffer.Push, TokenBuffer.Pull, TokenBuffer.PullAll;
    match a
    case WorkerStep(outcome, now) => WorkerRequests(s, outcome, now, k);
    case CancelStep(thread, now) => CancelRequests(s, a, k);
    case _ =>
  }

  lemma WorkerRequests(s: Sys, outcome: Outcome, now: int, k: Key)
    ensures Requested(WorkerDo(s, outcome, now), k) <==> Requested(s, k)
  {
    hide TokenBuffer.Cancel, TokenBuffer.SetDone;
  }

  lemma CancelRequests(s: Sys, a: Action, k: Key)
    requires a.CancelStep?
    ensures Requested(Step(s, a), k) <==> Requested(s, k) || Asks(s, a, k)
  {
    hide TokenBuffer.Cancel, TokenBuffer.SetDone;
  }

  lemma {:induction false} RunRequests(actions: seq<Action>, k: Key)
    ensures Requested(Run(INIT, actions), k) <==> Asked(actions, k)
    decreases |actions|
  {
    if actions != [] {
      var n := |actions| - 1;
      var front, last := actions[..n], actions[n];
      assert actions == front + [last];
      RunRequests(front, k);
      StepRequests(Run(INIT, front), last, k);
      JobEndings.RunLast(INIT, front, last);
      assert forall i :: 0 <= i < n ==> actions[..i] == front[..i] && actions[i] == front[i];
    }
  }

  // ---------------------------------------------------------------------------------------
  // Streams
  // ---------------------------------------------------------------------------------------

  /** What the worker says while it generates the job, as long as its stream is open. */
  ghost function Said(actions: seq<Action>, k: Key): seq<string>
    decreases |actions|
  {
    if actions == [] then []
    else
      var front, last := actions[..|actions| - 1], actions[|actions| - 1];
      Said(front, k) + Says(Run(INIT, front), last, k)
  }

  ghost function Says(s: Sys, a: Action, k: Key): seq<string> {
    if a.PushPiece? && s.worker == Pushing(k) && k in s.book.store && !s.book.store[k].stream.done && !s.book.store[k].stream.cancelled
    then [a.piece] else []
  }

  function Accepted(s: Sys, k: Key): seq<string> {
    if k in s.book.store then s.book.store[k].stream.accepted else []
  }

  lemma StepAccepts(s: Sys, a: Action, k: Key)
    ensures Accepted(Step(s, a), k) == Accepted(s, k) + Says(s, a, k)
  {
    assert Accepted(s, k) + [] == Accepted(s, k);
    match a
    case WorkerStep(outcome, now) => WorkerAccepts(s, outcome, now, k);
    case CancelStep(thread, now) => CancelAccepts(s, a, k);
    case _ =>
  }

  lemma WorkerAccepts(s: Sys, outcome: Outcome, now: int, k: Key)
    ensures Accepted(WorkerDo(s, outcome, now), k) == Accepted(s, k)
  {
  }

  lemma CancelAccepts(s: Sys, a: Action, k: Key)
    requires a.CancelStep?
    ensures Accepted(Step(s, a), k) == Accepted(s, k)
  {
    hide EndStep;
    forall task, ending ensures EndStep(task, ending).0.stream.accepted == task.stream.accepted {
      EndAccepts(task, ending);
    }
  }

  lemma EndAccepts(task: Task, ending: Ending)
    ensures EndStep(task, ending).0.stream.accepted == task.stream.accepted
  {
  }

  /** The pieces a job's stream took in are those the worker pushed while it was generating that job,
      in their order; those read and those that wait are the same pieces. */
  lemma {:induction false} StreamIsSaid(actions: seq<Action>, k: Key)
    ensures Accepted(Run(INIT, actions), k) == Said(actions, k)
    ensures var b := Run(INIT, actions).book; k in b.store ==> b.store[k].stream.pulled + b.store[k].stream.pieces == Said(actions, k)
    decreases |actions|
  {
    if actions != [] {
      var n := |actions| - 1;
      var front, last := actions[..n], actions[n];
      assert actions == front + [last];
      StreamIsSaid(front, k);
      StepAccepts(Run(INIT, front), last, k);
      JobEndings.RunLast(INIT, front, last);
    }
    var s := Run(INIT, actions);
    FromTheStart(actions);
    if k in s.book.store {
      assert TaskOk(s.book.store[k], StageOf(s, s.book.store[k]));
    }
  }

  /** What the worker says while it generates the job, open stream or not. */
  ghost function AllSaid(actions: seq<Action>, k: Key): seq<string>
    decreases |actions|
  {
    if actions == [] then []
    else
      var front, last := actions[..|actions| - 1], actions[|actions| - 1];
      AllSaid(front, k) + if last.PushPiece? && Run(INIT, front).worker == Pushing(k) then [last.piece] else []
  }

  lemma AskedEarlier(actions: seq<Action>, n: nat, front: seq<Action>, k: Key)
    requires n <= |actions| && front == actions[..n] && !Asked(actions, k)
    ensures !Asked(front, k)
  {
    assert forall i :: 0 <= i < n ==> actions[..i] == front[..i] && actions[i] == front[i];
  }

  lemma OpenWhilePushing(s: Sys, k: Key)
    requires Inv(s) && !Requested(s, k) && s.worker == Pushing(k)
    ensures k in s.book.store && !s.book.store[k].stream.done && !s.book.store[k].stream.cancelled
  {
    OwnTask(s, k);
  }

  /** No piece of a job nobody asked to cancel is lost. */
  lemma {:induction false} NothingCutShort(actions: seq<Action>, k: Key)
    requires !Asked(actions, k)
    ensures Said(actions, k) == AllSaid(actions, k)
    decreases |actions|
  {
    hide Inv, Asked, Requested, Step;
    if actions != [] {
      var n := |actions| - 1;
      var front, last := actions[..n], actions[n];
      var s := Run(INIT, front);
      AskedEarlier(actions, n, front, k);
      NothingCutShort(front, k);
      RunRequests(front, k);
      FromTheStart(front);
      if s.worker == Pushing(k) {
        OpenWhilePushing(s, k);
      }
    }
  }
}
