/** Why a job ended the way it did (`src/server/jobs/jobs.cpp`), told from the schedule: what the
    worker and the cancelling threads met on the way, in whatever order the steps came. */
module JobEndings {
  import opened Strings
  import opened Jobs
  import opened JobRuns
  import TokenBuffer

  /** What decides how a job ends: its generation fails; a cancel request is or is not there when the
      worker has the reply; one is there when the worker looks for it first; or a cancelling thread
      finds the job in the queue. */
  datatype Cause = GenerationFailed | ReplyKept | ReplyDropped | FoundRequest | TakenOff

  /** Whether this is what action `a` comes upon in state `s`. */
  ghost predicate Meets(s: Sys, a: Action, k: Key, cause: Cause) {
    k in s.book.store
    && match cause
       case GenerationFailed => s.worker == Generate(k) && a.WorkerStep? && a.outcome == Failed
       case ReplyKept => s.worker == Judge(k) && a.WorkerStep? && !s.book.store[k].cancelRequested
       case ReplyDropped => s.worker == Judge(k) && a.WorkerStep? && s.book.store[k].cancelRequested
       case FoundRequest => s.worker == Check(k) && a.WorkerStep? && s.book.store[k].cancelRequested
       case TakenOff => a.FindToCancel? && a.key == k && k in s.book.queue && Free(s, a.thread)
  }

  /** Somewhere along the schedule. */
  ghost predicate Met(actions: seq<Action>, k: Key, cause: Cause) {
    exists i :: 0 <= i < |actions| && Meets(Run(INIT, actions[..i]), actions[i], k, cause)
  }

  lemma {:induction false} RunLast(s: Sys, actions: seq<Action>, a: Action)
    ensures Run(s, actions + [a]) == Step(Run(s, actions), a)
    decreases |actions|
  {
    if actions == [] {
      assert ([] + [a])[0] == a && ([] + [a])[1..] == [];
      assert Run(Step(s, a), []) == Step(s, a);
    } else {
      assert (actions + [a])[0] == actions[0] && (actions + [a])[1..] == actions[1..] + [a];
      RunLast(Step(s, actions[0]), actions[1..], a);
    }
  }

  lemma MetLast(actions: seq<Action>, a: Action, k: Key, cause: Cause)
    ensures Met(actions + [a], k, cause) <==> Met(actions, k, cause) || Meets(Run(INIT, actions), a, k, cause)
  {
    var all := actions + [a];
    assert all[..|actions|] == actions && all[|actions|] == a;
    assert forall i :: 0 <= i < |actions| ==> all[..i] == actions[..i] && all[i] == actions[i];
  }

  /** A cancelling thread has taken the job and not yet marked it. */
  ghost predicate AtCanceller(s: Sys, k: Key) {
    exists t :: t in s.cancellers && s.cancellers[t].Notify? && s.cancellers[t].key == k && !s.cancellers[t].stage.Ending?
  }

  /** What was met of a job so far. */
  datatype Story = Story(failed: bool, kept: bool, dropped: bool, found: bool, taken: bool)

  ghost function StoryOf(actions: seq<Action>, k: Key): Story {
    Story(Met(actions, k, GenerationFailed), Met(actions, k, ReplyKept), Met(actions, k, ReplyDropped),
          Met(actions, k, FoundRequest), Met(actions, k, TakenOff))
  }

  ghost function Next(story: Story, s: Sys, a: Action, k: Key): Story {
    Story(story.failed || Meets(s, a, k, GenerationFailed), story.kept || Meets(s, a, k, ReplyKept),
          story.dropped || Meets(s, a, k, ReplyDropped), story.found || Meets(s, a, k, FoundRequest),
          story.taken || Meets(s, a, k, TakenOff))
  }

  /** The job's state, and where the threads stand with it, tell the story. */
  ghost predicate Tells(s: Sys, k: Key, story: Story) {
    var state := if k in s.book.store then s.book.store[k].state else Queued;
    && (story.failed <==> state == Error)
    && (story.kept <==> state == Done || s.worker == Settle(k, Done))
    && (story.dropped || story.found || story.taken <==>
        state == Cancelled || s.worker == Settle(k, Cancelled) || s.worker == Doom(k) || AtCanceller(s, k))
  }

  /** Only thread `t` has moved, and not to the job. */
  predicate OnlyThread(s: Sys, r: Sys, t: Thread, k: Key) {
    t in r.cancellers && r.cancellers == s.cancellers[t := r.cancellers[t]] && NotifyKey(r.cancellers[t]) != Some(k)
  }

  predicate SameState(s: Sys, r: Sys, k: Key) {
    && (k in r.book.store <==> k in s.book.store)
    && (k in s.book.store ==> r.book.store[k].state == s.book.store[k].state)
  }

  /** The job's state and the places of the threads that have it are what they were. */
  lemma Still(s: Sys, r: Sys, k: Key, story: Story)
    requires Tells(s, k, story) && r.worker == s.worker && SameState(s, r, k) && (AtCanceller(r, k) <==> AtCanceller(s, k))
    ensures Tells(r, k, story)
  {
  }

  /** A step that touches neither the job's state nor any thread. */
  lemma Unmoved(s: Sys, a: Action, k: Key, story: Story)
    requires Tells(s, k, story) && (a.Gc? || a.RequestStop? || a.PullPiece? || a.PullAvailable?)
    ensures Tells(Step(s, a), k, Next(story, s, a, k))
  {
    hide Tells, AtCanceller;
    SameThreads(s, Step(s, a), k);
    Still(s, Step(s, a), k, story);
  }

  lemma WorkerOwns(s: Sys, k: Key)
    requires Inv(s) && WorkerKey(s.worker) == Some(k)
    ensures k in s.book.store && TaskOk(s.book.store[k], WorkerStage(s.worker)) && !AtCanceller(s, k)
  {
    var task := s.book.store[k];
    assert task.owner == OfWorker && TaskOk(task, StageOf(s, task));
  }

  /** A step of the worker with another job. */
  lemma WorkerElsewhere(s: Sys, a: Action, k: Key, story: Story)
    requires a.WorkerStep? && Tells(s, k, story) && WorkerKey(s.worker) != Some(k)
    ensures Tells(Step(s, a), k, Next(story, s, a, k))
  {
    hide AtCanceller;
    var r := Step(s, a);
    assert WorkerKey(r.worker) != Some(k) && r.cancellers == s.cancellers;
    SameThreads(s, r, k);
  }

  lemma SameThreads(s: Sys, r: Sys, k: Key)
    requires r.cancellers == s.cancellers
    ensures AtCanceller(r, k) <==> AtCanceller(s, k)
  {
  }

  /** A step with this one. */
  lemma WorkerHere(s: Sys, a: Action, k: Key, story: Story)
    requires a.WorkerStep? && Tells(s, k, story) && WorkerKey(s.worker) == Some(k)
    requires k in s.book.store && TaskOk(s.book.store[k], WorkerStage(s.worker)) && !AtCanceller(s, k)
    ensures Tells(Step(s, a), k, Next(story, s, a, k))
  {
    hide AtCanceller, Tells;
    SameThreads(s, Step(s, a), k);
    if s.worker.Ends? {
      WorkerEndsHere(s, a, k, story);
    } else {
      WorkerWorksHere(s, a, k, story);
    }
  }

  lemma WorkerEndsHere(s: Sys, a: Action, k: Key, story: Story)
    requires a.WorkerStep? && Tells(s, k, story) && s.worker.Ends? && s.worker.key == k && k in s.book.store
    requires !AtCanceller(s, k) && !AtCanceller(Step(s, a), k)
    ensures Tells(Step(s, a), k, Next(story, s, a, k))
  {
    hide AtCanceller, TokenBuffer.Cancel, TokenBuffer.SetDone;
  }

  lemma WorkerWorksHere(s: Sys, a: Action, k: Key, story: Story)
    requires a.WorkerStep? && Tells(s, k, story) && WorkerKey(s.worker) == Some(k) && !s.worker.Ends?
    requires k in s.book.store && TaskOk(s.book.store[k], WorkerStage(s.worker))
    requires !AtCanceller(s, k) && !AtCanceller(Step(s, a), k)
    ensures Tells(Step(s, a), k, Next(story, s, a, k))
  {
    hide AtCanceller, TokenBuffer.Valid, TokenBuffer.Cancel, EndStep;
  }

  lemma WorkerTells(s: Sys, a: Action, k: Key, story: Story)
    requires Inv(s) && a.WorkerStep? && Tells(s, k, story)
    ensures Tells(Step(s, a), k, Next(story, s, a, k))
  {
    hide Inv, Tells;
    if WorkerKey(s.worker) == Some(k) {
      WorkerOwns(s, k);
      WorkerHere(s, a, k, story);
    } else {
      WorkerElsewhere(s, a, k, story);
    }
  }

  lemma CancellerOwns(s: Sys, t: Thread, k: Key)
    requires Inv(s) && t in s.cancellers && NotifyKey(s.cancellers[t]) == Some(k)
    ensures k in s.book.store && TaskOk(s.book.store[k], NotifyStageOf(s.cancellers[t].stage)) && WorkerKey(s.worker) != Some(k)
    ensures forall u :: u in s.cancellers && u != t ==> NotifyKey(s.cancellers[u]) != Some(k)
  {
    var task := s.book.store[k];
    assert task.owner == OfCanceller(t) && TaskOk(task, StageOf(s, task));
  }

  /** A cancelling thread moves that has nothing to do with the job. */
  lemma OtherThread(s: Sys, r: Sys, t: Thread, pc: CancelPc, k: Key)
    requires r.cancellers == s.cancellers[t := pc]
    requires (t in s.cancellers ==> NotifyKey(s.cancellers[t]) != Some(k)) && NotifyKey(pc) != Some(k)
    ensures AtCanceller(r, k) <==> AtCanceller(s, k)
  {
    if AtCanceller(s, k) {
      var u :| u in s.cancellers && s.cancellers[u].Notify? && s.cancellers[u].key == k && !s.cancellers[u].stage.Ending?;
      assert u in r.cancellers && r.cancellers[u] == s.cancellers[u];
    }
    if AtCanceller(r, k) {
      var u :| u in r.cancellers && r.cancellers[u].Notify? && r.cancellers[u].key == k && !r.cancellers[u].stage.Ending?;
      assert u in s.cancellers && r.cancellers[u] == s.cancellers[u];
    }
  }

  /** A thread that has the job moves. */
  lemma OwnThread(s: Sys, t: Thread, k: Key)
    requires t in s.cancellers && NotifyKey(s.cancellers[t]) == Some(k)
    requires forall u :: u in s.cancellers && u != t ==> NotifyKey(s.cancellers[u]) != Some(k)
    ensures AtCanceller(s, k) <==> !s.cancellers[t].stage.Ending?
  {
  }

  lemma NoThread(s: Sys, k: Key)
    requires forall u :: u in s.cancellers ==> NotifyKey(s.cancellers[u]) != Some(k)
    ensures !AtCanceller(s, k)
  {
  }

  lemma CancelHere(s: Sys, a: Action, k: Key, story: Story)
    requires a.CancelStep? && Tells(s, k, story) && a.thread in s.cancellers && NotifyKey(s.cancellers[a.thread]) == Some(k)
    requires k in s.book.store && TaskOk(s.book.store[k], NotifyStageOf(s.cancellers[a.thread].stage)) && WorkerKey(s.worker) != Some(k)
    requires forall u :: u in s.cancellers && u != a.thread ==> NotifyKey(s.cancellers[u]) != Some(k)
    ensures Tells(Step(s, a), k, Next(story, s, a, k))
  {
    hide AtCanceller, Tells, TaskOk, Step;
    var r, t := Step(s, a), a.thread;
    OwnThread(s, t, k);
    OwnStep(s, a, k);
    if r.cancellers[t].Notify? {
      OwnThread(r, t, k);
    } else {
      NoThread(r, k);
    }
    CancelTellsHere(s, a, k, story);
  }

  /** Where the thread is then, and what it has made of the job. */
  lemma OwnStep(s: Sys, a: Action, k: Key)
    requires a.CancelStep? && a.thread in s.cancellers && NotifyKey(s.cancellers[a.thread]) == Some(k) && k in s.book.store
    requires forall u :: u in s.cancellers && u != a.thread ==> NotifyKey(s.cancellers[u]) != Some(k)
    ensures var r, t := Step(s, a), a.thread;
      && t in r.cancellers && (r.cancellers[t] == Returned || NotifyKey(r.cancellers[t]) == Some(k))
      && (forall u :: u in r.cancellers && u != t ==> NotifyKey(r.cancellers[u]) != Some(k))
  {
    hide TokenBuffer.Cancel, TokenBuffer.SetDone;
  }

  lemma CancelTellsHere(s: Sys, a: Action, k: Key, story: Story)
    requires a.CancelStep? && Tells(s, k, story) && a.thread in s.cancellers && NotifyKey(s.cancellers[a.thread]) == Some(k)
    requires k in s.book.store && TaskOk(s.book.store[k], NotifyStageOf(s.cancellers[a.thread].stage)) && WorkerKey(s.worker) != Some(k)
    requires AtCanceller(s, k) <==> !s.cancellers[a.thread].stage.Ending?
    requires a.thread in Step(s, a).cancellers
    requires var pc := Step(s, a).cancellers[a.thread]; AtCanceller(Step(s, a), k) <==> pc.Notify? && !pc.stage.Ending?
    ensures Tells(Step(s, a), k, Next(story, s, a, k))
  {
    hide AtCanceller, TokenBuffer.Valid, TokenBuffer.Cancel, TokenBuffer.SetDone;
  }

  lemma CancelElsewhere(s: Sys, a: Action, k: Key, story: Story)
    requires a.CancelStep? && Tells(s, k, story) && (a.thread in s.cancellers ==> NotifyKey(s.cancellers[a.thread]) != Some(k))
    ensures Tells(Step(s, a), k, Next(story, s, a, k))
  {
    hide AtCanceller, Tells;
    var r, t := Step(s, a), a.thread;
    MoveSame(s, a, k);
    if r.cancellers == s.cancellers {
      SameThreads(s, r, k);
    } else {
      OtherThread(s, r, t, r.cancellers[t], k);
    }
    Still(s, r, k, story);
  }

  lemma MoveSame(s: Sys, a: Action, k: Key)
    requires a.CancelStep? && (a.thread in s.cancellers ==> NotifyKey(s.cancellers[a.thread]) != Some(k))
    ensures var r, t := Step(s, a), a.thread;
      && r.worker == s.worker && SameState(s, r, k)
      && (r.cancellers == s.cancellers || OnlyThread(s, r, t, k))
  {
  }

  lemma CancelTells(s: Sys, a: Action, k: Key, story: Story)
    requires Inv(s) && a.CancelStep? && Tells(s, k, story)
    ensures Tells(Step(s, a), k, Next(story, s, a, k))
  {
    hide Inv, Tells, TaskOk;
    if a.thread in s.cancellers && NotifyKey(s.cancellers[a.thread]) == Some(k) {
      CancellerOwns(s, a.thread, k);
      CancelHere(s, a, k, story);
    } else {
      CancelElsewhere(s, a, k, story);
    }
  }

  lemma QueuedIsQueued(s: Sys, k: Key)
    requires Inv(s) && k in s.book.queue
    ensures k in s.book.store && k in s.book.tasks && s.book.store[k].state == Queued && WorkerKey(s.worker) != Some(k)
    ensures forall t :: t in s.cancellers ==> NotifyKey(s.cancellers[t]) != Some(k)
  {
    var task := s.book.store[k];
    assert task.owner == InQueue && TaskOk(task, StageOf(s, task));
  }

  lemma TakenTells(s: Sys, a: Action, k: Key, story: Story)
    requires a.FindToCancel? && Meets(s, a, k, TakenOff) && Tells(s, k, story)
    requires k in s.book.tasks && WorkerKey(s.worker) != Some(k) && s.book.store[k].state == Queued
    requires forall t :: t in s.cancellers ==> NotifyKey(s.cancellers[t]) != Some(k)
    ensures Tells(Step(s, a), k, Next(story, s, a, k))
  {
    hide AtCanceller;
    var r, t := Step(s, a), a.thread;
    NoThread(s, k);
    assert r.cancellers == s.cancellers[t := Notify(k, Flag)];
    OwnThread(r, t, k);
  }

  /** A thread that is free asks for, or takes, another job, or finds nothing. */
  lemma NotTakenTells(s: Sys, a: Action, k: Key, story: Story)
    requires (a.FindToCancel? || a.AskToCancel?) && !Meets(s, a, k, TakenOff) && Tells(s, k, story)
    requires k in s.book.queue ==> k in s.book.store
    ensures Tells(Step(s, a), k, Next(story, s, a, k))
  {
    hide AtCanceller, Tells;
    var r, t := Step(s, a), a.thread;
    FindSame(s, a, k);
    if r.cancellers == s.cancellers {
      SameThreads(s, r, k);
    } else {
      OtherThread(s, r, t, r.cancellers[t], k);
    }
    Still(s, r, k, story);
  }

  lemma FindSame(s: Sys, a: Action, k: Key)
    requires (a.FindToCancel? || a.AskToCancel?) && !Meets(s, a, k, TakenOff) && (k in s.book.queue ==> k in s.book.store)
    ensures var r, t := Step(s, a), a.thread;
      && r.worker == s.worker && SameState(s, r, k)
      && (r.cancellers == s.cancellers || OnlyThread(s, r, t, k))
      && (t in s.cancellers && r.cancellers != s.cancellers ==> NotifyKey(s.cancellers[t]) != Some(k))
  {
  }

  lemma FindTells(s: Sys, a: Action, k: Key, story: Story)
    requires Inv(s) && (a.FindToCancel? || a.AskToCancel?) && Tells(s, k, story)
    ensures Tells(Step(s, a), k, Next(story, s, a, k))
  {
    hide Inv, Tells, Meets;
    if k in s.book.queue {
      QueuedIsQueued(s, k);
    }
    if Meets(s, a, k, TakenOff) {
      MeetsQueued(s, a, k);
      TakenTells(s, a, k, story);
    } else {
      NotTakenTells(s, a, k, story);
    }
  }

  lemma MeetsQueued(s: Sys, a: Action, k: Key)
    requires Meets(s, a, k, TakenOff)
    ensures a.FindToCancel? && k in s.book.queue
  {
  }

  lemma WakeTells(s: Sys, a: Action, k: Key, story: Story)
    requires Inv(s) && a.WaitNext? && Tells(s, k, story)
    ensures Tells(Step(s, a), k, Next(story, s, a, k))
  {
    hide AtCanceller;
    SameThreads(s, Step(s, a), k);
  }

  lemma EnqueueTells(s: Sys, a: Action, k: Key, story: Story)
    requires Inv(s) && a.Enqueue? && Tells(s, k, story)
    ensures Tells(Step(s, a), k, Next(story, s, a, k))
  {
    hide AtCanceller, TaskOk;
    SameThreads(s, Step(s, a), k);
  }

  lemma StepTells(s: Sys, a: Action, k: Key, story: Story)
    requires Inv(s) && Tells(s, k, story)
    ensures Tells(Step(s, a), k, Next(story, s, a, k))
  {
    hide Inv, Tells;
    match a
    case WorkerStep(_, _) => WorkerTells(s, a, k, story);
    case CancelStep(_, _) => CancelTells(s, a, k, story);
    case FindToCancel(_, _) => FindTells(s, a, k, story);
    case AskToCancel(_, _) => FindTells(s, a, k, story);
    case WaitNext => WakeTells(s, a, k, story);
    case Enqueue(_, _, _) => EnqueueTells(s, a, k, story);
    case PushPiece(_, _) => PushTells(s, a, k, story);
    case _ => Unmoved(s, a, k, story);
  }

  lemma PushTells(s: Sys, a: Action, k: Key, story: Story)
    requires Inv(s) && a.PushPiece? && Tells(s, k, story)
    ensures Tells(Step(s, a), k, Next(story, s, a, k))
  {
    hide AtCanceller, TokenBuffer.Push, TaskOk;
    SameThreads(s, Step(s, a), k);
  }

  lemma {:induction false} RunTells(actions: seq<Action>, k: Key)
    ensures Tells(Run(INIT, actions), k, StoryOf(actions, k))
    decreases |actions|
  {
    if actions == [] {
      assert !AtCanceller(INIT, k);
    } else {
      var n := |actions| - 1;
      var front, last := actions[..n], actions[n];
      assert actions == front + [last];
      RunTells(front, k);
      FromTheStart(front);
      StepTells(Run(INIT, front), last, k, StoryOf(front, k));
      RunLast(INIT, front, last);
      MetLast(front, last, k, GenerationFailed);
      MetLast(front, last, k, ReplyKept);
      MetLast(front, last, k, ReplyDropped);
      MetLast(front, last, k, FoundRequest);
      MetLast(front, last, k, TakenOff);
    }
  }

  /** In every interleaving: a job is in error exactly when its generation failed; it is done exactly
      when the worker had its reply, saw no cancel request, and has settled it; and it is cancelled
      exactly when a request was found by the worker or the job was taken off the queue, and whoever
      met it has marked it. */
  lemma EndingsAreCaused(actions: seq<Action>, k: Key)
    requires k in Run(INIT, actions).book.store
    ensures var s := Run(INIT, actions); var state := s.book.store[k].state;
      && (state == Error <==> Met(actions, k, GenerationFailed))
      && (state == Done <==> Met(actions, k, ReplyKept) && s.worker != Settle(k, Done))
      && (state == Cancelled <==>
          && (Met(actions, k, ReplyDropped) || Met(actions, k, FoundRequest) || Met(actions, k, TakenOff))
          && s.worker != Settle(k, Cancelled) && s.worker != Doom(k) && !AtCanceller(s, k))
  {
    RunTells(actions, k);
    FromTheStart(actions);
    var s := Run(INIT, actions);
    assert TaskOk(s.book.store[k], StageOf(s, s.book.store[k]));
  }
}
