/** Every interleaving of the worker, cancelling threads, clients and consumers
    (`src/server/jobs/jobs.cpp`): what each step keeps, and what follows for all runs. */
module JobRuns {
  import opened Strings
  import opened Jobs
  import TokenBuffer

  /** Ending a task: take the callback, run it, decide how the stream is released, release it. */
  datatype Ending = TakeCallback | RunCallback(has: bool) | ChooseRelease | Release(cancel: bool)

  datatype Outcome = Replied | Failed

  /** Where the worker is. `Popped`: it has a task and looks for a stop request once more. */
  datatype WorkerPc =
    | Waiting
    | Popped(key: Key)
    | Check(key: Key)
    | Doom(key: Key)
    | Start(key: Key)
    | Generate(key: Key)
    | Pushing(key: Key)
    | Judge(key: Key)
    | Settle(key: Key, result: JobState)
    | Ends(key: Key, ending: Ending)
    | Gone

  /** Where a cancelling thread is. `Notify`: it took the task off the queue and ends it itself.
      `Ask`: it only asks the worker. */
  datatype CancelPc =
    | Notify(key: Key, stage: NotifyStage)
    | Ask(key: Key, flagged: bool)
    | Returned

  datatype NotifyStage = Flag | StopStream | Mark | Ending(ending: Ending)

  datatype Sys = Sys(book: Book, worker: WorkerPc, cancellers: map<Thread, CancelPc>, stop: bool)

  const INIT := Sys(Book(map[], {}, []), Waiting, map[], false)

  datatype Action =
    | Enqueue(key: Key, wants: bool, now: int)
    | Gc(now: int)
    | FindToCancel(thread: Thread, key: Key)
    | AskToCancel(thread: Thread, key: Key)
    | CancelStep(thread: Thread, now: int)
    | RequestStop
    | WaitNext
    | WorkerStep(outcome: Outcome, now: int)
    | PushPiece(piece: string, again: bool)
    | PullPiece(key: Key)
    | PullAvailable(key: Key)

  // ---------------------------------------------------------------------------------------
  // Steps
  // ---------------------------------------------------------------------------------------

  function Put(b: Book, key: Key, task: Task): Book {
    b.(store := b.store[key := task])
  }

  function WithStream(task: Task, stream: TokenBuffer.Stream): Task {
    task.(stream := stream)
  }

  /** `set_cancelled`, `set_error_state` and `set_result`: a terminal state and its time. */
  function Terminal(task: Task, state: JobState, now: int): Task {
    task.(state := state, finishedAt := now,
          stream := if state == Cancelled then TokenBuffer.Cancel(task.stream) else task.stream)
  }

  /** One step of `finish_task`: the task behind it, and what is left to do. */
  function EndStep(task: Task, ending: Ending): (Task, Option<Ending>) {
    match ending
    case TakeCallback => (task.(callback := false), Some(RunCallback(task.callback)))
    case RunCallback(has) => (if has then task.(ran := task.ran + 1) else task, Some(ChooseRelease))
    case ChooseRelease => (task, Some(Release(task.cancelRequested || task.state == Cancelled)))
    case Release(cancel) =>
      (WithStream(task, if cancel then TokenBuffer.Cancel(task.stream) else TokenBuffer.SetDone(task.stream)).(owner := NoOne), None)
  }

  function WorkerTo(s: Sys, key: Key, task: Task, pc: WorkerPc): Sys {
    s.(book := Put(s.book, key, task), worker := pc)
  }

  function CancellerTo(s: Sys, thread: Thread, key: Key, task: Task, pc: CancelPc): Sys {
    s.(book := Put(s.book, key, task), cancellers := s.cancellers[thread := pc])
  }

  /** The worker's own steps. A failed generation sets the error state, whatever was asked. */
  function WorkerDo(s: Sys, outcome: Outcome, now: int): Sys {
    match WorkerKey(s.worker)
    case None => s
    case Some(key) =>
      if key !in s.book.store then s
      else
        var task := s.book.store[key];
        match s.worker
        case Popped(_) => if s.stop then WorkerTo(s, key, task.(owner := Dropped), Gone) else s.(worker := Check(key))
        case Check(_) => s.(worker := if task.cancelRequested then Doom(key) else Start(key))
        case Doom(_) => WorkerTo(s, key, Terminal(task, Cancelled, now), Ends(key, TakeCallback))
        case Start(_) => WorkerTo(s, key, task.(state := Running), Generate(key))
        case Generate(_) =>
          if outcome.Failed? then WorkerTo(s, key, Terminal(task, Error, now), Ends(key, TakeCallback))
          else s.(worker := if task.cancelRequested then Judge(key) else Pushing(key))
        case Pushing(_) => s.(worker := Judge(key))
        case Judge(_) => s.(worker := Settle(key, if task.cancelRequested then Cancelled else Done))
        case Settle(_, result) => WorkerTo(s, key, task.(state := result, finishedAt := now), Ends(key, TakeCallback))
        case Ends(_, ending) =>
          var (after, more) := EndStep(task, ending);
          WorkerTo(s, key, after, if more.None? then Waiting else Ends(key, more.value))
        case _ => s
  }

  function WorkerKey(pc: WorkerPc): Option<Key> {
    if pc.Waiting? || pc.Gone? then None else Some(pc.key)
  }

  function NotifyKey(pc: CancelPc): Option<Key> {
    if pc.Notify? then Some(pc.key) else None
  }

  function CancelDo(s: Sys, thread: Thread, now: int): Sys {
    if thread !in s.cancellers then s
    else match s.cancellers[thread]
      case Returned => s
      case Ask(key, flagged) =>
        if key !in s.book.store then s
        else
          var task := s.book.store[key];
          if !flagged then CancellerTo(s, thread, key, task.(cancelRequested := true), Ask(key, true))
          else CancellerTo(s, thread, key, WithStream(task, TokenBuffer.Cancel(task.stream)), Returned)
      case Notify(key, stage) =>
        if key !in s.book.store then s
        else
          var task := s.book.store[key];
          match stage
          case Flag => CancellerTo(s, thread, key, task.(cancelRequested := true), Notify(key, StopStream))
          case StopStream => CancellerTo(s, thread, key, WithStream(task, TokenBuffer.Cancel(task.stream)), Notify(key, Mark))
          case Mark => CancellerTo(s, thread, key, Terminal(task, Cancelled, now), Notify(key, Ending(TakeCallback)))
          case Ending(ending) =>
            var (after, more) := EndStep(task, ending);
            CancellerTo(s, thread, key, after, if more.None? then Returned else Notify(key, Ending(more.value)))
  }

  function Find(s: Sys, thread: Thread, key: Key): Sys {
    if key !in s.book.tasks then s
    else if key in s.book.queue then
      s.(book := Owned(s.book.(queue := Jobs.Without(s.book.queue, key)), key, OfCanceller(thread)),
         cancellers := s.cancellers[thread := Notify(key, Flag)])
    else s.(cancellers := s.cancellers[thread := Ask(key, false)])
  }

  /** `wait_next`, woken by a stop request or by something to do. */
  function Wake(s: Sys): Sys {
    if s.stop then s.(worker := Gone)
    else
      var (next, queue) := FirstKnown(s.book.tasks, s.book.queue);
      match next
      case None => s.(book := s.book.(queue := queue))
      case Some(key) => s.(book := Owned(s.book.(queue := queue), key, OfWorker), worker := Popped(key))
  }

  function PushDo(s: Sys, piece: string, again: bool): Sys {
    if !s.worker.Pushing? || s.worker.key !in s.book.store then s
    else
      var key, task := s.worker.key, s.book.store[s.worker.key];
      WorkerTo(s, key, WithStream(task, TokenBuffer.Push(task.stream, piece)), if again then s.worker else Generate(key))
  }

  function PullDo(s: Sys, key: Key): Sys {
    if key !in s.book.store || !TokenBuffer.CanPull(s.book.store[key].stream) then s
    else s.(book := Put(s.book, key, WithStream(s.book.store[key], TokenBuffer.Pull(s.book.store[key].stream).0)))
  }

  function DrainDo(s: Sys, key: Key): Sys {
    if key !in s.book.store then s
    else s.(book := Put(s.book, key, WithStream(s.book.store[key], TokenBuffer.PullAll(s.book.store[key].stream))))
  }

  predicate Free(s: Sys, thread: Thread) {
    thread !in s.cancellers || s.cancellers[thread] == Returned
  }

  /** What a step does; a step that is not possible does nothing. */
  function Step(s: Sys, a: Action): Sys {
    match a
    case Enqueue(key, wants, now) => if key in s.book.store then s else s.(book := EnqueueIn(s.book, key, wants, now))
    case Gc(now) => s.(book := Collect(s.book, now))
    case FindToCancel(thread, key) => if Free(s, thread) then Find(s, thread, key) else s
    case AskToCancel(thread, key) =>
      if Free(s, thread) && key in s.book.store then s.(cancellers := s.cancellers[thread := Ask(key, false)]) else s
    case CancelStep(thread, now) => CancelDo(s, thread, now)
    case RequestStop => s.(stop := true)
    case WaitNext => if s.worker.Waiting? then Wake(s) else s
    case WorkerStep(outcome, now) => WorkerDo(s, outcome, now)
    case PushPiece(piece, again) => PushDo(s, piece, again)
    case PullPiece(key) => PullDo(s, key)
    case PullAvailable(key) => DrainDo(s, key)
  }

  function Run(s: Sys, actions: seq<Action>): Sys
    decreases |actions|
  {
    if actions == [] then s else Run(Step(s, actions[0]), actions[1..])
  }

  // ---------------------------------------------------------------------------------------
  // The invariant
  // ---------------------------------------------------------------------------------------

  /** How far a task is. `flag`: a cancel request has been seen. */
  datatype Stage = Pending(flag: bool) | Active | Settling(result: JobState) | ToEnd(ending: Ending) | Over | Abandoned

  function WorkerStage(pc: WorkerPc): Stage {
    match pc
    case Popped(_) => Pending(false)
    case Check(_) => Pending(false)
    case Start(_) => Pending(false)
    case Doom(_) => Pending(true)
    case Generate(_) => Active
    case Pushing(_) => Active
    case Judge(_) => Active
    case Settle(_, result) => Settling(result)
    case Ends(_, ending) => ToEnd(ending)
    case _ => Over
  }

  function NotifyStageOf(stage: NotifyStage): Stage {
    match stage
    case Flag => Pending(false)
    case StopStream => Pending(true)
    case Mark => Pending(true)
    case Ending(ending) => ToEnd(ending)
  }

  function StageOf(s: Sys, task: Task): Stage {
    match task.owner
    case InQueue => Pending(false)
    case OfWorker => WorkerStage(s.worker)
    case OfCanceller(thread) =>
      if thread in s.cancellers && s.cancellers[thread].Notify? then NotifyStageOf(s.cancellers[thread].stage) else Over
    case NoOne => Over
    case Dropped => Abandoned
  }

  /** The callback is still there and was not called; a stream that is done was cancelled. */
  predicate NotCalled(task: Task) {
    task.callback == task.wants && task.ran == 0 && (task.stream.done ==> task.cancelRequested)
  }

  /** The callback was called once if there was one. */
  predicate Called(task: Task) {
    !task.callback && task.ran == if task.wants then 1 else 0
  }

  predicate EndOk(task: Task, ending: Ending) {
    match ending
    case TakeCallback => NotCalled(task)
    case RunCallback(has) => !task.callback && has == task.wants && task.ran == 0 && (task.stream.done ==> task.cancelRequested)
    case ChooseRelease => Called(task) && (task.stream.done ==> task.cancelRequested)
    case Release(cancel) =>
      && Called(task) && (task.stream.done ==> task.cancelRequested)
      && (cancel ==> task.cancelRequested) && (task.state == Cancelled ==> cancel)
  }

  predicate TaskOk(task: Task, stage: Stage) {
    && TokenBuffer.Valid(task.stream)
    && (task.stream.cancelled ==> task.cancelRequested)
    && (task.state == Cancelled ==> task.cancelRequested)
    && match stage
       case Pending(flag) => task.state == Queued && NotCalled(task) && (flag ==> task.cancelRequested)
       case Active => task.state == Running && NotCalled(task)
       case Settling(result) =>
         task.state == Running && NotCalled(task) && (result == Done || (result == Cancelled && task.cancelRequested))
       case ToEnd(ending) => Finished(task.state) && EndOk(task, ending)
       case Over =>
         Finished(task.state) && Called(task) && task.stream.done && (task.state == Cancelled ==> task.stream.cancelled)
       case Abandoned => task.state == Queued && NotCalled(task)
  }

  predicate QueueOk(b: Book) {
    && (forall i, j :: 0 <= i < j < |b.queue| ==> b.queue[i] != b.queue[j])
    && (forall k :: k in b.queue ==> k in b.store && b.store[k].owner == InQueue && k in b.tasks)
    && (forall k :: k in b.store && b.store[k].owner == InQueue ==> k in b.queue)
    && b.tasks <= b.store.Keys
  }

  predicate WorkerOk(s: Sys) {
    && (WorkerKey(s.worker).Some? ==> WorkerKey(s.worker).value in s.book.store)
    && (forall k :: k in s.book.store ==> (s.book.store[k].owner == OfWorker <==> WorkerKey(s.worker) == Some(k)))
    && forall k :: k in s.book.store && s.book.store[k].owner == Dropped ==> s.stop && s.worker.Gone?
  }

  /** A thread that stops a stream has set the request flag before. */
  predicate AskOk(b: Book, pc: CancelPc)
    requires pc.Ask?
  {
    pc.key in b.store && (pc.flagged ==> b.store[pc.key].cancelRequested)
  }

  predicate CancellersOk(s: Sys) {
    && (forall t :: t in s.cancellers && s.cancellers[t].Notify? ==>
         s.cancellers[t].key in s.book.store && s.book.store[s.cancellers[t].key].owner == OfCanceller(t))
    && (forall t :: t in s.cancellers && s.cancellers[t].Ask? ==> AskOk(s.book, s.cancellers[t]))
    && forall k :: k in s.book.store && s.book.store[k].owner.OfCanceller? ==>
         var t := s.book.store[k].owner.thread; t in s.cancellers && NotifyKey(s.cancellers[t]) == Some(k)
  }

  predicate TasksOk(s: Sys) {
    forall k :: k in s.book.store ==> TaskOk(s.book.store[k], StageOf(s, s.book.store[k]))
  }

  predicate Inv(s: Sys) {
    QueueOk(s.book) && WorkerOk(s) && CancellersOk(s) && TasksOk(s)
  }

  // ---------------------------------------------------------------------------------------
  // Moves
  // ---------------------------------------------------------------------------------------

  /** A request is never taken back. */
  predicate KeepsRequest(b: Book, key: Key, task: Task) {
    key in b.store && (b.store[key].cancelRequested ==> task.cancelRequested)
  }

  /** Changing a task leaves the queue sound when it neither joins nor leaves it. */
  lemma PutQueue(b: Book, key: Key, task: Task)
    requires QueueOk(b) && key in b.store && (task.owner == InQueue <==> b.store[key].owner == InQueue)
    ensures QueueOk(Put(b, key, task))
  {
  }

  /** Any thread may set the request flag or touch the stream. */
  lemma Touch(s: Sys, key: Key, task: Task)
    requires Inv(s) && KeepsRequest(s.book, key, task) && task.owner == s.book.store[key].owner
    requires TaskOk(task, StageOf(s, s.book.store[key]))
    ensures Inv(s.(book := Put(s.book, key, task)))
  {
    hide TaskOk, StageOf;
    var r := s.(book := Put(s.book, key, task));
    assert QueueOk(r.book) by {
      PutQueue(s.book, key, task);
    }
    assert WorkerOk(r) && CancellersOk(r);
    assert forall k :: k in r.book.store ==> StageOf(r, r.book.store[k]) == StageOf(s, s.book.store[k]) by {
      SameStage(s, r, key);
    }
  }

  lemma SameStage(s: Sys, r: Sys, key: Key)
    requires key in s.book.store && key in r.book.store && r == s.(book := Put(s.book, key, r.book.store[key]))
    requires r.book.store[key].owner == s.book.store[key].owner
    ensures forall k :: k in r.book.store ==> StageOf(r, r.book.store[k]) == StageOf(s, s.book.store[k])
  {
  }

  /** The worker goes on with its task, is done with it, or drops it for a stop request. */
  lemma WorkerMove(s: Sys, key: Key, task: Task, pc: WorkerPc)
    requires Inv(s) && WorkerKey(s.worker) == Some(key) && KeepsRequest(s.book, key, task)
    requires if task.owner == OfWorker then WorkerKey(pc) == Some(key) && TaskOk(task, WorkerStage(pc))
             else (task.owner == NoOne && pc == Waiting && TaskOk(task, Over))
                  || (task.owner == Dropped && pc == Gone && s.stop && TaskOk(task, Abandoned))
    ensures Inv(WorkerTo(s, key, task, pc))
  {
    hide TaskOk;
    var r := WorkerTo(s, key, task, pc);
    assert s.book.store[key].owner == OfWorker;
    assert QueueOk(r.book) by {
      PutQueue(s.book, key, task);
    }
    assert WorkerOk(r) && CancellersOk(r);
    assert TasksOk(r);
  }

  /** A cancelling thread goes on with its task, or is done with it. */
  lemma CancellerMove(s: Sys, thread: Thread, key: Key, task: Task, pc: CancelPc)
    requires Inv(s) && thread in s.cancellers && NotifyKey(s.cancellers[thread]) == Some(key) && KeepsRequest(s.book, key, task)
    requires if task.owner == OfCanceller(thread) then NotifyKey(pc) == Some(key) && TaskOk(task, NotifyStageOf(pc.stage))
             else task.owner == NoOne && pc == Returned && TaskOk(task, Over)
    ensures Inv(CancellerTo(s, thread, key, task, pc))
  {
    hide TaskOk;
    var r := CancellerTo(s, thread, key, task, pc);
    assert s.book.store[key].owner == OfCanceller(thread);
    assert QueueOk(r.book) by {
      PutQueue(s.book, key, task);
    }
    assert WorkerOk(r) && CancellersOk(r) by {
      CancellerLinks(s, thread, key, task, pc);
    }
    assert TasksOk(r);
  }

  /** Such a move leaves the links between tasks and threads sound. */
  lemma CancellerLinks(s: Sys, thread: Thread, key: Key, task: Task, pc: CancelPc)
    requires WorkerOk(s) && CancellersOk(s) && KeepsRequest(s.book, key, task)
    requires thread in s.cancellers && NotifyKey(s.cancellers[thread]) == Some(key)
    requires if task.owner == OfCanceller(thread) then NotifyKey(pc) == Some(key) else task.owner == NoOne && pc == Returned
    ensures WorkerOk(CancellerTo(s, thread, key, task, pc)) && CancellersOk(CancellerTo(s, thread, key, task, pc))
  {
  }

  /** A thread that owns no task may change what it asks for. */
  lemma AskerMove(s: Sys, thread: Thread, pc: CancelPc)
    requires Inv(s) && (thread in s.cancellers ==> !s.cancellers[thread].Notify?)
    requires !pc.Notify? && (pc.Ask? ==> AskOk(s.book, pc))
    ensures Inv(s.(cancellers := s.cancellers[thread := pc]))
  {
  }

  lemma EndStepOk(task: Task, ending: Ending)
    requires TaskOk(task, ToEnd(ending))
    ensures var (after, more) := EndStep(task, ending);
      if more.Some? then TaskOk(after, ToEnd(more.value)) && after.owner == task.owner
      else TaskOk(after, Over) && after.owner == NoOne
  {
  }

  // ---------------------------------------------------------------------------------------
  // Every step keeps the invariant
  // ---------------------------------------------------------------------------------------

  /** Only finished tasks are forgotten, so no queued task is. */
  lemma CollectKeeps(s: Sys, now: int)
    requires Inv(s)
    ensures Inv(s.(book := Collect(s.book, now)))
  {
    var b, c := s.book, Collect(s.book, now);
    forall k | k in c.queue ensures k in c.tasks {
      assert TaskOk(b.store[k], Pending(false));
    }
  }

  lemma EnqueueKeeps(s: Sys, key: Key, wants: bool, now: int)
    requires Inv(s) && key !in s.book.store
    ensures Inv(s.(book := EnqueueIn(s.book, key, wants, now)))
  {
    CollectKeeps(s, now);
    AddKeeps(s.(book := Collect(s.book, now)), key, wants);
  }

  lemma AddKeeps(s: Sys, key: Key, wants: bool)
    requires Inv(s) && key !in s.book.store
    ensures Inv(s.(book := Book(s.book.store[key := NewTask(wants)], s.book.tasks + {key}, s.book.queue + [key])))
  {
    hide TaskOk, NewTask;
    var b := s.book;
    NewTaskOk(wants);
    AddQueue(b, key, NewTask(wants));
  }

  lemma NewTaskOk(wants: bool)
    ensures NewTask(wants).owner == InQueue && TaskOk(NewTask(wants), Pending(false))
  {
  }

  lemma AddQueue(b: Book, key: Key, task: Task)
    requires QueueOk(b) && key !in b.store && task.owner == InQueue
    ensures QueueOk(Book(b.store[key := task], b.tasks + {key}, b.queue + [key]))
  {
    assert key !in b.queue;
    forall k | k in b.queue + [key] ensures k == key || k in b.queue {
    }
    assert forall k :: k in b.queue ==> k in b.queue + [key];
    assert (b.queue + [key])[|b.queue|] == key;
  }

  lemma {:induction false} WithoutIs(queue: seq<Key>, key: Key)
    requires forall i, j :: 0 <= i < j < |queue| ==> queue[i] != queue[j]
    ensures var rest := Jobs.Without(queue, key);
      && (forall i, j :: 0 <= i < j < |rest| ==> rest[i] != rest[j])
      && (forall k :: k in rest <==> k in queue && k != key)
  {
    if queue != [] {
      var head, rest := queue[0], queue[1..];
      assert queue == [head] + rest && forall k :: k in rest ==> k != head;
      if head != key {
        var left := Jobs.Without(rest, key);
        WithoutIs(rest, key);
        assert Jobs.Without(queue, key) == [head] + left && head !in left;
      }
    }
  }

  lemma FindKeeps(s: Sys, thread: Thread, key: Key)
    requires Inv(s) && Free(s, thread)
    ensures Inv(Find(s, thread, key))
  {
    if key in s.book.tasks && key in s.book.queue {
      WithoutIs(s.book.queue, key);
      TakeKeeps(s, Jobs.Without(s.book.queue, key), key, thread);
    } else if key in s.book.tasks {
      AskerMove(s, thread, Ask(key, false));
    }
  }

  /** A task leaves the queue for a thread that owns none: the links stay sound. */
  lemma TakeLinked(b: Book, queue: seq<Key>, key: Key, owner: Owner)
    requires QueueOk(b) && key in b.queue && owner != InQueue
    requires forall i, j :: 0 <= i < j < |queue| ==> queue[i] != queue[j]
    requires forall k :: k in queue <==> k in b.queue && k != key
    ensures QueueOk(Owned(b.(queue := queue), key, owner))
  {
  }

  lemma OtherOwner(task: Task, owner: Owner, stage: Stage)
    ensures TaskOk(task, stage) ==> TaskOk(task.(owner := owner), stage)
  {
  }

  /** And so do those between tasks and threads. */
  lemma TakeLinks(s: Sys, queue: seq<Key>, key: Key, thread: Thread)
    requires WorkerOk(s) && CancellersOk(s) && Free(s, thread) && key in s.book.store && s.book.store[key].owner == InQueue
    ensures var r := s.(book := Owned(s.book.(queue := queue), key, OfCanceller(thread)),
                        cancellers := s.cancellers[thread := Notify(key, Flag)]);
      WorkerOk(r) && CancellersOk(r)
  {
  }

  /** A task taken off the queue belongs to the thread that took it. */
  lemma TakeKeeps(s: Sys, queue: seq<Key>, key: Key, thread: Thread)
    requires Inv(s) && Free(s, thread) && key in s.book.queue && key in s.book.store && s.book.store[key].owner == InQueue
    requires forall i, j :: 0 <= i < j < |queue| ==> queue[i] != queue[j]
    requires forall k :: k in queue <==> k in s.book.queue && k != key
    ensures Inv(s.(book := Owned(s.book.(queue := queue), key, OfCanceller(thread)),
                   cancellers := s.cancellers[thread := Notify(key, Flag)]))
  {
    var r := s.(book := Owned(s.book.(queue := queue), key, OfCanceller(thread)),
                cancellers := s.cancellers[thread := Notify(key, Flag)]);
    hide TaskOk;
    assert QueueOk(r.book) by {
      TakeLinked(s.book, queue, key, OfCanceller(thread));
    }
    assert WorkerOk(r) && CancellersOk(r) by {
      TakeLinks(s, queue, key, thread);
    }
    forall k | k in r.book.store ensures TaskOk(r.book.store[k], StageOf(r, r.book.store[k])) {
      assert TaskOk(s.book.store[k], StageOf(s, s.book.store[k]));
      OtherOwner(s.book.store[key], OfCanceller(thread), Pending(false));
    }
  }

  lemma {:induction false} FirstKnownIs(tasks: set<Key>, queue: seq<Key>)
    requires forall k :: k in queue ==> k in tasks
    ensures FirstKnown(tasks, queue) == if queue == [] then (None, []) else (Some(queue[0]), queue[1..])
  {
  }

  lemma WakeKeeps(s: Sys)
    requires Inv(s) && s.worker.Waiting?
    ensures Inv(Wake(s))
  {
    FirstKnownIs(s.book.tasks, s.book.queue);
    if !s.stop && s.book.queue != [] {
      PopKeeps(s, s.book.queue[0], s.book.queue[1..]);
    }
  }

  lemma PopLinks(s: Sys, key: Key, queue: seq<Key>)
    requires WorkerOk(s) && CancellersOk(s) && s.worker.Waiting? && key in s.book.store && s.book.store[key].owner == InQueue
    ensures var r := s.(book := Owned(s.book.(queue := queue), key, OfWorker), worker := Popped(key));
      WorkerOk(r) && CancellersOk(r)
  {
  }

  lemma PopKeeps(s: Sys, key: Key, queue: seq<Key>)
    requires Inv(s) && s.worker.Waiting? && s.book.queue == [key] + queue
    ensures Inv(s.(book := Owned(s.book.(queue := queue), key, OfWorker), worker := Popped(key)))
  {
    hide TaskOk;
    var r := s.(book := Owned(s.book.(queue := queue), key, OfWorker), worker := Popped(key));
    var b := s.book;
    assert QueueOk(r.book) && key in b.store && b.store[key].owner == InQueue by {
      assert b.queue[0] == key && forall i :: 0 <= i < |queue| ==> queue[i] == b.queue[i + 1];
      TakeLinked(b, queue, key, OfWorker);
    }
    assert WorkerOk(r) && CancellersOk(r) by {
      PopLinks(s, key, queue);
    }
    forall k | k in r.book.store ensures TaskOk(r.book.store[k], StageOf(r, r.book.store[k])) {
      assert TaskOk(b.store[k], StageOf(s, b.store[k]));
      OtherOwner(b.store[key], OfWorker, Pending(false));
    }
  }

  lemma WorkerKeeps(s: Sys, outcome: Outcome, now: int)
    requires Inv(s)
    ensures Inv(WorkerDo(s, outcome, now))
  {
    if WorkerKey(s.worker).Some? {
      var key := WorkerKey(s.worker).value;
      var task := s.book.store[key];
      assert task.owner == OfWorker && TaskOk(task, WorkerStage(s.worker));
      if s.worker.Ends? {
        EndStepOk(task, s.worker.ending);
        var (after, more) := EndStep(task, s.worker.ending);
        WorkerMove(s, key, after, if more.None? then Waiting else Ends(key, more.value));
      } else {
        WorkerWorks(s, key, task, outcome, now);
      }
    }
  }

  /** A step that only moves the worker. */
  lemma OnlyPc(s: Sys, key: Key, pc: WorkerPc)
    requires key in s.book.store
    ensures s.(worker := pc) == WorkerTo(s, key, s.book.store[key], pc)
  {
    assert s.book.store[key := s.book.store[key]] == s.book.store;
  }

  lemma WorkerWorks(s: Sys, key: Key, task: Task, outcome: Outcome, now: int)
    requires Inv(s) && WorkerKey(s.worker) == Some(key) && !s.worker.Ends?
    requires key in s.book.store && task == s.book.store[key]
    requires task.owner == OfWorker && TaskOk(task, WorkerStage(s.worker))
    ensures Inv(WorkerDo(s, outcome, now))
  {
    hide QueueOk, WorkerOk, CancellersOk, TasksOk;
    match s.worker
    case Popped(_) =>
      if s.stop {
        WorkerMove(s, key, task.(owner := Dropped), Gone);
      } else {
        WorkerMove(s, key, task, Check(key));
        OnlyPc(s, key, Check(key));
      }
    case Check(_) =>
      var pc := if task.cancelRequested then Doom(key) else Start(key);
      WorkerMove(s, key, task, pc);
      OnlyPc(s, key, pc);
    case Doom(_) => WorkerMove(s, key, Terminal(task, Cancelled, now), Ends(key, TakeCallback));
    case Start(_) => WorkerMove(s, key, task.(state := Running), Generate(key));
    case Generate(_) =>
      if outcome.Failed? {
        WorkerMove(s, key, Terminal(task, Error, now), Ends(key, TakeCallback));
      } else {
        var pc := if task.cancelRequested then Judge(key) else Pushing(key);
        WorkerMove(s, key, task, pc);
        OnlyPc(s, key, pc);
      }
    case Pushing(_) =>
      WorkerMove(s, key, task, Judge(key));
      OnlyPc(s, key, Judge(key));
    case Judge(_) =>
      var pc := Settle(key, if task.cancelRequested then Cancelled else Done);
      WorkerMove(s, key, task, pc);
      OnlyPc(s, key, pc);
    case Settle(_, result) => WorkerMove(s, key, task.(state := result, finishedAt := now), Ends(key, TakeCallback));
  }

  lemma AskKeeps(s: Sys, thread: Thread, now: int)
    requires Inv(s) && thread in s.cancellers && s.cancellers[thread].Ask?
    ensures Inv(CancelDo(s, thread, now))
  {
    hide QueueOk, WorkerOk;
    var key, flagged := s.cancellers[thread].key, s.cancellers[thread].flagged;
    var task := s.book.store[key];
    var asked := if flagged then WithStream(task, TokenBuffer.Cancel(task.stream)) else task.(cancelRequested := true);
    assert AskOk(s.book, s.cancellers[thread]);
    Touch(s, key, asked);
    AskerMove(s.(book := Put(s.book, key, asked)), thread, if flagged then Returned else Ask(key, true));
  }

  lemma NotifyKeeps(s: Sys, thread: Thread, now: int)
    requires Inv(s) && thread in s.cancellers && s.cancellers[thread].Notify?
    ensures Inv(CancelDo(s, thread, now))
  {
    hide QueueOk, WorkerOk;
    var key, stage := s.cancellers[thread].key, s.cancellers[thread].stage;
    var task := s.book.store[key];
    assert TaskOk(task, NotifyStageOf(stage));
    if stage.Ending? {
      EndStepOk(task, stage.ending);
      var (after, more) := EndStep(task, stage.ending);
      CancellerMove(s, thread, key, after, if more.None? then Returned else Notify(key, Ending(more.value)));
    } else {
      var after := CancelDo(s, thread, now);
      CancellerMove(s, thread, key, after.book.store[key], after.cancellers[thread]);
    }
  }

  lemma CancelKeeps(s: Sys, thread: Thread, now: int)
    requires Inv(s)
    ensures Inv(CancelDo(s, thread, now))
  {
    if thread in s.cancellers && s.cancellers[thread].Ask? {
      AskKeeps(s, thread, now);
    } else if thread in s.cancellers && s.cancellers[thread].Notify? {
      NotifyKeeps(s, thread, now);
    }
  }

  lemma PushKeeps(s: Sys, piece: string, again: bool)
    requires Inv(s)
    ensures Inv(PushDo(s, piece, again))
  {
    if s.worker.Pushing? {
      var key := s.worker.key;
      var task := s.book.store[key];
      assert TaskOk(task, Active);
      TokenBuffer.StepsKeepOrder(task.stream, piece);
      WorkerMove(s, key, WithStream(task, TokenBuffer.Push(task.stream, piece)), if again then s.worker else Generate(key));
    }
  }

  lemma PullKeeps(s: Sys, key: Key)
    requires Inv(s)
    ensures Inv(PullDo(s, key))
  {
    if key in s.book.store {
      var task := s.book.store[key];
      assert TaskOk(task, StageOf(s, task));
      TokenBuffer.StepsKeepOrder(task.stream, "");
      Touch(s, key, WithStream(task, TokenBuffer.Pull(task.stream).0));
    }
  }

  lemma DrainKeeps(s: Sys, key: Key)
    requires Inv(s)
    ensures Inv(DrainDo(s, key))
  {
    if key in s.book.store {
      var task := s.book.store[key];
      assert TaskOk(task, StageOf(s, task));
      TokenBuffer.StepsKeepOrder(task.stream, "");
      Touch(s, key, WithStream(task, TokenBuffer.PullAll(task.stream)));
    }
  }

  lemma StepKeeps(s: Sys, a: Action)
    requires Inv(s)
    ensures Inv(Step(s, a))
  {
    match a
    case Enqueue(key, wants, now) =>
      if key !in s.book.store {
        EnqueueKeeps(s, key, wants, now);
      }
    case Gc(now) => CollectKeeps(s, now);
    case FindToCancel(thread, key) =>
      if Free(s, thread) {
        FindKeeps(s, thread, key);
      }
    case AskToCancel(thread, key) =>
      if Free(s, thread) && key in s.book.store {
        AskerMove(s, thread, Ask(key, false));
      }
    case CancelStep(thread, now) => CancelKeeps(s, thread, now);
    case RequestStop =>
    case WaitNext =>
      if s.worker.Waiting? {
        WakeKeeps(s);
      }
    case WorkerStep(outcome, now) => WorkerKeeps(s, outcome, now);
    case PushPiece(piece, again) => PushKeeps(s, piece, again);
    case PullPiece(key) => PullKeeps(s, key);
    case PullAvailable(key) => DrainKeeps(s, key);
  }

  /** Every state any interleaving can reach is sound. */
  lemma {:induction false} AnyRun(s: Sys, actions: seq<Action>)
    requires Inv(s)
    ensures Inv(Run(s, actions))
    decreases |actions|
  {
    if actions != [] {
      StepKeeps(s, actions[0]);
      AnyRun(Step(s, actions[0]), actions[1..]);
    }
  }

  lemma FromTheStart(actions: seq<Action>)
    ensures Inv(Run(INIT, actions))
  {
    AnyRun(INIT, actions);
  }

  // ---------------------------------------------------------------------------------------
  // What follows
  // ---------------------------------------------------------------------------------------

  /** A task is in the hands of one party at a time, and at most one is running. */
  lemma OneOwner(actions: seq<Action>, k: Key, t: Thread, u: Thread)
    ensures var s := Run(INIT, actions);
      && (k in s.book.queue ==> WorkerKey(s.worker) != Some(k))
      && (t in s.cancellers && NotifyKey(s.cancellers[t]) == Some(k) ==> k !in s.book.queue && WorkerKey(s.worker) != Some(k))
      && (t in s.cancellers && u in s.cancellers && NotifyKey(s.cancellers[t]) == NotifyKey(s.cancellers[u]) == Some(k) ==> t == u)
      && (forall i, j :: 0 <= i < j < |s.book.queue| ==> s.book.queue[i] != s.book.queue[j])
  {
    FromTheStart(actions);
  }

  /** A job that is not finished is in someone's hands. Only a stop request lets the worker leave one
      behind, and it never starts one again. */
  lemma NoneForgotten(actions: seq<Action>, k: Key)
    requires var b := Run(INIT, actions).book; k in b.store && !Finished(b.store[k].state)
    ensures var s := Run(INIT, actions);
      || k in s.book.queue || WorkerKey(s.worker) == Some(k)
      || (exists t :: t in s.cancellers && NotifyKey(s.cancellers[t]) == Some(k))
      || (s.stop && s.worker.Gone? && s.book.store[k].state == Queued && s.book.store[k].ran == 0)
  {
    FromTheStart(actions);
    var s := Run(INIT, actions);
    var task := s.book.store[k];
    assert TaskOk(task, StageOf(s, task));
    if task.owner.OfCanceller? {
      assert NotifyKey(s.cancellers[task.owner.thread]) == Some(k);
    }
  }

  lemma OneRunning(actions: seq<Action>, j: Key, k: Key)
    ensures var b := Run(INIT, actions).book;
      j in b.store && k in b.store && b.store[j].state == b.store[k].state == Running ==> j == k
  {
    FromTheStart(actions);
    var s := Run(INIT, actions);
    if j in s.book.store && s.book.store[j].state == Running {
      RunningIsTheWorkers(s, j);
    }
    if k in s.book.store && s.book.store[k].state == Running {
      RunningIsTheWorkers(s, k);
    }
  }

  lemma RunningIsTheWorkers(s: Sys, k: Key)
    requires Inv(s) && k in s.book.store && s.book.store[k].state == Running
    ensures WorkerKey(s.worker) == Some(k)
  {
    var task := s.book.store[k];
    assert TaskOk(task, StageOf(s, task));
  }

  /** A consumer that reads to the end of a stream nobody asked to cancel finds the task finished and
      its callback called; and what it has read is always a prefix of what was accepted. */
  lemma EndMeansFinished(actions: seq<Action>, k: Key)
    requires k in Run(INIT, actions).book.store
    ensures var task := Run(INIT, actions).book.store[k];
      && task.stream.pulled <= task.stream.accepted
      && task.ran <= 1 && (task.ran == 1 ==> Finished(task.state) && task.wants)
      && (TokenBuffer.CanPull(task.stream) && TokenBuffer.Pull(task.stream).1 == None && !task.cancelRequested ==>
        Finished(task.state) && task.ran == (if task.wants then 1 else 0) && task.stream.pulled == task.stream.accepted)
  {
    FromTheStart(actions);
    var s := Run(INIT, actions);
    var task := s.book.store[k];
    assert TaskOk(task, StageOf(s, task));
    assert task.stream.pulled + [] == task.stream.pulled;
  }

  /** A finished job nobody holds any more was released: its callback was called, its stream is at an
      end, and cut off if it was cancelled; no stream is cut off that nobody asked to cancel. */
  lemma ReleasedWhole(actions: seq<Action>, k: Key)
    requires k in Run(INIT, actions).book.store
    ensures var s := Run(INIT, actions); var task := s.book.store[k];
      && (task.stream.cancelled ==> task.cancelRequested)
      && (Finished(task.state) && WorkerKey(s.worker) != Some(k)
          && (forall t :: t in s.cancellers ==> NotifyKey(s.cancellers[t]) != Some(k)) ==>
          task.stream.done && task.ran == (if task.wants then 1 else 0) && (task.state == Cancelled ==> task.stream.cancelled))
  {
    FromTheStart(actions);
    var s := Run(INIT, actions);
    var task := s.book.store[k];
    assert TaskOk(task, StageOf(s, task));
  }

  /** What may become of a task in one step. */
  predicate GoesOn(before: Task, after: Task) {
    && (Finished(before.state) ==> after.state == before.state)
    && (before.cancelRequested ==> after.cancelRequested)
    && before.ran <= after.ran && after.wants == before.wants
    && (before.ran < after.ran ==> Finished(before.state) && before.ran == 0 && after.ran == 1)
    && before.stream.accepted <= after.stream.accepted && before.stream.pulled <= after.stream.pulled
  }

  lemma EndStepGoesOn(task: Task, ending: Ending)
    requires TaskOk(task, ToEnd(ending))
    ensures GoesOn(task, EndStep(task, ending).0)
  {
  }

  lemma SameGoesOn(task: Task)
    ensures GoesOn(task, task)
  {
  }

  lemma WorkerGoesOn(s: Sys, outcome: Outcome, now: int, k: Key)
    requires Inv(s) && k in s.book.store
    ensures var after := WorkerDo(s, outcome, now).book.store; k in after && GoesOn(s.book.store[k], after[k])
  {
    hide QueueOk, CancellersOk, GoesOn;
    SameGoesOn(s.book.store[k]);
    if WorkerKey(s.worker) == Some(k) {
      WorkerTaskGoesOn(s, outcome, now, k);
    }
  }

  lemma OwnTask(s: Sys, key: Key)
    requires Inv(s) && WorkerKey(s.worker) == Some(key)
    ensures key in s.book.store && TaskOk(s.book.store[key], WorkerStage(s.worker))
  {
    hide QueueOk, CancellersOk;
  }

  lemma WorkerTaskGoesOn(s: Sys, outcome: Outcome, now: int, key: Key)
    requires Inv(s) && key in s.book.store && WorkerKey(s.worker) == Some(key)
    ensures var after := WorkerDo(s, outcome, now).book.store; key in after && GoesOn(s.book.store[key], after[key])
  {
    hide Inv;
    OwnTask(s, key);
    if s.worker.Ends? {
      EndStepGoesOn(s.book.store[key], s.worker.ending);
    }
  }

  lemma CancelGoesOn(s: Sys, thread: Thread, now: int, k: Key)
    requires Inv(s) && k in s.book.store
    ensures var after := CancelDo(s, thread, now).book.store; k in after && GoesOn(s.book.store[k], after[k])
  {
    hide QueueOk, WorkerOk, GoesOn;
    SameGoesOn(s.book.store[k]);
    if thread in s.cancellers && !s.cancellers[thread].Returned? && k == s.cancellers[thread].key {
      CancelTaskGoesOn(s, thread, now, k);
    }
  }

  lemma CancelTaskGoesOn(s: Sys, thread: Thread, now: int, key: Key)
    requires Inv(s) && key in s.book.store && thread in s.cancellers && !s.cancellers[thread].Returned? && key == s.cancellers[thread].key
    ensures var after := CancelDo(s, thread, now).book.store; key in after && GoesOn(s.book.store[key], after[key])
  {
    hide QueueOk, WorkerOk;
    if s.cancellers[thread].Notify? {
      var stage := s.cancellers[thread].stage;
      assert TaskOk(s.book.store[key], NotifyStageOf(stage));
      if stage.Ending? {
        EndStepGoesOn(s.book.store[key], stage.ending);
      }
    }
  }

  /** No step loses a task, leaves a terminal state, takes a request back or calls a callback twice;
      and a callback is only called in a terminal state. */
  lemma StepOnlyGoesOn(s: Sys, a: Action, k: Key)
    requires Inv(s) && k in s.book.store
    ensures k in Step(s, a).book.store && GoesOn(s.book.store[k], Step(s, a).book.store[k])
  {
    hide WorkerDo, CancelDo, Inv, GoesOn, Step;
    match a
    case CancelStep(thread, now) =>
      CancelGoesOn(s, thread, now, k);
      StepIs(s, a);
    case WorkerStep(outcome, now) =>
      WorkerGoesOn(s, outcome, now, k);
      StepIs(s, a);
    case _ => OtherGoesOn(s, a, k);
  }

  lemma StepIs(s: Sys, a: Action)
    ensures a.CancelStep? ==> Step(s, a) == CancelDo(s, a.thread, a.now)
    ensures a.WorkerStep? ==> Step(s, a) == WorkerDo(s, a.outcome, a.now)
  {
  }

  lemma OtherGoesOn(s: Sys, a: Action, k: Key)
    requires k in s.book.store && !a.CancelStep? && !a.WorkerStep?
    ensures k in Step(s, a).book.store && GoesOn(s.book.store[k], Step(s, a).book.store[k])
  {
  }
}
