/** Jobs, their single worker and the threads that cancel them (`src/server/jobs/jobs.cpp`). Every
    step is one critical section, one atomic access or one call-back: whatever the threads do, a
    run is some sequence of these steps. */
module Jobs {
  import opened Strings
  import TokenBuffer

  type Key = nat
  type Thread = nat

  datatype JobState = Queued | Running | Done | Error | Cancelled

  predicate Finished(state: JobState) {
    state == Done || state == Error || state == Cancelled
  }

  /** Who is to act on a task next. The code has no such field: it is kept here to say that the
      queue, the worker and the cancelling threads never share a task. `Dropped`: the worker took
      the task and left for a stop request. */
  datatype Owner = InQueue | OfWorker | OfCanceller(thread: Thread) | NoOne | Dropped

  /** `callback` is set until it is taken, `ran` counts how often it was called. */
  datatype Task = Task(
    state: JobState, cancelRequested: bool, wants: bool, callback: bool, ran: nat, finishedAt: int,
    stream: TokenBuffer.Stream, owner: Owner)

  const FINISHED_TTL := 300

  /** What the jobs mutex guards, and the tasks themselves. */
  datatype Book = Book(store: map<Key, Task>, tasks: set<Key>, queue: seq<Key>)

  // ---------------------------------------------------------------------------------------
  // Critical sections of the jobs mutex
  // ---------------------------------------------------------------------------------------

  predicate Expired(task: Task, now: int) {
    Finished(task.state) && task.finishedAt != 0 && now - task.finishedAt > FINISHED_TTL
  }

  function Collect(b: Book, now: int): Book {
    b.(tasks := set k | k in b.tasks && !(k in b.store && Expired(b.store[k], now)))
  }

  function NewTask(wants: bool): Task {
    Task(Queued, false, wants, wants, 0, 0, TokenBuffer.EMPTY, InQueue)
  }

  /** A task is enqueued once: its key is new. */
  function EnqueueIn(b: Book, key: Key, wants: bool, now: int): Book {
    var c := Collect(b, now);
    Book(c.store[key := NewTask(wants)], c.tasks + {key}, c.queue + [key])
  }

  /** A job is forgotten once it has been finished for more than 300 seconds, and no other job is. */
  lemma CollectedAre(b: Book, now: int, key: Key)
    ensures var c := Collect(b, now);
      && c.store == b.store && c.queue == b.queue
      && (key in c.tasks <==>
          key in b.tasks && !(key in b.store && b.store[key].state in {Done, Error, Cancelled}
                              && b.store[key].finishedAt != 0 && now - b.store[key].finishedAt > 300))
  {
  }

  /** The queue without the first `key`. */
  function Without(queue: seq<Key>, key: Key): seq<Key> {
    if queue == [] then []
    else if queue[0] == key then queue[1..]
    else [queue[0]] + Without(queue[1..], key)
  }

  lemma {:induction false} WithoutSplit(front: seq<Key>, key: Key, back: seq<Key>)
    requires key !in front
    ensures Without(front + ([key] + back), key) == front + back
    decreases |front|
  {
    var queue := front + ([key] + back);
    if front == [] {
      assert queue == [key] + back && queue[1..] == back && front + back == back;
    } else {
      var head, rest := front[0], front[1..];
      assert queue[0] == head && queue[1..] == rest + ([key] + back);
      WithoutSplit(rest, key, back);
      assert front + back == [head] + (rest + back);
    }
  }

  lemma {:induction false} WithoutNone(queue: seq<Key>, key: Key)
    requires key !in queue
    ensures Without(queue, key) == queue
  {
    if queue != [] {
      WithoutNone(queue[1..], key);
      assert queue == [queue[0]] + queue[1..];
    }
  }

  function Owned(b: Book, key: Key, owner: Owner): Book {
    if key in b.store then b.(store := b.store[key := b.store[key].(owner := owner)]) else b
  }

  /** The first queued key the runner still knows, and what is left of the queue. */
  function FirstKnown(tasks: set<Key>, queue: seq<Key>): (Option<Key>, seq<Key>) {
    if queue == [] then (None, [])
    else if queue[0] in tasks then (Some(queue[0]), queue[1..])
    else FirstKnown(tasks, queue[1..])
  }

  class Runner {
    var store: map<Key, Task>
    var tasks: set<Key>
    var queue: seq<Key>

    ghost function Value(): Book
      reads this
    {
      Book(store, tasks, queue)
    }

    constructor ()
      ensures Value() == Book(map[], {}, [])
    {
      store, tasks, queue := map[], {}, [];
    }

    method Gc(now: int)
      modifies this
      ensures Value() == Collect(old(Value()), now)
    {
      var left := tasks;
      while left != {}
        invariant left <= old(tasks) && store == old(store) && queue == old(queue)
        invariant tasks == set k | k in old(tasks) && !(k !in left && k in store && Expired(store[k], now))
        decreases |left|
      {
        var k :| k in left;
        if k in store && Expired(store[k], now) {
          tasks := tasks - {k};
        }
        left := left - {k};
      }
    }

    method Enqueue(key: Key, wants: bool, now: int)
      modifies this
      ensures Value() == EnqueueIn(old(Value()), key, wants, now)
    {
      Gc(now);
      store := store[key := NewTask(wants)];
      tasks := tasks + {key};
      queue := queue + [key];
    }

    /** The locked part of `cancel`: a queued task is taken off the queue. */
    method FindToCancel(key: Key, thread: Thread) returns (found: bool, notify: bool)
      modifies this
      ensures found == (key in old(tasks)) && notify == (found && key in old(queue))
      ensures Value() == if notify then Owned(old(Value()).(queue := Without(old(queue), key)), key, OfCanceller(thread))
                         else old(Value())
    {
      if key !in tasks {
        return false, false;
      }
      found, notify := true, false;
      ghost var before := queue;
      var at := 0;
      while at < |queue| && queue[at] != key
        invariant at <= |queue| && queue == before && key !in queue[..at]
      {
        at := at + 1;
      }
      if at < |queue| {
        WithoutSplit(before[..at], key, before[at + 1..]);
        assert before == before[..at] + ([key] + before[at + 1..]) && queue[at] in before;
        queue := queue[..at] + queue[at + 1..];
        notify := true;
        if key in store {
          store := store[key := store[key].(owner := OfCanceller(thread))];
        }
      } else {
        assert before[..at] == before;
        WithoutNone(before, key);
      }
    }

    /** The locked part of `wait_next` when there is no stop request. */
    method PopNext() returns (next: Option<Key>)
      modifies this
      ensures (next, queue) == FirstKnown(old(tasks), old(queue))
      ensures Value() == if next.None? then old(Value()).(queue := []) else Owned(old(Value()).(queue := queue), next.value, OfWorker)
    {
      next := None;
      while queue != []
        invariant store == old(store) && tasks == old(tasks)
        invariant FirstKnown(tasks, queue) == FirstKnown(old(tasks), old(queue))
        decreases |queue|
      {
        var key := queue[0];
        queue := queue[1..];
        if key !in tasks {
          continue;
        }
        next := Some(key);
        if key in store {
          store := store[key := store[key].(owner := OfWorker)];
        }
        return;
      }
    }
  }
}
