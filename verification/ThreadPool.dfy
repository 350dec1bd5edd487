/** The bounded queue, and the thread pool over it as interleaved steps of submitters, workers and the
    thread that shuts the pool down. Waiting is a step that is not enabled. */
module ThreadPool {
  import opened Common

  // ---- The queue ------------------------------------------------------------------------------

  /** What Push and Pop wait for. */
  predicate CanPush<T>(q: seq<T>, capacity: nat, down: bool) { |q| < capacity || down }
  predicate CanPop<T>(q: seq<T>, down: bool) { |q| > 0 || down }

  /** What they then do. */
  function Pushed<T>(q: seq<T>, down: bool, item: T): seq<T> { if down then q else q + [item] }
  function Front<T>(q: seq<T>): Option<T> { if q == [] then None else Some(q[0]) }
  function Rest<T>(q: seq<T>): seq<T> { if q == [] then [] else q[1..] }

  /** lib/vox_common/bounded_queue.hpp. Each method is one critical section; for Push and Pop the section
      after their wait, whose condition therefore holds. */
  class BoundedQueue<T> {
    const capacity: nat
    var queue: seq<T>
    var down: bool

    ghost predicate Valid()
      reads this
    {
      |queue| <= capacity
    }

    constructor (capacity: nat)
      ensures Valid() && this.capacity == capacity && queue == [] && !down
    {
      this.capacity, queue, down := capacity, [], false;
    }

    method Push(item: T) returns (accepted: bool)
      requires Valid() && (|queue| < capacity || down)
      modifies this
      ensures Valid() && accepted == !old(down) && down == old(down)
      ensures queue == (if accepted then old(queue) + [item] else old(queue)) == Pushed(old(queue), down, item)
    {
      assert CanPush(queue, capacity, down);
      if down {
        return false;
      }
      queue := queue + [item];
      accepted := true;
    }

    method TryPush(item: T) returns (accepted: bool)
      requires Valid()
      modifies this
      ensures Valid() && accepted == (!old(down) && |old(queue)| < capacity) && down == old(down)
      ensures queue == if accepted then old(queue) + [item] else old(queue)
    {
      if down || |queue| >= capacity {
        return false;
      }
      queue := queue + [item];
      accepted := true;
    }

    method Pop() returns (item: Option<T>)
      requires Valid() && (queue != [] || down)
      modifies this
      ensures Valid() && down == old(down)
      ensures match item
              case Some(t) => old(queue) == [t] + queue
              case None => old(queue) == [] && queue == [] && down
      ensures item == Front(old(queue)) && queue == Rest(old(queue))
    {
      assert CanPop(queue, down);
      if queue == [] {
        return None;
      }
      item := Some(queue[0]);
      queue := queue[1..];
    }

    method TryPop() returns (item: Option<T>)
      requires Valid()
      modifies this
      ensures Valid() && down == old(down)
      ensures match item
              case Some(t) => old(queue) == [t] + queue
              case None => old(queue) == [] && queue == []
    {
      if queue == [] {
        return None;
      }
      item := Some(queue[0]);
      queue := queue[1..];
    }

    method Shutdown()
      requires Valid()
      modifies this
      ensures Valid() && down && queue == old(queue)
    {
      down := true;
    }
  }

  // ---- The pool -------------------------------------------------------------------------------

  type Task = nat

  /** A worker waits at the queue, has popped a task, has counted itself active, has run the task and not yet
      counted itself out, or has left its loop. */
  datatype Worker = Waiting | Popped(task: Task) | Active(task: Task) | Done | Left

  /** `accepted`, `taken` and `ran` are the history; `joined` counts the workers already joined. */
  datatype Pool = Pool(
    capacity: nat, queue: seq<Task>, flag: bool, down: bool, workers: seq<Worker>, active: int, joined: nat,
    accepted: seq<Task>, taken: seq<Task>, ran: seq<Task>)

  datatype Move =
    | Submit(task: Task)      // Push inside Submit
    | Pop(w: nat)
    | CountUp(w: nat)
    | Finish(w: nat)          // its task has run
    | CountDown(w: nat)
    | RaiseFlag               // Shutdown, first critical section
    | CloseQueue
    | Join

  ghost predicate Enabled(s: Pool, m: Move) {
    match m
    case Submit(_) => CanPush(s.queue, s.capacity, s.down)
    case Pop(w) => w < |s.workers| && s.workers[w].Waiting? && CanPop(s.queue, s.down)
    case CountUp(w) => w < |s.workers| && s.workers[w].Popped?
    case Finish(w) => w < |s.workers| && s.workers[w].Active?
    case CountDown(w) => w < |s.workers| && s.workers[w].Done?
    case RaiseFlag => !s.flag
    case CloseQueue => s.flag && !s.down
    case Join => s.down && s.joined < |s.workers| && s.workers[s.joined].Left?
  }

  function Step(s: Pool, m: Move): Pool
    requires Enabled(s, m)
  {
    match m
    case Submit(t) =>
      s.(queue := Pushed(s.queue, s.down, t), accepted := if s.down then s.accepted else s.accepted + [t])
    case Pop(w) =>
      match Front(s.queue) {
        case None => s.(workers := s.workers[w := Left])
        case Some(t) => s.(queue := Rest(s.queue), taken := s.taken + [t], workers := s.workers[w := Popped(t)])
      }
    case CountUp(w) => s.(workers := s.workers[w := Active(s.workers[w].task)], active := s.active + 1)
    case Finish(w) => s.(workers := s.workers[w := Done], ran := s.ran + [s.workers[w].task])
    case CountDown(w) => s.(workers := s.workers[w := Waiting], active := s.active - 1)
    case RaiseFlag => s.(flag := true)
    case CloseQueue => s.(down := true)
    case Join => s.(joined := s.joined + 1)
  }

  function Start(workers: nat, capacity: nat): Pool {
    Pool(capacity, [], false, false, seq(workers, i => Waiting), 0, 0, [], [], [])
  }

  /** A run from `s` by `moves`, each enabled when it is made, ends in `s2`. */
  ghost predicate Runs(s: Pool, moves: seq<Move>, s2: Pool)
    decreases |moves|
  {
    if moves == [] then s2 == s else Enabled(s, moves[0]) && Runs(Step(s, moves[0]), moves[1..], s2)
  }

  // ---- Invariant ------------------------------------------------------------------------------

  /** How often a task occurs in a list. */
  function Times(q: seq<Task>, t: Task): nat {
    if q == [] then 0 else Times(q[..|q| - 1], t) + if q[|q| - 1] == t then 1 else 0
  }

  lemma {:induction false} TimesJoin(a: seq<Task>, b: seq<Task>, t: Task)
    ensures Times(a + b, t) == Times(a, t) + Times(b, t)
  {
    if b == [] {
      assert a + b == a;
    } else {
      assert (a + b)[..|a + b| - 1] == a + b[..|b| - 1];
      TimesJoin(a, b[..|b| - 1], t);
    }
  }

  /** How often a task is in workers' hands. */
  function Held(ws: seq<Worker>, t: Task): nat {
    if ws == [] then 0 else Held(ws[..|ws| - 1], t) + HeldBy(ws[|ws| - 1], t)
  }

  predicate Holds(w: Worker) { w.Popped? || w.Active? }

  function HeldBy(w: Worker, t: Task): nat { if Holds(w) && w.task == t then 1 else 0 }

  /** How many workers the counter counts. */
  function Counted(ws: seq<Worker>): nat {
    if ws == [] then 0 else Counted(ws[..|ws| - 1]) + CountedBy(ws[|ws| - 1])
  }

  function CountedBy(w: Worker): nat { if w.Active? || w.Done? then 1 else 0 }

  lemma {:induction false} ReplaceWorker(ws: seq<Worker>, i: nat, w: Worker, t: Task)
    requires i < |ws|
    ensures Held(ws[i := w], t) + HeldBy(ws[i], t) == Held(ws, t) + HeldBy(w, t)
    ensures Counted(ws[i := w]) + CountedBy(ws[i]) == Counted(ws) + CountedBy(w)
  {
    var front := ws[..|ws| - 1];
    if i == |ws| - 1 {
      assert ws[i := w][..|ws| - 1] == front;
    } else {
      ReplaceWorker(front, i, w, t);
      assert ws[i := w][..|ws| - 1] == front[i := w];
    }
  }

  /** The invariant, with the books of task `t`. */
  ghost predicate Inv(s: Pool, t: Task) {
    && |s.queue| <= s.capacity
    && s.taken + s.queue == s.accepted
    && Times(s.taken, t) == Times(s.ran, t) + Held(s.workers, t)
    && s.active == Counted(s.workers)
    && (s.down ==> s.flag)
    && s.joined <= |s.workers|
    && (forall i :: 0 <= i < |s.workers| && s.workers[i].Left? ==> s.down && s.queue == [])
    && (forall i :: 0 <= i < s.joined ==> s.workers[i].Left?)
  }

  lemma LeaveKeeps(s: Pool, w: nat, t: Task)
    requires Inv(s, t) && Enabled(s, Pop(w)) && s.queue == []
    ensures Inv(Step(s, Pop(w)), t)
  {
    ReplaceWorker(s.workers, w, Left, t);
  }

  lemma TakeBooks(s: Pool, w: nat, t: Task)
    requires Enabled(s, Pop(w)) && s.queue != []
    requires Times(s.taken, t) == Times(s.ran, t) + Held(s.workers, t) && s.active == Counted(s.workers)
    ensures var s2 := Step(s, Pop(w));
            Times(s2.taken, t) == Times(s2.ran, t) + Held(s2.workers, t) && s2.active == Counted(s2.workers)
  {
    ReplaceWorker(s.workers, w, Popped(s.queue[0]), t);
    TimesJoin(s.taken, [s.queue[0]], t);
  }

  lemma TakeKeeps(s: Pool, w: nat, t: Task)
    requires Inv(s, t) && Enabled(s, Pop(w)) && s.queue != []
    ensures Inv(Step(s, Pop(w)), t)
  {
    var s2 := Step(s, Pop(w));
    TakeBooks(s, w, t);
    Regroup(s.taken, s.queue);
    assert s2.taken == s.taken + [s.queue[0]] && s2.queue == s.queue[1..];
    assert forall i :: 0 <= i < |s2.workers| && s2.workers[i].Left? ==> s.workers[i].Left?;
  }

  lemma Regroup(a: seq<Task>, q: seq<Task>)
    requires q != []
    ensures (a + [q[0]]) + q[1..] == a + q
  {}

  lemma CountUpKeeps(s: Pool, w: nat, t: Task)
    requires Inv(s, t) && Enabled(s, CountUp(w))
    ensures Inv(Step(s, CountUp(w)), t)
  {
    ReplaceWorker(s.workers, w, Active(s.workers[w].task), t);
  }

  lemma FinishKeeps(s: Pool, w: nat, t: Task)
    requires Inv(s, t) && Enabled(s, Finish(w))
    ensures Inv(Step(s, Finish(w)), t)
  {
    ReplaceWorker(s.workers, w, Done, t);
    TimesJoin(s.ran, [s.workers[w].task], t);
  }

  lemma CountDownKeeps(s: Pool, w: nat, t: Task)
    requires Inv(s, t) && Enabled(s, CountDown(w))
    ensures Inv(Step(s, CountDown(w)), t)
  {
    ReplaceWorker(s.workers, w, Waiting, t);
  }

  lemma StepKeeps(s: Pool, m: Move, t: Task)
    requires Inv(s, t) && Enabled(s, m)
    ensures Inv(Step(s, m), t)
  {
    match m
    case Submit(x) => assert s.taken + (s.queue + [x]) == s.taken + s.queue + [x];
    case Pop(w) =>
      if s.queue == [] { LeaveKeeps(s, w, t); } else { TakeKeeps(s, w, t); }
    case CountUp(w) => CountUpKeeps(s, w, t);
    case Finish(w) => FinishKeeps(s, w, t);
    case CountDown(w) => CountDownKeeps(s, w, t);
    case _ =>
  }

  lemma {:induction false} RunKeeps(s: Pool, moves: seq<Move>, s2: Pool, t: Task)
    requires Inv(s, t) && Runs(s, moves, s2)
    ensures Inv(s2, t) && |s2.workers| == |s.workers| && s2.capacity == s.capacity
    decreases |moves|
  {
    if moves != [] {
      StepKeeps(s, moves[0], t);
      RunKeeps(Step(s, moves[0]), moves[1..], s2, t);
    }
  }

  lemma {:induction false} AllWaiting(n: nat, t: Task)
    ensures Held(seq(n, i => Waiting), t) == 0 && Counted(seq(n, i => Waiting)) == 0
  {
    if n > 0 {
      AllWaiting(n - 1, t);
      assert seq(n, i => Waiting)[..n - 1] == seq(n - 1, i => Waiting);
    }
  }

  lemma {:induction false} AllLeft(ws: seq<Worker>, t: Task)
    requires forall i :: 0 <= i < |ws| ==> ws[i].Left?
    ensures Held(ws, t) == 0
  {
    if ws != [] { AllLeft(ws[..|ws| - 1], t); }
  }

  // ---- What every interleaving guarantees -----------------------------------------------------

  /** The queue stays within capacity; tasks are taken in the order they were accepted; each acceptance is
      still queued, in one worker's hands or has run. */
  lemma PoolLedger(workers: nat, capacity: nat, moves: seq<Move>, s: Pool, t: Task)
    requires Runs(Start(workers, capacity), moves, s)
    ensures |s.queue| <= capacity && s.taken <= s.accepted && |s.workers| == workers && Inv(s, t)
    ensures Times(s.accepted, t) == Times(s.ran, t) + Held(s.workers, t) + Times(s.queue, t)
  {
    AllWaiting(workers, t);
    RunKeeps(Start(workers, capacity), moves, s, t);
    TimesJoin(s.taken, s.queue, t);
  }

  /** Nothing is accepted once the queue is shut down. */
  lemma {:induction false} NoneAfterShutdown(s: Pool, moves: seq<Move>, s2: Pool)
    requires s.down && Runs(s, moves, s2)
    ensures s2.down && s2.accepted == s.accepted
    decreases |moves|
  {
    if moves != [] { NoneAfterShutdown(Step(s, moves[0]), moves[1..], s2); }
  }

  lemma {:induction false} Workerless(moves: seq<Move>, s: Pool, s2: Pool)
    requires |s.workers| == 0 && s.ran == [] && Runs(s, moves, s2)
    ensures s2.ran == []
    decreases |moves|
  {
    if moves != [] { Workerless(moves[1..], Step(s, moves[0]), s2); }
  }

  /** Every task ran as often as it was accepted. */
  ghost predicate AllRan(s: Pool) { forall t :: Times(s.ran, t) == Times(s.accepted, t) }

  /** Shutdown drains: when every worker has been joined, every accepted task has run exactly once, exactly
      when the pool has a worker or nothing was accepted. */
  lemma ShutdownDrains(workers: nat, capacity: nat, moves: seq<Move>, s: Pool)
    requires Runs(Start(workers, capacity), moves, s) && s.down && s.joined == workers
    ensures AllRan(s) <==> workers >= 1 || s.accepted == []
    ensures workers >= 1 ==> s.taken == s.accepted && s.queue == []
  {
    PoolLedger(workers, capacity, moves, s, 0);
    if workers >= 1 {
      assert s.workers[0].Left?;
      forall t ensures Times(s.ran, t) == Times(s.accepted, t) {
        PoolLedger(workers, capacity, moves, s, t);
        AllLeft(s.workers, t);
      }
    } else {
      Workerless(moves, Start(workers, capacity), s);
      if s.accepted != [] {
        var t := s.accepted[|s.accepted| - 1];
        assert Times(s.ran, t) == 0 && Times(s.accepted, t) >= 1;
      }
    }
  }

  /** Without workers a task can be accepted, the pool shut down and joined, and the task never run. */
  lemma UndrainedWithoutWorkers(t: Task)
    ensures exists moves, s :: Runs(Start(0, 1), moves, s) && s.down && s.joined == 0 && s.accepted == [t] && !AllRan(s)
  {
    var s1 := Step(Start(0, 1), Submit(t));
    RunsOne(Start(0, 1), Submit(t));
    RunsTwo(s1, RaiseFlag, CloseQueue);
    var s := Step(Step(s1, RaiseFlag), CloseQueue);
    RunsOn(Start(0, 1), [Submit(t)], s1, [RaiseFlag, CloseQueue], s);
    assert Times(s.ran, t) == 0 && Times(s.accepted, t) == 1;
  }

  // ---- WaitForIdle ----------------------------------------------------------------------------

  /** How WaitForIdle comes to see the pool idle. It loads the counter in state `first` and finds 0; other
      threads make the moves `between`; then it asks the queue for its size in state `second` and finds 0.
      It holds the mutex under which Shutdown raises its flag. */
  ghost predicate SeesIdle(first: Pool, between: seq<Move>, second: Pool) {
    && first.active == 0 && second.queue == []
    && Runs(first, between, second) && RaiseFlag !in between
  }

  /** No worker has a task in hand that it has not yet run. */
  ghost predicate NoneHolds(ws: seq<Worker>) { forall i :: 0 <= i < |ws| ==> !Holds(ws[i]) }

  lemma {:induction false} NothingHeld(ws: seq<Worker>, t: Task)
    requires NoneHolds(ws)
    ensures Held(ws, t) == 0
  {
    if ws != [] { NothingHeld(ws[..|ws| - 1], t); }
  }

  lemma {:induction false} SomethingHeld(ws: seq<Worker>, i: nat)
    requires i < |ws| && Holds(ws[i])
    ensures Held(ws, ws[i].task) >= 1
  {
    if i < |ws| - 1 { SomethingHeld(ws[..|ws| - 1], i); }
  }

  /** With the queue empty every accepted task has run, exactly when nobody holds one. */
  lemma EmptyExactly(workers: nat, capacity: nat, moves: seq<Move>, s: Pool)
    requires Runs(Start(workers, capacity), moves, s) && s.queue == []
    ensures AllRan(s) <==> NoneHolds(s.workers)
  {
    forall t ensures Times(s.accepted, t) == Times(s.ran, t) + Held(s.workers, t) {
      PoolLedger(workers, capacity, moves, s, t);
    }
    if NoneHolds(s.workers) {
      forall t ensures Held(s.workers, t) == 0 { NothingHeld(s.workers, t); }
    } else {
      var i :| 0 <= i < |s.workers| && Holds(s.workers[i]);
      SomethingHeld(s.workers, i);
      assert Times(s.ran, s.workers[i].task) != Times(s.accepted, s.workers[i].task);
    }
  }

  lemma {:induction false} RunsOn(s: Pool, a: seq<Move>, s1: Pool, b: seq<Move>, s2: Pool)
    requires Runs(s, a, s1) && Runs(s1, b, s2)
    ensures Runs(s, a + b, s2)
    decreases |a|
  {
    if a == [] {
      assert a + b == b;
    } else {
      RunsOn(Step(s, a[0]), a[1..], s1, b, s2);
      assert (a + b)[0] == a[0] && (a + b)[1..] == a[1..] + b;
    }
  }

  /** When WaitForIdle returns because it saw the pool idle, every accepted task has run exactly when, at its
      second read, no worker stands between its pop and the end of its task. */
  lemma IdleExactly(workers: nat, capacity: nat, moves: seq<Move>, first: Pool, between: seq<Move>, second: Pool)
    requires Runs(Start(workers, capacity), moves, first) && SeesIdle(first, between, second)
    ensures AllRan(second) <==> NoneHolds(second.workers)
  {
    RunsOn(Start(workers, capacity), moves, first, between, second);
    EmptyExactly(workers, capacity, moves + between, second);
  }

  /** No worker stands between its pop and its count. */
  ghost predicate NoneBetween(ws: seq<Worker>) { forall i :: 0 <= i < |ws| ==> !ws[i].Popped? }

  lemma {:induction false} NoneCounted(ws: seq<Worker>)
    requires Counted(ws) == 0 && NoneBetween(ws)
    ensures NoneHolds(ws)
  {
    if ws != [] { NoneCounted(ws[..|ws| - 1]); }
  }

  /** So it is enough that nobody stands between its pop and its count and the counter is still 0 at the second
      read; `IdleStillCounted` shows that this is not necessary. */
  lemma IdleEnough(workers: nat, capacity: nat, moves: seq<Move>, first: Pool, between: seq<Move>, second: Pool)
    requires Runs(Start(workers, capacity), moves, first) && SeesIdle(first, between, second)
    requires NoneBetween(second.workers) && second.active == 0
    ensures AllRan(second)
  {
    RunsOn(Start(workers, capacity), moves, first, between, second);
    PoolLedger(workers, capacity, moves + between, second, 0);
    NoneCounted(second.workers);
    IdleExactly(workers, capacity, moves, first, between, second);
  }

  lemma RunsOne(s: Pool, m: Move)
    requires Enabled(s, m)
    ensures Runs(s, [m], Step(s, m))
  {
    assert [m][1..] == [];
  }

  lemma RunsTwo(s: Pool, m: Move, m2: Move)
    requires Enabled(s, m) && Enabled(Step(s, m), m2)
    ensures Runs(s, [m, m2], Step(Step(s, m), m2))
  {
    RunsOne(Step(s, m), m2);
    assert [m, m2][1..] == [m2];
  }

  /** WaitForIdle can return too early: both reads fall between a worker's pop and its count. */
  lemma IdleTooEarly(t: Task)
    ensures exists moves, s :: Runs(Start(1, 1), moves, s) && SeesIdle(s, [], s) && s.active == 0
                               && s.accepted == [t] && s.ran == []
  {
    var s := Step(Step(Start(1, 1), Submit(t)), Pop(0));
    RunsTwo(Start(1, 1), Submit(t), Pop(0));
    assert SeesIdle(s, [], s);
  }

  /** Or the worker pops and counts itself after the counter was read and before the size. */
  lemma IdleBetweenReads(t: Task)
    ensures exists moves, first, between, second ::
              && Runs(Start(1, 1), moves, first) && SeesIdle(first, between, second)
              && NoneBetween(second.workers) && second.accepted == [t] && second.ran == []
  {
    var first := Step(Start(1, 1), Submit(t));
    RunsOne(Start(1, 1), Submit(t));
    RunsTwo(first, Pop(0), CountUp(0));
    assert SeesIdle(first, [Pop(0), CountUp(0)], Step(Step(first, Pop(0)), CountUp(0)));
  }

  /** And it can return rightly with the counter at 1: by the second read the task has run, but its worker has
      not counted itself out. */
  lemma IdleStillCounted(t: Task)
    ensures exists moves, first, between, second ::
              && Runs(Start(1, 1), moves, first) && SeesIdle(first, between, second)
              && AllRan(second) && second.accepted == [t] && second.active == 1
  {
    var first := Step(Start(1, 1), Submit(t));
    var busy := Step(Step(first, Pop(0)), CountUp(0));
    var second := Step(busy, Finish(0));
    RunsOne(Start(1, 1), Submit(t));
    RunsTwo(first, Pop(0), CountUp(0));
    RunsOne(busy, Finish(0));
    RunsOn(first, [Pop(0), CountUp(0)], busy, [Finish(0)], second);
    assert SeesIdle(first, [Pop(0), CountUp(0)] + [Finish(0)], second);
    assert second.ran == [t] == second.accepted;
  }
}
