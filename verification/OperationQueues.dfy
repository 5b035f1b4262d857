/** The worker queue of native/src/bluez_media_client.cpp and the teardown of a client's two queues.

    A closure is a number. Running one on the first queue posts its `hops` to the second, one post at
    a time, so any interleaving of the two workers, of posts from other threads and of the tearing
    down thread is a sequence of steps. */
module OperationQueues {
  import opened Wrappers

  type Task = nat

  /** One queue and its worker: `accepted` are the tasks ever queued, `executed` those finished. */
  datatype Queue = Queue(pending: seq<Task>, stopping: bool, running: Option<Task>, exited: bool,
                         accepted: seq<Task>, executed: seq<Task>)

  const NEW := Queue([], false, None, false, [], [])

  /** OperationQueue::post. */
  function Post(q: Queue, t: Task): Queue {
    if q.stopping then q else q.(pending := q.pending + [t], accepted := q.accepted + [t])
  }

  /** What the worker finds when it holds the lock: it waits, leaves, or takes the first task. */
  predicate CanTake(q: Queue) { q.running.None? && !q.exited && q.pending != [] }
  predicate CanExit(q: Queue) { q.running.None? && !q.exited && q.pending == [] && q.stopping }

  function Take(q: Queue): Queue
    requires CanTake(q)
  {
    q.(running := Some(q.pending[0]), pending := q.pending[1..])
  }

  function Finish(q: Queue): Queue
    requires q.running.Some?
  {
    q.(running := None, executed := q.executed + [q.running.value])
  }

  function Running(q: Queue): seq<Task> {
    if q.running.Some? then [q.running.value] else []
  }

  /** Tasks run in the order in which they were accepted; the worker leaves a drained queue. */
  ghost predicate InOrder(q: Queue) {
    && q.accepted == q.executed + Running(q) + q.pending
    && (q.exited ==> q.stopping && q.running.None? && q.pending == [])
  }

  lemma QueueStepsKeepOrder(q: Queue, t: Task)
    requires InOrder(q)
    ensures InOrder(Post(q, t)) && InOrder(q.(stopping := true))
    ensures CanTake(q) ==> InOrder(Take(q))
    ensures q.running.Some? ==> InOrder(Finish(q))
    ensures CanExit(q) ==> InOrder(q.(exited := true))
  {
    if !q.stopping {
      assert q.accepted + [t] == q.executed + Running(q) + (q.pending + [t]);
    }
    if CanTake(q) {
      assert q.pending == [q.pending[0]] + q.pending[1..];
    }
    if q.running.Some? {
      assert q.executed + Running(q) + q.pending == (q.executed + [q.running.value]) + [] + q.pending;
    }
  }

  // ---------------------------------------------------------------- a client and its teardown

  /** Where ~BluezMediaClientContext has got to. */
  datatype Phase = Live | StoppingOperations | StoppingCover | Joined | Destroyed

  /** `unposted` are hops the running closure has yet to post; `hopped` are those that the second
      queue has accepted, and `dropped` those it has not. */
  datatype Context = Context(operations: Queue, cover: Queue, phase: Phase,
                             unposted: seq<Task>, hopped: seq<Task>, dropped: seq<Task>)

  const FRESH := Context(NEW, NEW, Live, [], [], [])

  datatype Action =
    | PostOperation(t: Task) | PostCover(t: Task)
    | TakeOperation | PostHop | FinishOperation | ExitOperations
    | TakeCover | FinishCover | ExitCover
    | BeginTeardown | OperationsJoined | CoverJoined | DestroyServices

  predicate Enabled(c: Context, a: Action) {
    match a
    case PostOperation(_) | PostCover(_) => true
    case TakeOperation => CanTake(c.operations)
    case PostHop => c.unposted != []
    case FinishOperation => c.operations.running.Some? && c.unposted == []
    case ExitOperations => CanExit(c.operations)
    case TakeCover => CanTake(c.cover)
    case FinishCover => c.cover.running.Some?
    case ExitCover => CanExit(c.cover)
    case BeginTeardown => c.phase.Live?
    case OperationsJoined => c.phase.StoppingOperations? && c.operations.exited
    case CoverJoined => c.phase.StoppingCover? && c.cover.exited
    case DestroyServices => c.phase.Joined?
  }

  function Next(hops: Task -> seq<Task>, c: Context, a: Action): Context
    requires Enabled(c, a)
  {
    match a
    case PostOperation(t) => c.(operations := Post(c.operations, t))
    case PostCover(t) => c.(cover := Post(c.cover, t))
    case TakeOperation => c.(operations := Take(c.operations), unposted := hops(c.operations.pending[0]))
    case PostHop =>
      var t := c.unposted[0];
      c.(cover := Post(c.cover, t), unposted := c.unposted[1..],
         hopped := if c.cover.stopping then c.hopped else c.hopped + [t],
         dropped := if c.cover.stopping then c.dropped + [t] else c.dropped)
    case FinishOperation => c.(operations := Finish(c.operations))
    case ExitOperations => c.(operations := c.operations.(exited := true))
    case TakeCover => c.(cover := Take(c.cover))
    case FinishCover => c.(cover := Finish(c.cover))
    case ExitCover => c.(cover := c.cover.(exited := true))
    case BeginTeardown => c.(phase := StoppingOperations, operations := c.operations.(stopping := true))
    case OperationsJoined => c.(phase := StoppingCover, cover := c.cover.(stopping := true))
    case CoverJoined => c.(phase := Joined)
    case DestroyServices => c.(phase := Destroyed)
  }

  /** All hops of the listed closures. */
  function AllHops(hops: Task -> seq<Task>, tasks: seq<Task>): seq<Task> {
    if tasks == [] then [] else AllHops(hops, tasks[..|tasks| - 1]) + hops(tasks[|tasks| - 1])
  }

  /** `part` is what is left of `whole` when other elements are taken out. */
  ghost predicate Subsequence(part: seq<Task>, whole: seq<Task>) {
    part == [] ||
    (whole != [] &&
     if part[|part| - 1] == whole[|whole| - 1] && Subsequence(part[..|part| - 1], whole[..|whole| - 1]) then true
     else Subsequence(part, whole[..|whole| - 1]))
  }

  lemma SubsequenceGrows(part: seq<Task>, whole: seq<Task>, t: Task)
    requires Subsequence(part, whole)
    ensures Subsequence(part, whole + [t]) && Subsequence(part + [t], whole + [t])
  {
    assert (whole + [t])[..|whole|] == whole && (part + [t])[..|part|] == part;
  }

  /** Before both workers have been joined nothing is torn down, and every hop was accepted. */
  ghost predicate Inv(hops: Task -> seq<Task>, c: Context) {
    && InOrder(c.operations) && InOrder(c.cover)
    && (c.operations.stopping <==> !c.phase.Live?)
    && (c.cover.stopping <==> !c.phase.Live? && !c.phase.StoppingOperations?)
    && (c.cover.stopping ==> c.operations.exited)
    && (c.phase.Joined? || c.phase.Destroyed? ==> c.cover.exited)
    && (c.operations.running.None? ==> c.unposted == [])
    && c.dropped == [] && Subsequence(c.hopped, c.cover.accepted)
    && c.hopped + c.unposted == AllHops(hops, c.operations.executed + Running(c.operations))
  }

  lemma TakeKeeps(hops: Task -> seq<Task>, c: Context)
    requires Inv(hops, c) && CanTake(c.operations)
    ensures Inv(hops, Next(hops, c, TakeOperation))
  {
    QueueStepsKeepOrder(c.operations, 0);
    var t, done := c.operations.pending[0], c.operations.executed;
    assert AllHops(hops, done + [t]) == AllHops(hops, done) + hops(t) by {
      assert (done + [t])[..|done|] == done;
    }
    assert done + [] == done && c.hopped + [] == c.hopped;
  }

  lemma FirstMovesOver(done: seq<Task>, left: seq<Task>)
    requires left != []
    ensures (done + [left[0]]) + left[1..] == done + left
  {
  }

  lemma HopIsAccepted(q: Queue, hopped: seq<Task>, t: Task)
    requires InOrder(q) && !q.stopping && Subsequence(hopped, q.accepted)
    ensures InOrder(Post(q, t)) && Subsequence(hopped + [t], Post(q, t).accepted)
  {
    QueueStepsKeepOrder(q, t);
    SubsequenceGrows(hopped, q.accepted, t);
  }

  lemma PostHopKeeps(hops: Task -> seq<Task>, c: Context)
    requires Inv(hops, c) && c.unposted != []
    ensures Inv(hops, Next(hops, c, PostHop))
  {
    HopIsAccepted(c.cover, c.hopped, c.unposted[0]);
    FirstMovesOver(c.hopped, c.unposted);
    var c' := Next(hops, c, PostHop);
    assert c'.operations == c.operations && c'.phase == c.phase;
  }

  lemma FinishKeeps(hops: Task -> seq<Task>, c: Context)
    requires Inv(hops, c) && Enabled(c, FinishOperation)
    ensures Inv(hops, Next(hops, c, FinishOperation))
  {
    QueueStepsKeepOrder(c.operations, 0);
    assert c.operations.executed + [c.operations.running.value] + [] == c.operations.executed + Running(c.operations);
  }

  lemma StepKeeps(hops: Task -> seq<Task>, c: Context, a: Action)
    requires Inv(hops, c) && Enabled(c, a)
    ensures Inv(hops, Next(hops, c, a))
  {
    match a
    case TakeOperation => TakeKeeps(hops, c);
    case PostHop => PostHopKeeps(hops, c);
    case FinishOperation => FinishKeeps(hops, c);
    case PostOperation(t) => QueueStepsKeepOrder(c.operations, t);
    case PostCover(t) =>
      QueueStepsKeepOrder(c.cover, t);
      SubsequenceGrows(c.hopped, c.cover.accepted, t);
    case _ => QueueStepsKeepOrder(c.operations, 0); QueueStepsKeepOrder(c.cover, 0);
  }

  ghost predicate Runs(hops: Task -> seq<Task>, c: Context, actions: seq<Action>)
    decreases |actions|
  {
    actions == [] || (Enabled(c, actions[0]) && Runs(hops, Next(hops, c, actions[0]), actions[1..]))
  }

  ghost function After(hops: Task -> seq<Task>, c: Context, actions: seq<Action>): Context
    requires Runs(hops, c, actions)
    decreases |actions|
  {
    if actions == [] then c else After(hops, Next(hops, c, actions[0]), actions[1..])
  }

  lemma {:induction false} RunKeeps(hops: Task -> seq<Task>, c: Context, actions: seq<Action>)
    requires Inv(hops, c) && Runs(hops, c, actions)
    ensures Inv(hops, After(hops, c, actions))
    decreases |actions|
  {
    if actions != [] {
      StepKeeps(hops, c, actions[0]);
      RunKeeps(hops, Next(hops, c, actions[0]), actions[1..]);
    }
  }

  /** In every reachable state both workers have run a prefix of what was accepted, in that order,
      and a worker that has left has run all of it. */
  lemma AcceptedTasksRunInOrder(hops: Task -> seq<Task>, actions: seq<Action>)
    requires Runs(hops, FRESH, actions)
    ensures var c := After(hops, FRESH, actions);
      && c.operations.executed <= c.operations.accepted && c.cover.executed <= c.cover.accepted
      && (c.operations.exited ==> c.operations.executed == c.operations.accepted)
      && (c.cover.exited ==> c.cover.executed == c.cover.accepted)
  {
    RunKeeps(hops, FRESH, actions);
  }

  /** Teardown loses nothing: when the services are destroyed, every accepted operation has run, and
      the hops of all of them, in order, are among the tasks the second queue accepted and ran. */
  lemma TeardownRunsEverything(hops: Task -> seq<Task>, actions: seq<Action>)
    requires Runs(hops, FRESH, actions) && After(hops, FRESH, actions).phase.Destroyed?
    ensures var c := After(hops, FRESH, actions);
      && c.operations.executed == c.operations.accepted && c.cover.executed == c.cover.accepted
      && c.hopped == AllHops(hops, c.operations.accepted) && c.dropped == []
      && Subsequence(AllHops(hops, c.operations.accepted), c.cover.executed)
  {
    RunKeeps(hops, FRESH, actions);
    var c := After(hops, FRESH, actions);
    assert c.operations.executed + [] == c.operations.executed && c.hopped + [] == c.hopped;
  }

  /** Nothing runs on destroyed services: no closure is running then or is ever started again. */
  lemma {:induction false} NothingRunsAfterDestruction(hops: Task -> seq<Task>, c: Context, actions: seq<Action>)
    requires Inv(hops, c) && c.phase.Destroyed? && Runs(hops, c, actions)
    ensures var c' := After(hops, c, actions);
      && c'.operations.running.None? && c'.cover.running.None?
      && c'.operations.executed == c.operations.executed && c'.cover.executed == c.cover.executed
    decreases |actions|
  {
    if actions != [] {
      StepKeeps(hops, c, actions[0]);
      NothingRunsAfterDestruction(hops, Next(hops, c, actions[0]), actions[1..]);
    }
  }

  // ---------------------------------------------------------------- the order on the second queue

  lemma {:induction false} RunsPrefix(hops: Task -> seq<Task>, c: Context, actions: seq<Action>, n: nat)
    requires Runs(hops, c, actions) && n <= |actions|
    ensures Runs(hops, c, actions[..n])
    ensures n < |actions| ==>
      && Enabled(After(hops, c, actions[..n]), actions[n]) && Runs(hops, c, actions[..n + 1])
      && After(hops, c, actions[..n + 1]) == Next(hops, After(hops, c, actions[..n]), actions[n])
    decreases n
  {
    if n > 0 {
      var c', rest := Next(hops, c, actions[0]), actions[1..];
      RunsPrefix(hops, c', rest, n - 1);
      assert actions[..n][1..] == rest[..n - 1];
      if n < |actions| { assert actions[..n + 1][1..] == rest[..n]; }
    } else if actions != [] {
      assert actions[..1][1..] == [] && actions[..1][0] == actions[0];
      assert After(hops, Next(hops, c, actions[0]), []) == Next(hops, c, actions[0]);
    }
  }

  /** The second queue takes a task from this step: a hop, or one posted from outside. */
  predicate Accepts(c: Context, a: Action) {
    (a.PostCover? || (a.PostHop? && c.unposted != [])) && !c.cover.stopping
  }

  function PostedTask(c: Context, a: Action): Task
    requires Accepts(c, a)
  {
    if a.PostCover? then a.t else c.unposted[0]
  }

  /** How many tasks the second queue had accepted before step `n`. */
  ghost function PlaceOf(hops: Task -> seq<Task>, actions: seq<Action>, n: nat): nat
    requires n <= |actions| && Runs(hops, FRESH, actions[..n])
  {
    |After(hops, FRESH, actions[..n]).cover.accepted|
  }

  lemma {:induction false} AcceptedGrows(hops: Task -> seq<Task>, actions: seq<Action>, m: nat, n: nat)
    requires Runs(hops, FRESH, actions) && m <= n <= |actions|
    ensures Runs(hops, FRESH, actions[..m]) && Runs(hops, FRESH, actions[..n])
    ensures After(hops, FRESH, actions[..m]).cover.accepted <= After(hops, FRESH, actions[..n]).cover.accepted
  {
    RunsPrefix(hops, FRESH, actions, n);
    if m < n {
      AcceptedGrows(hops, actions, m, n - 1);
      RunsPrefix(hops, FRESH, actions, n - 1);
    }
  }

  /** A task the second queue accepts has a place there for good, and is the one executed there. */
  lemma TaskHasPlace(hops: Task -> seq<Task>, actions: seq<Action>, n: nat)
    requires Runs(hops, FRESH, actions) && n < |actions|
    ensures Runs(hops, FRESH, actions[..n]) && Runs(hops, FRESH, actions[..n + 1])
    ensures var before, c := After(hops, FRESH, actions[..n]), After(hops, FRESH, actions);
      Accepts(before, actions[n]) ==>
        var i, t := PlaceOf(hops, actions, n), PostedTask(before, actions[n]);
        && i < PlaceOf(hops, actions, n + 1) <= |c.cover.accepted| && c.cover.accepted[i] == t
        && (i < |c.cover.executed| ==> c.cover.executed[i] == t)
  {
    RunsPrefix(hops, FRESH, actions, n);
    AcceptedGrows(hops, actions, n + 1, |actions|);
    assert actions[..|actions|] == actions;
    AcceptedTasksRunInOrder(hops, actions);
  }

  /** Of two tasks that the second queue accepts, hops or not, the one posted first is executed
      first, in every run: a removal, which hops, is carried out before an addition posted to the
      second queue directly if and only if its hop was posted before the addition. */
  lemma PostingOrderDecides(hops: Task -> seq<Task>, actions: seq<Action>, m: nat, n: nat)
    requires Runs(hops, FRESH, actions) && m < |actions| && n < |actions| && m != n
    ensures Runs(hops, FRESH, actions[..m]) && Runs(hops, FRESH, actions[..n])
    ensures var b, d := After(hops, FRESH, actions[..m]), After(hops, FRESH, actions[..n]);
      var executed := After(hops, FRESH, actions).cover.executed;
      Accepts(b, actions[m]) && Accepts(d, actions[n]) ==>
        var i, j := PlaceOf(hops, actions, m), PlaceOf(hops, actions, n);
        && (i < j <==> m < n) && i != j
        && (i < |executed| ==> executed[i] == PostedTask(b, actions[m]))
        && (j < |executed| ==> executed[j] == PostedTask(d, actions[n]))
  {
    TaskHasPlace(hops, actions, m);
    TaskHasPlace(hops, actions, n);
    RunsPrefix(hops, FRESH, actions, m);
    RunsPrefix(hops, FRESH, actions, n);
    if m < n { AcceptedGrows(hops, actions, m + 1, n); } else { AcceptedGrows(hops, actions, n + 1, m); }
  }

  lemma RunsCons(hops: Task -> seq<Task>, c: Context, a: Action, rest: seq<Action>)
    requires Enabled(c, a) && Runs(hops, Next(hops, c, a), rest)
    ensures Runs(hops, c, [a] + rest) && After(hops, c, [a] + rest) == After(hops, Next(hops, c, a), rest)
  {
    assert ([a] + rest)[1..] == rest;
  }

  /** The second queue's worker takes and finishes one task. */
  lemma CoverTurn(hops: Task -> seq<Task>, c: Context, rest: seq<Action>)
    requires CanTake(c.cover) && Runs(hops, c.(cover := Finish(Take(c.cover))), rest)
    ensures var c' := c.(cover := Finish(Take(c.cover)));
      && Runs(hops, c, [TakeCover, FinishCover] + rest)
      && After(hops, c, [TakeCover, FinishCover] + rest) == After(hops, c', rest)
  {
    RunsCons(hops, Next(hops, c, TakeCover), FinishCover, rest);
    RunsCons(hops, c, TakeCover, [FinishCover] + rest);
    assert [TakeCover, FinishCover] + rest == [TakeCover] + ([FinishCover] + rest);
  }

  /** The first queue's worker runs an operation with one hop. */
  lemma OperationTurn(hops: Task -> seq<Task>, c: Context, end: Context, rest: seq<Action>)
    requires CanTake(c.operations) && |hops(c.operations.pending[0])| == 1
    requires end == Next(hops, Next(hops, Next(hops, c, TakeOperation), PostHop), FinishOperation)
    requires Runs(hops, end, rest)
    ensures Runs(hops, c, [TakeOperation, PostHop, FinishOperation] + rest)
    ensures After(hops, c, [TakeOperation, PostHop, FinishOperation] + rest) == After(hops, end, rest)
  {
    var c1 := Next(hops, c, TakeOperation);
    RunsCons(hops, Next(hops, c1, PostHop), FinishOperation, rest);
    RunsCons(hops, c1, PostHop, [FinishOperation] + rest);
    RunsCons(hops, c, TakeOperation, [PostHop] + ([FinishOperation] + rest));
    assert [TakeOperation, PostHop, FinishOperation] + rest
        == [TakeOperation] + ([PostHop] + ([FinishOperation] + rest));
  }

  /** So the order in which they were reported is not kept: a removal is reported first, as an
      operation, and an addition after it, but the addition is carried out before the hop. */
  lemma AdditionOvertakesRemoval(hops: Task -> seq<Task>, operation: Task, removal: Task, addition: Task)
    requires hops(operation) == [removal]
    ensures var actions := Overtaking(operation, addition);
      && actions[0] == PostOperation(operation) && actions[1] == PostCover(addition)
      && Runs(hops, FRESH, actions)
      && After(hops, FRESH, actions).cover.executed == [addition, removal]
  {
    var c1 := FRESH.(operations := Post(NEW, operation));
    var c2 := c1.(cover := Post(NEW, addition));
    var c4 := c2.(cover := Finish(Take(c2.cover)));
    var c7 := Next(hops, Next(hops, Next(hops, c4, TakeOperation), PostHop), FinishOperation);
    var c9 := c7.(cover := Finish(Take(c7.cover)));
    assert c4.cover.executed == [addition] && c9.cover.executed == [addition, removal];
    CoverTurn(hops, c7, []);
    OperationTurn(hops, c4, c7, [TakeCover, FinishCover]);
    CoverTurn(hops, c2, [TakeOperation, PostHop, FinishOperation] + [TakeCover, FinishCover]);
    var rest := [TakeCover, FinishCover] + ([TakeOperation, PostHop, FinishOperation] + [TakeCover, FinishCover]);
    RunsCons(hops, c1, PostCover(addition), rest);
    RunsCons(hops, FRESH, PostOperation(operation), [PostCover(addition)] + rest);
    assert Overtaking(operation, addition) == [PostOperation(operation)] + ([PostCover(addition)] + rest);
  }

  function Overtaking(operation: Task, addition: Task): seq<Action> {
    [PostOperation(operation), PostCover(addition), TakeCover, FinishCover,
     TakeOperation, PostHop, FinishOperation, TakeCover, FinishCover]
  }

  // ---------------------------------------------------------------- teardown ends

  function TotalHops(hops: Task -> seq<Task>, tasks: seq<Task>): nat {
    if tasks == [] then 0 else |hops(tasks[0])| + TotalHops(hops, tasks[1..])
  }

  function QueueWork(q: Queue): nat {
    2 * |q.pending| + (if q.running.Some? then 1 else 0) + if q.exited then 0 else 1
  }

  function PhasesLeft(p: Phase): nat {
    match p
    case Live => 4
    case StoppingOperations => 3
    case StoppingCover => 2
    case Joined => 1
    case Destroyed => 0
  }

  /** Steps that the workers and the tearing down thread can still take; a hop costs three. */
  function Work(hops: Task -> seq<Task>, c: Context): nat {
    QueueWork(c.operations) + QueueWork(c.cover) + 3 * (|c.unposted| + TotalHops(hops, c.operations.pending))
    + PhasesLeft(c.phase)
  }

  predicate FromOutside(a: Action) {
    a.PostOperation? || a.PostCover?
  }

  /** From the start of teardown on, a step of the workers or of the tearing down thread is possible
      until everything is destroyed, and each one leaves less to do. Posts from outside to the first
      queue change nothing any more. */
  lemma TeardownEnds(hops: Task -> seq<Task>, c: Context, a: Action)
    requires Inv(hops, c) && !c.phase.Live?
    ensures !c.phase.Destroyed? ==> exists b :: Enabled(c, b) && !FromOutside(b)
    ensures Enabled(c, a) && !FromOutside(a) ==> Work(hops, Next(hops, c, a)) < Work(hops, c)
    ensures a.PostOperation? ==> Next(hops, c, a) == c
    ensures a.PostCover? && c.cover.stopping ==> Next(hops, c, a) == c
  {
    if !c.phase.Destroyed? { SomeStep(c); }
    if Enabled(c, a) && !FromOutside(a) { StepWorks(hops, c, a); }
  }

  lemma StepWorks(hops: Task -> seq<Task>, c: Context, a: Action)
    requires Enabled(c, a) && !FromOutside(a)
    ensures Work(hops, Next(hops, c, a)) < Work(hops, c)
  {
  }

  lemma SomeStep(c: Context)
    requires !c.phase.Live? && !c.phase.Destroyed?
    requires c.operations.stopping && (c.cover.stopping <==> !c.phase.StoppingOperations?)
    ensures exists b :: Enabled(c, b) && !FromOutside(b)
  {
    var b :=
      if c.phase.Joined? then DestroyServices
      else if c.phase.StoppingCover? then
        if c.cover.exited then CoverJoined else if c.cover.running.Some? then FinishCover
        else if c.cover.pending != [] then TakeCover else ExitCover
      else if c.operations.exited then OperationsJoined
      else if c.operations.running.Some? then if c.unposted != [] then PostHop else FinishOperation
      else if c.operations.pending != [] then TakeOperation else ExitOperations;
    assert Enabled(c, b) && !FromOutside(b);
  }
}
