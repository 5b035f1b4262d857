/** OperationQueue and ~BluezMediaClientContext as the source keeps them
    (native/src/bluez_media_client.cpp): a queue and a stop flag changed under a mutex, the worker's
    loop, and a destructor that stops one queue after the other. */
module ContextTeardowns {
  import opened Wrappers
  import opened OperationQueues

  class OperationQueue {
    var operations: seq<Task>
    var stopping: bool
    ghost var running: Option<Task>
    var exited: bool
    ghost var accepted: seq<Task>
    ghost var executed: seq<Task>

    constructor ()
      ensures Abs() == NEW
    {
      operations, stopping := [], false;
      running, exited, accepted, executed := None, false, [], [];
    }

    ghost function Abs(): Queue
      reads this
    {
      Queue(operations, stopping, running, exited, accepted, executed)
    }

    method PostTask(t: Task)
      modifies this`operations, this`accepted
      ensures Abs() == Post(old(Abs()), t)
    {
      if stopping { return; }
      operations := operations + [t];
      accepted := accepted + [t];
    }

    /** The first half of stop; joining the worker is the second. */
    method RequestStop()
      modifies this
      ensures Abs() == old(Abs()).(stopping := true)
    {
      stopping := true;
    }

    /** The worker's critical section, entered when the wait's condition holds. */
    method NextTask() returns (t: Option<Task>)
      requires running.None? && !exited && (stopping || operations != [])
      modifies this
      ensures t.None? <==> old(operations) == []
      ensures t.None? ==> CanExit(old(Abs())) && Abs() == old(Abs()).(exited := true)
      ensures t.Some? ==> t.value == old(operations)[0] && Abs() == Take(old(Abs()))
    {
      if operations == [] {
        exited := true;
        return None;
      }
      t := Some(operations[0]);
      operations := operations[1..];
      running := t;
    }

    /** The closure returns. */
    ghost method TaskDone()
      requires running.Some?
      modifies this
      ensures Abs() == Finish(old(Abs()))
    {
      executed := executed + [running.value];
      running := None;
    }
  }

  lemma HopsSnoc(hops: Task -> seq<Task>, all: seq<Task>, n: nat)
    requires n < |all|
    ensures AllHops(hops, all[..n + 1]) == AllHops(hops, all[..n]) + hops(all[n])
  {
    assert all[..n + 1][..n] == all[..n];
  }

  class ClientContext {
    const operations: OperationQueue
    const coverOperations: OperationQueue
    /** The cover tasks that a closure of the first queue posts. */
    const hops: Task -> seq<Task>
    var destroyed: bool

    constructor (hops: Task -> seq<Task>)
      ensures fresh(operations) && fresh(coverOperations) && operations != coverOperations && !destroyed
      ensures operations.Abs() == NEW && coverOperations.Abs() == NEW && this.hops == hops
    {
      operations := new OperationQueue();
      coverOperations := new OperationQueue();
      this.hops := hops;
      destroyed := false;
    }

    /** A closure of the first queue runs to its end. */
    method Execute(t: Task)
      requires operations != coverOperations && operations.running == Some(t) && !coverOperations.stopping
      modifies operations, coverOperations`operations, coverOperations`accepted
      ensures operations.Abs() == Finish(old(operations.Abs()))
      ensures coverOperations.operations == old(coverOperations.operations) + hops(t)
      ensures coverOperations.accepted == old(coverOperations.accepted) + hops(t)
    {
      var posted := 0;
      while posted < |hops(t)|
        invariant posted <= |hops(t)| && operations.Abs() == old(operations.Abs())
        invariant coverOperations.operations == old(coverOperations.operations) + hops(t)[..posted]
        invariant coverOperations.accepted == old(coverOperations.accepted) + hops(t)[..posted]
      {
        coverOperations.PostTask(hops(t)[posted]);
        posted := posted + 1;
      }
      operations.TaskDone();
    }

    /** The first worker, from a stop request to its end. */
    method DrainOperations()
      requires operations != coverOperations && !coverOperations.stopping
      requires operations.stopping && operations.running.None? && !operations.exited
      modifies operations, coverOperations`operations, coverOperations`accepted
      ensures operations.exited && operations.executed == old(operations.executed + operations.operations)
      ensures coverOperations.operations == old(coverOperations.operations) + AllHops(hops, old(operations.operations))
      ensures coverOperations.accepted == old(coverOperations.accepted) + AllHops(hops, old(operations.operations))
    {
      ghost var all := operations.operations;
      ghost var done := 0;
      while !operations.exited
        invariant done <= |all| && operations.operations == all[done..]
        invariant operations.stopping && operations.running.None?
        invariant operations.executed == old(operations.executed) + all[..done]
        invariant operations.exited ==> done == |all|
        invariant coverOperations.operations == old(coverOperations.operations) + AllHops(hops, all[..done])
        invariant coverOperations.accepted == old(coverOperations.accepted) + AllHops(hops, all[..done])
        decreases !operations.exited, |operations.operations|
      {
        var t := operations.NextTask();
        if t.Some? {
          Execute(t.value);
          HopsSnoc(hops, all, done);
          done := done + 1;
        }
      }
      assert all[..done] == all;
    }

    /** The second worker, likewise. */
    method DrainCover()
      requires coverOperations.stopping && coverOperations.running.None? && !coverOperations.exited
      modifies coverOperations
      ensures coverOperations.exited
      ensures coverOperations.executed == old(coverOperations.executed + coverOperations.operations)
    {
      ghost var all := coverOperations.operations;
      ghost var done := 0;
      while !coverOperations.exited
        invariant done <= |all| && coverOperations.operations == all[done..]
        invariant coverOperations.stopping && coverOperations.running.None?
        invariant coverOperations.executed == old(coverOperations.executed) + all[..done]
        invariant coverOperations.exited ==> done == |all|
        decreases !coverOperations.exited, |coverOperations.operations|
      {
        var t := coverOperations.NextTask();
        if t.Some? {
          coverOperations.TaskDone();
          done := done + 1;
        }
      }
      assert all[..done] == all;
    }

    /** ~BluezMediaClientContext while nobody else posts: the second queue runs what it had and then
        every hop of what the first had, before the services go. */
    method Teardown()
      requires operations != coverOperations && !destroyed
      requires !operations.stopping && operations.running.None? && !operations.exited
      requires !coverOperations.stopping && coverOperations.running.None? && !coverOperations.exited
      modifies this, operations, coverOperations
      ensures destroyed && operations.exited && coverOperations.exited
      ensures operations.executed == old(operations.executed + operations.operations)
      ensures coverOperations.executed ==
        old(coverOperations.executed + coverOperations.operations) + AllHops(hops, old(operations.operations))
    {
      operations.RequestStop();
      DrainOperations();
      coverOperations.RequestStop();
      DrainCover();
      destroyed := true;
    }
  }
}
