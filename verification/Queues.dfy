/** The kernel's three kinds of queue on ring buffers, with the test each puts to a task
    (kernel/sched/runqueue.c, kernel/sched/wait_queue.c, kernel/lifecycle/lifecycle.c). */
module Queues {
  import opened Rings
  import opened Tasks

  /** Exactly a ready task that is not queued joins the runqueue, last. */
  method RunqueueEnqueue(ring: Ring, t: nat, x: Task) returns (code: int)
    requires ring.Valid()
    modifies ring`tail, ring`count, ring`q, ring.slots
    ensures ring.Valid()
    ensures code == if t != 0 && x.state == Ready && |old(ring.q)| < SLOTS && t !in old(ring.q) then 0 else -1
    ensures ring.q == old(ring.q) + if code == 0 then [t] else []
  {
    var ok := ring.Enqueue(t, x.state == Ready);
    return if ok then 0 else -1;
  }

  /** Exactly a blocked task without an owner joins a wait queue, last, and has it as its owner then. */
  method WaitEnqueue(ring: Ring, self: nat, t: nat, x: Task) returns (code: int, x': Task)
    requires ring.Valid()
    modifies ring`tail, ring`count, ring`q, ring.slots
    ensures ring.Valid()
    ensures code == if t != 0 && x.state == Blocked && x.waitQueue == 0 && |old(ring.q)| < SLOTS && t !in old(ring.q) then 0 else -1
    ensures ring.q == old(ring.q) + if code == 0 then [t] else []
    ensures x' == if code == 0 then x.(waitQueue := self) else x
  {
    var ok := ring.Enqueue(t, x.state == Blocked && x.waitQueue == 0);
    return if ok then 0 else -1, if ok then x.(waitQueue := self) else x;
  }

  /** Entering a wait queue and leaving it again restores queue and task, wherever the ring's head is. */
  method WaitAndLeave(ring: Ring, self: nat, t: nat, x: Task) returns (ok: bool, x': Task)
    requires ring.Valid() && self != 0
    modifies ring`tail, ring`count, ring`q, ring.slots
    ensures ring.Valid() && ring.q == old(ring.q) && x' == x
    ensures ok <==> t != 0 && x.state == Blocked && x.waitQueue == 0 && |old(ring.q)| < SLOTS && t !in old(ring.q)
  {
    ghost var q := ring.q;
    var code, y := WaitEnqueue(ring, self, t, x);
    if code != 0 { return false, x; }
    var owner;
    ok, owner := ring.RemoveOwned(t, y.waitQueue, self);
    WithoutLast(q, t);
    x' := y.(waitQueue := owner);
  }
}
