/** Creation and destruction of tasks and processes as moves on the scheduler's state
    (kernel/execution/execution.c, kernel/process/process.c, kernel/lifecycle/lifecycle.c). */
module Owners {
  import opened Guard
  import opened Rings
  import opened Tasks

  // ---- membership of a process ------------------------------------------------------------

  /** The member array without entry i: the last member takes its place. */
  function DetachAt(ts: seq<nat>, i: nat): seq<nat>
    requires i < |ts|
  {
    var last := |ts| - 1;
    if i == last then ts[..last] else ts[..last][i := ts[last]]
  }

  lemma Detached(ts: seq<nat>, i: nat)
    requires i < |ts| && Distinct(ts)
    ensures Distinct(DetachAt(ts, i)) && forall x :: x in DetachAt(ts, i) <==> x in ts && x != ts[i]
  {
    var last, r := |ts| - 1, DetachAt(ts, i);
    forall x ensures x in r <==> x in ts && x != ts[i] {
      if x in ts && x != ts[i] {
        var j :| 0 <= j < |ts| && ts[j] == x;
        assert r[if j == last then i else j] == x;
      }
    }
  }

  // ---- a task goes ------------------------------------------------------------------------

  function Dead(x: Task): Task {
    x.(state := Terminated, base := 0, top := 0, pages := [0, 0, 0, 0], process := 0, entry := 0,
       waitQueue := 0, authority := NoResume, frame := 0, frameValid := false)
  }

  /** Task t, member i of its process, leaves every owner. */
  function Forget(s: State, t: nat, i: nat): State
    requires Known(s, t) && s.tasks[t].process in s.procs && i < |s.procs[s.tasks[t].process].tasks|
  {
    var x := s.tasks[t];
    var p := s.procs[x.process];
    s.(tasks := s.tasks[t := Dead(x)], registry := s.registry[x.id - 1 := 0],
       procs := s.procs[x.process := p.(tasks := DetachAt(p.tasks, i))],
       rq := Without(s.rq, t), pending := Without(s.pending, t))
  }

  ghost predicate CanForget(s: State, t: nat, i: nat) {
    && Known(s, t) && (s.tasks[t].state == Ready || s.tasks[t].state == Terminated)
    && s.tasks[t].process in s.procs && i < |s.procs[s.tasks[t].process].tasks|
    && s.procs[s.tasks[t].process].tasks[i] == t
  }

  lemma ForgetKnown(s: State, t: nat, i: nat, u: State, r: nat)
    requires RegistryOk(s) && CanForget(s, t, i) && u == Forget(s, t, i)
    ensures Known(u, r) <==> Known(s, r) && r != t
    ensures KnownProc(u, r) <==> KnownProc(s, r)
  {
  }

  lemma ForgetStatic(s: State, t: nat, i: nat, u: State)
    requires Static(s) && CanForget(s, t, i) && u == Forget(s, t, i)
    ensures Static(u)
  {
    assert Open(STATIC);
    var p := s.tasks[t].process;
    assert Belongs(s, t) && MembersOk(s, p);
    Detached(s.procs[p].tasks, i);
    forall r | Known(u, r) ensures Sound(u, r) && Belongs(u, r) {
      ForgetKnown(s, t, i, u, r);
      ForgetKnown(s, t, i, u, s.tasks[r].process);
    }
    forall q | KnownProc(u, q) ensures MembersOk(u, q) {
      ForgetKnown(s, t, i, u, q);
      forall r | r in u.procs[q].tasks ensures Known(u, r) && u.tasks[r].process == q {
        ForgetKnown(s, t, i, u, r);
      }
    }
    forall q, q' | KnownProc(u, q) && KnownProc(u, q') && u.procs[q].space == u.procs[q'].space ensures q == q' {
      ForgetKnown(s, t, i, u, q);
      ForgetKnown(s, t, i, u, q');
    }
  }

  lemma ForgetQueue(s: State, t: nat, i: nat, u: State, q: seq<nat>, state: TaskState, owner: nat)
    requires RegistryOk(s) && CanForget(s, t, i) && u == Forget(s, t, i) && QueueOk(s, q, state, owner) && t !in q
    ensures QueueOk(u, q, state, owner)
  {
    forall r | r in q ensures Known(u, r) && u.tasks[r].state == state && u.tasks[r].waitQueue == owner {
      ForgetKnown(s, t, i, u, r);
    }
  }

  lemma ForgetInv(s: State, t: nat, i: nat, u: State)
    requires Inv(s) && CanForget(s, t, i) && u == Forget(s, t, i)
    ensures Inv(u)
  {
    ForgetStatic(s, t, i, u);
    assert RegistryOk(s) by { assert Open(STATIC); }
    QueueWithout(s, s.rq, t, Ready, 0);
    ForgetQueue(s, t, i, u, u.rq, Ready, 0);
    QueueWithout(s, s.pending, t, Terminated, 0);
    ForgetQueue(s, t, i, u, u.pending, Terminated, 0);
    forall w | w in u.waits ensures w != 0 && QueueOk(u, u.waits[w], Blocked, w) {
      ForgetQueue(s, t, i, u, u.waits[w], Blocked, w);
    }
    ForgetKnown(s, t, i, u, s.current);
    forall r | Known(u, r) ensures Placed(u, r) && Resumes(u, r) {
      ForgetKnown(s, t, i, u, r);
      PlacedElsewhere(s, u, r);
    }
  }

  // ---- a task comes -----------------------------------------------------------------------

  /** Task object t becomes x: registered, member of its process, last in the runqueue. */
  function Admit(s: State, t: nat, x: Task, frames: map<nat, Cont>): State
    requires 1 <= x.id <= |s.registry| && x.process in s.procs
  {
    var p := s.procs[x.process];
    s.(tasks := s.tasks[t := x], registry := s.registry[x.id - 1 := t],
       procs := s.procs[x.process := p.(tasks := p.tasks + [t])],
       rq := s.rq + [t], frames := frames, saved := s.saved[t := x.context])
  }

  /** An unused task object, an unused identifier, and a first continuation in the task's own stack. */
  ghost predicate CanAdmit(s: State, t: nat, x: Task, frames: map<nat, Cont>) {
    && t != 0 && t !in s.registry && 1 <= x.id <= |s.registry| && s.registry[x.id - 1] == 0
    && x.state == Ready && x.waitQueue == 0 && x.managed && x.entry != 0 && |x.pages| == 4
    && x.base == StackBase(s.start, x.id) && x.top == x.base + STACK_SIZE && x.authority == Context
    && KnownProc(s, x.process) && x.space == s.procs[x.process].space
    && Scribbled(s.frames, frames, x.base, x.top)
  }

  lemma AdmitKnown(s: State, t: nat, x: Task, frames: map<nat, Cont>, u: State, r: nat)
    requires RegistryOk(s) && CanAdmit(s, t, x, frames) && u == Admit(s, t, x, frames)
    ensures Known(u, r) <==> Known(s, r) || r == t
    ensures r == t ==> !Known(s, r)
    ensures KnownProc(u, r) <==> KnownProc(s, r)
  {
  }

  lemma AdmitStatic(s: State, t: nat, x: Task, frames: map<nat, Cont>, u: State)
    requires Static(s) && CanAdmit(s, t, x, frames) && u == Admit(s, t, x, frames)
    ensures Static(u)
  {
    assert Open(STATIC);
    AdmitKnown(s, t, x, frames, u, t);
    AdmitKnown(s, t, x, frames, u, x.process);
    assert MembersOk(s, x.process);
    forall r | Known(u, r) ensures Sound(u, r) && Belongs(u, r) {
      AdmitKnown(s, t, x, frames, u, r);
      if r != t { AdmitKnown(s, t, x, frames, u, s.tasks[r].process); }
    }
    forall q | KnownProc(u, q) ensures MembersOk(u, q) {
      AdmitKnown(s, t, x, frames, u, q);
      forall r | r in u.procs[q].tasks ensures Known(u, r) && u.tasks[r].process == q {
        AdmitKnown(s, t, x, frames, u, r);
      }
    }
    forall q, q' | KnownProc(u, q) && KnownProc(u, q') && u.procs[q].space == u.procs[q'].space ensures q == q' {
      AdmitKnown(s, t, x, frames, u, q);
      AdmitKnown(s, t, x, frames, u, q');
    }
  }

  lemma AdmitQueue(s: State, t: nat, x: Task, frames: map<nat, Cont>, u: State, q: seq<nat>, state: TaskState, owner: nat)
    requires RegistryOk(s) && CanAdmit(s, t, x, frames) && u == Admit(s, t, x, frames) && QueueOk(s, q, state, owner)
    ensures QueueOk(u, q, state, owner) && t !in q
  {
    AdmitKnown(s, t, x, frames, u, t);
    forall r | r in q ensures Known(u, r) && u.tasks[r].state == state && u.tasks[r].waitQueue == owner {
      AdmitKnown(s, t, x, frames, u, r);
    }
  }

  /** The new task's stack is not where another task's frame lies. */
  lemma AdmitResumes(s: State, t: nat, x: Task, frames: map<nat, Cont>, u: State, r: nat)
    requires Static(s) && CanAdmit(s, t, x, frames) && u == Admit(s, t, x, frames)
    requires Known(s, r) && r != t && Resumes(s, r)
    ensures Resumes(u, r)
  {
    assert Open(STATIC);
    assert Sound(s, r);
    SlotsApart(s.start, x.id, s.tasks[r].id);
    var f := s.tasks[r].frame;
    assert s.tasks[r].state == Ready && s.tasks[r].authority == Interrupt ==> FrameAt(frames, f) == FrameAt(s.frames, f);
  }

  lemma AdmitInv(s: State, t: nat, x: Task, frames: map<nat, Cont>, u: State)
    requires Inv(s) && CanAdmit(s, t, x, frames) && u == Admit(s, t, x, frames)
    ensures Inv(u)
  {
    AdmitStatic(s, t, x, frames, u);
    assert RegistryOk(s) by { assert Open(STATIC); }
    AdmitKnown(s, t, x, frames, u, t);
    AdmitQueue(s, t, x, frames, u, s.rq, Ready, 0);
    QueueAppend(u, t, s.rq, Ready, 0);
    AdmitQueue(s, t, x, frames, u, s.pending, Terminated, 0);
    forall w | w in u.waits ensures w != 0 && QueueOk(u, u.waits[w], Blocked, w) {
      AdmitQueue(s, t, x, frames, u, u.waits[w], Blocked, w);
    }
    AdmitKnown(s, t, x, frames, u, s.current);
    forall r | Known(u, r) ensures Placed(u, r) && Resumes(u, r) {
      AdmitKnown(s, t, x, frames, u, r);
      if r != t {
        PlacedElsewhere(s, u, r);
        AdmitResumes(s, t, x, frames, u, r);
      }
    }
  }

  // ---- processes --------------------------------------------------------------------------

  function AddProcess(s: State, p: nat, pid: nat, space: nat): State
    requires 1 <= pid <= |s.processes|
  {
    s.(procs := s.procs[p := Process(pid, Live, space, [])], processes := s.processes[pid - 1 := p])
  }

  /** An unused object, an unused identifier, and an address space no process has. */
  ghost predicate CanAdd(s: State, p: nat, pid: nat, space: nat) {
    && p != 0 && p !in s.processes && 1 <= pid <= |s.processes| && s.processes[pid - 1] == 0 && space != 0
    && forall q | KnownProc(s, q) :: s.procs[q].space != space
  }

  lemma AddProcessInv(s: State, p: nat, pid: nat, space: nat, u: State)
    requires Inv(s) && CanAdd(s, p, pid, space) && u == AddProcess(s, p, pid, space)
    ensures Inv(u)
  {
    assert !KnownProc(s, p);
    assert forall q {:trigger KnownProc(u, q)} :: KnownProc(u, q) <==> KnownProc(s, q) || q == p by { assert Open(STATIC); }
    AddStatic(s, p, pid, space, u);
    OnlyProcesses(s, u);
  }

  lemma AddStatic(s: State, p: nat, pid: nat, space: nat, u: State)
    requires Static(s) && CanAdd(s, p, pid, space) && u == AddProcess(s, p, pid, space)
    requires forall q {:trigger KnownProc(u, q)} :: KnownProc(u, q) <==> KnownProc(s, q) || q == p
    ensures Static(u)
  {
    assert Open(STATIC);
    forall t | Known(u, t) ensures Sound(u, t) && Belongs(u, t) {
      assert Known(s, t);
      assert KnownProc(u, s.tasks[t].process);
    }
    forall q | KnownProc(u, q) ensures MembersOk(u, q) {
      forall t | t in u.procs[q].tasks ensures Known(u, t) && u.tasks[t].process == q {
        assert Known(s, t);
      }
    }
  }

  /** A change of processes alone leaves tasks, queues and continuations as they were. */
  lemma OnlyProcesses(s: State, u: State)
    requires Inv(s) && Static(u) && u == s.(procs := u.procs, processes := u.processes)
    ensures Inv(u)
  {
    assert forall t {:trigger Known(u, t)} :: Known(u, t) <==> Known(s, t);
    forall w | w in u.waits ensures w != 0 && QueueOk(u, u.waits[w], Blocked, w) {
      assert QueueOk(s, s.waits[w], Blocked, w);
    }
    forall t | Known(u, t) ensures Placed(u, t) && Resumes(u, t) {
      assert Known(s, t);
      PlacedElsewhere(s, u, t);
    }
  }

  function DropProcess(s: State, p: nat): State
    requires KnownProc(s, p)
  {
    s.(procs := s.procs[p := Process(0, Fresh, 0, [])], processes := s.processes[s.procs[p].id - 1 := 0])
  }

  lemma DropProcessInv(s: State, p: nat, u: State)
    requires Inv(s) && KnownProc(s, p) && s.procs[p].tasks == [] && u == DropProcess(s, p)
    ensures Inv(u)
  {
    assert forall q {:trigger KnownProc(u, q)} :: KnownProc(u, q) <==> KnownProc(s, q) && q != p by { assert Open(STATIC); }
    DropStatic(s, p, u);
    OnlyProcesses(s, u);
  }

  lemma DropStatic(s: State, p: nat, u: State)
    requires Static(s) && KnownProc(s, p) && s.procs[p].tasks == [] && u == DropProcess(s, p)
    requires forall q {:trigger KnownProc(u, q)} :: KnownProc(u, q) <==> KnownProc(s, q) && q != p
    ensures Static(u)
  {
    assert Open(STATIC);
    forall t | Known(u, t) ensures Sound(u, t) && Belongs(u, t) {
      assert Known(s, t);
      assert KnownProc(u, s.tasks[t].process);
    }
    forall q | KnownProc(u, q) ensures MembersOk(u, q) {
      forall t | t in u.procs[q].tasks ensures Known(u, t) && u.tasks[t].process == q {
        assert Known(s, t);
      }
    }
  }

  // ---- occupied slots ---------------------------------------------------------------------

  function Occupied(slots: seq<nat>): nat {
    if slots == [] then 0 else Occupied(slots[..|slots| - 1]) + (if slots[|slots| - 1] == 0 then 0 else 1)
  }

  lemma {:induction false} OccupiedSet(slots: seq<nat>, i: nat, t: nat)
    requires i < |slots|
    ensures Occupied(slots[i := t]) == Occupied(slots) - (if slots[i] == 0 then 0 else 1) + (if t == 0 then 0 else 1)
  {
    var n := |slots| - 1;
    if i < n {
      OccupiedSet(slots[..n], i, t);
      assert slots[i := t][..n] == slots[..n][i := t];
    } else {
      assert slots[i := t][..n] == slots[..n];
    }
  }

  lemma {:induction false} OccupiedAll(slots: seq<nat>)
    ensures Occupied(slots) <= |slots|
  {
    if slots != [] { OccupiedAll(slots[..|slots| - 1]); }
  }

  lemma {:induction false} OccupiedNone(slots: seq<nat>)
    requires forall i | 0 <= i < |slots| :: slots[i] == 0
    ensures Occupied(slots) == 0
  {
    if slots != [] { OccupiedNone(slots[..|slots| - 1]); }
  }

  /** A free slot leaves room in the count, and an occupied one is counted. */
  lemma OccupiedRoom(slots: seq<nat>, i: nat)
    requires i < |slots|
    ensures slots[i] == 0 ==> Occupied(slots) < |slots|
    ensures slots[i] != 0 ==> Occupied(slots) > 0
  {
    OccupiedSet(slots, i, 1 - (if slots[i] == 0 then 0 else 1));
    OccupiedAll(slots[i := 1]);
  }
}
