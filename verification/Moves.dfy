/** The scheduler's moves, and creation and removal of tasks, field by field (kernel/sched/scheduler.c,
    kernel/sched/task.c, kernel/lifecycle/lifecycle.c). */
module Moves {
  import opened Guard
  import opened Rings
  import opened Tasks
  import opened Owners
  import opened Runs

  // ---- the CPU changes hands --------------------------------------------------------------

  /** The CPU has gone from the running task, whose record is x now, to the head of the runqueue; no other
      record, no registry and no process has changed. */
  ghost predicate HandedOver(s: State, u: State, x: Task)
    requires CanSwitch(s)
  {
    && u.current == s.rq[0] && u.tasks == s.tasks[s.current := x][s.rq[0] := s.tasks[s.rq[0]].(state := Running)]
    && u.registry == s.registry && u.procs == s.procs && u.processes == s.processes && u.start == s.start
  }

  lemma YieldPlain(s: State, k: Cont, u: State)
    requires CanSwitch(s) && s.rq[0] != s.current && u == YieldTo(s, k)
    ensures HandedOver(s, u, s.tasks[s.current].(state := Ready, authority := Context, context := k))
    ensures u.rq == s.rq[1..] + [s.current] && u.waits == s.waits && u.pending == s.pending && u.frames == s.frames
  {
  }

  lemma PreemptPlain(s: State, f: nat, k: Cont, u: State)
    requires CanSwitch(s) && s.rq[0] != s.current && u == PreemptTo(s, f, k)
    ensures HandedOver(s, u, s.tasks[s.current].(state := Ready, authority := Interrupt, frame := f, frameValid := true))
    ensures u.rq == s.rq[1..] + [s.current] && u.waits == s.waits && u.pending == s.pending && u.frames == s.frames[f := k]
  {
  }

  lemma BlockPlain(s: State, w: nat, k: Cont, u: State)
    requires CanSwitch(s) && s.rq[0] != s.current && w in s.waits && u == BlockTo(s, w, k)
    ensures HandedOver(s, u, s.tasks[s.current].(state := Blocked, waitQueue := w, authority := Context, context := k))
    ensures u.rq == s.rq[1..] && u.waits == s.waits[w := s.waits[w] + [s.current]] && u.pending == s.pending && u.frames == s.frames
  {
  }

  lemma ExitPlain(s: State, k: Cont, u: State)
    requires CanSwitch(s) && s.rq[0] != s.current && u == ExitTo(s, k)
    ensures HandedOver(s, u, s.tasks[s.current].(state := Terminated, authority := NoResume, context := k))
    ensures u.rq == s.rq[1..] && u.waits == s.waits && u.pending == s.pending + [s.current] && u.frames == s.frames
  {
  }

  // ---- a task comes -----------------------------------------------------------------------

  lemma AdmitPlain(s: State, t: nat, x: Task, frames: map<nat, Cont>, u: State)
    requires CanAdmit(s, t, x, frames) && u == Admit(s, t, x, frames)
    ensures t in u.tasks && u.tasks[t] == x && x.base == s.start + 4096 + (x.id - 1) * 20480 && x.top == x.base + 16384
    ensures u.tasks == s.tasks[t := u.tasks[t]] && u.registry == s.registry[x.id - 1 := t] && u.rq == s.rq + [t]
    ensures x.process in s.procs
    ensures u.procs == s.procs[x.process := s.procs[x.process].(tasks := s.procs[x.process].tasks + [t])]
    ensures u.processes == s.processes && u.waits == s.waits && u.pending == s.pending && u.current == s.current
  {
  }

  // ---- a task goes ------------------------------------------------------------------------

  /** The object of a destroyed task: ended, in no process or queue, without a stack and not to be resumed. */
  ghost predicate Erased(x: Task) {
    && x.state == Terminated && x.base == 0 && x.top == 0 && x.pages == [0, 0, 0, 0] && x.process == 0 && x.entry == 0
    && x.waitQueue == 0 && x.authority == NoResume && x.frame == 0 && !x.frameValid
  }

  /** The task is gone from every place, and every other one is as and where it was. */
  ghost predicate Departed(s: State, u: State, t: nat) {
    && t in s.tasks && t in u.tasks && Erased(u.tasks[t]) && u.tasks == s.tasks[t := u.tasks[t]]
    && t !in u.registry && t !in u.rq && t !in u.pending && u.current == s.current && u.waits == s.waits
    && (forall r | r != t && r != 0 :: r in u.registry <==> r in s.registry)
    && (forall r | r != t :: r in u.rq <==> r in s.rq)
    && (forall r | r != t :: r in u.pending <==> r in s.pending)
    && (forall p | KnownProc(s, p) :: p in u.procs && t !in u.procs[p].tasks)
    && (forall p, r | KnownProc(s, p) && p in u.procs && r != t :: r in u.procs[p].tasks <==> r in s.procs[p].tasks)
  }

  lemma ForgetDeparts(s: State, t: nat, i: nat, u: State)
    requires Inv(s) && CanForget(s, t, i) && u == Forget(s, t, i)
    ensures Departed(s, u, t)
  {
    assert Open(STATIC);
    var p := s.tasks[t].process;
    assert Belongs(s, t) && MembersOk(s, p);
    Detached(s.procs[p].tasks, i);
    forall q | KnownProc(s, q) ensures q in u.procs && t !in u.procs[q].tasks {
      assert MembersOk(s, q);
    }
    forall r | r != t && r != 0 ensures r in u.registry <==> r in s.registry {
      RegistryCleared(s.registry, s.tasks[t].id - 1, r);
    }
    assert t !in u.registry;
  }

  lemma RegistryCleared(registry: seq<nat>, i: nat, r: nat)
    requires i < |registry| && registry[i] != r && r != 0
    ensures r in registry[i := 0] <==> r in registry
  {
    if r in registry {
      var j :| 0 <= j < |registry| && registry[j] == r;
      assert registry[i := 0][j] == r;
    }
  }

  /** Reclaiming the head of the list of ended tasks leaves the others in order. */
  lemma ForgetHead(s: State, i: nat, u: State)
    requires s.pending != [] && CanForget(s, s.pending[0], i) && u == Forget(s, s.pending[0], i)
    ensures u.pending == s.pending[1..]
  {
  }

  /** With its only member gone the process goes too. */
  lemma DropDeparts(s: State, m: State, u: State, t: nat, p: nat)
    requires Departed(s, m, t) && KnownProc(s, p) && s.procs[p].tasks == [t] && KnownProc(m, p) && u == DropProcess(m, p)
    ensures Departed(s, u, t) && p in u.procs && u.procs[p] == Process(0, Fresh, 0, [])
  {
  }
}
