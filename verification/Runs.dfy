/** Whole runs of the scheduler: every step keeps the ownership invariant, a task is resumed from
    where it last gave up the CPU, no queue overflows and no ready task waits forever
    (kernel/sched/scheduler.c, kernel/sched/task.c, kernel/arch/x86_64/sched/preempt.c). */
module Runs {
  import opened Guard
  import opened Rings
  import opened Tasks
  import opened Owners

  // ---- handoffs ---------------------------------------------------------------------------

  function Suspended(x: Task, k: Cont): Task {
    x.(state := Ready, authority := Context, context := k)
  }

  function Framed(x: Task, f: nat): Task {
    x.(authority := Interrupt, frame := f, frameValid := true)
  }

  predicate CanSwitch(s: State) {
    s.current != 0 && s.current in s.tasks && s.rq != [] && s.rq[0] in s.tasks
  }

  /** The running task yields with continuation k. */
  function YieldTo(s: State, k: Cont): State
    requires CanSwitch(s)
  {
    ToCpu(ToQueue(s, Suspended(s.tasks[s.current], k), s.frames, k))
  }

  /** The timer interrupts the running task, whose frame at f holds continuation k. */
  function PreemptTo(s: State, f: nat, k: Cont): State
    requires CanSwitch(s)
  {
    ToCpu(ToQueue(s, Framed(s.tasks[s.current], f).(state := Ready), s.frames[f := k], k))
  }

  /** The same, with no other task to run. */
  function Interrupted(s: State, f: nat, k: Cont): State
    requires s.current in s.tasks
  {
    s.(tasks := s.tasks[s.current := Framed(s.tasks[s.current], f)], frames := s.frames[f := k])
  }

  function BlockTo(s: State, w: nat, k: Cont): State
    requires CanSwitch(s) && w in s.waits
  {
    ToCpu(ToWait(s, w, k))
  }

  function ExitTo(s: State, k: Cont): State
    requires CanSwitch(s)
  {
    ToCpu(ToPending(s, k))
  }

  lemma YieldInv(s: State, k: Cont)
    requires Inv(s) && CanSwitch(s)
    ensures Inv(YieldTo(s, k))
  {
    var x := Suspended(s.tasks[s.current], k);
    assert Placed(s, s.current);
    var m := ToQueue(s, x, s.frames, k);
    ToQueueInv(s, x, s.frames, k, m);
    ToCpuInv(m, ToCpu(m));
  }

  lemma PreemptInv(s: State, f: nat, k: Cont)
    requires Inv(s) && CanSwitch(s) && f != 0 && s.tasks[s.current].base <= f < s.tasks[s.current].top
    ensures Inv(PreemptTo(s, f, k))
  {
    var x := Framed(s.tasks[s.current], f).(state := Ready);
    assert Placed(s, s.current);
    var m := ToQueue(s, x, s.frames[f := k], k);
    ToQueueInv(s, x, s.frames[f := k], k, m);
    ToCpuInv(m, ToCpu(m));
  }

  lemma BlockInv(s: State, w: nat, k: Cont)
    requires Inv(s) && CanSwitch(s) && w in s.waits
    ensures Inv(BlockTo(s, w, k))
  {
    ToWaitInv(s, w, k, ToWait(s, w, k));
    ToCpuInv(ToWait(s, w, k), ToCpu(ToWait(s, w, k)));
  }

  lemma ExitInv(s: State, k: Cont)
    requires Inv(s) && CanSwitch(s)
    ensures Inv(ExitTo(s, k))
  {
    ToPendingInv(s, k, ToPending(s, k));
    ToCpuInv(ToPending(s, k), ToCpu(ToPending(s, k)));
  }

  /** What the running task does to its own stack, and to its own record, concerns nobody else. */
  lemma OwnStack(s: State, x: Task, frames: map<nat, Cont>, u: State)
    requires Inv(s) && s.current != 0 && u == s.(tasks := s.tasks[s.current := x], frames := frames)
    requires Body(x) == Body(s.tasks[s.current]) && x.state == Running && x.waitQueue == 0
    requires Scribbled(s.frames, frames, x.base, x.top)
    ensures Inv(u)
  {
    var c := s.current;
    assert Placed(s, c);
    assert Moved(s, u, c);
    KeptStatic(s, u);
    KeptKnown(s, u, c);
    OthersKept(s, u, c);
    forall t | Known(u, t) ensures Placed(u, t) && Resumes(u, t) {
      KeptKnown(s, u, t);
      if t != c {
        PlacedElsewhere(s, u, t);
        ResumesElsewhere(s, u, c, t);
      }
    }
  }

  // ---- steps ------------------------------------------------------------------------------

  datatype Op =
    | Start
    | Yield(k: Cont)
    | Tick(f: nat, k: Cont)
    | Block(w: nat, k: Cont)
    | WakeUp(t: nat)
    | Exit(k: Cont)
    | Work(frames: map<nat, Cont>)
    | Create(t: nat, x: Task, frames: map<nat, Cont>)
    | Remove(t: nat, i: nat)
    | NewProcess(p: nat, pid: nat, space: nat)
    | EndProcess(p: nat)
    | NewQueue(w: nat)
    | Idle(f: nat, k: Cont)

  ghost predicate Enabled(s: State, op: Op) {
    match op
    case Start => s.current == 0 && s.rq != [] && s.rq[0] in s.tasks
    case Yield(_) => CanSwitch(s)
    case Tick(f, _) => s.current != 0 && s.current in s.tasks && f != 0 && s.tasks[s.current].base <= f < s.tasks[s.current].top
                       && (s.rq != [] ==> s.rq[0] in s.tasks)
    case Block(w, _) => CanSwitch(s) && w in s.waits
    case WakeUp(t) => Known(s, t) && s.tasks[t].state == Blocked && s.tasks[t].waitQueue in s.waits
    case Exit(_) => CanSwitch(s)
    case Work(frames) => s.current != 0 && s.current in s.tasks
                         && Scribbled(s.frames, frames, s.tasks[s.current].base, s.tasks[s.current].top)
    case Create(t, x, frames) => CanAdmit(s, t, x, frames)
    case Remove(t, i) => CanForget(s, t, i)
    case NewProcess(p, pid, space) => CanAdd(s, p, pid, space)
    case EndProcess(p) => KnownProc(s, p) && s.procs[p].tasks == []
    case NewQueue(w) => w != 0 && (w in s.waits ==> s.waits[w] == [])
    case Idle(f, _) => s.current == 0 && OffStacks(s, f)
  }

  /** An address outside the window of all stacks. */
  predicate OffStacks(s: State, f: nat) {
    f < s.start || s.start + MAX_TASKS * SLOT_SIZE <= f
  }

  ghost function Next(s: State, op: Op): State
    requires Enabled(s, op)
  {
    match op
    case Start => ToCpu(s)
    case Yield(k) => YieldTo(s, k)
    case Tick(f, k) => if s.rq == [] then Interrupted(s, f, k) else PreemptTo(s, f, k)
    case Block(w, k) => BlockTo(s, w, k)
    case WakeUp(t) => Wake(s, t)
    case Exit(k) => ExitTo(s, k)
    case Work(frames) => s.(frames := frames)
    case Create(t, x, frames) => Admit(s, t, x, frames)
    case Remove(t, i) => Forget(s, t, i)
    case NewProcess(p, pid, space) => AddProcess(s, p, pid, space)
    case EndProcess(p) => DropProcess(s, p)
    case NewQueue(w) => s.(waits := s.waits[w := []])
    case Idle(f, k) => s.(frames := s.frames[f := k])
  }

  lemma NewQueueInv(s: State, w: nat)
    requires Inv(s) && w != 0 && (w in s.waits ==> s.waits[w] == [])
    ensures Inv(s.(waits := s.waits[w := []]))
  {
    var u := s.(waits := s.waits[w := []]);
    KeptStatic(s, u);
    forall t | Known(u, t) ensures Placed(u, t) && Resumes(u, t) {
      assert Known(s, t);
      PlacedElsewhere(s, u, t);
    }
    WaitsOnly(s, u, w);
  }

  lemma WaitsOnly(s: State, u: State, w: nat)
    requires QueuesOk(s) && w != 0 && u == s.(waits := s.waits[w := []])
    ensures QueuesOk(u)
  {
    SameQueue(s, u, s.rq, Ready, 0);
    SameQueue(s, u, s.pending, Terminated, 0);
    SameQueue(s, u, [], Blocked, w);
    forall w' | w' in u.waits ensures w' != 0 && QueueOk(u, u.waits[w'], Blocked, w') {
      if w' != w { SameQueue(s, u, s.waits[w'], Blocked, w'); }
    }
  }

  lemma SameQueue(s: State, u: State, q: seq<nat>, state: TaskState, owner: nat)
    requires QueueOk(s, q, state, owner) && u.tasks == s.tasks && u.registry == s.registry
    ensures QueueOk(u, q, state, owner)
  {
    forall t | t in q ensures Known(u, t) && u.tasks[t].state == state && u.tasks[t].waitQueue == owner {
      assert Known(s, t);
    }
  }

  /** An interrupt before the first task runs pushes its frame on another stack than any task's. */
  lemma IdleInv(s: State, f: nat, k: Cont)
    requires Inv(s) && OffStacks(s, f)
    ensures Inv(s.(frames := s.frames[f := k]))
  {
    var u := s.(frames := s.frames[f := k]);
    KeptStatic(s, u);
    forall t | Known(u, t) ensures Placed(u, t) && Resumes(u, t) {
      assert Known(s, t);
      PlacedElsewhere(s, u, t);
      OwnWindow(s, t);
    }
    FramesOnly(s, u);
  }

  lemma OwnWindow(s: State, t: nat)
    requires Static(s) && Known(s, t)
    ensures s.start <= s.tasks[t].base && s.tasks[t].top <= s.start + MAX_TASKS * SLOT_SIZE
  {
    assert Open(STATIC);
    assert Sound(s, t);
  }

  lemma FramesOnly(s: State, u: State)
    requires QueuesOk(s) && u == s.(frames := u.frames)
    ensures QueuesOk(u)
  {
    forall w | w in u.waits ensures w != 0 && QueueOk(u, u.waits[w], Blocked, w) {
      assert QueueOk(s, s.waits[w], Blocked, w);
    }
  }

  lemma WorkInv(s: State, frames: map<nat, Cont>)
    requires Inv(s) && Enabled(s, Work(frames))
    ensures Inv(s.(frames := frames))
  {
    var x := s.tasks[s.current];
    assert Placed(s, s.current);
    assert s.tasks[s.current := x] == s.tasks;
    OwnStack(s, x, frames, s.(frames := frames));
  }

  lemma TickInv(s: State, f: nat, k: Cont)
    requires Inv(s) && Enabled(s, Tick(f, k))
    ensures Inv(Next(s, Tick(f, k)))
  {
    if s.rq == [] {
      assert Placed(s, s.current);
      OwnStack(s, Framed(s.tasks[s.current], f), s.frames[f := k], Interrupted(s, f, k));
    } else {
      PreemptInv(s, f, k);
    }
  }

  lemma StepInv(s: State, op: Op)
    requires Inv(s) && Enabled(s, op)
    ensures Inv(Next(s, op))
  {
    match op
    case Start => ToCpuInv(s, ToCpu(s));
    case Yield(k) => YieldInv(s, k);
    case Tick(f, k) => TickInv(s, f, k);
    case Block(w, k) => BlockInv(s, w, k);
    case WakeUp(t) => WakeInv(s, t, Wake(s, t));
    case Exit(k) => ExitInv(s, k);
    case Work(frames) => WorkInv(s, frames);
    case Create(t, x, frames) => AdmitInv(s, t, x, frames, Admit(s, t, x, frames));
    case Remove(t, i) => ForgetInv(s, t, i, Forget(s, t, i));
    case NewProcess(p, pid, space) => AddProcessInv(s, p, pid, space, AddProcess(s, p, pid, space));
    case EndProcess(p) => DropProcessInv(s, p, DropProcess(s, p));
    case NewQueue(w) => NewQueueInv(s, w);
    case Idle(f, k) => IdleInv(s, f, k);
  }

  // ---- runs -------------------------------------------------------------------------------

  /** After boot: empty registries and queues. */
  function Boot(start: nat): State {
    var none := seq(MAX_TASKS, _ => 0);
    State(start, map[], map[], none, none, [], [], map[], 0, map[], map[])
  }

  lemma BootInv(start: nat)
    ensures Inv(Boot(start))
  {
  }

  const STEP: int := -14

  /** The step is possible in s and leads to u. */
  ghost predicate Leads(s: State, op: Op, u: State) {
    forall n {:trigger Open(n)} :: Open(n) && n == STEP ==> Enabled(s, op) && u == Next(s, op)
  }

  lemma LeadsFacts(s: State, op: Op, u: State)
    requires Leads(s, op, u)
    ensures Enabled(s, op) && u == Next(s, op)
  {
    assert Open(STEP);
  }

  ghost predicate IsRun(states: seq<State>, ops: seq<Op>) {
    |states| == |ops| + 1 && forall i | 0 <= i < |ops| :: Leads(states[i], ops[i], states[i + 1])
  }

  /** The ownership invariant holds at every step of every run. */
  lemma {:induction false} RunInv(states: seq<State>, ops: seq<Op>, n: nat)
    requires IsRun(states, ops) && Inv(states[0]) && n <= |ops|
    ensures Inv(states[n])
  {
    if n > 0 {
      RunInv(states, ops, n - 1);
      LeadsFacts(states[n - 1], ops[n - 1], states[n]);
      StepInv(states[n - 1], ops[n - 1]);
    }
  }
}
