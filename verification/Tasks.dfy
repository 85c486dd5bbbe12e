/** Tasks and who owns them: registries, queues, continuations (kernel/sched, kernel/process,
    kernel/execution, kernel/lifecycle). Every operation of the scheduler moves a task from one
    owner to the next; this module gives those moves as functions on a state and proves that each
    keeps the ownership invariant. */
module Tasks {
  import opened Guard
  import opened Rings

  const MAX_TASKS: nat := 256
  const GUARD_SIZE: nat := 4096
  const STACK_SIZE: nat := 16384
  const SLOT_SIZE: nat := 20480
  const FRAME_SIZE: nat := 152

  datatype TaskState = New | Ready | Running | Blocked | Sleeping | Terminated
  datatype Authority = NoResume | Context | Interrupt
  datatype ProcessState = Fresh | Live | Ended

  /** A saved point of execution. */
  type Cont = nat

  /** struct task; 0 stands for NULL in handles. */
  datatype Task = Task(
    id: nat, state: TaskState, base: nat, top: nat, pages: seq<nat>, space: nat, process: nat, entry: nat,
    waitQueue: nat, authority: Authority, managed: bool, frame: nat, frameValid: bool, context: Cont)

  datatype Process = Process(id: nat, state: ProcessState, space: nat, tasks: seq<nat>)

  /** The scheduler's state. `frames` is what the interrupt frames in memory hold, `saved` is the
      continuation each task last gave up the CPU with. */
  datatype State = State(
    start: nat, tasks: map<nat, Task>, procs: map<nat, Process>, registry: seq<nat>, processes: seq<nat>,
    rq: seq<nat>, pending: seq<nat>, waits: map<nat, seq<nat>>, current: nat,
    frames: map<nat, Cont>, saved: map<nat, Cont>)

  datatype Option<T> = None | Some(value: T)

  // ---- the invariant ----------------------------------------------------------------------

  predicate Known(s: State, t: nat) {
    t != 0 && t in s.tasks && 1 <= s.tasks[t].id <= |s.registry| && s.registry[s.tasks[t].id - 1] == t
  }

  predicate KnownProc(s: State, p: nat) {
    p != 0 && p in s.procs && 1 <= s.procs[p].id <= |s.processes| && s.processes[s.procs[p].id - 1] == p
  }

  function StackBase(start: nat, id: nat): nat
    requires id > 0
  {
    start + GUARD_SIZE + (id - 1) * SLOT_SIZE
  }

  /** What the interrupt frame at an address holds. */
  function FrameAt(frames: map<nat, Cont>, a: nat): Cont {
    if a in frames then frames[a] else 0
  }

  /** The continuation a task would be resumed from. */
  function Resolve(x: Task, frames: map<nat, Cont>): Option<Cont> {
    if x.authority == Context then Some(x.context)
    else if x.authority == Interrupt && x.frameValid && x.frame != 0 then Some(FrameAt(frames, x.frame))
    else None
  }

  /** Where the CPU is to be sent: nowhere, to a task's saved context, or to an interrupt frame. */
  datatype Target = Nowhere | ToContext(task: nat) | ToFrame(address: nat)

  /** The continuation found there; NULL pointers lead nowhere. */
  function Lands(s: State, target: Target): Option<Cont> {
    match target
    case Nowhere => None
    case ToContext(t) => if t != 0 && t in s.tasks then Some(s.tasks[t].context) else None
    case ToFrame(a) => if a != 0 then Some(FrameAt(s.frames, a)) else None
  }

  /** The life of a task: which state may follow which. */
  predicate Follows(from: TaskState, to: TaskState) {
    match from
    case New => to == Ready
    case Ready => to == Running
    case Running => to == Ready || to == Blocked || to == Sleeping || to == Terminated
    case Blocked => to == Ready
    case Sleeping => to == Ready
    case Terminated => false
  }

  ghost predicate RegistryOk(s: State) {
    && |s.registry| == MAX_TASKS
    && forall i | 0 <= i < |s.registry| && s.registry[i] != 0 ::
         s.registry[i] in s.tasks && s.tasks[s.registry[i]].id == i + 1
  }

  ghost predicate ProcessesOk(s: State) {
    && |s.processes| == MAX_TASKS
    && forall i | 0 <= i < |s.processes| && s.processes[i] != 0 ::
         s.processes[i] in s.procs && s.procs[s.processes[i]].id == i + 1
  }

  ghost predicate QueueOk(s: State, q: seq<nat>, state: TaskState, owner: nat) {
    && Distinct(q)
    && forall t | t in q :: Known(s, t) && s.tasks[t].state == state && s.tasks[t].waitQueue == owner
  }

  /** A known task is where its state says. */
  ghost predicate Placed(s: State, t: nat)
    requires t in s.tasks
  {
    var x := s.tasks[t];
    match x.state
    case Running => s.current == t && x.waitQueue == 0
    case Ready => t in s.rq && x.waitQueue == 0
    case Blocked => x.waitQueue in s.waits && t in s.waits[x.waitQueue]
    case Terminated => t in s.pending && x.waitQueue == 0
    case New => false
    case Sleeping => false
  }

  /** A task off the CPU would be resumed from where it last gave the CPU up. */
  ghost predicate Resumes(s: State, t: nat)
    requires t in s.tasks
  {
    var x := s.tasks[t];
    match x.state
    case Ready => t in s.saved && Resolve(x, s.frames) == Some(s.saved[t])
                  && (x.authority == Interrupt ==> x.base <= x.frame < x.top)
    case Blocked => t in s.saved && x.authority == Context && x.context == s.saved[t]
    case Terminated => x.authority == NoResume
    case _ => true
  }

  /** A known task's own fields. */
  ghost predicate Sound(s: State, t: nat)
    requires t in s.tasks
  {
    var x := s.tasks[t];
    x.id > 0 && x.managed && x.entry != 0 && x.base == StackBase(s.start, x.id) && x.top == x.base + STACK_SIZE && |x.pages| == 4
  }

  /** A known task and its process point at each other and share the address space. */
  ghost predicate Belongs(s: State, t: nat)
    requires t in s.tasks
  {
    var p := s.tasks[t].process;
    KnownProc(s, p) && t in s.procs[p].tasks && s.tasks[t].space == s.procs[p].space
  }

  ghost predicate MembersOk(s: State, p: nat)
    requires p in s.procs
  {
    && s.procs[p].state == Live && s.procs[p].space != 0 && Distinct(s.procs[p].tasks)
    && forall t | t in s.procs[p].tasks :: Known(s, t) && s.tasks[t].process == p
  }

  const STATIC: int := -6

  /** Registries, memberships and the tasks' own fields. */
  ghost predicate Static(s: State) {
    forall n {:trigger Open(n)} :: Open(n) && n == STATIC ==> StaticFacts(s)
  }

  ghost predicate StaticFacts(s: State) {
    && RegistryOk(s) && ProcessesOk(s)
    && (forall t | Known(s, t) :: Sound(s, t) && Belongs(s, t))
    && (forall p | KnownProc(s, p) :: MembersOk(s, p))
    && (forall p, q | KnownProc(s, p) && KnownProc(s, q) && s.procs[p].space == s.procs[q].space :: p == q)
  }

  ghost predicate WaitsOk(s: State) {
    forall w | w in s.waits :: w != 0 && QueueOk(s, s.waits[w], Blocked, w)
  }

  ghost predicate CurrentOk(s: State) {
    s.current != 0 ==> Known(s, s.current) && s.tasks[s.current].state == Running
  }

  ghost predicate QueuesOk(s: State) {
    QueueOk(s, s.rq, Ready, 0) && QueueOk(s, s.pending, Terminated, 0) && WaitsOk(s) && CurrentOk(s)
  }

  ghost predicate Inv(s: State) {
    && Static(s) && QueuesOk(s)
    && (forall t | Known(s, t) :: Placed(s, t) && Resumes(s, t))
  }

  // ---- moves of one known task ------------------------------------------------------------

  /** The fields that only creation and destruction change. */
  function Body(x: Task): Task {
    x.(state := New, waitQueue := 0, authority := NoResume, frame := 0, frameValid := false, context := 0)
  }

  ghost predicate Kept(s: State, u: State) {
    && u.start == s.start && u.procs == s.procs && u.registry == s.registry && u.processes == s.processes
    && u.tasks.Keys == s.tasks.Keys
    && forall t | t in s.tasks :: Body(u.tasks[t]) == Body(s.tasks[t])
  }

  lemma KeptKnown(s: State, u: State, t: nat)
    requires Kept(s, u)
    ensures Known(u, t) <==> Known(s, t)
    ensures KnownProc(u, t) <==> KnownProc(s, t)
  {
    if t in s.tasks { assert Body(u.tasks[t]) == Body(s.tasks[t]); }
  }

  lemma KeptStatic(s: State, u: State)
    requires Static(s) && Kept(s, u)
    ensures Static(u)
  {
    assert Open(STATIC);
    forall i | 0 <= i < |u.registry| && u.registry[i] != 0
      ensures u.registry[i] in u.tasks && u.tasks[u.registry[i]].id == i + 1
    {
      assert Body(u.tasks[u.registry[i]]) == Body(s.tasks[u.registry[i]]);
    }
    forall t | Known(u, t) ensures Sound(u, t) && Belongs(u, t) {
      KeptKnown(s, u, t);
      assert Body(u.tasks[t]) == Body(s.tasks[t]);
    }
    forall p | KnownProc(u, p) ensures MembersOk(u, p) {
      assert KnownProc(s, p);
      forall t | t in u.procs[p].tasks ensures Known(u, t) && u.tasks[t].process == p {
        KeptKnown(s, u, t);
        assert Body(u.tasks[t]) == Body(s.tasks[t]);
      }
    }
    forall p, q | KnownProc(u, p) && KnownProc(u, q) && u.procs[p].space == u.procs[q].space ensures p == q {
      assert KnownProc(s, p) && KnownProc(s, q);
    }
  }

  /** Two known tasks have different slots, so their stacks do not overlap. */
  lemma StacksApart(s: State, t: nat, r: nat)
    requires Static(s) && Known(s, t) && Known(s, r) && t != r
    ensures s.tasks[t].top <= s.tasks[r].base || s.tasks[r].top <= s.tasks[t].base
  {
    assert Open(STATIC);
    assert Sound(s, t) && Sound(s, r);
    SlotsApart(s.start, s.tasks[t].id, s.tasks[r].id);
  }

  lemma SlotsApart(start: nat, i: nat, j: nat)
    requires 0 < i && 0 < j && i != j
    ensures StackBase(start, i) + STACK_SIZE <= StackBase(start, j) - GUARD_SIZE
            || StackBase(start, j) + STACK_SIZE <= StackBase(start, i) - GUARD_SIZE
  {
  }

  /** Memory changed only between lo and hi. */
  ghost predicate Scribbled(m: map<nat, Cont>, m': map<nat, Cont>, lo: nat, hi: nat) {
    forall a: nat | a < lo || hi <= a :: FrameAt(m', a) == FrameAt(m, a)
  }

  /** u is s with only the record of task c changed, and not its body. */
  ghost predicate Moved(s: State, u: State, c: nat) {
    Kept(s, u) && forall t | t in s.tasks && t != c :: u.tasks[t] == s.tasks[t]
  }

  lemma QueueKept(s: State, u: State, c: nat, q: seq<nat>, state: TaskState, owner: nat)
    requires Moved(s, u, c) && QueueOk(s, q, state, owner) && c !in q
    ensures QueueOk(u, q, state, owner)
  {
    forall t | t in q ensures Known(u, t) && u.tasks[t].state == state && u.tasks[t].waitQueue == owner {
      KeptKnown(s, u, t);
    }
  }

  lemma QueueAppend(u: State, c: nat, q: seq<nat>, state: TaskState, owner: nat)
    requires QueueOk(u, q, state, owner) && c !in q
    requires Known(u, c) && u.tasks[c].state == state && u.tasks[c].waitQueue == owner
    ensures QueueOk(u, q + [c], state, owner)
  {
  }

  /** The queues that do not hold c are as they were. */
  lemma OthersKept(s: State, u: State, c: nat)
    requires Moved(s, u, c) && QueuesOk(s) && c in s.tasks
    ensures s.tasks[c].state != Ready ==> QueueOk(u, s.rq, Ready, 0)
    ensures s.tasks[c].state != Terminated ==> QueueOk(u, s.pending, Terminated, 0)
    ensures forall w | w in s.waits && (s.tasks[c].state != Blocked || s.tasks[c].waitQueue != w) ::
              QueueOk(u, s.waits[w], Blocked, w)
  {
    if s.tasks[c].state != Ready { QueueKept(s, u, c, s.rq, Ready, 0); }
    if s.tasks[c].state != Terminated { QueueKept(s, u, c, s.pending, Terminated, 0); }
    forall w | w in s.waits && (s.tasks[c].state != Blocked || s.tasks[c].waitQueue != w)
      ensures QueueOk(u, s.waits[w], Blocked, w)
    {
      QueueKept(s, u, c, s.waits[w], Blocked, w);
    }
  }

  lemma WaitsUpdated(s: State, u: State, c: nat, w: nat)
    requires WaitsOk(s) && w in s.waits && w in u.waits && u.waits == s.waits[w := u.waits[w]]
    requires QueueOk(u, u.waits[w], Blocked, w)
    requires forall w' | w' in s.waits && w' != w :: QueueOk(u, s.waits[w'], Blocked, w')
    ensures WaitsOk(u)
  {
  }

  lemma PlacedElsewhere(s: State, u: State, t: nat)
    requires t in s.tasks && t in u.tasks && u.tasks[t] == s.tasks[t] && Placed(s, t)
    requires s.current == t ==> u.current == t
    requires t in s.rq ==> t in u.rq
    requires t in s.pending ==> t in u.pending
    requires forall w | w in s.waits && t in s.waits[w] :: w in u.waits && t in u.waits[w]
    ensures Placed(u, t)
  {
  }

  /** The same where one wait queue has changed, but not for t. */
  lemma PlacedUpdated(s: State, u: State, t: nat, w: nat)
    requires t in s.tasks && t in u.tasks && u.tasks[t] == s.tasks[t] && Placed(s, t) && w in s.waits && w in u.waits
    requires u.waits == s.waits[w := u.waits[w]] && (t in s.waits[w] ==> t in u.waits[w])
    requires (s.current == t ==> u.current == t) && (t in s.rq ==> t in u.rq) && (t in s.pending ==> t in u.pending)
    ensures Placed(u, t)
  {
  }

  /** What happens in c's stack does not touch the continuation of another task. */
  lemma ResumesElsewhere(s: State, u: State, c: nat, t: nat)
    requires Static(s) && Known(s, c) && Known(s, t) && t != c && Resumes(s, t)
    requires t in u.tasks && u.tasks[t] == s.tasks[t]
    requires t in s.saved ==> t in u.saved && u.saved[t] == s.saved[t]
    requires Scribbled(s.frames, u.frames, s.tasks[c].base, s.tasks[c].top)
    ensures Resumes(u, t)
  {
    StacksApart(s, t, c);
    var f := s.tasks[t].frame;
    assert s.tasks[t].state == Ready && s.tasks[t].authority == Interrupt ==> FrameAt(u.frames, f) == FrameAt(s.frames, f);
  }

  /** The running task goes to the end of the runqueue as x, leaving continuation k. */
  function ToQueue(s: State, x: Task, frames: map<nat, Cont>, k: Cont): State {
    s.(tasks := s.tasks[s.current := x], rq := s.rq + [s.current], current := 0,
       frames := frames, saved := s.saved[s.current := k])
  }

  lemma ToQueueInv(s: State, x: Task, frames: map<nat, Cont>, k: Cont, u: State)
    requires Inv(s) && s.current != 0 && u == ToQueue(s, x, frames, k)
    requires Body(x) == Body(s.tasks[s.current]) && x.state == Ready && x.waitQueue == 0
    requires Resolve(x, frames) == Some(k) && (x.authority == Interrupt ==> x.base <= x.frame < x.top)
    requires Scribbled(s.frames, frames, x.base, x.top)
    ensures Inv(u)
  {
    var c := s.current;
    assert Moved(s, u, c);
    KeptStatic(s, u);
    KeptKnown(s, u, c);
    OthersKept(s, u, c);
    QueueAppend(u, c, s.rq, Ready, 0);
    forall t | Known(u, t) ensures Placed(u, t) && Resumes(u, t) {
      KeptKnown(s, u, t);
      if t != c {
        PlacedElsewhere(s, u, t);
        ResumesElsewhere(s, u, c, t);
      }
    }
  }

  /** The running task blocks on wait queue w, leaving continuation k. */
  function ToWait(s: State, w: nat, k: Cont): State
    requires s.current in s.tasks && w in s.waits
  {
    var x := s.tasks[s.current].(state := Blocked, waitQueue := w, authority := Context, context := k);
    s.(tasks := s.tasks[s.current := x], waits := s.waits[w := s.waits[w] + [s.current]], current := 0,
       saved := s.saved[s.current := k])
  }

  lemma ToWaitInv(s: State, w: nat, k: Cont, u: State)
    requires Inv(s) && s.current != 0 && w in s.waits && u == ToWait(s, w, k)
    ensures Inv(u)
  {
    var c := s.current;
    assert Moved(s, u, c);
    KeptStatic(s, u);
    KeptKnown(s, u, c);
    OthersKept(s, u, c);
    QueueAppend(u, c, s.waits[w], Blocked, w);
    WaitsUpdated(s, u, c, w);
    forall t | Known(u, t) ensures Placed(u, t) && Resumes(u, t) {
      KeptKnown(s, u, t);
      if t != c {
        PlacedUpdated(s, u, t, w);
      }
    }
  }

  /** The running task ends and waits to be reclaimed. */
  function ToPending(s: State, k: Cont): State
    requires s.current in s.tasks
  {
    var x := s.tasks[s.current].(state := Terminated, authority := NoResume, context := k);
    s.(tasks := s.tasks[s.current := x], pending := s.pending + [s.current], current := 0)
  }

  lemma ToPendingInv(s: State, k: Cont, u: State)
    requires Inv(s) && s.current != 0 && u == ToPending(s, k)
    ensures Inv(u)
  {
    var c := s.current;
    assert Placed(s, c);
    assert Moved(s, u, c);
    KeptStatic(s, u);
    KeptKnown(s, u, c);
    OthersKept(s, u, c);
    QueueAppend(u, c, s.pending, Terminated, 0);
    forall t | Known(u, t) ensures Placed(u, t) && Resumes(u, t) {
      KeptKnown(s, u, t);
      if t != c {
        PlacedElsewhere(s, u, t);
      }
    }
  }

  /** The head of the runqueue gets the CPU. */
  function ToCpu(s: State): State
    requires s.rq != [] && s.rq[0] in s.tasks
  {
    s.(tasks := s.tasks[s.rq[0] := s.tasks[s.rq[0]].(state := Running)], rq := s.rq[1..], current := s.rq[0])
  }

  lemma ToCpuInv(s: State, u: State)
    requires Inv(s) && s.current == 0 && s.rq != [] && s.rq[0] in s.tasks && u == ToCpu(s)
    ensures Inv(u)
  {
    var n := s.rq[0];
    assert Known(s, n) && Placed(s, n);
    assert Moved(s, u, n);
    KeptStatic(s, u);
    KeptKnown(s, u, n);
    OthersKept(s, u, n);
    QueueTail(s, s.rq, Ready, 0);
    QueueKept(s, u, n, s.rq[1..], Ready, 0);
    forall t | Known(u, t) ensures Placed(u, t) && Resumes(u, t) {
      KeptKnown(s, u, t);
      if t != n {
        PlacedElsewhere(s, u, t);
      }
    }
  }

  lemma QueueTail(s: State, q: seq<nat>, state: TaskState, owner: nat)
    requires QueueOk(s, q, state, owner) && q != []
    ensures QueueOk(s, q[1..], state, owner) && q[0] !in q[1..]
    ensures forall t | t != q[0] :: t in q[1..] <==> t in q
  {
  }

  lemma QueueWithout(s: State, q: seq<nat>, t: nat, state: TaskState, owner: nat)
    requires QueueOk(s, q, state, owner)
    ensures QueueOk(s, Without(q, t), state, owner) && t !in Without(q, t)
  {
    WithoutDistinct(q, t);
  }

  lemma {:induction false} WithoutDistinct(q: seq<nat>, t: nat)
    requires Distinct(q)
    ensures Distinct(Without(q, t))
  {
    if q != [] && q[0] != t {
      WithoutDistinct(q[1..], t);
      assert q[0] !in q[1..];
    }
  }

  /** A blocked task leaves its wait queue and becomes ready. */
  function Wake(s: State, t: nat): State
    requires t in s.tasks && s.tasks[t].waitQueue in s.waits
  {
    var w := s.tasks[t].waitQueue;
    s.(tasks := s.tasks[t := s.tasks[t].(state := Ready, waitQueue := 0)],
       waits := s.waits[w := Without(s.waits[w], t)], rq := s.rq + [t])
  }

  lemma WakeInv(s: State, t: nat, u: State)
    requires Inv(s) && Known(s, t) && s.tasks[t].state == Blocked && s.tasks[t].waitQueue in s.waits
    requires u == Wake(s, t)
    ensures Inv(u)
  {
    var w := s.tasks[t].waitQueue;
    assert Resumes(s, t) && s.current != t;
    assert Moved(s, u, t);
    KeptStatic(s, u);
    KeptKnown(s, u, t);
    KeptKnown(s, u, s.current);
    OthersKept(s, u, t);
    QueueWithout(s, s.waits[w], t, Blocked, w);
    QueueKept(s, u, t, Without(s.waits[w], t), Blocked, w);
    WaitsUpdated(s, u, t, w);
    QueueAppend(u, t, s.rq, Ready, 0);
    forall r | Known(u, r) ensures Placed(u, r) && Resumes(u, r) {
      KeptKnown(s, u, r);
      if r != t {
        PlacedUpdated(s, u, r, w);
      }
    }
  }
}
