/** Stacks over whole runs: in every state exactly the registered tasks' stacks are mapped
    (kernel/sched/task.c, kernel/linker.ld). */
module StackRuns {
  import opened Frames
  import opened Guard
  import opened Rings
  import opened Paging
  import opened VirtualMemory
  import opened Tasks
  import opened Owners
  import opened Runs
  import opened Stacks
  import opened Backing
  import opened Preparing

  /** No step but creation and destruction touches what stacks depend on, so scheduling in all its
      forms keeps exactly the registered tasks' stacks mapped. */
  lemma SchedulingKeepsStacks(s: State, op: Op, v: Vm, root: nat, usable: set<nat>, slots: seq<seq<Path>>, guards: seq<Path>)
    requires Inv(s) && Enabled(s, op) && !op.Create? && !op.Remove?
    requires Backed(s, v, root, usable, slots, guards)
    ensures Backed(Next(s, op), v, root, usable, slots, guards)
  {
    BodiesKept(s, op);
    BodiesStacks(s, Next(s, op));
    BackedKept(s, Next(s, op), v, root, usable, slots, guards);
  }

  lemma BodiesStacks(s: State, u: State)
    requires SameBodies(s, u) && u.registry == s.registry
    ensures SameStacks(s, u)
  {
    forall t ensures Known(u, t) <==> Known(s, t) {
      if t in s.tasks { assert Body(u.tasks[t]) == Body(s.tasks[t]); }
    }
    forall t | Known(s, t) ensures Known(u, t) && u.tasks[t].id == s.tasks[t].id && u.tasks[t].pages == s.tasks[t].pages
                                   && u.tasks[t].space == s.tasks[t].space
    {
      assert Body(u.tasks[t]) == Body(s.tasks[t]);
    }
  }

  lemma SameStart(s: State, op: Op)
    requires Enabled(s, op)
    ensures Next(s, op).start == s.start
    ensures !op.Create? && !op.Remove? ==> Next(s, op).registry == s.registry
  {
  }

  ghost predicate SameBodies(s: State, u: State) {
    u.registry == s.registry && u.tasks.Keys == s.tasks.Keys && forall t | t in s.tasks :: Body(u.tasks[t]) == Body(s.tasks[t])
  }

  lemma OneWritten(s: State, u: State, c: nat, x: Task)
    requires c in s.tasks && u.tasks == s.tasks[c := x] && u.registry == s.registry && Body(x) == Body(s.tasks[c])
    ensures SameBodies(s, u)
  {
  }

  /** A task leaves the CPU as x, with state m in between, and the next one gets it. */
  lemma TwoWritten(s: State, m: State, u: State, x: Task)
    requires CanSwitch(s) && m.tasks == s.tasks[s.current := x] && m.registry == s.registry && Body(x) == Body(s.tasks[s.current])
    requires m.rq != [] && m.rq[0] in m.tasks && u == ToCpu(m)
    ensures SameBodies(s, u)
  {
    OneWritten(s, m, s.current, x);
    OneWritten(m, u, m.rq[0], m.tasks[m.rq[0]].(state := Running));
  }

  lemma BodiesKept(s: State, op: Op)
    requires Inv(s) && Enabled(s, op) && !op.Create? && !op.Remove?
    ensures SameBodies(s, Next(s, op))
  {
    var u := Next(s, op);
    var c := s.current;
    match op {
      case Start => OneWritten(s, u, s.rq[0], s.tasks[s.rq[0]].(state := Running));
      case Yield(k) => TwoWritten(s, ToQueue(s, Suspended(s.tasks[c], k), s.frames, k), u, Suspended(s.tasks[c], k));
      case Tick(f, k) =>
        var x := Framed(s.tasks[c], f);
        if s.rq == [] {
          OneWritten(s, u, c, x);
        } else {
          TwoWritten(s, ToQueue(s, x.(state := Ready), s.frames[f := k], k), u, x.(state := Ready));
        }
      case Block(w, k) => TwoWritten(s, ToWait(s, w, k), u, ToWait(s, w, k).tasks[c]);
      case WakeUp(t) => OneWritten(s, u, t, u.tasks[t]);
      case Exit(k) => TwoWritten(s, ToPending(s, k), u, ToPending(s, k).tasks[c]);
      case Work(_) =>
      case NewProcess(_, _, _) =>
      case EndProcess(_) =>
      case NewQueue(_) =>
      case Idle(_, _) =>
    }
  }

  // ---- runs with their address space ------------------------------------------------------

  /** A step together with what it does to the kernel's address space. Other parts of the kernel map and
      unmap pages elsewhere. */
  datatype Move = Scheduled(op: Op) | FailedCreation(id: nat) | Elsewhere

  ghost predicate StackStep(s: State, v: Vm, move: Move, u: State, w: Vm, root: nat, usable: set<nat>, slots: seq<seq<Path>>, guards: seq<Path>)
    requires |slots| == MAX_TASKS == |guards|
  {
    match move
    case Scheduled(op) => Enabled(s, op) && u == Next(s, op) && StackEffect(s, v, op, w, root, usable, slots)
    case FailedCreation(id) =>
      && u == s && 1 <= id <= MAX_TASKS == |s.registry| && s.registry[id - 1] == 0
      && Cleared(v, w, root, slots[id - 1], PAGES) && GivenBack(v, w, root, slots[id - 1], usable)
    case Elsewhere => u == s && StacksLeftAlone(s, v, w, root, slots, guards)
  }

  ghost predicate StackEffect(s: State, v: Vm, op: Op, w: Vm, root: nat, usable: set<nat>, slots: seq<seq<Path>>)
    requires |slots| == MAX_TASKS && Enabled(s, op)
  {
    match op
    case Create(t, x, frames) => Gained(v, x, w, root, usable, slots)
    case Remove(t, i) => Lost(v, s.tasks[t].id, w, root, usable, slots)
    case _ => w == v
  }

  /** Four new frames have been mapped as the stack of x. */
  ghost predicate Gained(v: Vm, x: Task, w: Vm, root: nat, usable: set<nat>, slots: seq<seq<Path>>) {
    && x.space == root && 1 <= x.id <= |slots| && |x.pages| == PAGES == |slots[x.id - 1]|
    && BuiltWalks(v, w, root, slots[x.id - 1], x.pages) && BuiltFrames(v, w, x.pages, usable)
  }

  /** The stack of an identifier has been unmapped and its frames freed. */
  ghost predicate Lost(v: Vm, id: nat, w: Vm, root: nat, usable: set<nat>, slots: seq<seq<Path>>) {
    1 <= id <= |slots| && Cleared(v, w, root, slots[id - 1], PAGES) && Freed(v, w, root, slots[id - 1], PAGES, usable)
  }

  /** No stack or guard address is mapped or unmapped, and no stack frame freed or made a table. */
  ghost predicate StacksLeftAlone(s: State, v: Vm, w: Vm, root: nat, slots: seq<seq<Path>>, guards: seq<Path>)
    requires |slots| == MAX_TASKS == |guards|
  {
    && (Root(v, root) ==> Root(w, root))
    && (forall i: nat, j: nat | i < MAX_TASKS && j < |slots[i]| :: Walk(w.mem, root, PML4, slots[i][j]) == Walk(v.mem, root, PML4, slots[i][j]))
    && (forall i: nat | i < MAX_TASKS :: Walk(w.mem, root, PML4, guards[i]) == Walk(v.mem, root, PML4, guards[i]))
    && (forall t, f | Known(s, t) && f in s.tasks[t].pages && f !in v.free && f !in v.tables :: f !in w.free && f !in w.tables)
  }

  lemma BackedElsewhere(s: State, v: Vm, w: Vm, root: nat, usable: set<nat>, slots: seq<seq<Path>>, guards: seq<Path>)
    requires Backed(s, v, root, usable, slots, guards) && StacksLeftAlone(s, v, w, root, slots, guards)
    ensures Backed(s, w, root, usable, slots, guards)
  {
    assert Open(BACKED);
    forall t | Known(s, t) ensures HasStack(s, w, root, usable, slots, t) {
      assert HasStack(s, v, root, usable, slots, t);
      SameStacked(v, w, root, slots[s.tasks[t].id - 1], s.tasks[t].pages);
    }
    forall i: nat | i < MAX_TASKS && s.registry[i] == 0 ensures Unmapped(w, root, slots[i]) {
      assert Unmapped(v, root, slots[i]);
    }
  }

  lemma StepBacked(s: State, v: Vm, op: Op, u: State, w: Vm, root: nat, usable: set<nat>, slots: seq<seq<Path>>, guards: seq<Path>)
    requires Inv(s) && Backed(s, v, root, usable, slots, guards) && Layout(slots, guards)
    requires Enabled(s, op) && u == Next(s, op) && StackEffect(s, v, op, w, root, usable, slots)
    ensures Backed(u, w, root, usable, slots, guards)
  {
    if op.Create? {
      CreateBacked(s, v, op.t, op.x, op.frames, u, w, root, usable, slots, guards);
    } else if op.Remove? {
      RemoveBacked(s, v, op.t, op.i, u, w, root, usable, slots, guards);
    } else {
      SchedulingKeepsStacks(s, op, v, root, usable, slots, guards);
    }
  }

  lemma CreateBacked(s: State, v: Vm, t: nat, x: Task, frames: map<nat, Cont>, u: State, w: Vm,
                     root: nat, usable: set<nat>, slots: seq<seq<Path>>, guards: seq<Path>)
    requires Static(s) && CanAdmit(s, t, x, frames) && u == Admit(s, t, x, frames)
    requires Backed(s, v, root, usable, slots, guards) && Layout(slots, guards) && Gained(v, x, w, root, usable, slots)
    ensures Backed(u, w, root, usable, slots, guards)
  {
    assert RegistryOk(s) by { assert Open(STATIC); }
    BackedAdmit(s, t, x, frames, u, v, w, root, usable, slots, guards);
  }

  lemma RemoveBacked(s: State, v: Vm, t: nat, i: nat, u: State, w: Vm,
                     root: nat, usable: set<nat>, slots: seq<seq<Path>>, guards: seq<Path>)
    requires Static(s) && CanForget(s, t, i) && u == Forget(s, t, i)
    requires Backed(s, v, root, usable, slots, guards) && Layout(slots, guards) && Lost(v, s.tasks[t].id, w, root, usable, slots)
    ensures Backed(u, w, root, usable, slots, guards)
  {
    assert RegistryOk(s) by { assert Open(STATIC); }
    BackedForget(s, t, i, u, v, w, root, usable, slots, guards);
  }

  lemma FailedBacked(s: State, v: Vm, id: nat, w: Vm, root: nat, usable: set<nat>, slots: seq<seq<Path>>, guards: seq<Path>)
    requires Static(s) && Backed(s, v, root, usable, slots, guards) && Layout(slots, guards)
    requires StackStep(s, v, FailedCreation(id), s, w, root, usable, slots, guards)
    ensures Backed(s, w, root, usable, slots, guards)
  {
    FailedCreate(s, v, w, root, usable, slots, guards, id);
    SlotFacts(s, v, root, usable, slots, guards, id);
    BackedAfterFailure(s, v, w, root, usable, slots, guards, slots[id - 1]);
  }

  /** Every step keeps ownership and stacks together. */
  lemma MoveBacked(s: State, v: Vm, move: Move, u: State, w: Vm, root: nat, usable: set<nat>, slots: seq<seq<Path>>, guards: seq<Path>)
    requires Inv(s) && Backed(s, v, root, usable, slots, guards) && Layout(slots, guards)
    requires StackStep(s, v, move, u, w, root, usable, slots, guards)
    ensures Inv(u) && Backed(u, w, root, usable, slots, guards)
  {
    match move {
      case Scheduled(op) =>
        StepInv(s, op);
        StepBacked(s, v, op, u, w, root, usable, slots, guards);
      case FailedCreation(id) =>
        FailedBacked(s, v, id, w, root, usable, slots, guards);
      case Elsewhere =>
        BackedElsewhere(s, v, w, root, usable, slots, guards);
    }
  }

  ghost predicate IsStackRun(states: seq<State>, vms: seq<Vm>, moves: seq<Move>, root: nat, usable: set<nat>, slots: seq<seq<Path>>, guards: seq<Path>)
    requires |slots| == MAX_TASKS == |guards|
  {
    && |states| == |moves| + 1 == |vms|
    && forall i | 0 <= i < |moves| :: StackStep(states[i], vms[i], moves[i], states[i + 1], vms[i + 1], root, usable, slots, guards)
  }

  lemma {:induction false} RunBacked(states: seq<State>, vms: seq<Vm>, moves: seq<Move>, root: nat, usable: set<nat>,
                                     slots: seq<seq<Path>>, guards: seq<Path>, n: nat)
    requires Layout(slots, guards) && IsStackRun(states, vms, moves, root, usable, slots, guards) && n <= |moves|
    requires Inv(states[0]) && Backed(states[0], vms[0], root, usable, slots, guards)
    ensures Inv(states[n]) && Backed(states[n], vms[n], root, usable, slots, guards)
  {
    if n > 0 {
      RunBacked(states, vms, moves, root, usable, slots, guards, n - 1);
      MoveBacked(states[n - 1], vms[n - 1], moves[n - 1], states[n], vms[n], root, usable, slots, guards);
    }
  }

  /** In every state of every run from boot over an empty window: the four pages of an identifier are
      mapped exactly while a task holds it, to the frames that task records; a stack frame belongs to one
      page of one task, is not free and is no table; and no guard page is ever mapped. */
  lemma StacksInEveryRun(states: seq<State>, vms: seq<Vm>, moves: seq<Move>, start: nat, root: nat, usable: set<nat>,
                         slots: seq<seq<Path>>, guards: seq<Path>, n: nat)
    requires Layout(slots, guards) && IsStackRun(states, vms, moves, root, usable, slots, guards) && n <= |moves|
    requires states[0] == Boot(start) && Root(vms[0], root) && (forall m | m in usable :: m < FRAME_LIMIT)
    requires (forall i: nat | i < MAX_TASKS :: Unmapped(vms[0], root, slots[i])) && Unmapped(vms[0], root, guards)
    ensures |states[n].registry| == MAX_TASKS && Facts(states[n], vms[n], root, usable, slots, guards)
  {
    BootInv(start);
    RunBacked(states, vms, moves, root, usable, slots, guards, n);
    assert Open(BACKED);
  }

  // ---- page-table operations beside the stacks --------------------------------------------

  /** The address lies outside the stack window, also when only the translated bits are looked at. */
  predicate Away(start: nat, va: nat) {
    !(start % SEGMENT <= va % SEGMENT < start % SEGMENT + MAX_TASKS * SLOT_SIZE)
  }

  ghost predicate NoStackKey(slots: seq<seq<Path>>, guards: seq<Path>, k: Path) {
    && (forall i: nat, j: nat | i < |slots| && j < |slots[i]| :: slots[i][j] != k)
    && (forall i: nat | i < |guards| :: guards[i] != k)
  }

  lemma PageNumber(a: nat)
    ensures a / 0x1000 % 0x10_0000_0000 == a % SEGMENT / PAGE
  {
  }

  /** Window addresses keep their distance from the start when only the translated bits are looked at. */
  lemma Offset(start: nat, end: nat, a: nat)
    requires Window(start, end) && start <= a < start + MAX_TASKS * SLOT_SIZE
    ensures a % SEGMENT == start % SEGMENT + (a - start)
  {
    InSegment(start, end, a);
  }

  lemma OtherPage(x: nat, n: nat, a: nat, b: nat)
    requires x % PAGE == 0 && n % PAGE == 0 && x <= a < x + n && !(x <= b < x + n)
    ensures a / PAGE != b / PAGE
  {
  }

  lemma StartAligned(start: nat)
    requires start % PAGE == 0
    ensures start % SEGMENT % PAGE == 0
  {
  }

  lemma AwayKey(start: nat, end: nat, va: nat, a: nat)
    requires Window(start, end) && Away(start, va) && start <= a < start + MAX_TASKS * SLOT_SIZE
    ensures KeyOf(va) != KeyOf(a)
  {
    assert a % SEGMENT / PAGE != va % SEGMENT / PAGE by {
      Offset(start, end, a);
      StartAligned(start);
      OtherPage(start % SEGMENT, MAX_TASKS * SLOT_SIZE, a % SEGMENT, va % SEGMENT);
    }
    PageNumber(va);
    PageNumber(a);
    KeyBits(va, a);
  }

  lemma AwayFromStacks(slots: seq<seq<Path>>, guards: seq<Path>, start: nat, end: nat, va: nat)
    requires Window(start, end) && LayoutOf(slots, guards, start) && Away(start, va)
    ensures NoStackKey(slots, guards, KeyOf(va))
  {
    assert Open(LAYOUT);
    forall i: nat, j: nat | i < |slots| && j < |slots[i]| ensures slots[i][j] != KeyOf(va) {
      StackInWindow(start, end, i + 1);
      KeyAt(slots[i], StackBase(start, i + 1), j);
      AwayKey(start, end, va, StackBase(start, i + 1) + j * PAGE);
    }
    forall i: nat | i < |guards| ensures guards[i] != KeyOf(va) {
      AwayKey(start, end, va, start + i * SLOT_SIZE);
    }
  }

  /** One key that is no stack key, or one of another address space, is mapped or unmapped. */
  lemma OneKeyElsewhere(s: State, v: Vm, w: Vm, root: nat, r: nat, k: Path, page: Walked, slots: seq<seq<Path>>, guards: seq<Path>)
    requires |slots| == MAX_TASKS == |guards| && Root(v, root) && WalksChanged(v, w, r, k, page) && OnlyTaken(v, w)
    requires r == root ==> NoStackKey(slots, guards, k)
    ensures StacksLeftAlone(s, v, w, root, slots, guards)
  {
  }

  /** Nothing is translated differently. */
  lemma NoneElsewhere(s: State, v: Vm, w: Vm, root: nat, slots: seq<seq<Path>>, guards: seq<Path>)
    requires |slots| == MAX_TASKS == |guards| && Root(v, root) && SameWalks(v, w) && OnlyTaken(v, w)
    ensures StacksLeftAlone(s, v, w, root, slots, guards)
  {
  }

  /** Another address space is destroyed. */
  lemma SpaceElsewhere(s: State, v: Vm, w: Vm, root: nat, r: nat, slots: seq<seq<Path>>, guards: seq<Path>)
    requires |slots| == MAX_TASKS == |guards| && Root(v, root) && OnlyOwnerGone(v, w, r) && r != root
    ensures StacksLeftAlone(s, v, w, root, slots, guards)
  {
  }

  /** The kernel root has an entry for every stack address. */
  ghost predicate Covered(v: Vm, root: nat, slots: seq<seq<Path>>, guards: seq<Path>) {
    && root in v.mem
    && (forall i: nat, j: nat | i < |slots| && j < |slots[i]| :: v.mem[root][slots[i][j].pml4].present)
    && (forall i: nat | i < |guards| :: v.mem[root][guards[i].pml4].present)
  }

  /** The kernel root is prepared when it already has the entries above all stack addresses. */
  lemma PreparedElsewhere(s: State, v: Vm, w: Vm, root: nat, sr: nat, slots: seq<seq<Path>>, guards: seq<Path>)
    requires |slots| == MAX_TASKS == |guards| && Root(v, root) && PreparedWalks(v, w, root, sr) && OnlyTaken(v, w)
    requires Covered(v, root, slots, guards)
    ensures StacksLeftAlone(s, v, w, root, slots, guards)
  {
  }

  /** The window lies below at most two entries of the kernel root. */
  lemma TwoEntries(start: nat, end: nat, a: nat)
    requires Window(start, end) && start <= a < start + MAX_TASKS * SLOT_SIZE
    ensures KeyOf(a).pml4 == KeyOf(start).pml4 || KeyOf(a).pml4 == KeyOf(start + MAX_TASKS * SLOT_SIZE - 1).pml4
  {
    var n, last := 0x80_0000_0000, start + MAX_TASKS * SLOT_SIZE - 1;
    assert start / n <= a / n <= last / n <= start / n + 1;
  }

  lemma CoveredWindow(v: Vm, root: nat, slots: seq<seq<Path>>, guards: seq<Path>, start: nat, end: nat)
    requires Window(start, end) && LayoutOf(slots, guards, start) && root in v.mem
    requires v.mem[root][KeyOf(start).pml4].present && v.mem[root][KeyOf(start + MAX_TASKS * SLOT_SIZE - 1).pml4].present
    ensures Covered(v, root, slots, guards)
  {
    assert Open(LAYOUT);
    forall i: nat, j: nat | i < |slots| && j < |slots[i]| ensures v.mem[root][slots[i][j].pml4].present {
      StackInWindow(start, end, i + 1);
      KeyAt(slots[i], StackBase(start, i + 1), j);
      TwoEntries(start, end, StackBase(start, i + 1) + j * PAGE);
    }
    forall i: nat | i < |guards| ensures v.mem[root][guards[i].pml4].present {
      TwoEntries(start, end, start + i * SLOT_SIZE);
    }
  }
}
