/** The kernel's tasks, scheduler, processes and their creation and reclamation as one object that is
    updated in place (kernel/sched, kernel/process, kernel/execution, kernel/lifecycle,
    kernel/arch/x86_64/sched). */
module Kernels {
  import opened Frames
  import opened Guard
  import opened Paging
  import opened Rings
  import opened VirtualMemory
  import opened Tasks
  import opened Owners
  import opened Runs
  import opened Moves
  import opened Theorems
  import opened Stacks
  import opened Backing
  import opened StackRuns

  const OWNED: int := -8

  ghost predicate Owned(s: State) {
    forall n {:trigger Open(n)} :: Open(n) && n == OWNED ==> Inv(s)
  }

  /** What the scheduler relies on about the running task. */
  lemma CurrentFacts(s: State)
    requires Owned(s) && s.current != 0
    ensures Known(s, s.current) && s.tasks[s.current].state == Running && s.tasks[s.current].waitQueue == 0
    ensures s.current !in s.rq && |s.rq| < MAX_TASKS && s.current !in s.pending && |s.pending| < MAX_TASKS
    ensures forall w | w in s.waits :: s.current !in s.waits[w] && |s.waits[w]| < MAX_TASKS
  {
    assert Open(OWNED);
    assert Placed(s, s.current);
    forall w | w in s.waits ensures s.current !in s.waits[w] && |s.waits[w]| < MAX_TASKS {
      assert QueueOk(s, s.waits[w], Blocked, w);
      NeverFull(s, s.current, w);
    }
    NeverFull(s, s.current, 0);
  }

  /** The task to run next, if there is one, is ready and resumable from where it gave up the CPU. */
  ghost predicate HeadOk(s: State) {
    s.rq != [] ==>
      && s.rq[0] != 0 && s.rq[0] != s.current && s.rq[0] in s.tasks && s.tasks[s.rq[0]].state == Ready
      && s.rq[0] in s.saved && Resolve(s.tasks[s.rq[0]], s.frames) == Some(s.saved[s.rq[0]])
  }

  lemma HeadFacts(s: State)
    requires Owned(s)
    ensures HeadOk(s)
  {
    assert Open(OWNED);
    if s.rq != [] { assert Known(s, s.rq[0]) && Resumes(s, s.rq[0]); }
  }

  lemma BlockedFacts(s: State, t: nat)
    requires Owned(s) && Known(s, t) && s.tasks[t].state == Blocked
    ensures var w := s.tasks[t].waitQueue; w != 0 && w in s.waits && t in s.waits[w]
    ensures t !in s.rq && |s.rq| < MAX_TASKS
  {
    assert Open(OWNED);
    assert Placed(s, t);
    NeverFull(s, t, 0);
  }

  /** Only registered tasks are in wait queues. */
  lemma UnknownFacts(s: State, t: nat)
    requires Owned(s) && !Known(s, t)
    ensures forall w | w in s.waits :: t !in s.waits[w]
  {
    assert Open(OWNED);
    forall w | w in s.waits ensures t !in s.waits[w] { assert QueueOk(s, s.waits[w], Blocked, w); }
  }

  lemma EmptiedQueue(s: State, w: nat, u: State)
    requires Owned(s) && w != 0 && u == s.(waits := s.waits[w := []])
    ensures Owned(u) <==> w !in s.waits || s.waits[w] == []
  {
    assert Open(OWNED);
    if w !in s.waits || s.waits[w] == [] {
      NewQueueInv(s, w);
    } else {
      var t := s.waits[w][0];
      assert QueueOk(s, s.waits[w], Blocked, w) && t in s.waits[w];
      assert Known(u, t) && u.tasks[t].waitQueue == w && !Placed(u, t);
    }
  }

  lemma RunningFacts(s: State)
    requires Owned(s) && s.current != 0
    ensures s.current in s.tasks && s.tasks[s.current].managed && s.tasks[s.current].entry != 0
  {
    assert Open(OWNED);
    assert Open(STATIC);
    assert Sound(s, s.current);
  }

  /** Writing a process object that is not registered. */
  lemma ProcessObject(s: State, p: nat, x: Process, u: State)
    requires Inv(s) && p !in s.processes && u == s.(procs := s.procs[p := x])
    ensures Inv(u)
  {
    assert Open(STATIC);
    assert forall q {:trigger KnownProc(u, q)} :: KnownProc(u, q) <==> KnownProc(s, q);
    forall t | Known(u, t) ensures Sound(u, t) && Belongs(u, t) {
      assert Known(s, t);
      assert KnownProc(u, s.tasks[t].process);
    }
    forall q | KnownProc(u, q) ensures MembersOk(u, q) {
      forall t | t in u.procs[q].tasks ensures Known(u, t) && u.tasks[t].process == q {
        assert Known(s, t);
      }
    }
    OnlyProcesses(s, u);
  }

  lemma EmptyWindow(v: Vm, root: nat, slots: seq<seq<Path>>, guards: seq<Path>, start: nat, end: nat)
    requires Window(start, end) && LayoutOf(slots, guards, start)
    requires forall a: nat | start <= a < start + MAX_TASKS * SLOT_SIZE :: Walk(v.mem, root, PML4, KeyOf(a)) == NotMapped
    ensures forall i: nat | i < MAX_TASKS :: Unmapped(v, root, slots[i])
    ensures Unmapped(v, root, guards)
  {
    assert Open(LAYOUT);
    forall i: nat | i < MAX_TASKS ensures Unmapped(v, root, slots[i]) {
      var base := StackBase(start, i + 1);
      forall j: nat | j < PAGES ensures Walk(v.mem, root, PML4, slots[i][j]) == NotMapped {
        KeyAt(slots[i], base, j);
        assert start <= base + j * PAGE < start + MAX_TASKS * SLOT_SIZE;
      }
    }
    forall i: nat | i < MAX_TASKS ensures Walk(v.mem, root, PML4, guards[i]) == NotMapped {
      assert start <= start + i * SLOT_SIZE < start + MAX_TASKS * SLOT_SIZE;
    }
  }

  lemma LayoutKeys(slots: seq<seq<Path>>, guards: seq<Path>, start: nat, id: nat)
    requires LayoutOf(slots, guards, start) && 1 <= id <= MAX_TASKS
    ensures KeysOf(slots[id - 1], StackBase(start, id)) && Layout(slots, guards)
  {
    assert Open(LAYOUT);
  }

  /** A new task: ready to be resumed from its entry, on a stack of its own. */
  function FirstRun(start: nat, id: nat, space: nat, entry: nat, k: Cont, pages: seq<nat>): Task
    requires id > 0
  {
    var base := StackBase(start, id);
    Task(id, Ready, base, base + STACK_SIZE, pages, space, 0, entry, 0, Context, false, base + STACK_SIZE - 24 - FRAME_SIZE, true, k)
  }

  function Constructed(s: State, t: nat, x: Task, k: Cont): State {
    s.(tasks := s.tasks[t := x], frames := s.frames[x.frame := k])
  }

  /** What destruction relies on about a registered task. */
  lemma TaskFacts(s: State, v: Vm, root: nat, usable: set<nat>, slots: seq<seq<Path>>, guards: seq<Path>, t: nat)
    requires Owned(s) && Backed(s, v, root, usable, slots, guards) && LayoutOf(slots, guards, s.start) && Known(s, t)
    ensures var x := s.tasks[t];
            && 1 <= x.id <= MAX_TASKS && KeysOf(slots[x.id - 1], x.base) && Stacked(v, root, slots[x.id - 1], x.pages)
            && x.space == root && x.base != 0 && |x.pages| == PAGES
            && Matches(v, root, x.base, slots[x.id - 1], x.pages) && Guarded(v, root, slots[x.id - 1], usable)
            && KnownProc(s, x.process) && t in s.procs[x.process].tasks
    ensures (s.current == t <==> s.tasks[t].state == Running) && (s.tasks[t].state == Ready <==> t in s.rq)
    ensures (s.tasks[t].state == Terminated <==> t in s.pending) && Distinct(s.rq) && Distinct(s.pending)
    ensures s.tasks[t].state != Blocked ==> s.tasks[t].waitQueue == 0
    ensures s.tasks[t].state == Terminated ==> s.tasks[t].authority == NoResume
  {
    assert Open(OWNED);
    assert Placed(s, t) && Resumes(s, t);
    assert Sound(s, t) && Belongs(s, t) && |s.registry| == MAX_TASKS by { assert Open(STATIC); }
    LayoutKeys(slots, guards, s.start, s.tasks[t].id);
    assert HasStack(s, v, root, usable, slots, t) by { assert Open(BACKED); }
    SlotOfTask(v, root, usable, slots[s.tasks[t].id - 1], s.tasks[t].base, s.tasks[t].pages);
  }

  lemma SlotOfTask(v: Vm, root: nat, usable: set<nat>, keys: seq<Path>, base: nat, pages: seq<nat>)
    requires Stacked(v, root, keys, pages) && base % PAGE == 0 && forall f | f in pages :: f in usable && f !in v.tables && f !in v.free
    ensures Matches(v, root, base, keys, pages) && Guarded(v, root, keys, usable)
  {
    StackMatches(v, root, keys, base, pages);
    forall j: nat, f | Held(v, root, keys, j, f) ensures f in usable && f !in v.tables && f !in v.free {
      assert Held(v, root, keys, j, pages[j]);
    }
  }

  lemma PendingFacts(s: State)
    requires Owned(s) && s.pending != []
    ensures Known(s, s.pending[0]) && s.tasks[s.pending[0]].state == Terminated
  {
    assert Open(OWNED);
  }

  /** Once process and registry have given the task up, only its record is left to go. */
  lemma LastTrace(s: State, t: nat, i: nat, m: State, u: State)
    requires CanForget(s, t, i) && m == Forget(s, t, i).(pending := s.pending, tasks := s.tasks[t := s.tasks[t].(process := 0)])
    requires u == m.(tasks := m.tasks[t := Dead(m.tasks[t])])
    ensures u == Forget(s, t, i).(pending := s.pending)
  {
    Overwritten(s.tasks, t, s.tasks[t].(process := 0), Dead(s.tasks[t]));
  }

  /** A stack of the given new frames was mapped, and nothing else is translated differently. */
  ghost predicate StackBuilt(v: Vm, w: Vm, root: nat, keys: seq<Path>, pages: seq<nat>, usable: set<nat>) {
    && |pages| == PAGES == |keys|
    && forall n {:trigger Open(n)} :: Open(n) && n == CREATED ==> BuiltWalks(v, w, root, keys, pages) && BuiltFrames(v, w, pages, usable)
  }

  /** After a failed attempt: whatever the slot mapped is gone and given back, and so is what the attempt took. */
  ghost predicate StackTaken(v: Vm, w: Vm, root: nat, keys: seq<Path>, usable: set<nat>) {
    forall n {:trigger Open(n)} :: Open(n) && n == CREATED ==> Cleared(v, w, root, keys, PAGES) && GivenBack(v, w, root, keys, usable)
  }

  /** A stack was unmapped, nothing else is translated differently, and exactly its frames became free. */
  ghost predicate StackReturned(v: Vm, w: Vm, root: nat, keys: seq<Path>, usable: set<nat>) {
    forall n {:trigger Open(n)} :: Open(n) && n == CREATED ==> Cleared(v, w, root, keys, PAGES) && Freed(v, w, root, keys, PAGES, usable)
  }

  /** The invariant after a task is gone. */
  lemma Forgotten(s: State, t: nat, i: nat, u: State, v: Vm, w: Vm, root: nat, usable: set<nat>, slots: seq<seq<Path>>, guards: seq<Path>)
    requires Owned(s) && CanForget(s, t, i) && u == Forget(s, t, i)
    requires Backed(s, v, root, usable, slots, guards) && LayoutOf(slots, guards, s.start)
    requires StackReturned(v, w, root, slots[s.tasks[t].id - 1], usable)
    ensures Owned(u) && Backed(u, w, root, usable, slots, guards)
  {
    assert Open(CREATED);
    assert RegistryOk(s) by { assert Open(OWNED); assert Open(STATIC); }
    LayoutKeys(slots, guards, s.start, s.tasks[t].id);
    BackedForget(s, t, i, u, v, w, root, usable, slots, guards);
    assert Open(OWNED);
    ForgetInv(s, t, i, u);
  }

  lemma EndedNotReady(s: State)
    requires Owned(s) && s.pending != []
    ensures s.pending[0] !in s.rq
  {
    assert Open(OWNED);
  }

  lemma GoneFrom(s: State, t: nat, i: nat, u: State)
    requires Owned(s) && CanForget(s, t, i) && u == Forget(s, t, i)
    ensures Departed(s, u, t)
  {
    assert Open(OWNED);
    ForgetDeparts(s, t, i, u);
  }

  /** Writing a task object that is not registered. */
  lemma TaskObject(s: State, t: nat, x: Task, u: State)
    requires Owned(s) && t !in s.registry && u == s.(tasks := s.tasks[t := x])
    ensures Owned(u) && SameStacks(s, u)
  {
    assert Open(OWNED);
    UnregisteredKnown(s, t, x, u);
    UnregisteredStatic(s, t, x, u);
    UnregisteredQueue(s, t, x, u, s.rq, Ready, 0);
    UnregisteredQueue(s, t, x, u, s.pending, Terminated, 0);
    forall w | w in u.waits ensures w != 0 && QueueOk(u, u.waits[w], Blocked, w) {
      UnregisteredQueue(s, t, x, u, s.waits[w], Blocked, w);
    }
    forall r | Known(u, r) ensures Placed(u, r) && Resumes(u, r) {
      PlacedElsewhere(s, u, r);
    }
  }

  lemma UnregisteredKnown(s: State, t: nat, x: Task, u: State)
    requires Static(s) && t !in s.registry && u == s.(tasks := s.tasks[t := x])
    ensures forall r {:trigger Known(u, r)} :: Known(u, r) <==> Known(s, r) && r != t
    ensures !Known(s, t)
  {
    assert Open(STATIC);
  }

  lemma UnregisteredQueue(s: State, t: nat, x: Task, u: State, q: seq<nat>, state: TaskState, owner: nat)
    requires t !in s.registry && u == s.(tasks := s.tasks[t := x]) && QueueOk(s, q, state, owner)
    requires forall r {:trigger Known(u, r)} :: Known(u, r) <==> Known(s, r) && r != t
    ensures QueueOk(u, q, state, owner)
  {
    forall r | r in q ensures Known(u, r) && u.tasks[r].state == state && u.tasks[r].waitQueue == owner {
      assert Known(s, r);
    }
  }

  lemma UnregisteredStatic(s: State, t: nat, x: Task, u: State)
    requires Static(s) && t !in s.registry && u == s.(tasks := s.tasks[t := x])
    requires forall r {:trigger Known(u, r)} :: Known(u, r) <==> Known(s, r) && r != t
    ensures Static(u)
  {
    assert Open(STATIC);
    assert !Known(s, t);
    assert forall p {:trigger KnownProc(u, p)} :: KnownProc(u, p) <==> KnownProc(s, p);
    forall r | Known(u, r) ensures Sound(u, r) && Belongs(u, r) {
      assert Known(s, r);
    }
    forall p | KnownProc(u, p) ensures MembersOk(u, p) {
      assert KnownProc(s, p);
      forall r | r in u.procs[p].tasks ensures Known(u, r) && u.tasks[r].process == p {
        assert Known(s, r);
      }
    }
  }

  // ---- what creation does -----------------------------------------------------------------

  const CREATED: int := -11

  function Published(x: Task, p: nat): Task { x.(process := p, managed := true) }

  ghost predicate Unused(s: State, tid: nat) { 1 <= tid <= |s.registry| ==> s.registry[tid - 1] == 0 }

  /** The task is registered, a member of its process, last in the runqueue, and will first run at its entry. */
  ghost predicate Admitted(s: State, u: State, p: nat, t: nat, tid: nat, space: nat, entry: nat, k: Cont) {
    forall n {:trigger Open(n)} :: Open(n) && n == CREATED ==>
      && 1 <= tid <= |s.registry| && t in u.tasks
      && var x := Published(FirstRun(s.start, tid, space, entry, k, u.tasks[t].pages), p);
         CanAdmit(s, t, x, s.frames[x.frame := k]) && u == Admit(s, t, x, s.frames[x.frame := k])
  }

  lemma AdmittedPlain(s: State, u: State, p: nat, t: nat, tid: nat, space: nat, entry: nat, k: Cont)
    requires Admitted(s, u, p, t, tid, space, entry, k)
    ensures t in u.tasks && 1 <= tid <= |s.registry| && p in s.procs
    ensures var x := u.tasks[t];
            && x.id == tid && x.entry == entry && x.space == space && x.process == p && x.context == k && x.state == Ready
            && x.authority == Context && x.waitQueue == 0 && x.base == s.start + 4096 + (tid - 1) * 20480 && x.top == x.base + 16384
    ensures u.registry == s.registry[tid - 1 := t] && u.rq == s.rq + [t] && u.tasks == s.tasks[t := u.tasks[t]]
    ensures u.procs == s.procs[p := s.procs[p].(tasks := s.procs[p].tasks + [t])]
    ensures u.processes == s.processes && u.waits == s.waits && u.pending == s.pending && u.current == s.current
  {
    assert Open(CREATED);
    var x := Published(FirstRun(s.start, tid, space, entry, k, u.tasks[t].pages), p);
    AdmitPlain(s, t, x, s.frames[x.frame := k], u);
  }

  lemma FirstMember(procs: map<nat, Process>, p: nat, x: Process, t: nat)
    requires x.tasks == []
    ensures procs[p := x][p := x.(tasks := x.tasks + [t])] == procs[p := x.(tasks := [t])]
  {
    assert x.tasks + [t] == [t];
  }

  ghost predicate Built(v: Vm, w: Vm, root: nat, usable: set<nat>, slots: seq<seq<Path>>, u: State, t: nat) {
    forall n {:trigger Open(n)} :: Open(n) && n == CREATED ==>
      t in u.tasks && 1 <= u.tasks[t].id <= |slots| && StackBuilt(v, w, root, slots[u.tasks[t].id - 1], u.tasks[t].pages, usable)
  }

  /** The pages of a stack whose first n have been released. */
  function Zeroed(pages: seq<nat>, n: nat): (r: seq<nat>)
    requires n <= |pages|
    ensures |r| == |pages| && forall j | 0 <= j < |r| :: r[j] == if j < n then 0 else pages[j]
  {
    seq(n, _ => 0) + pages[n..]
  }

  ghost predicate OnlyObject(s: State, u: State, t: nat) {
    u == s || (t != 0 && t in u.tasks && u == s.(tasks := s.tasks[t := u.tasks[t]]))
  }

  /** Every translation is as before, and every frame is free again unless it became a table. */
  ghost predicate NothingKept(v: Vm, w: Vm) {
    forall n {:trigger Open(n)} :: Open(n) && n == CREATED ==>
      && SameWalks(v, w)
      && (forall f | f in w.free :: f in v.free)
      && (forall f | f in v.free :: f in w.free || f in w.tables)
  }

  /** There are frames and records for the stack of an identifier. */
  ghost predicate Roomy(v: Vm, root: nat, slots: seq<seq<Path>>, id: nat) { 1 <= id <= |slots| && StackRoom(v, root, slots[id - 1]) }

  lemma NewFacts(s: State, id: nat, p: nat, t: nat)
    requires Owned(s) && 1 <= id <= |s.registry| && s.registry[id - 1] == 0 && KnownProc(s, p) && t !in s.registry
    ensures |s.rq| < MAX_TASKS && |s.procs[p].tasks| < MAX_TASKS && s.procs[p].state == Live
    ensures |s.registry| == MAX_TASKS && t !in s.rq && t !in s.procs[p].tasks
  {
    assert Open(OWNED);
    RoomForNew(s, id, p);
    assert MembersOk(s, p) && |s.registry| == MAX_TASKS by { assert Open(STATIC); }
    assert !Known(s, t);
  }

  /** A stack was mapped, so the identifier's slot was empty, so nobody had the identifier. */
  lemma Vacated(s: State, v: Vm, w: Vm, root: nat, usable: set<nat>, slots: seq<seq<Path>>, guards: seq<Path>, id: nat, pages: seq<nat>)
    requires Owned(s) && Backed(s, v, root, usable, slots, guards) && 1 <= id <= MAX_TASKS
    requires StackBuilt(v, w, root, slots[id - 1], pages, usable)
    ensures s.registry[id - 1] == 0
  {
    assert Open(CREATED);
    assert Static(s) by { assert Open(OWNED); }
    SlotFacts(s, v, root, usable, slots, guards, id);
    assert Vacant(v, root, slots[id - 1]);
  }

  /** The task that has the identifier has lost its stack: nothing is mapped in its slot, its frames are free,
      and nothing else is translated differently. */
  ghost predicate Robbed(s: State, v: Vm, w: Vm, root: nat, slots: seq<seq<Path>>, id: nat) {
    forall n {:trigger Open(n)} :: Open(n) && n == CREATED ==>
      && 1 <= id <= |s.registry| && id <= |slots| && s.registry[id - 1] != 0 && s.registry[id - 1] in s.tasks
      && Cleared(v, w, root, slots[id - 1], PAGES) && Unmapped(w, root, slots[id - 1]) && !SameWalks(v, w)
      && forall f | f in s.tasks[s.registry[id - 1]].pages :: f in w.free
  }

  lemma LosesStack(s: State, v: Vm, w: Vm, root: nat, usable: set<nat>, slots: seq<seq<Path>>, guards: seq<Path>, id: nat)
    requires Static(s) && Backed(s, v, root, usable, slots, guards) && LayoutOf(slots, guards, s.start)
    requires 1 <= id <= MAX_TASKS && s.registry[id - 1] != 0
    requires Cleared(v, w, root, slots[id - 1], PAGES) && GivenBack(v, w, root, slots[id - 1], usable)
    ensures Robbed(s, v, w, root, slots, id)
  {
    LayoutKeys(slots, guards, s.start, id);
    FailedCreate(s, v, w, root, usable, slots, guards, id);
    var r, keys := s.registry[id - 1], slots[id - 1];
    assert Known(s, r) && s.tasks[r].id == id by { assert Open(STATIC); }
    assert HasStack(s, v, root, usable, slots, r) by { assert Open(BACKED); }
    SlotEmptied(v, w, root, keys, s.tasks[r].pages);
    forall f | f in s.tasks[r].pages ensures f in w.free {
      var j: nat :| j < PAGES && s.tasks[r].pages[j] == f;
      assert Held(v, root, keys, j, f);
    }
  }

  /** With a task's stack gone the invariant of stacks is gone, whatever else was written. */
  lemma NotBacked(s: State, u: State, v: Vm, w: Vm, root: nat, usable: set<nat>, slots: seq<seq<Path>>, guards: seq<Path>, id: nat)
    requires Robbed(s, v, w, root, slots, id) && RegistryOk(s) && u.registry == s.registry
    requires forall r | r in s.registry && r in s.tasks :: r in u.tasks && u.tasks[r] == s.tasks[r]
    ensures !Backed(u, w, root, usable, slots, guards)
  {
    assert Open(CREATED);
    var r := s.registry[id - 1];
    assert r in s.registry;
    NoStack(w, root, slots[id - 1], u.tasks[r].pages);
    assert Known(u, r) && (|u.registry| == MAX_TASKS == |slots| ==> !HasStack(u, w, root, usable, slots, r));
    if Backed(u, w, root, usable, slots, guards) {
      assert Open(BACKED);
    }
  }

  lemma NoStack(w: Vm, root: nat, keys: seq<Path>, pages: seq<nat>)
    requires Unmapped(w, root, keys)
    ensures !Stacked(w, root, keys, pages)
  {
    assert 0 < |keys| && 0 < |pages| ==> !Held(w, root, keys, 0, pages[0]);
  }

  lemma OthersUntouched(s: State, u: State, t: nat, p: nat)
    requires OnlyObjects(s, u, t, p) && t !in s.registry
    ensures u.registry == s.registry && forall r | r in s.registry && r in s.tasks :: r in u.tasks && u.tasks[r] == s.tasks[r]
  {
  }

  lemma AfterFailure(s: State, u: State, v: Vm, w: Vm, root: nat, usable: set<nat>, slots: seq<seq<Path>>, guards: seq<Path>, t: nat, id: nat)
    requires Owned(s) && Backed(s, v, root, usable, slots, guards) && LayoutOf(slots, guards, s.start)
    requires t !in s.registry && OnlyObject(s, u, t)
    requires if 1 <= id <= MAX_TASKS then StackTaken(v, w, root, slots[id - 1], usable) else w == v
    ensures Owned(u)
    ensures Unused(s, id) ==> Backed(u, w, root, usable, slots, guards) && NothingKept(v, w)
    ensures !Unused(s, id) ==> Robbed(s, v, w, root, slots, id) && !Backed(u, w, root, usable, slots, guards)
  {
    assert Open(CREATED);
    assert Static(s) by { assert Open(OWNED); }
    if 1 <= id <= MAX_TASKS {
      LayoutKeys(slots, guards, s.start, id);
      SlotFacts(s, v, root, usable, slots, guards, id);
      FailedCreate(s, v, w, root, usable, slots, guards, id);
    }
    if !Unused(s, id) {
      LosesStack(s, v, w, root, usable, slots, guards, id);
      assert RegistryOk(s) by { assert Open(STATIC); }
      NotBacked(s, u, v, w, root, usable, slots, guards, id);
    }
    if u != s { TaskObject(s, t, u.tasks[t], u); }
    if Unused(s, id) {
      if 1 <= id <= MAX_TASKS {
        BackedAfterFailure(s, v, w, root, usable, slots, guards, slots[id - 1]);
      }
      if u != s { BackedKept(s, u, w, root, usable, slots, guards); }
    }
  }

  lemma FramePushed(s: State, f: nat, k: Cont)
    requires Owned(s) && if s.current != 0 then s.current in s.tasks && s.tasks[s.current].base <= f < s.tasks[s.current].top else OffStacks(s, f)
    ensures Owned(s.(frames := s.frames[f := k]))
  {
    assert Open(OWNED);
    if s.current != 0 { WorkInv(s, s.frames[f := k]); } else { IdleInv(s, f, k); }
  }

  /** The invariant after a task has come. */
  lemma Joined(s: State, t: nat, x: Task, frames: map<nat, Cont>, u: State, v: Vm, w: Vm, root: nat, usable: set<nat>, slots: seq<seq<Path>>, guards: seq<Path>)
    requires Owned(s) && CanAdmit(s, t, x, frames) && u == Admit(s, t, x, frames) && x.space == root
    requires Backed(s, v, root, usable, slots, guards) && LayoutOf(slots, guards, s.start)
    requires StackBuilt(v, w, root, slots[x.id - 1], x.pages, usable)
    ensures Owned(u) && Backed(u, w, root, usable, slots, guards)
  {
    assert Open(CREATED);
    assert RegistryOk(s) by { assert Open(OWNED); assert Open(STATIC); }
    LayoutKeys(slots, guards, s.start, x.id);
    BackedAdmit(s, t, x, frames, u, v, w, root, usable, slots, guards);
    assert Open(OWNED);
    AdmitInv(s, t, x, frames, u);
  }

  lemma BuiltFor(s: State, t: nat, x: Task, frames: map<nat, Cont>, u: State, v: Vm, w: Vm, root: nat, usable: set<nat>, slots: seq<seq<Path>>)
    requires 1 <= x.id <= |s.registry| && x.process in s.procs && u == Admit(s, t, x, frames) && x.id <= |slots|
    requires StackBuilt(v, w, root, slots[x.id - 1], x.pages, usable)
    ensures Built(v, w, root, usable, slots, u, t)
  {
  }

  /** Only the two given objects differ. */
  ghost predicate OnlyObjects(s: State, u: State, t: nat, p: nat) {
    u == s.(tasks := if t in u.tasks then s.tasks[t := u.tasks[t]] else s.tasks,
            procs := if p in u.procs then s.procs[p := u.procs[p]] else s.procs)
  }

  lemma Unwritten(s: State, t: nat, p: nat)
    ensures OnlyObjects(s, s, t, p)
  {
    assert t in s.tasks ==> s.tasks[t := s.tasks[t]] == s.tasks;
    assert p in s.procs ==> s.procs[p := s.procs[p]] == s.procs;
  }

  lemma AddedProcess(s: State, p: nat, pid: nat, space: nat, u: State)
    requires Owned(s) && CanAdd(s, p, pid, space) && u == AddProcess(s, p, pid, space)
    ensures KnownProc(u, p) && u.procs[p] == Process(pid, Live, space, []) && u.processes[pid - 1 := 0] == s.processes
  {
  }

  /** Creating a process, failing to create its task and removing the process again. */
  lemma Undone(s0: State, s1: State, s2: State, s3: State, t: nat, p: nat, pid: nat, space: nat)
    requires Owned(s0) && CanAdd(s0, p, pid, space) && s1 == AddProcess(s0, p, pid, space)
    requires OnlyObject(s1, s2, t) && KnownProc(s2, p) && s3 == DropProcess(s2, p)
    ensures OnlyObjects(s0, s3, t, p)
  {
    assert s1.processes[pid - 1 := 0] == s0.processes;
    assert s3.procs == s0.procs[p := Process(0, Fresh, 0, [])];
    assert t in s0.tasks ==> s0.tasks[t := s0.tasks[t]] == s0.tasks;
  }

  lemma LiveFacts(s: State, t: nat)
    requires Owned(s) && Known(s, t)
    ensures KnownProc(s, s.tasks[t].process) && s.procs[s.tasks[t].process].state == Live
  {
    assert Open(OWNED);
    assert Open(STATIC);
    assert Belongs(s, t) && MembersOk(s, s.tasks[t].process);
  }

  /** A ready task is in no wait queue. */
  lemma WaitsNowhere(s: State, t: nat)
    requires Owned(s) && t in s.tasks && s.tasks[t].state == Ready
    ensures forall w | w in s.waits :: t !in s.waits[w]
  {
    assert Open(OWNED);
    forall w | w in s.waits ensures t !in s.waits[w] { assert QueueOk(s, s.waits[w], Blocked, w); }
  }

  lemma ProcessLive(s: State, p: nat)
    requires Owned(s) && KnownProc(s, p)
    ensures s.procs[p].state == Live && s.procs[p].space != 0 && |s.registry| == MAX_TASKS
  {
    assert Open(OWNED);
    assert Open(STATIC);
    assert MembersOk(s, p);
  }

  // ---- the orders in which the code writes records ----------------------------------------

  lemma Overwritten(m: map<nat, Task>, c: nat, x: Task, x': Task)
    ensures m[c := x][c := x'] == m[c := x']
  {
  }

  lemma YieldWrites(m: map<nat, Task>, c: nat, x: Task, n: nat, y: Task, x': Task, x'': Task)
    requires c != n
    ensures m[c := x][n := y][c := x'][c := x''] == m[c := x''][n := y]
  {
  }

  lemma BlockWrites(m: map<nat, Task>, c: nat, x: Task, x': Task, x'': Task, n: nat, y: Task, z: Task)
    requires c != n
    ensures m[c := x][c := x'][c := x''][n := y][c := z] == m[c := z][n := y]
  {
  }

  lemma ExitWrites(m: map<nat, Task>, c: nat, x: Task, x': Task, n: nat, y: Task, z: Task)
    requires c != n
    ensures m[c := x][c := x'][n := y][c := z] == m[c := z][n := y]
  {
  }

  lemma PreemptWrites(m: map<nat, Task>, c: nat, x: Task, x': Task, n: nat, y: Task)
    ensures m[c := x][c := x'][n := y] == m[c := x'][n := y]
  {
  }

  /** The running task, in whatever state, hands the CPU to the head of the runqueue. */
  function Switched(s: State, k: Cont): State
    requires CanSwitch(s)
  {
    var c, n := s.current, s.rq[0];
    s.(tasks := s.tasks[n := s.tasks[n].(state := Running)][c := s.tasks[c].(context := k)], rq := s.rq[1..], current := n)
  }

  /** The kernel's variables: the scheduler's state, with the history `saved` that no code reads,
      and the CPU's flags. */
  class Kernel {
    const vm: Vmm
    const end: nat
    ghost const slots: seq<seq<Path>>
    ghost const guards: seq<Path>
    var s: State
    var registered: nat
    var processCount: nat
    var dispatches: nat

    var irq: bool
    var preemption: bool
    var halted: bool

    /** The continuation the CPU was last sent to. */
    var cpu: Cont

    /** The whole invariant: one owner per task, exact counters, and exactly the registered tasks'
        stacks mapped. */
    ghost predicate Valid()
      reads this, vm, vm.pmm, vm.pmm.bitmap
    {
      && Owned(s) && Counted() && Window(s.start, end) && LayoutOf(slots, guards, s.start)
      && vm.Valid() && Backed(s, vm.v, vm.kernelRoot, vm.usable, slots, guards)
    }

    /** After the kernel address space exists, with nothing mapped in the stack window. */
    constructor (vm: Vmm, start: nat, end: nat)
      requires vm.Valid() && Root(vm.v, vm.kernelRoot) && Window(start, end)
      requires forall m | m in vm.usable :: m < FRAME_LIMIT
      requires forall a: nat | start <= a < start + MAX_TASKS * SLOT_SIZE :: Walk(vm.v.mem, vm.kernelRoot, PML4, KeyOf(a)) == NotMapped
      ensures Valid() && s == Boot(start) && this.vm == vm && !halted
    {
      this.vm := vm;
      this.end := end;
      slots, guards := SlotsOf(start, end), GuardsOf(start);
      var none := seq(MAX_TASKS, _ => 0);
      s := State(start, map[], map[], none, none, [], [], map[], 0, map[], map[]);
      registered, processCount, dispatches := 0, 0, 0;
      irq, preemption, halted, cpu := false, false, false, 0;
      OccupiedNone(none);
      new;
      LayoutExists(start, end);
      assert Owned(s) by { BootInv(start); }
      EmptyWindow(vm.v, vm.kernelRoot, slots, guards, start, end);
    }

    /** A step of the scheduler keeps the whole invariant: it changes no stack. */
    lemma StillValid(s0: State, op: Op)
      requires Owned(s0) && Enabled(s0, op) && !op.Create? && !op.Remove? && s == Next(s0, op) && Owned(s) && Counted()
      requires Window(s0.start, end) && LayoutOf(slots, guards, s0.start) && vm.Valid()
      requires Backed(s0, vm.v, vm.kernelRoot, vm.usable, slots, guards)
      ensures Valid()
    {
      assert Inv(s0) by { assert Open(OWNED); }
      SchedulingKeepsStacks(s0, op, vm.v, vm.kernelRoot, vm.usable, slots, guards);
      SameStart(s0, op);
    }

    // ---- runqueue and task state --------------------------------------------------------

    method SetTask(t: nat, x: Task)
      modifies `s
      ensures s == old(s).(tasks := old(s).tasks[t := x])
    {
      s := s.(tasks := s.tasks[t := x]);
    }

    method Transition(t: nat, to: TaskState) returns (code: int)
      requires t == 0 || t in s.tasks
      modifies `s
      ensures code == 0 || code == -1
      ensures code == 0 <==> t != 0 && (old(s).tasks[t].state, to) in
                               {(New, Ready), (Ready, Running), (Running, Ready), (Running, Blocked), (Running, Sleeping),
                                (Running, Terminated), (Blocked, Ready), (Sleeping, Ready)}
      ensures code == 0 ==> s == old(s).(tasks := old(s).tasks[t := old(s).tasks[t].(state := to)])
      ensures code != 0 ==> s == old(s)
    {
      if t == 0 || !Follows(s.tasks[t].state, to) { return -1; }
      SetTask(t, s.tasks[t].(state := to));
      return 0;
    }

    method RunqueueEnqueue(t: nat) returns (code: int)
      requires t == 0 || t in s.tasks
      modifies `s
      ensures code == 0 || code == -1
      ensures code == 0 <==> t != 0 && old(s).tasks[t].state == Ready && |old(s).rq| < MAX_TASKS && t !in old(s).rq
      ensures code == 0 ==> s == old(s).(rq := old(s).rq + [t])
      ensures code != 0 ==> s == old(s)
    {
      if t == 0 || s.tasks[t].state != Ready || |s.rq| >= MAX_TASKS || t in s.rq { return -1; }
      s := s.(rq := s.rq + [t]);
      return 0;
    }

    method RunqueuePeek() returns (t: nat)
      ensures t == if s.rq == [] then 0 else s.rq[0]
    {
      return if s.rq == [] then 0 else s.rq[0];
    }

    method RunqueueDequeue() returns (t: nat)
      modifies `s
      ensures t == if old(s).rq == [] then 0 else old(s).rq[0]
      ensures s == old(s).(rq := if old(s).rq == [] then [] else old(s).rq[1..])
    {
      t := 0;
      if s.rq != [] {
        t := s.rq[0];
        s := s.(rq := s.rq[1..]);
      }
    }

    /** What a task is to be resumed from, as a typed target. */
    method ResolveTarget(t: nat) returns (code: int, target: Target)
      requires t == 0 || t in s.tasks
      ensures code == if t == 0 then -1 else if Resolve(s.tasks[t], s.frames).None? then -2 else 0
      ensures code == 0 ==> Lands(s, target) == Resolve(s.tasks[t], s.frames) && (target.ToContext? ==> target.task == t)
    {
      if t == 0 { return -1, Nowhere; }
      var x := s.tasks[t];
      if x.authority == Context { return 0, ToContext(t); }
      if x.authority == Interrupt && x.frameValid && x.frame != 0 { return 0, ToFrame(x.frame); }
      return -2, Nowhere;
    }

    /** Records the running task's own continuation and sends the CPU to the target, which must not be the
        running task's context. A target that leads nowhere is refused. */
    method Dispatch(c: nat, k: Cont, target: Target) returns (code: int)
      requires (c == 0 || c in s.tasks) && (target.ToContext? && target.task != 0 ==> target.task in s.tasks && target.task != c)
      modifies `s, `cpu, `irq
      ensures code == if c == 0 then -1 else if Lands(old(s), target).Some? then 0
                      else if target.ToContext? then -2 else if target.ToFrame? then -3 else -4
      ensures code == 0 ==> s == old(s).(tasks := old(s).tasks[c := old(s).tasks[c].(context := k)])
                            && cpu == Lands(old(s), target).value && irq
      ensures code != 0 ==> s == old(s) && cpu == old(cpu) && irq == old(irq)
    {
      if c == 0 { return -1; }
      match target {
        case ToContext(t) =>
          if t == 0 { return -2; }
          SetTask(c, s.tasks[c].(context := k));
          cpu, irq := s.tasks[t].context, true;
        case ToFrame(a) =>
          if a == 0 { return -3; }
          SetTask(c, s.tasks[c].(context := k));
          cpu, irq := FrameAt(s.frames, a), true;
        case Nowhere => return -4;
      }
      return 0;
    }

    // ---- scheduler ----------------------------------------------------------------------

    /** The running task goes to the end of the runqueue and the head becomes the running task. */
    method Rotate(c: nat, expected: nat) returns (code: int)
      requires c == s.current && c != 0 && c in s.tasks && s.tasks[c].state == Running && c !in s.rq && |s.rq| < MAX_TASKS
      requires s.rq != [] && HeadOk(s) && expected == s.rq[0]
      modifies `s, `dispatches
      ensures code == 0 && dispatches == old(dispatches) + 1
      ensures s == old(s).(tasks := old(s).tasks[c := old(s).tasks[c].(state := Ready)][expected := old(s).tasks[expected].(state := Running)],
                           rq := (old(s).rq + [c])[1..], current := expected)
    {
      code := Transition(c, Ready);
      if code != 0 { return; }
      code := RunqueueEnqueue(c);
      if code != 0 { return; }
      var next := RunqueueDequeue();
      if next == 0 { return; }
      if next != expected || s.tasks[next].state != Ready { return; }
      code := Transition(next, Running);
      if code != 0 { return; }
      s := s.(current := next);
      dispatches := dispatches + 1;
    }

    /** Gives the CPU to the head of the runqueue. Fails only for want of a ready or of a running
        task; every later failure is unreachable. */
    method Yield(k: Cont) returns (code: int)
      requires Owned(s)
      modifies `s, `dispatches, `irq, `cpu
      ensures Owned(s) && (old(Valid()) ==> Valid())
      ensures code == if old(s).current == 0 then -1 else if old(s).rq == [] then -3 else 0
      ensures code != 0 ==> unchanged(this)
      ensures code == 0 ==> CanSwitch(old(s)) && s == YieldTo(old(s), k) && dispatches == old(dispatches) + 1
      ensures code == 0 ==> s.current in old(s).saved && cpu == old(s).saved[s.current] && irq
      ensures code == 0 ==> HandedOver(old(s), s, old(s).tasks[old(s).current].(state := Ready, authority := Context, context := k))
                            && s.rq == old(s).rq[1..] + [old(s).current] && s.waits == old(s).waits && s.pending == old(s).pending
    {
      ghost var s0 := s;
      code := YieldCpu(k);
      if code == 0 {
        HeadFacts(s0);
        YieldPlain(s0, k, s);
        if old(Valid()) { StillValid(s0, Op.Yield(k)); }
      }
    }

    method YieldCpu(k: Cont) returns (code: int)
      requires Owned(s)
      modifies `s, `dispatches, `irq, `cpu
      ensures Owned(s)
      ensures code == if old(s).current == 0 then -1 else if old(s).rq == [] then -3 else 0
      ensures code != 0 ==> unchanged(this)
      ensures code == 0 ==> CanSwitch(old(s)) && s == YieldTo(old(s), k) && dispatches == old(dispatches) + 1
      ensures code == 0 ==> s.current in old(s).saved && cpu == old(s).saved[s.current] && irq
    {
      ghost var s0 := s;
      var c := s.current;
      if c == 0 { return -1; }
      CurrentFacts(s);
      code := -2;
      if s.tasks[c].state != Running { return; }
      var flags := irq;
      irq := false;
      HeadFacts(s);
      var next := RunqueuePeek();
      if next == 0 { irq := flags; return -3; }
      code := -4;
      if s.tasks[next].state != Ready { return; }
      var target;
      code, target := ResolveTarget(next);
      if code != 0 { return; }
      code := HandOver(c, next, k, target);
      if code != 0 { return; }
      assert Owned(s) by { assert Open(OWNED); YieldInv(s0, k); }
    }

    /** The commit of a yield. */
    method HandOver(c: nat, next: nat, k: Cont, target: Target) returns (code: int)
      requires c == s.current && c != 0 && c in s.tasks && s.tasks[c].state == Running && c !in s.rq && |s.rq| < MAX_TASKS
      requires s.rq != [] && HeadOk(s) && next == s.rq[0]
      requires Lands(s, target) == Some(s.saved[next]) && (target.ToContext? ==> target.task == next)
      modifies `s, `dispatches, `irq, `cpu
      ensures code == 0 && s == YieldTo(old(s), k) && dispatches == old(dispatches) + 1 && cpu == old(s).saved[next] && irq
    {
      ghost var s0 := s;
      code := Rotate(c, next);
      if code != 0 { return; }
      SetTask(c, s.tasks[c].(authority := Context));
      assert Lands(s, target) == Lands(s0, target);
      code := Dispatch(c, k, target);
      if code != 0 { return; }
      s := s.(saved := s.saved[c := k]);
      ghost var x := s0.tasks[c];
      YieldWrites(s0.tasks, c, x.(state := Ready), next, s0.tasks[next].(state := Running), x.(state := Ready, authority := Context), Suspended(x, k));
    }

    method Start() returns (code: int)
      requires Owned(s)
      modifies `s
      ensures Owned(s) && (old(Valid()) ==> Valid())
      ensures code == if old(s).current != 0 then -1 else if old(s).rq == [] then -2 else 0
      ensures code != 0 ==> s == old(s)
      ensures code == 0 ==> old(s).rq[0] in old(s).tasks && s == ToCpu(old(s)) && s.current == old(s).rq[0] && s.rq == old(s).rq[1..]
                            && s.tasks == old(s).tasks[s.current := old(s).tasks[s.current].(state := Running)]
    {
      code := StartFirst();
      if code == 0 && old(Valid()) { StillValid(old(s), Op.Start); }
    }

    method StartFirst() returns (code: int)
      requires Owned(s)
      modifies `s
      ensures Owned(s)
      ensures code == if old(s).current != 0 then -1 else if old(s).rq == [] then -2 else 0
      ensures code != 0 ==> s == old(s)
      ensures code == 0 ==> old(s).rq[0] in old(s).tasks && s == ToCpu(old(s))
    {
      if s.current != 0 { return -1; }
      HeadFacts(s);
      var next := RunqueuePeek();
      if next == 0 { return -2; }
      code := -3;
      if s.tasks[next].state != Ready { return; }
      next := RunqueueDequeue();
      if next == 0 { return; }
      code := Transition(next, Running);
      if code != 0 { return; }
      s := s.(current := next);
      assert Owned(s) by { assert Open(OWNED); ToCpuInv(old(s), s); }
    }

    method Add(t: nat) returns (code: int)
      requires t == 0 || t in s.tasks
      modifies `s
      ensures code == if t == 0 then -1 else if old(s).tasks[t].state != Ready then -2
                      else if |old(s).rq| < MAX_TASKS && t !in old(s).rq then 0 else -1
      ensures code == 0 ==> s == old(s).(rq := old(s).rq + [t])
      ensures code != 0 ==> s == old(s)
    {
      if t == 0 { return -1; }
      if s.tasks[t].state != Ready { return -2; }
      code := RunqueueEnqueue(t);
    }

    /** The generic half of preemption: only the candidate the timer has checked may run next. */
    method PreemptCurrent(expected: nat, k: Cont) returns (code: int, next: nat)
      requires Owned(s)
      modifies `s, `dispatches
      ensures code == if old(s).current == 0 then -2 else if old(s).rq == [] then 1
                      else if expected == old(s).rq[0] then 0 else -4
      ensures code != 0 ==> s == old(s) && dispatches == old(dispatches)
      ensures code == 1 ==> next == old(s).current
      ensures code == 0 ==> CanSwitch(old(s)) && next == expected && dispatches == old(dispatches) + 1
      ensures code == 0 ==> var c := old(s).current;
                            s == ToCpu(ToQueue(old(s), old(s).tasks[c].(state := Ready), old(s).frames, k))
    {
      code, next := -2, 0;
      var c := s.current;
      if c == 0 { return; }
      CurrentFacts(s);
      HeadFacts(s);
      code := -3;
      if s.tasks[c].state != Running { return; }
      var selected := RunqueuePeek();
      if selected == 0 { return 1, c; }
      if expected == 0 || selected != expected { return -4, 0; }
      code := -5;
      if s.tasks[selected].state != Ready { return; }
      code := Rotate(c, selected);
      if code != 0 { return; }
      next := selected;
      s := s.(saved := s.saved[c := k]);
    }

    /** The timer interrupt. The CPU has pushed the interrupted continuation k to a frame at f, on the
        stack of the running task, or outside all stacks if there is none. It returns to k, or to the
        continuation of the task that is preferred. */
    method HandleTimer(f: nat, k: Cont) returns (code: int)
      requires Owned(s)
      requires f != 0 && s.current != 0 ==> s.current in s.tasks && s.tasks[s.current].base <= f < s.tasks[s.current].top
      requires f != 0 && s.current == 0 ==> OffStacks(s, f)
      modifies `s, `dispatches, `cpu
      ensures Owned(s) && (old(Valid()) ==> Valid())
      ensures code == if f == 0 then -1 else 0
      ensures f == 0 ==> unchanged(this)
      ensures code == 0 && (!preemption || old(s).current == 0) ==> s == old(s).(frames := old(s).frames[f := k]) && cpu == k
      ensures code == 0 && preemption && old(s).current != 0 && old(s).rq == [] ==>
                old(s).current in old(s).tasks && s == Interrupted(old(s), f, k) && cpu == k
      ensures code == 0 && preemption && old(s).current != 0 && old(s).rq != [] ==>
                CanSwitch(old(s)) && s == PreemptTo(old(s), f, k) && s.current in old(s).saved && cpu == old(s).saved[s.current]
                && dispatches == old(dispatches) + 1
      ensures code == 0 && preemption && old(s).current != 0 && old(s).rq == [] ==>
                s.tasks == old(s).tasks[s.current := old(s).tasks[s.current].(authority := Interrupt, frame := f, frameValid := true)]
                && s == old(s).(tasks := s.tasks, frames := old(s).frames[f := k])
      ensures code == 0 && preemption && old(s).current != 0 && old(s).rq != [] ==>
                var x := old(s).tasks[old(s).current];
                && HandedOver(old(s), s, x.(state := Ready, authority := Interrupt, frame := f, frameValid := true))
                && s.rq == old(s).rq[1..] + [old(s).current] && s.frames == old(s).frames[f := k]
                && s.waits == old(s).waits && s.pending == old(s).pending
    {
      if f == 0 { return -1; }
      code := 0;
      ghost var s0 := s;
      if !preemption || s.current == 0 {
        PushFrame(f, k);
        return;
      }
      Preempt(f, k);
      HeadFacts(s0);
      if s0.rq != [] { PreemptPlain(s0, f, k, s); }
      if old(Valid()) { StillValid(s0, Tick(f, k)); }
    }

    /** Preemption off, or nothing to preempt: the interrupted code continues. */
    method PushFrame(f: nat, k: Cont)
      requires Owned(s) && f != 0
      requires s.current != 0 ==> s.current in s.tasks && s.tasks[s.current].base <= f < s.tasks[s.current].top
      requires s.current == 0 ==> OffStacks(s, f)
      modifies `s, `cpu
      ensures Owned(s) && (old(Valid()) ==> Valid()) && s == old(s).(frames := old(s).frames[f := k]) && cpu == k
    {
      ghost var s0 := s;
      s := s.(frames := s.frames[f := k]);
      cpu := k;
      FramePushed(s0, f, k);
      if old(Valid()) { StillValid(s0, if s.current != 0 then Work(s.frames) else Idle(f, k)); }
    }

    method Preempt(f: nat, k: Cont)
      requires Owned(s) && f != 0 && preemption && s.current != 0
      requires s.current in s.tasks && s.tasks[s.current].base <= f < s.tasks[s.current].top
      modifies `s, `dispatches, `cpu
      ensures Owned(s)
      ensures old(s).rq == [] ==> s == Interrupted(old(s), f, k) && cpu == k
      ensures old(s).rq != [] ==>
                CanSwitch(old(s)) && s == PreemptTo(old(s), f, k) && s.current in old(s).saved && cpu == old(s).saved[s.current]
                && dispatches == old(dispatches) + 1
    {
      ghost var s0 := s;
      s := s.(frames := s.frames[f := k]);
      cpu := k;
      CurrentFacts(s0);
      HeadFacts(s0);
      var c := s.current;
      SetTask(c, Framed(s.tasks[c], f));
      ghost var s1 := s;
      assert Owned(s1) by { assert Open(OWNED); OwnStack(s0, Framed(s0.tasks[c], f), s0.frames[f := k], s1); }
      var candidate := RunqueuePeek();
      if candidate == 0 { return; }
      HeadFacts(s1);
      var code, target := ResolveTarget(candidate);
      if code != 0 { return; }
      var result, next := PreemptCurrent(candidate, k);
      if result < 0 || next == 0 { return; }
      if next == c { return; }
      assert Lands(s, target) == Lands(s1, target);
      cpu := Lands(s, target).value;
      PreemptWrites(s0.tasks, c, Framed(s0.tasks[c], f), Framed(s0.tasks[c], f).(state := Ready), candidate, s0.tasks[candidate].(state := Running));
      assert Owned(s) by { assert Open(OWNED); PreemptInv(s0, f, k); }
    }

    // ---- wait queues --------------------------------------------------------------------

    /** Empties a wait queue object. The invariant holds afterwards exactly if nobody was waiting in it. */
    method WaitInit(w: nat) returns (code: int)
      requires Owned(s)
      modifies `s
      ensures code == if w == 0 then -1 else 0
      ensures s == if w == 0 then old(s) else old(s).(waits := old(s).waits[w := []])
      ensures Owned(s) <==> w == 0 || w !in old(s).waits || old(s).waits[w] == []
      ensures Owned(s) && old(Valid()) ==> Valid()
    {
      if w == 0 { return -1; }
      ghost var s0 := s;
      s := s.(waits := s.waits[w := []]);
      EmptiedQueue(s0, w, s);
      if Owned(s) && old(Valid()) { StillValid(s0, NewQueue(w)); }
      return 0;
    }

    // ---- blocking -----------------------------------------------------------------------

    method WaitEnqueue(w: nat, t: nat) returns (code: int)
      requires t == 0 || t in s.tasks
      modifies `s
      ensures code == 0 || code == -1
      ensures code == 0 <==> w in old(s).waits && t != 0 && old(s).tasks[t].state == Blocked && old(s).tasks[t].waitQueue == 0
                             && |old(s).waits[w]| < MAX_TASKS && t !in old(s).waits[w]
      ensures code == 0 ==> s == old(s).(waits := old(s).waits[w := old(s).waits[w] + [t]],
                                         tasks := old(s).tasks[t := old(s).tasks[t].(waitQueue := w)])
      ensures code != 0 ==> s == old(s)
    {
      if t == 0 || w !in s.waits { return -1; }
      if s.tasks[t].state != Blocked { return -1; }
      if |s.waits[w]| >= MAX_TASKS || t in s.waits[w] || s.tasks[t].waitQueue != 0 { return -1; }
      s := s.(waits := s.waits[w := s.waits[w] + [t]]);
      SetTask(t, s.tasks[t].(waitQueue := w));
      return 0;
    }

    method WaitRemove(w: nat, t: nat) returns (code: int)
      requires t == 0 || t in s.tasks
      modifies `s
      ensures code == 0 || code == -1
      ensures code == 0 <==> w in old(s).waits && t != 0 && t in old(s).waits[w]
      ensures code == 0 ==>
                s == old(s).(waits := old(s).waits[w := Without(old(s).waits[w], t)],
                             tasks := if old(s).tasks[t].waitQueue == w then old(s).tasks[t := old(s).tasks[t].(waitQueue := 0)]
                                      else old(s).tasks)
      ensures code != 0 ==> s == old(s)
    {
      if t == 0 || w !in s.waits || t !in s.waits[w] { return -1; }
      s := s.(waits := s.waits[w := Without(s.waits[w], t)]);
      if s.tasks[t].waitQueue == w { SetTask(t, s.tasks[t].(waitQueue := 0)); }
      return 0;
    }

    /** The CPU leaves a task that has given up its place, for the head of the runqueue. */
    method LeaveCpu(c: nat, k: Cont) returns (code: int)
      requires c == s.current && c != 0 && c in s.tasks && HeadOk(s) && s.rq != []
      modifies `s, `dispatches, `irq, `cpu
      ensures code == 0 && CanSwitch(old(s)) && s == Switched(old(s), k)
      ensures dispatches == old(dispatches) + 1 && cpu == old(s).saved[s.current] && irq
    {
      ghost var s0 := s;
      var next := RunqueuePeek();
      code := -5;
      if s.tasks[next].state != Ready { return; }
      var target;
      code, target := ResolveTarget(next);
      if code != 0 { return; }
      next := RunqueueDequeue();
      if next == 0 { return; }
      code := Transition(next, Running);
      if code != 0 { return; }
      s := s.(current := next);
      dispatches := dispatches + 1;
      assert Lands(s, target) == Lands(s0, target);
      code := Dispatch(c, k, target);
    }

    method BlockCurrent(t: nat, k: Cont) returns (code: int)
      requires s.current != 0 ==> s.current in s.tasks
      requires HeadOk(s)
      modifies `s, `dispatches, `irq, `cpu
      ensures code == if t == 0 || t != old(s).current then -1 else if old(s).tasks[t].state != Blocked then -2
                      else if old(irq) then -3 else if old(s).rq == [] then -4 else 0
      ensures code != 0 ==> unchanged(this)
      ensures code == 0 ==> CanSwitch(old(s)) && s == Switched(old(s), k)
      ensures code == 0 ==> dispatches == old(dispatches) + 1 && cpu == old(s).saved[s.current] && irq
    {
      var c := s.current;
      if t == 0 || t != c { return -1; }
      if s.tasks[c].state != Blocked { return -2; }
      if irq { return -3; }
      var next := RunqueuePeek();
      if next == 0 { return -4; }
      code := LeaveCpu(c, k);
    }

    /** Blocks the running task on a wait queue. Once its state is changed nothing can fail: the
        results -10 to -13 never occur. */
    method Block(t: nat, w: nat, k: Cont) returns (code: int)
      requires Owned(s)
      modifies `s, `dispatches, `irq, `cpu
      ensures Owned(s) && (old(Valid()) ==> Valid())
      ensures code == if t == 0 || w == 0 then -1 else if t != old(s).current then -2 else if !old(irq) then -5
                      else if w !in old(s).waits then -6 else if old(s).rq == [] then -9 else 0
      ensures code != 0 ==> unchanged(this)
      ensures code == 0 ==> CanSwitch(old(s)) && s == BlockTo(old(s), w, k) && dispatches == old(dispatches) + 1
      ensures code == 0 ==> s.current in old(s).saved && cpu == old(s).saved[s.current] && irq
      ensures code == 0 ==> HandedOver(old(s), s, old(s).tasks[t].(state := Blocked, waitQueue := w, authority := Context, context := k))
                            && s.waits == old(s).waits[w := old(s).waits[w] + [t]] && s.rq == old(s).rq[1..] && s.pending == old(s).pending
    {
      code := BlockTask(t, w, k);
      if code == 0 {
        HeadFacts(old(s));
        BlockPlain(old(s), w, k, s);
        if old(Valid()) { StillValid(old(s), Op.Block(w, k)); }
      }
    }

    method BlockTask(t: nat, w: nat, k: Cont) returns (code: int)
      requires Owned(s)
      modifies `s, `dispatches, `irq, `cpu
      ensures Owned(s)
      ensures code == if t == 0 || w == 0 then -1 else if t != old(s).current then -2 else if !old(irq) then -5
                      else if w !in old(s).waits then -6 else if old(s).rq == [] then -9 else 0
      ensures code != 0 ==> unchanged(this)
      ensures code == 0 ==> CanSwitch(old(s)) && s == BlockTo(old(s), w, k) && dispatches == old(dispatches) + 1
      ensures code == 0 ==> s.current in old(s).saved && cpu == old(s).saved[s.current] && irq
    {
      if t == 0 || w == 0 { return -1; }
      if s.current != t { return -2; }
      CurrentFacts(s);
      code := -3;
      if s.tasks[t].state != Running { return; }
      if s.tasks[t].waitQueue != 0 { return; }
      if !irq { return -5; }
      irq := false;
      if w !in s.waits { irq := true; return -6; }
      code := -7;
      if |s.waits[w]| >= MAX_TASKS || t in s.waits[w] { return; }
      HeadFacts(s);
      var next := RunqueuePeek();
      if next == 0 { irq := true; return -9; }
      code := -10;
      if s.tasks[next].state != Ready { return; }
      code := CommitBlock(t, w, k);
    }

    method CommitBlock(t: nat, w: nat, k: Cont) returns (code: int)
      requires Owned(s) && t == s.current && t != 0 && w in s.waits && s.rq != [] && !irq
      modifies `s, `dispatches, `irq, `cpu
      ensures code == 0 && Owned(s) && CanSwitch(old(s)) && s == BlockTo(old(s), w, k)
      ensures dispatches == old(dispatches) + 1 && s.current in old(s).saved && cpu == old(s).saved[s.current] && irq
    {
      ghost var s0 := s;
      CurrentFacts(s);
      HeadFacts(s);
      code := Transition(t, Blocked);
      if code != 0 { return; }
      code := WaitEnqueue(w, t);
      if code != 0 { return; }
      SetTask(t, s.tasks[t].(authority := Context));
      code := BlockCurrent(t, k);
      if code != 0 { return; }
      s := s.(saved := s.saved[t := k]);
      ghost var x, n := s0.tasks[t], s0.rq[0];
      BlockWrites(s0.tasks, t, x.(state := Blocked), x.(state := Blocked, waitQueue := w),
                  x.(state := Blocked, waitQueue := w, authority := Context), n, s0.tasks[n].(state := Running),
                  x.(state := Blocked, waitQueue := w, authority := Context, context := k));
      assert Owned(s) by { assert Open(OWNED); BlockInv(s0, w, k); }
    }

    /** Makes a blocked task ready; it succeeds for every registered task that is blocked, and changes
        nothing for any other task object. */
    method WakeTask(t: nat) returns (code: int)
      requires Owned(s) && (t == 0 || t in s.tasks)
      modifies `s, `irq
      ensures Owned(s) && irq == old(irq) && (old(Valid()) ==> Valid())
      ensures code == if t == 0 then -1 else if old(s).tasks[t].state != Blocked then -2 else if Known(old(s), t) then 0
                      else if old(s).tasks[t].waitQueue == 0 then -3 else -6
      ensures code != 0 ==> s == old(s)
      ensures code == 0 ==> old(s).tasks[t].waitQueue in old(s).waits && s == Wake(old(s), t)
      ensures code == 0 ==> s.tasks == old(s).tasks[t := old(s).tasks[t].(state := Ready, waitQueue := 0)] && s.rq == old(s).rq + [t]
                            && s.waits.Keys == old(s).waits.Keys && forall w | w in s.waits :: t !in s.waits[w]
    {
      code := Awaken(t);
      if code == 0 { WaitsNowhere(s, t); }
      if code == 0 && old(Valid()) { StillValid(old(s), WakeUp(t)); }
    }

    method Awaken(t: nat) returns (code: int)
      requires Owned(s) && (t == 0 || t in s.tasks)
      modifies `s, `irq
      ensures Owned(s) && irq == old(irq)
      ensures code == if t == 0 then -1 else if old(s).tasks[t].state != Blocked then -2 else if Known(old(s), t) then 0
                      else if old(s).tasks[t].waitQueue == 0 then -3 else -6
      ensures code != 0 ==> s == old(s)
      ensures code == 0 ==> old(s).tasks[t].waitQueue in old(s).waits && s == Wake(old(s), t)
    {
      if t == 0 { return -1; }
      if s.tasks[t].state != Blocked { return -2; }
      if Known(s, t) { BlockedFacts(s, t); } else { UnknownFacts(s, t); }
      var w := s.tasks[t].waitQueue;
      if w == 0 { return -3; }
      var flags := irq;
      irq := false;
      if w !in s.waits || t !in s.waits[w] {
        irq := flags;
        return -6;
      }
      code := CommitWake(t);
      irq := flags;
    }

    /** The part of a wake-up that runs with interrupts masked: the results -4 to -11 never occur. */
    method CommitWake(t: nat) returns (code: int)
      requires Owned(s) && Known(s, t) && s.tasks[t].state == Blocked
      modifies `s
      ensures Owned(s) && code == 0 && old(s).tasks[t].waitQueue in old(s).waits && s == Wake(old(s), t)
    {
      ghost var s0 := s;
      BlockedFacts(s, t);
      code := -4;
      if s.tasks[t].state != Blocked { return; }
      var w := s.tasks[t].waitQueue;
      if w == 0 { return; }
      if w !in s.waits || t !in s.waits[w] { return; }
      if |s.rq| >= MAX_TASKS { return; }
      if t in s.rq { return; }
      code := WaitRemove(w, t);
      if code != 0 { return; }
      code := Transition(t, Ready);
      if code != 0 { return; }
      code := Add(t);
      if code != 0 { return; }
      ghost var x := s0.tasks[t];
      PreemptWrites(s0.tasks, t, x.(waitQueue := 0), x.(state := Ready, waitQueue := 0), t, x.(state := Ready, waitQueue := 0));
      assert Owned(s) by { assert Open(OWNED); WakeInv(s0, t, s); }
    }

    // ---- exit and deferred reclamation --------------------------------------------------

    method ExitTask(t: nat) returns (code: int)
      requires t == 0 || t in s.tasks
      modifies `s
      ensures code == 0 || code == -1
      ensures code == 0 <==> t != 0 && old(s).tasks[t].state == Running
      ensures code == 0 ==> s == old(s).(tasks := old(s).tasks[t := old(s).tasks[t].(state := Terminated)]
                                                             [t := old(s).tasks[t].(state := Terminated, authority := NoResume)])
      ensures code != 0 ==> s == old(s)
    {
      if t == 0 || s.tasks[t].state != Running { return -1; }
      code := Transition(t, Terminated);
      if code != 0 { return; }
      SetTask(t, s.tasks[t].(authority := NoResume));
    }

    method RegistryContains(t: nat) returns (found: bool)
      requires t == 0 || t in s.tasks
      ensures found <==> Known(s, t)
    {
      if t == 0 { return false; }
      var id := s.tasks[t].id;
      return 1 <= id <= |s.registry| && s.registry[id - 1] == t;
    }

    method Publish(t: nat) returns (code: int)
      requires t == 0 || t in s.tasks
      modifies `s
      ensures code == if t == 0 then -1 else if old(s).tasks[t].state != Terminated then -2 else if !old(s).tasks[t].managed then -3
                      else if |old(s).pending| >= MAX_TASKS then -4 else if t in old(s).pending then -5
                      else if !Known(old(s), t) then -6 else 0
      ensures code == 0 ==> s == old(s).(pending := old(s).pending + [t])
      ensures code != 0 ==> s == old(s)
    {
      if t == 0 { return -1; }
      if s.tasks[t].state != Terminated { return -2; }
      if !s.tasks[t].managed { return -3; }
      if |s.pending| >= MAX_TASKS { return -4; }
      if t in s.pending { return -5; }
      var known := RegistryContains(t);
      if !known { return -6; }
      s := s.(pending := s.pending + [t]);
      return 0;
    }

    /** The entry function of the running task has returned. The task is published for reclamation
        and the CPU goes to the next ready task; only for want of one does it halt. */
    method Finish(k: Cont)
      requires Owned(s) && s.current != 0 && !halted
      modifies `s, `dispatches, `irq, `cpu, `halted
      ensures halted <==> old(s).rq == []
      ensures !halted && old(Valid()) ==> Valid()
      ensures !halted ==> Owned(s) && CanSwitch(old(s)) && s == ExitTo(old(s), k) && dispatches == old(dispatches) + 1
      ensures !halted ==> s.current in old(s).saved && cpu == old(s).saved[s.current] && irq
      ensures halted ==> old(s).current in old(s).tasks && Owned(s.(current := 0)) && s.current == old(s).current
                         && s.(current := 0) == ToPending(old(s), old(s).tasks[old(s).current].context)
      ensures s.pending == old(s).pending + [old(s).current] && s.waits == old(s).waits && s.rq == if halted then [] else old(s).rq[1..]
      ensures !halted ==> HandedOver(old(s), s, old(s).tasks[old(s).current].(state := Terminated, authority := NoResume, context := k))
      ensures halted ==> s.tasks == old(s).tasks[s.current := old(s).tasks[s.current].(state := Terminated, authority := NoResume)]
    {
      ghost var s0 := s;
      EndCurrent(k);
      HeadFacts(s0);
      if !halted { ExitPlain(s0, k, s); }
      if !halted && old(Valid()) { StillValid(s0, Exit(k)); }
    }

    method EndCurrent(k: Cont)
      requires Owned(s) && s.current != 0 && !halted
      modifies `s, `dispatches, `irq, `cpu, `halted
      ensures halted <==> old(s).rq == []
      ensures !halted ==> Owned(s) && CanSwitch(old(s)) && s == ExitTo(old(s), k) && dispatches == old(dispatches) + 1
      ensures !halted ==> s.current in old(s).saved && cpu == old(s).saved[s.current] && irq
      ensures halted ==> old(s).current in old(s).tasks && Owned(s.(current := 0)) && s.current == old(s).current
                         && s.(current := 0) == ToPending(old(s), old(s).tasks[old(s).current].context)
    {
      ghost var s0 := s;
      CurrentFacts(s);
      HeadFacts(s);
      RunningFacts(s);
      var c := s.current;
      var x := s.tasks[c];
      irq := false;
      halted := true;
      var code := ExitTask(c);
      if code != 0 { return; }
      if s.tasks[c].managed {
        code := Publish(c);
        if code != 0 { return; }
      }
      ghost var y := x.(state := Terminated, authority := NoResume);
      if s.rq == [] {
        PreemptWrites(s0.tasks, c, x.(state := Terminated), y, c, y);
        assert Owned(s.(current := 0)) by { assert Open(OWNED); ToPendingInv(s0, x.context, s.(current := 0)); }
        return;
      }
      code := LeaveCpu(c, k);
      if code != 0 { return; }
      halted := false;
      ghost var n := s0.rq[0];
      ExitWrites(s0.tasks, c, x.(state := Terminated), y, n, s0.tasks[n].(state := Running), y.(context := k));
      assert Owned(s) by { assert Open(OWNED); ExitInv(s0, k); }
    }

    // ---- registries and process membership ----------------------------------------------

    ghost predicate Counted()
      reads `s, `registered, `processCount
    {
      && |s.registry| == MAX_TASKS == |s.processes|
      && registered == Occupied(s.registry) && processCount == Occupied(s.processes)
    }

    method Register(t: nat) returns (code: int)
      requires Counted() && (t == 0 || t in s.tasks)
      modifies `s, `registered
      ensures Counted() && (code == 0 || code == -1)
      ensures code == 0 <==> t != 0 && 1 <= old(s).tasks[t].id <= MAX_TASKS && old(s).tasks[t].state != Terminated
                             && old(s).registry[old(s).tasks[t].id - 1] == 0
      ensures code == 0 ==> s == old(s).(registry := old(s).registry[old(s).tasks[t].id - 1 := t])
      ensures code != 0 ==> s == old(s)
    {
      if t == 0 || s.tasks[t].id == 0 || s.tasks[t].id > MAX_TASKS { return -1; }
      if s.tasks[t].state == Terminated { return -1; }
      var index := s.tasks[t].id - 1;
      if s.registry[index] != 0 { return -1; }
      OccupiedRoom(s.registry, index);
      code := -1;
      if registered >= MAX_TASKS { return; }
      OccupiedSet(s.registry, index, t);
      s := s.(registry := s.registry[index := t]);
      registered := registered + 1;
      return 0;
    }

    method Unregister(t: nat) returns (code: int)
      requires Counted() && (t == 0 || t in s.tasks)
      modifies `s, `registered
      ensures Counted() && (code == 0 || code == -1)
      ensures code == 0 <==> Known(old(s), t)
      ensures code == 0 ==> s == old(s).(registry := old(s).registry[old(s).tasks[t].id - 1 := 0])
      ensures code != 0 ==> s == old(s)
    {
      if t == 0 || s.tasks[t].id == 0 || s.tasks[t].id > MAX_TASKS { return -1; }
      var index := s.tasks[t].id - 1;
      if s.registry[index] != t { return -1; }
      OccupiedRoom(s.registry, index);
      code := -1;
      if registered == 0 { return; }
      OccupiedSet(s.registry, index, 0);
      s := s.(registry := s.registry[index := 0]);
      registered := registered - 1;
      return 0;
    }

    method ProcessContains(p: nat) returns (found: bool)
      ensures found <==> KnownProc(s, p)
    {
      if p == 0 || p !in s.procs { return false; }
      var id := s.procs[p].id;
      return 1 <= id <= |s.processes| && s.processes[id - 1] == p;
    }

    method FindTask(p: nat, t: nat) returns (i: nat)
      requires p in s.procs
      ensures i <= |s.procs[p].tasks| && (i < |s.procs[p].tasks| <==> t in s.procs[p].tasks)
      ensures i < |s.procs[p].tasks| ==> s.procs[p].tasks[i] == t
    {
      i := 0;
      while i < |s.procs[p].tasks|
        invariant i <= |s.procs[p].tasks| && t !in s.procs[p].tasks[..i]
      {
        if s.procs[p].tasks[i] == t { return; }
        i := i + 1;
      }
    }

    method Attach(p: nat, t: nat) returns (code: int)
      requires (p == 0 || p in s.procs) && (t == 0 || t in s.tasks)
      modifies `s
      ensures code == if p == 0 || t == 0 then -1 else if !KnownProc(old(s), p) || old(s).procs[p].state != Live then -2
                      else if old(s).tasks[t].process != 0 then -3 else if old(s).tasks[t].space != old(s).procs[p].space then -4
                      else if |old(s).procs[p].tasks| >= MAX_TASKS then -5 else if t in old(s).procs[p].tasks then -6 else 0
      ensures code == 0 ==> s == old(s).(procs := old(s).procs[p := old(s).procs[p].(tasks := old(s).procs[p].tasks + [t])],
                                         tasks := old(s).tasks[t := old(s).tasks[t].(process := p)])
      ensures code != 0 ==> s == old(s)
    {
      if p == 0 || t == 0 { return -1; }
      var known := ProcessContains(p);
      if !known || s.procs[p].state != Live { return -2; }
      if s.tasks[t].process != 0 { return -3; }
      if s.tasks[t].space != s.procs[p].space { return -4; }
      if |s.procs[p].tasks| >= MAX_TASKS { return -5; }
      var i := FindTask(p, t);
      if i < |s.procs[p].tasks| { return -6; }
      s := s.(procs := s.procs[p := s.procs[p].(tasks := s.procs[p].tasks + [t])]);
      SetTask(t, s.tasks[t].(process := p));
      return 0;
    }

    method Detach(p: nat, t: nat) returns (code: int, i: nat)
      requires (p == 0 || p in s.procs) && (t == 0 || t in s.tasks)
      modifies `s
      ensures code == if p == 0 || t == 0 then -1 else if !KnownProc(old(s), p) then -2
                      else if t !in old(s).procs[p].tasks then -3 else if old(s).tasks[t].process != p then -4 else 0
      ensures code == 0 ==> i < |old(s).procs[p].tasks| && old(s).procs[p].tasks[i] == t
      ensures code == 0 ==> s == old(s).(procs := old(s).procs[p := old(s).procs[p].(tasks := DetachAt(old(s).procs[p].tasks, i))],
                                         tasks := old(s).tasks[t := old(s).tasks[t].(process := 0)])
      ensures code != 0 ==> s == old(s)
    {
      i := 0;
      if p == 0 || t == 0 { return -1, 0; }
      var known := ProcessContains(p);
      if !known { return -2, 0; }
      i := FindTask(p, t);
      if i == |s.procs[p].tasks| { return -3, 0; }
      if s.tasks[t].process != p { return -4, 0; }
      var last := |s.procs[p].tasks| - 1;
      var members := s.procs[p].tasks;
      if i != last { members := members[i := members[last]]; }
      members := members[..last];
      s := s.(procs := s.procs[p := s.procs[p].(tasks := members)]);
      SetTask(t, s.tasks[t].(process := 0));
      return 0, i;
    }

    // ---- processes ----------------------------------------------------------------------

    /** The registered process with an address space, or 0. */
    method FindBySpace(space: nat) returns (q: nat)
      requires ProcessesOk(s)
      ensures q == 0 <==> space == 0 || forall p | KnownProc(s, p) :: s.procs[p].space != space
      ensures q != 0 ==> KnownProc(s, q) && s.procs[q].space == space
    {
      if space == 0 { return 0; }
      for i := 0 to |s.processes|
        invariant forall j | 0 <= j < i && s.processes[j] != 0 :: s.procs[s.processes[j]].space != space
      {
        q := s.processes[i];
        if q != 0 && s.procs[q].space == space {
          assert KnownProc(s, q);
          return;
        }
      }
      return 0;
    }

    method SetProcess(p: nat, x: Process)
      modifies `s
      ensures s == old(s).(procs := old(s).procs[p := x])
    {
      s := s.(procs := s.procs[p := x]);
    }

    /** Whether a process object is in the registry, whatever its identifier says. */
    method ProcessListed(p: nat) returns (found: bool)
      ensures found <==> p in s.processes
    {
      for i := 0 to |s.processes|
        invariant p !in s.processes[..i]
      {
        if s.processes[i] == p { return true; }
      }
      return false;
    }

    method RegisterProcess(p: nat) returns (code: int)
      requires Counted() && (p == 0 || p in s.procs)
      modifies `s, `processCount
      ensures Counted()
      ensures code == if p == 0 then -1 else if p in old(s).processes then -2
                      else if !(1 <= old(s).procs[p].id <= MAX_TASKS) then -3 else if old(s).procs[p].state == Ended then -4
                      else if old(s).processes[old(s).procs[p].id - 1] != 0 then -5 else 0
      ensures code == 0 ==> s == old(s).(processes := old(s).processes[old(s).procs[p].id - 1 := p])
      ensures code != 0 ==> s == old(s)
    {
      if p == 0 { return -1; }
      var listed := ProcessListed(p);
      if listed { return -2; }
      var id := s.procs[p].id;
      if id == 0 || id > MAX_TASKS { return -3; }
      if s.procs[p].state == Ended { return -4; }
      if s.processes[id - 1] != 0 { return -5; }
      OccupiedSet(s.processes, id - 1, p);
      s := s.(processes := s.processes[id - 1 := p]);
      processCount := processCount + 1;
      return 0;
    }

    method UnregisterProcess(p: nat) returns (code: int)
      requires Counted() && (p == 0 || p in s.procs)
      modifies `s, `processCount
      ensures Counted() && (code == 0 <==> KnownProc(old(s), p))
      ensures code == 0 ==> s == old(s).(processes := old(s).processes[old(s).procs[p].id - 1 := 0])
      ensures code != 0 ==> s == old(s)
    {
      if p == 0 { return -1; }
      var id := s.procs[p].id;
      if id == 0 || id > MAX_TASKS { return -2; }
      if s.processes[id - 1] != p { return -3; }
      OccupiedRoom(s.processes, id - 1);
      code := -4;
      if processCount == 0 { return; }
      OccupiedSet(s.processes, id - 1, 0);
      s := s.(processes := s.processes[id - 1 := 0]);
      processCount := processCount - 1;
      return 0;
    }

    method ProcessTransition(p: nat, to: ProcessState) returns (code: int)
      requires p == 0 || p in s.procs
      modifies `s
      ensures code == if p == 0 then -1
                      else if !(old(s).procs[p].state == Fresh && to == Live) && !(old(s).procs[p].state == Live && to == Ended) then -2
                      else if !KnownProc(old(s), p) then -3 else 0
      ensures code == 0 ==> s == old(s).(procs := old(s).procs[p := old(s).procs[p].(state := to)])
      ensures code != 0 ==> s == old(s)
    {
      if p == 0 { return -1; }
      var from := s.procs[p].state;
      if !(from == Fresh && to == Live) && !(from == Live && to == Ended) { return -2; }
      var known := ProcessContains(p);
      if !known { return -3; }
      SetProcess(p, s.procs[p].(state := to));
      return 0;
    }

    /** Registers a process for an address space that no process has; on failure nothing but the
        process object itself is written. */
    method ProcessCreate(p: nat, pid: nat, space: nat) returns (code: int)
      requires Owned(s) && Counted() && vm.Valid()
      modifies `s, `processCount
      ensures Owned(s) && Counted() && (old(Valid()) ==> Valid())
      ensures code == 0 <==> p != 0 && !KnownProc(old(s), p) && space in vm.roots && vm.roots[space] != Inactive
                             && CanAdd(old(s), p, pid, space)
      ensures code == 0 <==> p != 0 && !KnownProc(old(s), p) && space != 0 && space in vm.roots && vm.roots[space] != Inactive
                             && 1 <= pid <= |old(s).processes| && old(s).processes[pid - 1] == 0
                             && forall q | KnownProc(old(s), q) :: old(s).procs[q].space != space
      ensures code == 0 ==> s == AddProcess(old(s), p, pid, space)
      ensures code == 0 ==> s == old(s).(procs := old(s).procs[p := Process(pid, Live, space, [])],
                                         processes := old(s).processes[pid - 1 := p])
      ensures code != 0 ==> s == old(s) || (p != 0 && !KnownProc(old(s), p) && s == old(s).(procs := old(s).procs[p := Process(0, Fresh, 0, [])]))
    {
      assert ProcessesOk(s) by { assert Open(OWNED); assert Open(STATIC); }
      if p == 0 { return -1; }
      var known := ProcessContains(p);
      if known { return -9; }
      if pid == 0 || pid > MAX_TASKS { return -2; }
      if space == 0 { return -3; }
      var found, state := vm.FindSpace(space);
      if !found { return -4; }
      if state != Created && state != Active { return -5; }
      var other := FindBySpace(space);
      if other != 0 { return -6; }
      code := EnterProcess(p, pid, space);
    }

    /** Writes the process object and registers it; a taken identifier leaves the object blank. */
    method EnterProcess(p: nat, pid: nat, space: nat) returns (code: int)
      requires Owned(s) && Counted() && p != 0 && p !in s.processes && 1 <= pid <= MAX_TASKS && space != 0
      requires forall q | KnownProc(s, q) :: s.procs[q].space != space
      modifies `s, `processCount
      ensures Owned(s) && Counted() && (old(Valid()) ==> Valid())
      ensures code == if old(s).processes[pid - 1] == 0 then 0 else -7
      ensures code == 0 ==> s == AddProcess(old(s), p, pid, space)
      ensures code != 0 ==> s == old(s).(procs := old(s).procs[p := Process(0, Fresh, 0, [])])
    {
      ghost var s0 := s;
      code := WriteProcess(p, pid, space);
      if old(Valid()) { SameTasksValid(s0); }
    }

    /** Only processes differ. */
    lemma SameTasksValid(s0: State)
      requires Owned(s) && Counted() && s.tasks == s0.tasks && s.registry == s0.registry && s.start == s0.start
      requires Window(s0.start, end) && LayoutOf(slots, guards, s0.start) && vm.Valid()
      requires Backed(s0, vm.v, vm.kernelRoot, vm.usable, slots, guards)
      ensures Valid()
    {
      BackedKept(s0, s, vm.v, vm.kernelRoot, vm.usable, slots, guards);
    }

    method WriteProcess(p: nat, pid: nat, space: nat) returns (code: int)
      requires Owned(s) && Counted() && p != 0 && p !in s.processes && 1 <= pid <= MAX_TASKS && space != 0
      requires forall q | KnownProc(s, q) :: s.procs[q].space != space
      modifies `s, `processCount
      ensures Owned(s) && Counted()
      ensures code == if old(s).processes[pid - 1] == 0 then 0 else -7
      ensures code == 0 ==> s == AddProcess(old(s), p, pid, space)
      ensures code != 0 ==> s == old(s).(procs := old(s).procs[p := Process(0, Fresh, 0, [])])
    {
      ghost var s0 := s;
      SetProcess(p, Process(pid, Fresh, space, []));
      var r := RegisterProcess(p);
      if r != 0 {
        SetProcess(p, Process(0, Fresh, 0, []));
        assert s.procs == s0.procs[p := Process(0, Fresh, 0, [])];
        assert Owned(s) by { assert Open(OWNED); ProcessObject(s0, p, Process(0, Fresh, 0, []), s); }
        return -7;
      }
      code := ProcessTransition(p, Live);
      if code != 0 { return; }
      assert s.procs == s0.procs[p := Process(pid, Live, space, [])];
      assert Owned(s) by { assert Open(OWNED); AddProcessInv(s0, p, pid, space, s); }
    }

    method Terminate(p: nat) returns (code: int)
      requires p == 0 || p in s.procs
      modifies `s
      ensures code == 0 <==> KnownProc(old(s), p) && old(s).procs[p].state == Live
      ensures code == 0 ==> s == old(s).(procs := old(s).procs[p := old(s).procs[p].(state := Ended)])
      ensures code != 0 ==> s == old(s)
    {
      if p == 0 { return -1; }
      var known := ProcessContains(p);
      if !known { return -2; }
      code := ProcessTransition(p, Ended);
    }

    method DestroyProcess(p: nat) returns (code: int)
      requires Counted() && (p == 0 || p in s.procs)
      modifies `s, `processCount
      ensures Counted()
      ensures code == 0 <==> KnownProc(old(s), p) && old(s).procs[p].state == Ended && old(s).procs[p].tasks == []
      ensures code == 0 ==> s == DropProcess(old(s), p)
      ensures code == 0 ==> s == old(s).(procs := old(s).procs[p := Process(0, Fresh, 0, [])],
                                         processes := old(s).processes[old(s).procs[p].id - 1 := 0])
      ensures code != 0 ==> s == old(s)
    {
      if p == 0 { return -1; }
      var known := ProcessContains(p);
      if !known { return -2; }
      if s.procs[p].state != Ended { return -3; }
      if |s.procs[p].tasks| != 0 { return -4; }
      code := UnregisterProcess(p);
      if code != 0 { return; }
      SetProcess(p, Process(0, Fresh, 0, []));
    }

    // ---- creating and destroying tasks --------------------------------------------------

    /** Writes a synthetic interrupt frame for the first run below the initial context; it always fits
        the stack and is 16-aligned. */
    method PrepareFirstRun(t: nat, k: Cont) returns (code: int)
      requires t == 0 || t in s.tasks
      modifies `s
      ensures t != 0 && old(s).tasks[t].base % PAGE == 0 && 0 < old(s).tasks[t].base && old(s).tasks[t].top == old(s).tasks[t].base + STACK_SIZE
              ==> code == 0
      ensures code == 0 ==> t != 0 && var x := old(s).tasks[t];
                            x.base <= x.top - 24 - FRAME_SIZE
                            && s == old(s).(frames := old(s).frames[x.top - 24 - FRAME_SIZE := k],
                                            tasks := old(s).tasks[t := x.(frame := x.top - 24 - FRAME_SIZE, frameValid := true)])
      ensures code != 0 ==> s == old(s)
    {
      if t == 0 { return -1; }
      var x := s.tasks[t];
      if x.top == 0 || x.base == 0 { return -1; }
      if x.top < x.base + 24 + FRAME_SIZE { return -1; }
      var address := x.top - 24 - FRAME_SIZE;
      if address % 16 != 0 { return -1; }
      s := s.(frames := s.frames[address := k]);
      SetTask(t, x.(frame := address, frameValid := true));
      return 0;
    }

    ghost predicate Placeable()
      reads this, vm, vm.pmm, vm.pmm.bitmap
    {
      && Static(s) && Window(s.start, end) && LayoutOf(slots, guards, s.start)
      && vm.Valid() && Backed(s, vm.v, vm.kernelRoot, vm.usable, slots, guards)
    }

    /** Builds a task with its stack and first continuation, unpublished. If the stack cannot be
        mapped, whatever the identifier's slot mapped before is gone. */
    method TaskCreate(t: nat, id: nat, space: nat, entry: nat, k: Cont) returns (code: int)
      requires Placeable() && (t == 0 || t !in s.registry)
      modifies `s, vm`mem, vm`registry, vm`v, vm`stray, vm`tableAt, vm.pmm`freeFrames, vm.pmm`free, vm.pmm.bitmap
      ensures vm.Valid() && (code == 0 || code == -1)
      ensures code == 0 <==> t != 0 && 1 <= id <= MAX_TASKS && space != 0 && space == vm.kernelRoot && entry != 0
                             && old(s).registry[id - 1] == 0 && Roomy(old(vm.v), space, slots, id)
      ensures code == 0 ==> t in s.tasks && |s.tasks[t].pages| == PAGES
                            && s == Constructed(old(s), t, FirstRun(s.start, id, space, entry, k, s.tasks[t].pages), k)
      ensures code == 0 ==> var x := s.tasks[t];
                            && x.id == id && x.entry == entry && x.space == space && x.process == 0 && x.context == k && x.state == Ready
                            && x.authority == Context && x.waitQueue == 0 && x.base == old(s).start + 4096 + (id - 1) * 20480
                            && x.top == x.base + 16384
                            && s.tasks == old(s).tasks[t := x] && s.frames == old(s).frames[x.base + 16208 := k]
      ensures code == 0 ==> StackBuilt(old(vm.v), vm.v, space, slots[id - 1], s.tasks[t].pages, vm.usable)
      ensures code != 0 ==> s == old(s) || (t != 0 && t in s.tasks && s == old(s).(tasks := old(s).tasks[t := s.tasks[t]]))
      ensures code != 0 ==>
                if t != 0 && 1 <= id <= MAX_TASKS && entry != 0 && space != 0 && space == vm.kernelRoot
                then StackTaken(old(vm.v), vm.v, vm.kernelRoot, slots[id - 1], vm.usable)
                else vm.v == old(vm.v)
    {
      if t == 0 || id == 0 || id > MAX_TASKS || space == 0 || entry == 0 { return -1; }
      ghost var s0 := s;
      SetTask(t, Task(id, New, 0, 0, [0, 0, 0, 0], space, 0, entry, 0, Context, false, 0, false, 0));
      StackInWindow(s.start, end, id);
      var base := StackVirtual(s.start, end, id);
      code := -1;
      if base == 0 { return; }
      if space != vm.kernelRoot { return; }
      code := Furnish(t, id, base, k, s0);
      if code != 0 { return; }
      Overwritten(s0.tasks, t, Task(id, New, 0, 0, [0, 0, 0, 0], space, 0, entry, 0, Context, false, 0, false, 0),
                  FirstRun(s.start, id, space, entry, k, s.tasks[t].pages));
    }

    /** Maps the stack of a new task and makes the task ready. */
    method Furnish(t: nat, id: nat, base: nat, k: Cont, ghost s0: State) returns (code: int)
      requires Static(s0) && LayoutOf(slots, guards, s0.start) && vm.Valid()
      requires Backed(s0, vm.v, vm.kernelRoot, vm.usable, slots, guards)
      requires s.start == s0.start && t != 0 && t in s.tasks && s.tasks[t].state == New && s.tasks[t].id == id
      requires 1 <= id <= MAX_TASKS && 0 < base == StackBase(s0.start, id) && base % PAGE == 0
      modifies `s, vm`mem, vm`registry, vm`v, vm`stray, vm`tableAt, vm.pmm`freeFrames, vm.pmm`free, vm.pmm.bitmap
      ensures vm.Valid() && (code == 0 || code == -1)
      ensures code == 0 ==> t in s.tasks && |s.tasks[t].pages| == PAGES && var frame := base + STACK_SIZE - 24 - FRAME_SIZE;
                            s == old(s).(tasks := old(s).tasks[t := old(s).tasks[t].(state := Ready, base := base, top := base + STACK_SIZE,
                                              pages := s.tasks[t].pages, context := k, frame := frame, frameValid := true)],
                                         frames := old(s).frames[frame := k])
      ensures code == 0 ==> StackBuilt(old(vm.v), vm.v, vm.kernelRoot, slots[id - 1], s.tasks[t].pages, vm.usable)
      ensures code != 0 ==> s == old(s) && StackTaken(old(vm.v), vm.v, vm.kernelRoot, slots[id - 1], vm.usable)
      ensures code == 0 <==> s0.registry[id - 1] == 0 && Roomy(old(vm.v), vm.kernelRoot, slots, id)
    {
      var ok, pages := MapOwn(id, base, s0);
      if !ok { return -1; }
      code := Equip(t, base, pages, k);
    }

    /** Maps the stack of an identifier, in the kernel's address space. */
    method MapOwn(id: nat, base: nat, ghost s0: State) returns (ok: bool, pages: seq<nat>)
      requires Static(s0) && LayoutOf(slots, guards, s0.start) && vm.Valid()
      requires Backed(s0, vm.v, vm.kernelRoot, vm.usable, slots, guards)
      requires 1 <= id <= MAX_TASKS && base == StackBase(s0.start, id)
      modifies vm`mem, vm`registry, vm`v, vm`stray, vm`tableAt, vm.pmm`freeFrames, vm.pmm`free, vm.pmm.bitmap
      ensures vm.Valid() && (ok ==> StackBuilt(old(vm.v), vm.v, vm.kernelRoot, slots[id - 1], pages, vm.usable))
      ensures !ok ==> StackTaken(old(vm.v), vm.v, vm.kernelRoot, slots[id - 1], vm.usable)
      ensures ok <==> s0.registry[id - 1] == 0 && Roomy(old(vm.v), vm.kernelRoot, slots, id)
    {
      LayoutKeys(slots, guards, s0.start, id);
      SlotFacts(s0, vm.v, vm.kernelRoot, vm.usable, slots, guards, id);
      ok, pages := MapStack(vm, vm.kernelRoot, base, slots[id - 1]);
    }

    /** Gives a new task its stack, its first context and its first frame, and makes it ready. */
    method Equip(t: nat, base: nat, pages: seq<nat>, k: Cont) returns (code: int)
      requires t != 0 && t in s.tasks && s.tasks[t].state == New && 0 < base && base % PAGE == 0
      modifies `s
      ensures code == 0
      ensures var frame := base + STACK_SIZE - 24 - FRAME_SIZE;
              s == old(s).(tasks := old(s).tasks[t := old(s).tasks[t].(state := Ready, base := base, top := base + STACK_SIZE,
                                      pages := pages, context := k, frame := frame, frameValid := true)],
                           frames := old(s).frames[frame := k])
    {
      ghost var s0, x := s, s.tasks[t];
      SetTask(t, s.tasks[t].(base := base, top := base + STACK_SIZE, pages := pages, context := k));
      code := PrepareFirstRun(t, k);
      if code != 0 { return; }
      code := Transition(t, Ready);
      if code != 0 { return; }
      ghost var y := x.(base := base, top := base + STACK_SIZE, pages := pages, context := k);
      ghost var z := y.(frame := base + STACK_SIZE - 24 - FRAME_SIZE, frameValid := true);
      Overwritten(s0.tasks, t, y, z);
      Overwritten(s0.tasks, t, z, z.(state := Ready));
    }

    /** Whether a task may be reclaimed: off the CPU, not to be resumed from an interrupt frame, ready or
        terminated, in no wait queue, and with its stack translated just as recorded. */
    ghost predicate Reclaimable(t: nat, keys: seq<Path>)
      reads `s, vm
    {
      && t != 0 && t in s.tasks && s.current != t && s.tasks[t].authority != Interrupt && s.tasks[t].waitQueue == 0
      && (s.tasks[t].state == Ready || s.tasks[t].state == Terminated)
      && (s.tasks[t].base != 0 ==> Matches(vm.v, s.tasks[t].space, s.tasks[t].base, keys, s.tasks[t].pages))
    }

    /** And no process, runqueue or registry holds it any more. */
    ghost predicate Released(t: nat, keys: seq<Path>)
      reads `s, vm
    {
      Reclaimable(t, keys) && s.tasks[t].process == 0 && t !in s.rq && !Known(s, t)
    }

    ghost predicate Inspectable(t: nat, keys: seq<Path>)
      reads `s
    {
      t in s.tasks && KeysOf(keys, s.tasks[t].base) && |s.tasks[t].pages| == PAGES
    }

    method ValidateReclaim(t: nat, ghost keys: seq<Path>) returns (code: int)
      requires vm.Valid() && (t == 0 || Inspectable(t, keys))
      ensures code == if Reclaimable(t, keys) then 0 else -1
    {
      if t == 0 { return -1; }
      var x := s.tasks[t];
      if s.current == t { return -1; }
      if x.authority == Interrupt { return -1; }
      if x.state != Ready && x.state != Terminated { return -1; }
      if x.waitQueue != 0 { return -1; }
      if x.base != 0 {
        var ok := CheckStack(vm, x.space, x.base, x.pages, keys);
        if !ok { return -1; }
      }
      return 0;
    }

    /** Destroys a released task. It fails after the checks only where a page of the stack lies in a large
        page; the n pages before that one are then gone already. */
    method TaskDestroy(t: nat, ghost keys: seq<Path>) returns (code: int, n: nat)
      requires vm.Valid() && (t == 0 || Inspectable(t, keys))
      modifies `s, vm`mem, vm`v, vm`stray, vm.pmm`freeFrames, vm.pmm`free, vm.pmm.bitmap
      ensures vm.Sane() && n <= PAGES && (t == 0 ==> vm.Valid())
      ensures t != 0 ==> (vm.Valid() <==> Releasable(old(vm.v), old(s).tasks[t].space, keys, n, vm.usable, vm.pmm.managed))
      ensures code == if old(Released(t, keys)) && (old(s).tasks[t].base != 0 ==> Stacked(old(vm.v), old(s).tasks[t].space, keys, old(s).tasks[t].pages))
                      then 0 else -1
      ensures code == 0 ==> s == old(s).(tasks := old(s).tasks[t := Dead(old(s).tasks[t])])
      ensures code == 0 ==> Erased(s.tasks[t])
      ensures t != 0 ==> Releasing(old(vm.v), vm.v, vm.stray, old(s).tasks[t].space, keys, n, vm.usable, vm.pmm.managed)
      ensures code == 0 ==> n == if old(s).tasks[t].base != 0 then PAGES else 0
      ensures !old(Released(t, keys)) ==> s == old(s) && vm.v == old(vm.v)
      ensures code != 0 && old(Released(t, keys)) ==>
                n < PAGES && !Small(Walk(old(vm.v).mem, old(s).tasks[t].space, PML4, keys[n]))
                && s == old(s).(tasks := old(s).tasks[t := old(s).tasks[t].(pages := Zeroed(old(s).tasks[t].pages, n))])
    {
      n := 0;
      if t != 0 { NothingReleased(vm.v, s.tasks[t].space, keys, vm.usable, vm.pmm.managed); }
      code := ValidateReclaim(t, keys);
      if code != 0 { return; }
      var x := s.tasks[t];
      if x.process != 0 { return -1, 0; }
      if t in s.rq { return -1, 0; }
      var known := RegistryContains(t);
      if known { return -1, 0; }
      code, n := Dismantle(t, keys);
    }

    /** Releases the stack, if there is one, and then the task. */
    method Dismantle(t: nat, ghost keys: seq<Path>) returns (code: int, n: nat)
      requires vm.Valid() && Inspectable(t, keys)
      requires s.tasks[t].base != 0 ==> Matches(vm.v, s.tasks[t].space, s.tasks[t].base, keys, s.tasks[t].pages)
      modifies `s, vm`mem, vm`v, vm`stray, vm.pmm`freeFrames, vm.pmm`free, vm.pmm.bitmap
      ensures vm.Sane() && n <= PAGES
      ensures vm.Valid() <==> Releasable(old(vm.v), old(s).tasks[t].space, keys, n, vm.usable, vm.pmm.managed)
      ensures code == if old(s).tasks[t].base != 0 ==> Stacked(old(vm.v), old(s).tasks[t].space, keys, old(s).tasks[t].pages) then 0 else -1
      ensures code == 0 ==> s == old(s).(tasks := old(s).tasks[t := Dead(old(s).tasks[t])])
      ensures Releasing(old(vm.v), vm.v, vm.stray, old(s).tasks[t].space, keys, n, vm.usable, vm.pmm.managed)
      ensures code == 0 ==> n == if old(s).tasks[t].base != 0 then PAGES else 0
      ensures code != 0 ==>
                n < PAGES && !Small(Walk(old(vm.v).mem, old(s).tasks[t].space, PML4, keys[n]))
                && s == old(s).(tasks := old(s).tasks[t := old(s).tasks[t].(pages := Zeroed(old(s).tasks[t].pages, n))])
    {
      code, n := 0, 0;
      var x := s.tasks[t];
      NothingReleased(vm.v, x.space, keys, vm.usable, vm.pmm.managed);
      if x.base != 0 {
        code, n := UnmapStack(vm, x.space, x.base, x.pages, keys);
        if code != 0 {
          SetTask(t, x.(pages := Zeroed(x.pages, n)));
          return;
        }
      }
      SetTask(t, Dead(x));
    }

    method RunqueueRemove(t: nat) returns (code: int)
      modifies `s
      ensures code == if t != 0 && t in old(s).rq then 0 else -1
      ensures s == if code == 0 then old(s).(rq := Without(old(s).rq, t)) else old(s)
    {
      if t == 0 || t !in s.rq { return -1; }
      s := s.(rq := Without(s.rq, t));
      return 0;
    }

    /** The common end of destruction and reclamation: process membership, registry slot, stack. */
    method Release(p: nat, t: nat, ghost s0: State) returns (code: int, ghost i: nat)
      requires Owned(s0) && Counted() && Window(s.start, end) && LayoutOf(slots, guards, s.start)
      requires vm.Valid() && Backed(s0, vm.v, vm.kernelRoot, vm.usable, slots, guards)
      requires Known(s0, t) && (s0.tasks[t].state == Ready || s0.tasks[t].state == Terminated)
      requires s0.tasks[t].authority != Interrupt && p == s0.tasks[t].process
      requires s == s0.(rq := Without(s0.rq, t))
      modifies `s, `registered, vm`mem, vm`v, vm`stray, vm.pmm`freeFrames, vm.pmm`free, vm.pmm.bitmap
      ensures code == 0 && vm.Valid() && Counted()
      ensures CanForget(s0, t, i) && s == Forget(s0, t, i).(pending := s0.pending)
      ensures StackReturned(old(vm.v), vm.v, vm.kernelRoot, slots[s0.tasks[t].id - 1], vm.usable)
    {
      ghost var x := s0.tasks[t];
      OwnedFacts(s0, t);
      code, i := LetGo(p, t, s0);
      if code != 0 { return; }
      ReadyToDestroy(t, s0);
      ghost var m := s;
      code := DestroyOwn(t, slots[x.id - 1]);
      LastTrace(s0, t, i, m, s);
    }

    lemma OwnedFacts(s0: State, t: nat)
      requires Owned(s0) && Backed(s0, vm.v, vm.kernelRoot, vm.usable, slots, guards) && LayoutOf(slots, guards, s0.start) && Known(s0, t)
      ensures KnownProc(s0, s0.tasks[t].process) && t in s0.procs[s0.tasks[t].process].tasks && Distinct(s0.rq)
      ensures s0.current == t <==> s0.tasks[t].state == Running
    {
      TaskFacts(s0, vm.v, vm.kernelRoot, vm.usable, slots, guards, t);
    }

    lemma ReadyToDestroy(t: nat, s0: State)
      requires Owned(s0) && Backed(s0, vm.v, vm.kernelRoot, vm.usable, slots, guards) && LayoutOf(slots, guards, s0.start)
      requires Known(s0, t) && (s0.tasks[t].state == Ready || s0.tasks[t].state == Terminated) && s0.tasks[t].authority != Interrupt
      requires t !in s.rq && !Known(s, t) && s.current == s0.current && s.tasks == s0.tasks[t := s0.tasks[t].(process := 0)]
      ensures 1 <= s0.tasks[t].id <= |slots| && t != 0
      ensures var keys := slots[s0.tasks[t].id - 1];
              && Inspectable(t, keys) && Released(t, keys) && s.tasks[t].base != 0 && s.tasks[t].space == vm.kernelRoot
              && Stacked(vm.v, vm.kernelRoot, keys, s.tasks[t].pages) && Guarded(vm.v, vm.kernelRoot, keys, vm.usable)
    {
      TaskFacts(s0, vm.v, vm.kernelRoot, vm.usable, slots, guards, t);
    }

    /** Process and registry give the task up. */
    method LetGo(p: nat, t: nat, ghost s0: State) returns (code: int, ghost i: nat)
      requires Owned(s0) && Counted() && Known(s0, t) && KnownProc(s0, p) && p == s0.tasks[t].process && t in s0.procs[p].tasks
      requires (s0.tasks[t].state == Ready || s0.tasks[t].state == Terminated) && s0.tasks[t].authority != Interrupt
      requires s == s0.(rq := Without(s0.rq, t)) && (t in s0.rq ==> Distinct(s0.rq))
      requires s0.current == t <==> s0.tasks[t].state == Running
      modifies `s, `registered
      ensures code == 0 && Counted() && CanForget(s0, t, i) && t !in s.rq && !Known(s, t)
      ensures s == Forget(s0, t, i).(pending := s0.pending, tasks := s0.tasks[t := s0.tasks[t].(process := 0)])
    {
      var index;
      code, index := Detach(p, t);
      i := index;
      if code != 0 { return; }
      code := Unregister(t);
    }

    /** Destroys a task whose stack is as the invariant says. */
    method DestroyOwn(t: nat, ghost keys: seq<Path>) returns (code: int)
      requires vm.Valid() && t != 0 && Inspectable(t, keys) && Released(t, keys) && s.tasks[t].base != 0
      requires Stacked(vm.v, s.tasks[t].space, keys, s.tasks[t].pages) && Guarded(vm.v, s.tasks[t].space, keys, vm.usable)
      modifies `s, vm`mem, vm`v, vm`stray, vm.pmm`freeFrames, vm.pmm`free, vm.pmm.bitmap
      ensures code == 0 && vm.Valid() && s == old(s).(tasks := old(s).tasks[t := Dead(old(s).tasks[t])])
      ensures StackReturned(old(vm.v), vm.v, old(s).tasks[t].space, keys, vm.usable)
    {
      ghost var v, root := vm.v, s.tasks[t].space;
      GuardedReleasable(v, root, keys, PAGES, vm.usable, vm.pmm.managed);
      var n;
      code, n := TaskDestroy(t, keys);
      ReleasingFacts(v, vm.v, vm.stray, root, keys, PAGES, vm.usable, vm.pmm.managed);
    }

    // ---- execution units ----------------------------------------------------------------

    /** What the checks before a destruction find. */
    lemma Inspected(t: nat)
      requires Valid() && Known(s, t)
      ensures 1 <= s.tasks[t].id <= |slots| && Inspectable(t, slots[s.tasks[t].id - 1]) && KnownProc(s, s.tasks[t].process)
      ensures s.tasks[t].state == Ready ==>
                t in s.rq && (Reclaimable(t, slots[s.tasks[t].id - 1]) <==> s.tasks[t].authority != Interrupt)
    {
      TaskFacts(s, vm.v, vm.kernelRoot, vm.usable, slots, guards, t);
    }

    /** A task that is ready, in the given process and not suspended by the timer may be destroyed. */
    method PreflightDestroy(p: nat, t: nat) returns (code: int)
      requires Valid() && (t == 0 || t in s.tasks)
      ensures code == 0 <==> p != 0 && Known(s, t) && s.tasks[t].state == Ready && s.tasks[t].process == p && s.tasks[t].authority != Interrupt
    {
      if p == 0 || t == 0 { return -1; }
      var known := RegistryContains(t);
      var process := ProcessContains(p);
      if known { Inspected(t); }
      if s.tasks[t].state != Ready || s.tasks[t].process != p || !known || !process || t !in s.rq { return -2; }
      code := ValidateReclaim(t, slots[s.tasks[t].id - 1]);
      if code != 0 { return -3; }
    }

    /** Takes a ready task from the runqueue, its process and the registry and releases its stack. When
        the preflight has passed nothing can fail; when it has not, nothing changes. */
    method DestroyTask(p: nat, t: nat) returns (code: int, ghost i: nat)
      requires Valid() && (t == 0 || t in s.tasks)
      modifies `s, `registered, vm`mem, vm`v, vm`stray, vm.pmm`freeFrames, vm.pmm`free, vm.pmm.bitmap
      ensures Valid() && (code == 0 || code == -1)
      ensures code == 0 <==> p != 0 && Known(old(s), t) && old(s).tasks[t].state == Ready && old(s).tasks[t].process == p
                             && old(s).tasks[t].authority != Interrupt
      ensures code == 0 ==> CanForget(old(s), t, i) && s == Forget(old(s), t, i)
                            && StackReturned(old(vm.v), vm.v, vm.kernelRoot, slots[old(s).tasks[t].id - 1], vm.usable)
      ensures code == 0 ==> Departed(old(s), s, t) && s.processes == old(s).processes
      ensures code != 0 ==> s == old(s) && vm.v == old(vm.v)
    {
      i := 0;
      var r := PreflightDestroy(p, t);
      if r != 0 { return -1, 0; }
      ghost var s0, v0 := s, vm.v;
      TaskFacts(s, vm.v, vm.kernelRoot, vm.usable, slots, guards, t);
      code := RunqueueRemove(t);
      if code != 0 { return; }
      code, i := Release(p, t, s0);
      if code != 0 { return; }
      GoneFrom(s0, t, i, s);
      Forgotten(s0, t, i, s, v0, vm.v, vm.kernelRoot, vm.usable, slots, guards);
    }

    /** Reclaims the oldest terminated task. It succeeds whenever there is one: no terminated task is ever
        running, resumable, queued or unregistered. */
    method ReapOne() returns (code: int, ghost i: nat)
      requires Valid()
      modifies `s, `registered, `irq, vm`mem, vm`v, vm`stray, vm.pmm`freeFrames, vm.pmm`free, vm.pmm.bitmap
      ensures Valid() && irq == old(irq)
      ensures code == if old(s).pending == [] then 1 else 0
      ensures code == 1 ==> s == old(s) && vm.v == old(vm.v)
      ensures code == 0 ==> var t := old(s).pending[0];
                            CanForget(old(s), t, i) && s == Forget(old(s), t, i)
                            && StackReturned(old(vm.v), vm.v, vm.kernelRoot, slots[old(s).tasks[t].id - 1], vm.usable)
      ensures code == 0 ==> Departed(old(s), s, old(s).pending[0]) && s.pending == old(s).pending[1..] && s.rq == old(s).rq
    {
      i := 0;
      if |s.pending| == 0 { return 1, 0; }
      var flags := irq;
      irq := false;
      ghost var s0 := s;
      code, i := ReclaimHead();
      GoneFrom(s0, s0.pending[0], i, s);
      ForgetHead(s0, i, s);
      EndedNotReady(s0);
      irq := flags;
    }

    /** The checks before reclamation, all of which the oldest terminated task passes. */
    method PreflightReap(t: nat) returns (code: int)
      requires Valid() && s.pending != [] && t == s.pending[0]
      ensures code == 0 && Known(s, t) && s.tasks[t].authority == NoResume && t !in s.rq
    {
      PendingFacts(s);
      TaskFacts(s, vm.v, vm.kernelRoot, vm.usable, slots, guards, t);
      code := -2;
      if t == 0 { return; }
      if s.tasks[t].state != Terminated { return; }
      if s.current == t { return; }
      if s.tasks[t].authority != NoResume { return; }
      if s.tasks[t].waitQueue != 0 { return; }
      if t in s.rq { return; }
      var known := RegistryContains(t);
      if !known { return; }
      var p := s.tasks[t].process;
      if p != 0 {
        var member := FindTask(p, t);
        if member == |s.procs[p].tasks| { return; }
      }
      code := 0;
    }

    method ReclaimHead() returns (code: int, ghost i: nat)
      requires Valid() && s.pending != []
      modifies `s, `registered, vm`mem, vm`v, vm`stray, vm.pmm`freeFrames, vm.pmm`free, vm.pmm.bitmap
      ensures Valid() && code == 0
      ensures var t := old(s).pending[0];
              CanForget(old(s), t, i) && s == Forget(old(s), t, i)
              && StackReturned(old(vm.v), vm.v, vm.kernelRoot, slots[old(s).tasks[t].id - 1], vm.usable)
    {
      i := 0;
      ghost var s0, v0 := s, vm.v;
      PendingFacts(s);
      var t := s.pending[0];
      code := PreflightReap(t);
      if code != 0 { return; }
      var p := s.tasks[t].process;
      assert s == s0.(rq := Without(s0.rq, t));
      code, i := Release(p, t, s0);
      if code != 0 { return; }
      s := s.(pending := s.pending[1..]);
      Forgotten(s0, t, i, s, v0, vm.v, vm.kernelRoot, vm.usable, slots, guards);
    }

    /** Publishes a constructed task in the registry, its process and the runqueue. With an unused
        identifier none of the three can fail, so none of the rollbacks is ever entered. */
    method Announce(p: nat, t: nat, k: Cont, ghost s0: State, ghost x: Task) returns (code: int)
      requires Owned(s0) && Counted() && t != 0 && t !in s0.registry && 1 <= x.id <= |s0.registry| && s0.registry[x.id - 1] == 0
      requires KnownProc(s0, p) && x.space == s0.procs[p].space && x.entry != 0 && |x.pages| == PAGES
      requires x == FirstRun(s0.start, x.id, x.space, x.entry, k, x.pages) && s == Constructed(s0, t, x, k)
      modifies `s, `registered
      ensures code == 0 && Counted() && CanAdmit(s0, t, Published(x, p), s0.frames[x.frame := k])
      ensures s == Admit(s0, t, Published(x, p), s0.frames[x.frame := k])
    {
      NewFacts(s0, x.id, p, t);
      code := Register(t);
      if code != 0 { return; }
      code := Attach(p, t);
      if code != 0 { return; }
      code := Add(t);
      if code != 0 { return; }
      SetTask(t, s.tasks[t].(managed := true));
      s := s.(saved := s.saved[t := k]);
      assert s.tasks == s0.tasks[t := Published(x, p)];
    }

    /** The construction half: on failure the invariant holds again if the identifier was unused. */
    method Construct(t: nat, tid: nat, entry: nat, k: Cont) returns (code: int)
      requires Valid() && vm.kernelRoot != 0 && t != 0 && t !in s.registry && entry != 0
      modifies `s, vm`mem, vm`registry, vm`v, vm`stray, vm`tableAt, vm.pmm`freeFrames, vm.pmm`free, vm.pmm.bitmap
      ensures vm.Valid() && Counted() && (code == 0 || code == -1)
      ensures code == 0 ==> 1 <= tid <= MAX_TASKS == |old(s).registry| && old(s).registry[tid - 1] == 0
                            && t in s.tasks && |s.tasks[t].pages| == PAGES
                            && s.tasks[t] == FirstRun(old(s).start, tid, vm.kernelRoot, entry, k, s.tasks[t].pages)
                            && s == Constructed(old(s), t, s.tasks[t], k)
                            && StackBuilt(old(vm.v), vm.v, vm.kernelRoot, slots[tid - 1], s.tasks[t].pages, vm.usable)
      ensures code != 0 ==> OnlyObject(old(s), s, t) && Owned(s)
      ensures code != 0 && Unused(old(s), tid) ==> NothingKept(old(vm.v), vm.v)
                                                   && Backed(s, vm.v, vm.kernelRoot, vm.usable, slots, guards)
      ensures code == 0 <==> Unused(old(s), tid) && Roomy(old(vm.v), vm.kernelRoot, slots, tid)
      ensures code != 0 && !Unused(old(s), tid) ==> Robbed(old(s), old(vm.v), vm.v, vm.kernelRoot, slots, tid) && !Valid()
    {
      ghost var s0, v0 := s, vm.v;
      assert Placeable() by { assert Open(OWNED); }
      code := TaskCreate(t, tid, vm.kernelRoot, entry, k);
      if code != 0 {
        AfterFailure(s0, s, v0, vm.v, vm.kernelRoot, vm.usable, slots, guards, t, tid);
      } else {
        Vacated(s0, v0, vm.v, vm.kernelRoot, vm.usable, slots, guards, tid, s.tasks[t].pages);
      }
    }

    /** Constructs and publishes a task of a registered process. */
    method BuildTask(p: nat, t: nat, tid: nat, entry: nat, k: Cont) returns (code: int)
      requires Valid() && KnownProc(s, p) && s.procs[p].space == vm.kernelRoot != 0
      requires t != 0 && t !in s.registry && entry != 0
      modifies `s, `registered, vm`mem, vm`registry, vm`v, vm`stray, vm`tableAt, vm.pmm`freeFrames, vm.pmm`free, vm.pmm.bitmap
      ensures (code == 0 || code == -5) && Owned(s) && Counted()
      ensures Unused(old(s), tid) ==> Valid()
      ensures code == 0 <==> Unused(old(s), tid) && Roomy(old(vm.v), vm.kernelRoot, slots, tid)
      ensures code == 0 ==> Unused(old(s), tid) && Admitted(old(s), s, p, t, tid, vm.kernelRoot, entry, k)
                            && Built(old(vm.v), vm.v, vm.kernelRoot, vm.usable, slots, s, t)
      ensures code != 0 ==> OnlyObject(old(s), s, t) && registered == old(registered)
      ensures code != 0 && Unused(old(s), tid) ==> NothingKept(old(vm.v), vm.v)
      ensures code != 0 && !Unused(old(s), tid) ==> Robbed(old(s), old(vm.v), vm.v, vm.kernelRoot, slots, tid) && !Valid()
    {
      ghost var s0, v0 := s, vm.v;
      code := Construct(t, tid, entry, k);
      if code != 0 { return -5; }
      code := Enlist(p, t, k, tid, entry, s0, v0);
    }

    /** The publication half, with the whole invariant. */
    method Enlist(p: nat, t: nat, k: Cont, ghost tid: nat, ghost entry: nat, ghost s0: State, ghost v0: Vm) returns (code: int)
      requires Owned(s0) && Counted() && vm.Valid() && Window(s0.start, end) && LayoutOf(slots, guards, s0.start)
      requires Backed(s0, v0, vm.kernelRoot, vm.usable, slots, guards) && KnownProc(s0, p) && s0.procs[p].space == vm.kernelRoot
      requires t != 0 && t !in s0.registry && entry != 0 && 1 <= tid <= MAX_TASKS == |s0.registry| && s0.registry[tid - 1] == 0
      requires t in s.tasks
      requires s.tasks[t] == FirstRun(s0.start, tid, vm.kernelRoot, entry, k, s.tasks[t].pages) && s == Constructed(s0, t, s.tasks[t], k)
      requires StackBuilt(v0, vm.v, vm.kernelRoot, slots[tid - 1], s.tasks[t].pages, vm.usable)
      modifies `s, `registered
      ensures code == 0 && Valid() && Admitted(s0, s, p, t, tid, vm.kernelRoot, entry, k)
      ensures Built(v0, vm.v, vm.kernelRoot, vm.usable, slots, s, t)
    {
      ghost var x := s.tasks[t];
      code := Announce(p, t, k, s0, x);
      if code != 0 { return; }
      Joined(s0, t, Published(x, p), s0.frames[x.frame := k], s, v0, vm.v, vm.kernelRoot, vm.usable, slots, guards);
      BuiltFor(s0, t, Published(x, p), s0.frames[x.frame := k], s, v0, vm.v, vm.kernelRoot, vm.usable, slots);
    }

    /** Adds a task to a process: either it is constructed, registered, a member and ready, or the call
        fails and, if the identifier was unused, has changed nothing but the task object. It succeeds exactly
        if the arguments pass, the identifier is unused and frames and records suffice. A registered
        identifier makes it fail and cost that identifier's task its stack. */
    method CreateTask(p: nat, t: nat, tid: nat, space: nat, entry: nat, k: Cont) returns (code: int)
      requires Valid() && t !in s.registry
      modifies `s, `registered, vm`mem, vm`registry, vm`v, vm`stray, vm`tableAt, vm.pmm`freeFrames, vm.pmm`free, vm.pmm.bitmap
      ensures Owned(s) && (Unused(old(s), tid) ==> Valid())
      ensures if p == 0 || t == 0 || tid == 0 || space == 0 || entry == 0 then code == -1
              else if !KnownProc(old(s), p) then code == -2 else if space != old(s).procs[p].space then code == -3
              else if space != vm.kernelRoot then code == -4 else code == 0 || code == -5
      ensures code != 0 && code != -5 ==> s == old(s) && vm.v == old(vm.v)
      ensures code == 0 <==> t != 0 && entry != 0 && space == vm.kernelRoot && KnownProc(old(s), p) && space == old(s).procs[p].space
                             && 1 <= tid <= |old(s).registry| && old(s).registry[tid - 1] == 0 && Roomy(old(vm.v), space, slots, tid)
      ensures code == 0 ==> Unused(old(s), tid) && Admitted(old(s), s, p, t, tid, space, entry, k)
                            && Built(old(vm.v), vm.v, vm.kernelRoot, vm.usable, slots, s, t)
      ensures code == 0 ==> t in s.tasks && var x := s.tasks[t];
                            && x.id == tid && x.entry == entry && x.space == space && x.process == p && x.context == k && x.state == Ready
                            && x.authority == Context && x.waitQueue == 0 && x.base == old(s).start + 4096 + (tid - 1) * 20480
                            && x.top == x.base + 16384
      ensures code == 0 ==> 1 <= tid <= |old(s).registry| && p in old(s).procs
                            && s.registry == old(s).registry[tid - 1 := t] && s.rq == old(s).rq + [t] && s.tasks == old(s).tasks[t := s.tasks[t]]
                            && s.procs == old(s).procs[p := old(s).procs[p].(tasks := old(s).procs[p].tasks + [t])]
                            && s.processes == old(s).processes && s.waits == old(s).waits && s.pending == old(s).pending && s.current == old(s).current
      ensures code != 0 ==> OnlyObject(old(s), s, t) && registered == old(registered)
      ensures code != 0 && Unused(old(s), tid) ==> NothingKept(old(vm.v), vm.v)
      ensures code == -5 && !Unused(old(s), tid) ==> Robbed(old(s), old(vm.v), vm.v, vm.kernelRoot, slots, tid) && !Valid()
    {
      if KnownProc(s, p) { ProcessLive(s, p); }
      if p == 0 || t == 0 || tid == 0 || space == 0 || entry == 0 { return -1; }
      var known := ProcessContains(p);
      if !known || s.procs[p].state != Live { return -2; }
      if space != s.procs[p].space { return -3; }
      if space != vm.kernelRoot { return -4; }
      ghost var s0 := s;
      code := BuildTask(p, t, tid, entry, k);
      if code == 0 { AdmittedPlain(s0, s, p, t, tid, space, entry, k); }
    }

    /** Ends and removes a live process without tasks. */
    method RemoveProcess(p: nat) returns (code: int)
      requires Owned(s) && Counted() && KnownProc(s, p) && s.procs[p].state == Live && s.procs[p].tasks == []
      modifies `s, `processCount
      ensures code == 0 && Owned(s) && Counted() && s == DropProcess(old(s), p) && (old(Valid()) ==> Valid())
    {
      code := EraseProcess(p);
      if old(Valid()) { StillValid(old(s), EndProcess(p)); }
    }

    method EraseProcess(p: nat) returns (code: int)
      requires Owned(s) && Counted() && KnownProc(s, p) && s.procs[p].state == Live && s.procs[p].tasks == []
      modifies `s, `processCount
      ensures code == 0 && Owned(s) && Counted() && s == DropProcess(old(s), p)
    {
      ghost var s0 := s;
      code := Terminate(p);
      if code != 0 { return; }
      code := DestroyProcess(p);
      if code != 0 { return; }
      assert s.procs == s0.procs[p := Process(0, Fresh, 0, [])];
      assert Owned(s) by { assert Open(OWNED); DropProcessInv(s0, p, s); }
    }

    lemma StillRobbed(s0: State, v0: Vm, t: nat, p: nat, tid: nat)
      requires Owned(s0) && OnlyObjects(s0, s, t, p) && t !in s0.registry && Robbed(s0, v0, vm.v, vm.kernelRoot, slots, tid)
      ensures !Valid()
    {
      assert RegistryOk(s0) by { assert Open(OWNED); assert Open(STATIC); }
      OthersUntouched(s0, s, t, p);
      NotBacked(s0, s, v0, vm.v, vm.kernelRoot, vm.usable, slots, guards, tid);
    }

    /** The first task of a process that was just created; if it cannot be built the process goes too. */
    method BuildFirst(p: nat, t: nat, pid: nat, tid: nat, space: nat, entry: nat, k: Cont, ghost s0: State) returns (code: int)
      requires Valid() && Owned(s0) && CanAdd(s0, p, pid, space) && s == AddProcess(s0, p, pid, space)
      requires t != 0 && t !in s.registry && entry != 0 && space == vm.kernelRoot != 0
      modifies `s, `registered, `processCount, vm`mem, vm`registry, vm`v, vm`stray, vm`tableAt, vm.pmm`freeFrames, vm.pmm`free, vm.pmm.bitmap
      ensures Owned(s) && (Unused(s0, tid) ==> Valid()) && (code == 0 || code == -6)
      ensures code == 0 <==> Unused(s0, tid) && Roomy(old(vm.v), space, slots, tid)
      ensures code == 0 ==> Unused(s0, tid) && Admitted(old(s), s, p, t, tid, space, entry, k)
                            && Built(old(vm.v), vm.v, vm.kernelRoot, vm.usable, slots, s, t)
      ensures code != 0 ==> OnlyObjects(s0, s, t, p)
      ensures code != 0 && Unused(s0, tid) ==> NothingKept(old(vm.v), vm.v)
      ensures code != 0 && !Unused(s0, tid) ==> Robbed(s0, old(vm.v), vm.v, vm.kernelRoot, slots, tid) && !Valid()
    {
      ghost var s1, v0 := s, vm.v;
      AddedProcess(s0, p, pid, space, s1);
      code := BuildTask(p, t, tid, entry, k);
      if code == 0 { return; }
      DropFirst(p, t, pid, tid, space, s0, s1, v0);
      return -6;
    }

    /** The process of a first task that could not be built goes too. */
    method DropFirst(p: nat, t: nat, ghost pid: nat, ghost tid: nat, ghost space: nat, ghost s0: State, ghost s1: State, ghost v0: Vm)
      requires Owned(s) && Counted() && Owned(s0) && CanAdd(s0, p, pid, space) && s1 == AddProcess(s0, p, pid, space)
      requires OnlyObject(s1, s, t) && t !in s0.registry && t != 0
      requires if Unused(s0, tid) then Valid() else Robbed(s1, v0, vm.v, vm.kernelRoot, slots, tid)
      modifies `s, `processCount
      ensures Owned(s) && OnlyObjects(s0, s, t, p)
      ensures if Unused(s0, tid) then Valid() else Robbed(s0, v0, vm.v, vm.kernelRoot, slots, tid) && !Valid()
    {
      ghost var s2 := s;
      AddedProcess(s0, p, pid, space, s1);
      var code := RemoveProcess(p);
      if code != 0 { return; }
      Undone(s0, s1, s2, s, t, p, pid, space);
      if !Unused(s0, tid) {
        assert Robbed(s0, v0, vm.v, vm.kernelRoot, slots, tid) by { assert Open(CREATED); }
        StillRobbed(s0, v0, t, p, tid);
      }
    }

    /** Creates a process together with its first task. As with a further task, the call either publishes
        both or changes only the two objects, provided the identifier is unused; it succeeds exactly if the
        process can be created, the identifier is unused and frames and records suffice. */
    method CreateKernelTask(p: nat, t: nat, pid: nat, tid: nat, space: nat, entry: nat, k: Cont) returns (code: int)
      requires Valid() && t !in s.registry
      modifies `s, `registered, `processCount, vm`mem, vm`registry, vm`v, vm`stray, vm`tableAt, vm.pmm`freeFrames, vm.pmm`free, vm.pmm.bitmap
      ensures Owned(s) && (Unused(old(s), tid) ==> Valid())
      ensures code == 0 || code == -1 || code == -2 || code == -4 || code == -6
      ensures code == 0 <==> t != 0 && entry != 0 && space == vm.kernelRoot && space in vm.roots && vm.roots[space] != Inactive
                             && CanAdd(old(s), p, pid, space) && Unused(old(s), tid) && Roomy(old(vm.v), space, slots, tid)
      ensures code == 0 ==> t in s.tasks && var x := s.tasks[t];
                            && x.id == tid && x.entry == entry && x.space == space && x.process == p && x.context == k && x.state == Ready
                            && x.authority == Context && x.waitQueue == 0 && x.base == old(s).start + 4096 + (tid - 1) * 20480
                            && x.top == x.base + 16384
      ensures code == 0 ==> 1 <= tid <= |old(s).registry| && 1 <= pid <= |old(s).processes|
                            && s.registry == old(s).registry[tid - 1 := t] && s.rq == old(s).rq + [t] && s.tasks == old(s).tasks[t := s.tasks[t]]
                            && s.procs == old(s).procs[p := Process(pid, Live, space, [t])] && s.processes == old(s).processes[pid - 1 := p]
                            && s.waits == old(s).waits && s.pending == old(s).pending && s.current == old(s).current
      ensures code == 0 ==> CanAdd(old(s), p, pid, space) && space == vm.kernelRoot && Unused(old(s), tid)
                            && Admitted(AddProcess(old(s), p, pid, space), s, p, t, tid, space, entry, k)
                            && Built(old(vm.v), vm.v, vm.kernelRoot, vm.usable, slots, s, t)
      ensures code != 0 ==> OnlyObjects(old(s), s, t, p)
      ensures code != 0 && Unused(old(s), tid) ==> NothingKept(old(vm.v), vm.v)
      ensures code == -6 && !Unused(old(s), tid) ==> Robbed(old(s), old(vm.v), vm.v, vm.kernelRoot, slots, tid) && !Valid()
      ensures code != 0 && code != -6 ==> vm.v == old(vm.v)
    {
      ghost var s0 := s;
      Unwritten(s, t, p);
      if p == 0 || t == 0 || pid == 0 || tid == 0 || space == 0 || entry == 0 { return -1; }
      if space != vm.kernelRoot { return -2; }
      code := CreatePair(p, t, pid, tid, entry, k);
      if code == 0 {
        AdmittedPlain(AddProcess(s0, p, pid, space), s, p, t, tid, space, entry, k);
        FirstMember(s0.procs, p, Process(pid, Live, space, []), t);
      }
    }

    /** The two transactions, once the arguments have passed. */
    method CreatePair(p: nat, t: nat, pid: nat, tid: nat, entry: nat, k: Cont) returns (code: int)
      requires Valid() && t !in s.registry && p != 0 && t != 0 && pid != 0 && tid != 0 && vm.kernelRoot != 0 && entry != 0
      modifies `s, `registered, `processCount, vm`mem, vm`registry, vm`v, vm`stray, vm`tableAt, vm.pmm`freeFrames, vm.pmm`free, vm.pmm.bitmap
      ensures Owned(s) && (Unused(old(s), tid) ==> Valid())
      ensures code == 0 || code == -4 || code == -6
      ensures code == 0 <==> vm.kernelRoot in vm.roots && vm.roots[vm.kernelRoot] != Inactive && CanAdd(old(s), p, pid, vm.kernelRoot)
                             && Unused(old(s), tid) && Roomy(old(vm.v), vm.kernelRoot, slots, tid)
      ensures code == 0 ==> CanAdd(old(s), p, pid, vm.kernelRoot) && Unused(old(s), tid)
                            && Admitted(AddProcess(old(s), p, pid, vm.kernelRoot), s, p, t, tid, vm.kernelRoot, entry, k)
                            && Built(old(vm.v), vm.v, vm.kernelRoot, vm.usable, slots, s, t)
      ensures code != 0 ==> OnlyObjects(old(s), s, t, p)
      ensures code != 0 && Unused(old(s), tid) ==> NothingKept(old(vm.v), vm.v)
      ensures code == -6 && !Unused(old(s), tid) ==> Robbed(old(s), old(vm.v), vm.v, vm.kernelRoot, slots, tid) && !Valid()
      ensures code == -4 ==> vm.v == old(vm.v)
    {
      ghost var s0 := s;
      Unwritten(s, t, p);
      var r := ProcessCreate(p, pid, vm.kernelRoot);
      if r != 0 { return -4; }
      code := BuildFirst(p, t, pid, tid, vm.kernelRoot, entry, k, s0);
    }

    /** Destroys a process together with its only task; after the preflight nothing can fail. */
    method DestroyKernelTask(p: nat, t: nat) returns (code: int, ghost i: nat)
      requires Valid() && (t == 0 || t in s.tasks)
      modifies `s, `registered, `processCount, vm`mem, vm`v, vm`stray, vm.pmm`freeFrames, vm.pmm`free, vm.pmm.bitmap
      ensures Valid() && (code == 0 || code == -1)
      ensures code == 0 <==> p != 0 && Known(old(s), t) && old(s).tasks[t].state == Ready && old(s).tasks[t].process == p
                             && old(s).tasks[t].authority != Interrupt && p in old(s).procs && |old(s).procs[p].tasks| == 1
      ensures code == 0 ==> CanForget(old(s), t, i) && KnownProc(Forget(old(s), t, i), p)
                            && s == DropProcess(Forget(old(s), t, i), p)
                            && StackReturned(old(vm.v), vm.v, vm.kernelRoot, slots[old(s).tasks[t].id - 1], vm.usable)
      ensures code == 0 ==> Departed(old(s), s, t) && s.procs[p] == Process(0, Fresh, 0, [])
                            && s.processes == old(s).processes[old(s).procs[p].id - 1 := 0]
      ensures code != 0 ==> s == old(s) && vm.v == old(vm.v)
    {
      i := 0;
      var r := PreflightDestroy(p, t);
      if r != 0 { return -1, 0; }
      LiveFacts(s, t);
      if s.procs[p].state != Live || |s.procs[p].tasks| != 1 { return -1, 0; }
      ghost var s0 := s;
      code, i := DestroyTask(p, t);
      if code != 0 { return; }
      ghost var m := s;
      assert KnownProc(m, p) && s0.procs[p].tasks == [t];
      code := RemoveProcess(p);
      DropDeparts(s0, m, s, t, p);
    }
  }
}
