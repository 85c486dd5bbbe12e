/** Particular runs from boot that show what the kernel's operations do at their edges
    (kernel/execution/execution.c, kernel/sched/task.c, kernel/sched/wait_queue.c). */
module Scenarios {
  import opened Frames
  import opened Guard
  import opened Paging
  import opened Cloning
  import opened VirtualMemory
  import opened Tasks
  import opened Owners
  import opened Runs
  import opened Stacks
  import opened Backing
  import opened Kernels

  // ---- the first two tasks ----------------------------------------------------------------

  /** A kernel with an address space of its own that translates nothing yet. */
  method BootKernel(pmm: Pmm, ram: Mem, cr3: nat, start: nat, end: nat) returns (k: Kernel)
    requires pmm.Valid() && pmm.free <= ram.Keys && Readable(ram, pmm.free, cr3, PML4) && Window(start, end)
    requires |pmm.free| >= 33 && forall m | m in pmm.free :: m < FRAME_LIMIT
    modifies pmm`freeFrames, pmm`free, pmm.bitmap
    ensures fresh(k) && fresh(k.vm) && k.vm.pmm == pmm && k.Valid() && k.s == Boot(start) && k.vm.kernelRoot != 0
    ensures k.vm.kernelRoot in k.vm.roots && k.vm.roots[k.vm.kernelRoot] == Created && Affords(k.vm.v, 2 * PAGES)
  {
    var vm := new Vmm(pmm, ram, cr3);
    assert vm.v.free == pmm.free;
    vm.Init();
    k := new Kernel(vm, start, end);
  }

  /** Process 7 has one task, task 9 with identifier 1. */
  ghost predicate One(s: State, root: nat) {
    && s.rq == [9] && s.current == 0 && |s.registry| == MAX_TASKS && s.registry[0] == 9 && s.registry[1] == 0
    && 10 !in s.registry && Known(s, 9) && s.tasks[9].state == Ready && s.tasks[9].process == 7
    && KnownProc(s, 7) && s.procs[7].state == Live && s.procs[7].space == root && s.waits == map[]
  }

  /** Process 7 has two ready tasks, 9 and 10. */
  ghost predicate Two(s: State) {
    && s.rq == [9, 10] && s.current == 0 && Known(s, 9) && Known(s, 10)
    && s.tasks[9].state == Ready == s.tasks[10].state && s.tasks[9].process == 7 && s.waits == map[]
  }

  lemma AfterFirst(s: State, u: State, root: nat)
    requires s == Boot(s.start) && root != 0 && CanAdd(s, 7, 1, root) && Admitted(AddProcess(s, 7, 1, root), u, 7, 9, 1, root, 5, 3)
    ensures One(u, root)
  {
    assert Open(CREATED);
  }

  lemma AfterSecond(s: State, u: State, root: nat)
    requires One(s, root) && Admitted(s, u, 7, 10, 2, root, 5, 3)
    ensures Two(u)
  {
    assert Open(CREATED);
  }

  lemma StillAffords(v: Vm, w: Vm, k: Kernel, t: nat)
    requires Affords(v, 2 * PAGES) && Built(v, w, k.vm.kernelRoot, k.vm.usable, k.slots, k.s, t)
    ensures Affords(w, PAGES)
  {
    assert Open(CREATED);
  }

  lemma SlotRoom(k: Kernel, id: nat)
    requires k.Valid() && 1 <= id <= MAX_TASKS && Affords(k.vm.v, PAGES)
    ensures Roomy(k.vm.v, k.vm.kernelRoot, k.slots, id)
  {
    LayoutKeys(k.slots, k.guards, k.s.start, id);
    AffordsRoom(k.vm.v, k.vm.kernelRoot, k.slots[id - 1]);
  }

  /** The first process and its task. */
  method FirstTask(k: Kernel)
    requires k.Valid() && k.s == Boot(k.s.start) && k.vm.kernelRoot != 0 && Affords(k.vm.v, 2 * PAGES)
    requires k.vm.kernelRoot in k.vm.roots && k.vm.roots[k.vm.kernelRoot] == Created
    modifies k, k.vm, k.vm.pmm`freeFrames, k.vm.pmm`free, k.vm.pmm.bitmap
    ensures k.Valid() && k.vm.kernelRoot == old(k.vm.kernelRoot) && One(k.s, k.vm.kernelRoot) && Affords(k.vm.v, PAGES)
  {
    var root := k.vm.kernelRoot;
    ghost var s0, v0 := k.s, k.vm.v;
    assert CanAdd(s0, 7, 1, root) && 9 !in s0.registry;
    SlotRoom(k, 1);
    var code := k.CreateKernelTask(7, 9, 1, 1, root, 5, 3);
    AfterFirst(s0, k.s, root);
    StillAffords(v0, k.vm.v, k, 9);
  }

  method SecondTask(k: Kernel)
    requires k.Valid() && One(k.s, k.vm.kernelRoot) && k.vm.kernelRoot != 0 && Affords(k.vm.v, PAGES)
    modifies k, k.vm, k.vm.pmm`freeFrames, k.vm.pmm`free, k.vm.pmm.bitmap
    ensures k.Valid() && Two(k.s)
  {
    var root := k.vm.kernelRoot;
    ghost var s0 := k.s;
    SlotRoom(k, 2);
    var code := k.CreateTask(7, 10, 2, root, 5, 3);
    AfterSecond(s0, k.s, root);
  }

  method TwoTasks(pmm: Pmm, ram: Mem, cr3: nat, start: nat, end: nat) returns (k: Kernel)
    requires pmm.Valid() && pmm.free <= ram.Keys && Readable(ram, pmm.free, cr3, PML4) && Window(start, end)
    requires |pmm.free| >= 33 && forall m | m in pmm.free :: m < FRAME_LIMIT
    modifies pmm`freeFrames, pmm`free, pmm.bitmap
    ensures fresh(k) && fresh(k.vm) && k.vm.pmm == pmm && k.Valid() && Two(k.s)
  {
    k := BootKernel(pmm, ram, cr3, start, end);
    FirstTask(k);
    SecondTask(k);
  }

  // ---- a used identifier ------------------------------------------------------------------

  /** A second task is given the identifier of the first: its creation fails, and the first task's stack is
      unmapped, its frames free and the invariant of the kernel lost. */
  method UsedIdentifier(pmm: Pmm, ram: Mem, cr3: nat, start: nat, end: nat) returns (code: int, k: Kernel, ghost s: State, ghost v: Vm)
    requires pmm.Valid() && pmm.free <= ram.Keys && Readable(ram, pmm.free, cr3, PML4) && Window(start, end)
    requires |pmm.free| >= 33 && forall m | m in pmm.free :: m < FRAME_LIMIT
    modifies pmm`freeFrames, pmm`free, pmm.bitmap
    ensures code == -5 && Known(s, 9) && s.tasks[9].id == 1 && k.s.registry == s.registry
    ensures Robbed(s, v, k.vm.v, k.vm.kernelRoot, k.slots, 1) && !k.Valid()
  {
    k := BootKernel(pmm, ram, cr3, start, end);
    FirstTask(k);
    s, v := k.s, k.vm.v;
    code := k.CreateTask(7, 10, 1, k.vm.kernelRoot, 5, 3);
    assert s.tasks[9].id == 1 by { assert Open(OWNED); assert Open(STATIC); }
  }

  // ---- tasks that have run ----------------------------------------------------------------

  /** Task 9 has started and yielded to task 10. */
  ghost predicate Turned(s: State) {
    && s.current == 10 && s.rq == [9] && Known(s, 9) && s.tasks[9].state == Ready && s.tasks[9].process == 7
    && s.tasks[9].authority == Context
  }

  lemma YieldTurns(s: State, k: Cont)
    requires Two(s) && CanSwitch(ToCpu(s))
    ensures Turned(YieldTo(ToCpu(s), k))
  {
  }

  method StartAndYield(k: Kernel) returns (ghost ran: State)
    requires k.Valid() && Two(k.s)
    modifies k
    ensures k.Valid() && Turned(k.s) && k.irq && ran.current == 9 && k.s.waits == old(k.s).waits
  {
    ghost var s := k.s;
    var code := k.Start();
    ran := k.s;
    code := k.Yield(4);
    YieldTurns(s, 4);
  }

  /** Task 9 runs, yields, and is destroyed all the same: not to have run is not a condition. */
  method DestroyedAfterRunning(pmm: Pmm, ram: Mem, cr3: nat, start: nat, end: nat) returns (code: int, k: Kernel, ghost ran: State)
    requires pmm.Valid() && pmm.free <= ram.Keys && Readable(ram, pmm.free, cr3, PML4) && Window(start, end)
    requires |pmm.free| >= 33 && forall m | m in pmm.free :: m < FRAME_LIMIT
    modifies pmm`freeFrames, pmm`free, pmm.bitmap
    ensures code == 0 && ran.current == 9 && k.Valid() && !Known(k.s, 9)
  {
    k := TwoTasks(pmm, ram, cr3, start, end);
    ran := StartAndYield(k);
    ghost var s, i := k.s, 0;
    code, i := k.DestroyTask(7, 9);
    assert RegistryOk(s) by { assert Open(OWNED); assert Open(STATIC); }
    ForgetKnown(s, 9, i, k.s, 9);
  }

  /** Task 10 blocks on queue 3, which is then initialised again: the task is blocked and in no queue. */
  method ForgottenWaiter(pmm: Pmm, ram: Mem, cr3: nat, start: nat, end: nat) returns (k: Kernel)
    requires pmm.Valid() && pmm.free <= ram.Keys && Readable(ram, pmm.free, cr3, PML4) && Window(start, end)
    requires |pmm.free| >= 33 && forall m | m in pmm.free :: m < FRAME_LIMIT
    modifies pmm`freeFrames, pmm`free, pmm.bitmap
    ensures 10 in k.s.tasks && k.s.tasks[10].state == Blocked && k.s.tasks[10].waitQueue == 3
    ensures 3 in k.s.waits && k.s.waits[3] == [] && !Owned(k.s)
  {
    k := TwoTasks(pmm, ram, cr3, start, end);
    ghost var ran := StartAndYield(k);
    BlockOn(k);
    var code := k.WaitInit(3);
  }

  /** A new queue 3, on which the running task 10 blocks. */
  method BlockOn(k: Kernel)
    requires k.Valid() && Turned(k.s) && k.irq && k.s.waits == map[]
    modifies k
    ensures k.Valid() && 3 in k.s.waits && k.s.waits[3] == [10]
    ensures 10 in k.s.tasks && k.s.tasks[10].state == Blocked && k.s.tasks[10].waitQueue == 3
  {
    var code := k.WaitInit(3);
    ghost var s := k.s;
    code := k.Block(10, 3, 6);
    BlockWaits(s);
  }

  lemma BlockWaits(s: State)
    requires Turned(s) && CanSwitch(s) && 3 in s.waits && s.waits[3] == []
    ensures var u := BlockTo(s, 3, 6);
            u.waits == s.waits[3 := [10]] && 10 in u.tasks && u.tasks[10].state == Blocked && u.tasks[10].waitQueue == 3
  {
    assert s.waits[3] + [10] == [10];
  }
}
