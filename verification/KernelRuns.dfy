/** Runs of the kernel from boot, over its own operations (kernel/sched, kernel/execution,
    kernel/lifecycle, kernel/arch/x86_64/sched). */
module KernelRuns {
  import opened Frames
  import opened Guard
  import opened Paging
  import opened Cloning
  import opened VirtualMemory
  import opened Tasks
  import opened Owners
  import opened Runs
  import opened Theorems
  import opened Stacks
  import opened Backing
  import opened StackRuns
  import opened Kernels
  import opened Preparing
  import VmmRuns

  datatype Call =
    | Start
    | Yield(k: Cont)
    | Timer(f: nat, k: Cont)
    | Enable(on: bool)
    | InitQueue(w: nat)
    | Block(w: nat, k: Cont)
    | Wake(t: nat)
    | Finish(k: Cont)
    | CreateKernelTask(p: nat, t: nat, pid: nat, tid: nat, space: nat, entry: nat, k: Cont)
    | CreateTask(p: nat, t: nat, tid: nat, space: nat, entry: nat, k: Cont)
    | DestroyKernelTask(p: nat, t: nat)
    | DestroyTask(p: nat, t: nat)
    | Reap
    | Pages(request: VmmRuns.Call)

  /** What callers and hardware owe: a frame lies on the interrupted stack, a queue is not emptied while
      tasks wait in it, and a new task has an object and an identifier that are not in use. */
  predicate Due(s: State, call: Call) {
    match call
    case Timer(f, _) =>
      if s.current != 0 then s.current in s.tasks && s.tasks[s.current].base <= f < s.tasks[s.current].top else OffStacks(s, f)
    case InitQueue(w) => w in s.waits ==> s.waits[w] == []
    case Wake(t) => t == 0 || t in s.tasks
    case Finish(_) => s.current != 0
    case CreateKernelTask(_, t, _, tid, _, _, _) => t !in s.registry && (1 <= tid <= |s.registry| ==> s.registry[tid - 1] == 0)
    case CreateTask(_, t, tid, _, _, _) => t !in s.registry && (1 <= tid <= |s.registry| ==> s.registry[tid - 1] == 0)
    case DestroyKernelTask(_, t) => t == 0 || t in s.tasks
    case DestroyTask(_, t) => t == 0 || t in s.tasks
    case _ => true
  }

  method Serve(k: Kernel, call: Call)
    requires k.Valid() && !k.halted && Due(k.s, call)
    modifies k, k.vm, k.vm.pmm`freeFrames, k.vm.pmm`free, k.vm.pmm.bitmap
    ensures !k.halted ==> k.Valid()
  {
    match call {
      case Start => var _ := k.Start();
      case Yield(c) => var _ := k.Yield(c);
      case Timer(f, c) => var _ := k.HandleTimer(f, c);
      case Enable(on) => k.preemption := on;
      case InitQueue(w) => var _ := k.WaitInit(w);
      case Block(w, c) => var _ := k.Block(k.s.current, w, c);
      case Wake(t) => var _ := k.WakeTask(t);
      case Finish(c) => k.Finish(c);
      case Pages(request) => ServePages(k, request);
      case CreateKernelTask(_, _, _, _, _, _, _) => ServeCreation(k, call);
      case CreateTask(_, _, _, _, _, _) => ServeCreation(k, call);
      case _ => ServeRemoval(k, call);
    }
  }

  method ServeCreation(k: Kernel, call: Call)
    requires k.Valid() && Due(k.s, call) && (call.CreateKernelTask? || call.CreateTask?)
    modifies k, k.vm, k.vm.pmm`freeFrames, k.vm.pmm`free, k.vm.pmm.bitmap
    ensures k.halted == old(k.halted) && k.Valid()
  {
    assert Unused(k.s, call.tid);
    match call {
      case CreateKernelTask(p, t, pid, tid, space, entry, c) => var _ := k.CreateKernelTask(p, t, pid, tid, space, entry, c);
      case CreateTask(p, t, tid, space, entry, c) => var _ := k.CreateTask(p, t, tid, space, entry, c);
    }
  }

  method ServeRemoval(k: Kernel, call: Call)
    requires k.Valid() && Due(k.s, call) && (call.DestroyKernelTask? || call.DestroyTask? || call.Reap?)
    modifies k, k.vm, k.vm.pmm`freeFrames, k.vm.pmm`free, k.vm.pmm.bitmap
    ensures k.halted == old(k.halted) && k.Valid()
  {
    match call {
      case DestroyKernelTask(p, t) => var _, _ := k.DestroyKernelTask(p, t);
      case DestroyTask(p, t) => var _, _ := k.DestroyTask(p, t);
      case Reap => var _, _ := k.ReapOne();
    }
  }

  // ---- page tables beside the stacks ------------------------------------------------------

  /** Requests from the rest of the kernel. Those that would map or unmap a stack address, destroy the kernel's
      own address space or prepare it before it has an entry for the stacks are skipped. */
  method ServePages(k: Kernel, request: VmmRuns.Call)
    requires k.Valid()
    modifies k.vm, k.vm.pmm`freeFrames, k.vm.pmm`free, k.vm.pmm.bitmap
    ensures k.Valid()
  {
    var own := k.vm.kernelRoot;
    match request {
      case Create => CreateBeside(k);
      case Map(root, va, pa, flags) => if root != own || Away(k.s.start, va) { MapBeside(k, root, va, pa, flags); }
      case Unmap(root, va) => if root != own || Away(k.s.start, va) { UnmapBeside(k, root, va); }
      case Look(root, va) => var _, _ := k.vm.Translate(root, va);
      case Activate(root) => var _ := k.vm.Activate(root);
      case Destroy(root) => if root != own { DestroyBeside(k, root); }
      case Prepare => PrepareBeside(k);
    }
  }

  /** The tables have changed, but not where it matters for stacks. */
  lemma Beside(k: Kernel, v: Vm)
    requires Owned(k.s) && k.Counted() && Window(k.s.start, k.end) && LayoutOf(k.slots, k.guards, k.s.start) && k.vm.Valid()
    requires Backed(k.s, v, k.vm.kernelRoot, k.vm.usable, k.slots, k.guards)
    requires StacksLeftAlone(k.s, v, k.vm.v, k.vm.kernelRoot, k.slots, k.guards)
    ensures k.Valid()
  {
    BackedElsewhere(k.s, v, k.vm.v, k.vm.kernelRoot, k.vm.usable, k.slots, k.guards);
  }

  lemma KernelRooted(k: Kernel)
    requires k.Valid()
    ensures Root(k.vm.v, k.vm.kernelRoot) && |k.slots| == MAX_TASKS == |k.guards|
  {
    assert Open(BACKED);
  }

  lemma RestoredBeside(k: Kernel, v: Vm)
    requires Root(v, k.vm.kernelRoot) && Good(v, {}) && Restored(v, k.vm.v) && |k.slots| == MAX_TASKS == |k.guards|
    ensures StacksLeftAlone(k.s, v, k.vm.v, k.vm.kernelRoot, k.slots, k.guards)
  {
    RestoredWalks(v, k.vm.v, {});
    NoneElsewhere(k.s, v, k.vm.v, k.vm.kernelRoot, k.slots, k.guards);
  }

  method CreateBeside(k: Kernel)
    requires k.Valid()
    modifies k.vm`mem, k.vm`registry, k.vm`v, k.vm`tableAt, k.vm`spaces, k.vm`roots, k.vm`rootAt, k.vm.pmm`freeFrames, k.vm.pmm`free, k.vm.pmm.bitmap
    ensures k.Valid()
  {
    ghost var v := k.vm.v;
    KernelRooted(k);
    var root := k.vm.CreateSpace();
    if root == 0 {
      RestoredBeside(k, v);
    } else {
      NoneElsewhere(k.s, v, k.vm.v, k.vm.kernelRoot, k.slots, k.guards);
    }
    Beside(k, v);
  }

  method MapBeside(k: Kernel, root: nat, va: nat, pa: nat, flags: nat)
    requires k.Valid() && (root != k.vm.kernelRoot || Away(k.s.start, va))
    modifies k.vm`mem, k.vm`registry, k.vm`v, k.vm`tableAt, k.vm.pmm`freeFrames, k.vm.pmm`free, k.vm.pmm.bitmap
    ensures k.Valid()
  {
    ghost var v := k.vm.v;
    KernelRooted(k);
    if root == k.vm.kernelRoot { AwayFromStacks(k.slots, k.guards, k.s.start, k.end, va); }
    var code := k.vm.MapPage(root, va, pa, flags);
    if code == 0 {
      OneKeyElsewhere(k.s, v, k.vm.v, k.vm.kernelRoot, root, KeyOf(va), Page(LeafEntry(pa, flags), 0), k.slots, k.guards);
    } else {
      RestoredBeside(k, v);
    }
    Beside(k, v);
  }

  method UnmapBeside(k: Kernel, root: nat, va: nat)
    requires k.Valid() && (root != k.vm.kernelRoot || Away(k.s.start, va))
    modifies k.vm`mem, k.vm`v
    ensures k.Valid()
  {
    ghost var v := k.vm.v;
    KernelRooted(k);
    if root == k.vm.kernelRoot { AwayFromStacks(k.slots, k.guards, k.s.start, k.end, va); }
    var code, _ := k.vm.UnmapPage(root, va);
    if code == 0 {
      OneKeyElsewhere(k.s, v, k.vm.v, k.vm.kernelRoot, root, KeyOf(va), NotMapped, k.slots, k.guards);
      Beside(k, v);
    }
  }

  method DestroyBeside(k: Kernel, root: nat)
    requires k.Valid() && root != k.vm.kernelRoot
    modifies k.vm`mem, k.vm`registry, k.vm`v, k.vm`tableAt, k.vm`spaces, k.vm`roots, k.vm`rootAt, k.vm`epoch, k.vm`epochs, k.vm`lastClone
    modifies k.vm.pmm`freeFrames, k.vm.pmm`free, k.vm.pmm.bitmap
    ensures k.Valid()
  {
    ghost var v := k.vm.v;
    KernelRooted(k);
    var code := k.vm.DestroySpace(root);
    if code == 0 {
      SpaceElsewhere(k.s, v, k.vm.v, k.vm.kernelRoot, root, k.slots, k.guards);
      Beside(k, v);
    }
  }

  method PrepareBeside(k: Kernel)
    requires k.Valid()
    modifies k.vm`mem, k.vm`registry, k.vm`v, k.vm`tableAt, k.vm`lastClone, k.vm.pmm`freeFrames, k.vm.pmm`free, k.vm.pmm.bitmap
    ensures k.Valid()
  {
    ghost var v := k.vm.v;
    KernelRooted(k);
    var own, start := k.vm.kernelRoot, k.s.start;
    TableFacts(v, {}, own);
    var first := k.vm.Load(own, KeyOf(start).pml4);
    var last := k.vm.Load(own, KeyOf(start + MAX_TASKS * SLOT_SIZE - 1).pml4);
    if !first.present || !last.present { return; }
    CoveredWindow(v, own, k.slots, k.guards, start, k.end);
    PrepareCovered(k);
  }

  method PrepareCovered(k: Kernel)
    requires k.Valid() && Covered(k.vm.v, k.vm.kernelRoot, k.slots, k.guards)
    modifies k.vm`mem, k.vm`registry, k.vm`v, k.vm`tableAt, k.vm`lastClone, k.vm.pmm`freeFrames, k.vm.pmm`free, k.vm.pmm.bitmap
    ensures k.Valid()
  {
    ghost var v, own := k.vm.v, k.vm.kernelRoot;
    KernelRooted(k);
    var code := k.vm.Prepare();
    if code != 0 {
      RestoredBeside(k, v);
    } else if k.vm.cr3 != k.vm.kernelRoot {
      PreparedElsewhere(k.s, v, k.vm.v, own, k.vm.cr3, k.slots, k.guards);
    } else {
      NoneElsewhere(k.s, v, k.vm.v, own, k.slots, k.guards);
    }
    Beside(k, v);
  }

  /** Every registered task is in the one place its state names, and in no other. */
  ghost predicate EachOwnedOnce(s: State) {
    forall t, place: Place | Known(s, t) ::
      s.tasks[t].state != New && s.tasks[t].state != Sleeping && (At(s, t, place) <==> place == PlaceOf(s.tasks[t]))
  }

  /** After any sequence of calls from boot, until the CPU halts for want of a ready task: every registered
      task has the one owner its state names, and exactly the registered tasks' stacks are mapped. Calls
      that are not due are skipped. */
  method RunFrom(vm: Vmm, start: nat, end: nat, calls: seq<Call>) returns (k: Kernel)
    requires vm.Valid() && Root(vm.v, vm.kernelRoot) && Window(start, end)
    requires forall m | m in vm.usable :: m < FRAME_LIMIT
    requires forall a: nat | start <= a < start + MAX_TASKS * SLOT_SIZE :: Walk(vm.v.mem, vm.kernelRoot, PML4, KeyOf(a)) == NotMapped
    modifies vm, vm.pmm`freeFrames, vm.pmm`free, vm.pmm.bitmap
    ensures !k.halted ==> k.Valid()
    ensures !k.halted ==> |k.s.registry| == MAX_TASKS == |k.slots| == |k.guards|
                          && Facts(k.s, k.vm.v, k.vm.kernelRoot, k.vm.usable, k.slots, k.guards)
    ensures !k.halted ==> EachOwnedOnce(k.s)
  {
    k := new Kernel(vm, start, end);
    var i := 0;
    while i < |calls| && !k.halted
      invariant fresh(k) && k.vm == vm && vm.pmm.bitmap == old(vm.pmm.bitmap)
      invariant !k.halted ==> k.Valid()
      decreases |calls| - i
    {
      if Due(k.s, calls[i]) { Serve(k, calls[i]); }
      i := i + 1;
    }
    if !k.halted { Summary(k); }
  }

  /** The same from nothing but the memory map, what is in memory and the tables the boot loader left: the
      kernel comes up exactly if some frame is free, and then all of this holds after any sequence of calls. */
  method RunFromBoot(regions: seq<Region>, responses: bool, ram: Mem, cr3: nat, start: nat, end: nat, calls: seq<Call>)
    returns (vm: Vmm, k: Kernel?)
    requires VmmRuns.BootMemory(regions, ram, cr3) && Window(start, end)
    requires forall f | f in UsableFrames(regions) :: f < FRAME_LIMIT
    ensures k == null <==> vm.usable == {}
    ensures k != null && !k.halted ==> k.Valid() && EachOwnedOnce(k.s)
    ensures k != null && !k.halted ==> |k.s.registry| == MAX_TASKS == |k.slots| == |k.guards|
                                       && Facts(k.s, k.vm.v, k.vm.kernelRoot, k.vm.usable, k.slots, k.guards)
  {
    vm := VmmRuns.Boot(regions, responses, ram, cr3);
    k := null;
    vm.Init();
    if vm.kernelRoot != 0 { k := RunFrom(vm, start, end, calls); }
  }

  lemma Summary(k: Kernel)
    requires k.Valid()
    ensures |k.s.registry| == MAX_TASKS == |k.slots| == |k.guards|
            && Facts(k.s, k.vm.v, k.vm.kernelRoot, k.vm.usable, k.slots, k.guards)
    ensures EachOwnedOnce(k.s)
  {
    assert Open(BACKED);
    assert Inv(k.s) by { assert Open(OWNED); }
    forall t, place: Place | Known(k.s, t)
      ensures k.s.tasks[t].state != New && k.s.tasks[t].state != Sleeping && (At(k.s, t, place) <==> place == PlaceOf(k.s.tasks[t]))
    {
      OneOwner(k.s, t, place);
    }
  }
}
