/** Runs of the page-table manager from a fresh machine (kernel/mm/vmm/vmm.c). */
module VmmRuns {
  import opened Guard
  import opened Frames
  import opened Paging
  import opened Trees
  import Cloning
  import opened VirtualMemory

  datatype Call =
    | Create
    | Map(root: nat, va: nat, pa: nat, flags: nat)
    | Unmap(root: nat, va: nat)
    | Look(root: nat, va: nat)
    | Activate(root: nat)
    | Destroy(root: nat)
    | Prepare

  /** Preparation is asked for only while the kernel's address space is registered. */
  method Serve(vm: Vmm, call: Call)
    requires vm.Valid()
    modifies vm, vm.pmm`freeFrames, vm.pmm`free, vm.pmm.bitmap
    ensures vm.Valid()
  {
    match call {
      case Create => var _ := vm.CreateSpace();
      case Map(root, va, pa, flags) => var _ := vm.MapPage(root, va, pa, flags);
      case Unmap(root, va) => var _, _ := vm.UnmapPage(root, va);
      case Look(root, va) => var _, _ := vm.Translate(root, va);
      case Activate(root) => var _ := vm.Activate(root);
      case Destroy(root) => var _ := vm.DestroySpace(root);
      case Prepare =>
        SpaceFacts(vm.v, vm.roots, vm.active, vm.kernelRoot);
        var found, _ := vm.FindSpace(vm.kernelRoot);
        if found { var _ := vm.Prepare(); }
    }
  }

  /** What the memory map promises: usable regions are memory, and the boot loader's tables, which CR3 refers
      to, lie outside them, be it in other regions or beyond the map. */
  ghost predicate BootMemory(regions: seq<Region>, ram: Mem, cr3: nat) {
    NoOverflow(regions) && UsableFrames(regions) <= ram.Keys && Cloning.Readable(ram, UsableFrames(regions), cr3, PML4)
  }

  /** The two allocators as they are set up at boot. */
  method Boot(regions: seq<Region>, responses: bool, ram: Mem, cr3: nat) returns (vm: Vmm)
    requires BootMemory(regions, ram, cr3)
    ensures fresh(vm) && fresh(vm.pmm) && fresh(vm.pmm.bitmap) && vm.Valid() && vm.usable <= UsableFrames(regions)
    ensures vm.cr3 == cr3 && vm.v == Vm(ram, map[], map[], vm.usable) && vm.roots == map[] && vm.active == 0
    ensures vm.pmm.ready <==> responses && HasPlace(regions, BitmapNeed(regions))
    ensures !vm.pmm.ready ==> vm.usable == {}
    ensures vm.pmm.ready ==> forall f: nat :: f in vm.usable <==> Usable(regions, f) && f != 0 && !vm.pmm.Own(f)
  {
    var pmm := new Pmm();
    pmm.Init(regions, responses);
    assert !pmm.ready ==> pmm.free == {} by { assert Open(BITS); }
    Cloning.ReadableKept(ram, UsableFrames(regions), ram, pmm.free, cr3, PML4);
    vm := new Vmm(pmm, ram, cr3);
  }

  /** In every state that any sequence of calls leads to from boot, the registered tables form disjoint trees
      of correctly owned and levelled tables in used frames, every reference is the only one to its table,
      only usable frames are free, and at most one address space is active: the one in CR3. */
  method RunFrom(regions: seq<Region>, responses: bool, ram: Mem, cr3: nat, calls: seq<Call>) returns (vm: Vmm)
    requires BootMemory(regions, ram, cr3)
    ensures vm.Valid() && Separated(vm.v)
    ensures vm.pmm.free <= vm.usable <= UsableFrames(regions) && forall t | t in vm.v.tables :: t in vm.usable && t !in vm.pmm.free
    ensures forall r | r in vm.roots :: Root(vm.v, r) && (vm.roots[r] == Active <==> r == vm.active)
    ensures vm.active != 0 ==> vm.active in vm.roots && vm.cr3 == vm.active
  {
    vm := Boot(regions, responses, ram, cr3);
    vm.Init();
    for i := 0 to |calls|
      invariant vm.Valid() && fresh(vm) && fresh(vm.pmm) && fresh(vm.pmm.bitmap) && vm.usable <= UsableFrames(regions)
    {
      Serve(vm, calls[i]);
    }
    vm.Meaning();
  }

  /** A boot loader may well have put its tables in memory that the map covers: here they are one empty table
      in a region that is not usable, below one that is. */
  lemma LoaderInMap() returns (regions: seq<Region>, ram: Mem, cr3: nat)
    ensures BootMemory(regions, ram, cr3) && ram != map[] && cr3 in ram
    ensures exists r | r in regions :: !r.usable && r.First() <= cr3 < r.End()
    ensures exists r | r in regions :: cr3 < r.First() && r.usable
  {
    var kept, spare := Region(0x1000, 0x1000, false), Region(0x2000, 0x2000, true);
    regions, cr3 := [kept, spare], 1;
    ram := map[1 := Empty(), 2 := Empty(), 3 := Empty()];
    assert kept in regions && spare in regions && spare.First() == 2;
    assert forall f: nat | Usable(regions, f) :: 2 <= f < 4;
    assert 1 in ram && ram[1] == Empty();
    assert forall i | 0 <= i < ENTRIES :: !Ref(Empty()[i]);
  }
}
