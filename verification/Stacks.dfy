/** Kernel stacks of tasks: four mapped pages and a guard page per task identifier
    (kernel/sched/task.c, kernel/sched/task.h, kernel/linker.ld). */
module Stacks {
  import opened Frames
  import opened Guard
  import opened Paging
  import opened Ways
  import opened Costs
  import opened VirtualMemory
  import opened Tasks

  const WORD_LIMIT: nat := 0x1_0000_0000_0000_0000
  const SEGMENT: nat := 0x1_0000_0000_0000
  const WRITABLE: nat := 2
  const PAGES: nat := 4

  // ---- where stacks are -------------------------------------------------------------------

  /** The stack address of a task identifier in 64-bit arithmetic; 0 when there is none. */
  function StackVirtual(start: nat, end: nat, id: nat): nat {
    if id == 0 || id > MAX_TASKS then 0
    else
      var base := StackBase(start, id) % WORD_LIMIT;
      var top := (base + STACK_SIZE) % WORD_LIMIT;
      if base < start || top < base || top > end then 0 else base
  }

  /** The window the linker reserves: 256 slots of 20 KiB, inside one half of the address space. */
  predicate Window(start: nat, end: nat) {
    && 0 < start && start % PAGE == 0 && start + MAX_TASKS * SLOT_SIZE <= end < WORD_LIMIT
    && start / SEGMENT == (start + MAX_TASKS * SLOT_SIZE) / SEGMENT
  }

  /** Exactly the identifiers 1..256 have a stack; it lies in the window, above its guard page. */
  lemma StackInWindow(start: nat, end: nat, id: nat)
    requires Window(start, end)
    ensures StackVirtual(start, end, id) != 0 <==> 1 <= id <= MAX_TASKS
    ensures 1 <= id <= MAX_TASKS ==> StackVirtual(start, end, id) == StackBase(start, id)
                                     && start + GUARD_SIZE <= StackBase(start, id)
                                     && StackBase(start, id) + STACK_SIZE <= start + MAX_TASKS * SLOT_SIZE
                                     && StackBase(start, id) % PAGE == 0
  {
  }

  /** Distinct pages of one segment have distinct translation keys. */
  lemma KeysApart(a: nat, b: nat)
    requires a % PAGE == 0 && b % PAGE == 0 && a / SEGMENT == b / SEGMENT
    ensures KeyOf(a) == KeyOf(b) <==> a == b
  {
    KeyBits(a, b);
    SegmentPages(a);
    SegmentPages(b);
    SamePage(a / SEGMENT, a / 0x1000, b / 0x1000);
  }

  lemma SegmentPages(a: nat)
    requires a % PAGE == 0
    ensures a == a / 0x1000 * 0x1000 && a / SEGMENT == a / 0x1000 / 0x10_0000_0000
  {
  }

  lemma SamePage(segment: nat, n: nat, m: nat)
    requires n / 0x10_0000_0000 == segment == m / 0x10_0000_0000
    ensures n % 0x10_0000_0000 == m % 0x10_0000_0000 <==> n == m
  {
  }

  // ---- frames -----------------------------------------------------------------------------

  /** Only the set of free frames changes, and no table is in it. */
  lemma FreeChanged(v: Vm, free: set<nat>, w: Vm)
    requires Good(v, {}) && w == Vm(v.mem, v.tables, v.up, free) && forall t | t in v.tables :: t !in free
    ensures Good(w, {}) && SameWalks(v, w)
  {
    assert Open(TREES);
    assert forall p, i {:trigger Edge(w, p, i)} :: Edge(w, p, i) == Edge(v, p, i);
  }

  method TakeFrame(vm: Vmm) returns (f: nat)
    requires vm.Valid()
    modifies vm`v, vm.pmm`freeFrames, vm.pmm`free, vm.pmm.bitmap
    ensures vm.Valid()
    ensures f == 0 <==> old(vm.v).free == {}
    ensures f != 0 ==> f in old(vm.v).free && f in vm.usable && f !in vm.v.tables
    ensures vm.v == if f == 0 then old(vm.v) else Vm(old(vm.v).mem, old(vm.v).tables, old(vm.v).up, old(vm.v).free - {f})
  {
    assert forall t | t in vm.v.tables :: t !in vm.v.free by { assert Open(TREES); }
    f := vm.GetFrame();
    FreeChanged(old(vm.v), vm.v.free, vm.v);
    SpacesKept(old(vm.v), vm.v, vm.roots, vm.active);
  }

  /** A frame that the allocator handed out and that is no table, or one that it does not take back. */
  ghost predicate Returnable(v: Vm, f: nat, usable: set<nat>, managed: set<nat>) {
    f !in v.tables && (f in managed ==> f in usable)
  }

  method GiveFrame(vm: Vmm, f: nat)
    requires vm.Sane()
    modifies vm`v, vm`stray, vm.pmm`freeFrames, vm.pmm`free, vm.pmm.bitmap
    ensures vm.Sane()
    ensures vm.v == Vm(old(vm.v).mem, old(vm.v).tables, old(vm.v).up,
                       if f in vm.usable && f !in old(vm.v).tables then old(vm.v).free + {f} else old(vm.v).free)
    ensures vm.stray == old(vm.stray) + if f in vm.pmm.managed && !Returnable(vm.v, f, vm.usable, vm.pmm.managed) then {f} else {}
  {
    assert forall t | t in vm.v.tables :: t !in vm.v.free by { assert Open(TREES); }
    vm.PutAny(f);
    FreeChanged(old(vm.v), vm.v.free, vm.v);
    SpacesKept(old(vm.v), vm.v, vm.roots, vm.active);
  }

  // ---- taking a slot's pages away ---------------------------------------------------------

  /** The translation keys of the four pages of a slot. */
  ghost predicate Keys(keys: seq<Path>) {
    |keys| == PAGES && forall i, j | 0 <= i < j < |keys| :: keys[i] != keys[j]
  }

  const KEYS: int := -7

  ghost predicate KeysOf(keys: seq<Path>, base: nat) {
    && Keys(keys) && base % PAGE == 0
    && forall n {:trigger Open(n)} :: Open(n) && n == KEYS ==> forall j: nat | j < PAGES :: keys[j] == KeyOf(base + j * PAGE)
  }

  ghost function SlotKeys(base: nat): (keys: seq<Path>)
    requires base % PAGE == 0 && base / SEGMENT == (base + STACK_SIZE - 1) / SEGMENT
    ensures KeysOf(keys, base)
  {
    var keys := [KeyOf(base), KeyOf(base + PAGE), KeyOf(base + 2 * PAGE), KeyOf(base + 3 * PAGE)];
    PagesApart(base, 0, 1); PagesApart(base, 0, 2); PagesApart(base, 0, 3);
    PagesApart(base, 1, 2); PagesApart(base, 1, 3); PagesApart(base, 2, 3);
    assert forall j: nat | j < PAGES :: keys[j] == KeyOf(base + j * PAGE);
    keys
  }

  lemma PagesApart(base: nat, i: nat, j: nat)
    requires base % PAGE == 0 && base / SEGMENT == (base + STACK_SIZE - 1) / SEGMENT && i < j < PAGES
    ensures KeyOf(base + i * PAGE) != KeyOf(base + j * PAGE)
  {
    OffsetsApart(base, i * PAGE, j * PAGE);
  }

  lemma OffsetsApart(base: nat, a: nat, b: nat)
    requires base % PAGE == 0 && base / SEGMENT == (base + STACK_SIZE - 1) / SEGMENT
    requires a < STACK_SIZE && b < STACK_SIZE && a % PAGE == 0 && b % PAGE == 0 && a != b
    ensures KeyOf(base + a) != KeyOf(base + b)
  {
    PageSegment(base, a);
    PageSegment(base, b);
    Aligned(base, a);
    Aligned(base, b);
    KeysApart(base + a, base + b);
  }

  lemma Aligned(a: nat, b: nat)
    requires a % PAGE == 0 && b % PAGE == 0
    ensures (a + b) % PAGE == 0
  {
  }

  lemma PageSegment(base: nat, offset: nat)
    requires base / SEGMENT == (base + STACK_SIZE - 1) / SEGMENT && offset < STACK_SIZE
    ensures (base + offset) / SEGMENT == base / SEGMENT
  {
  }

  lemma KeyAt(keys: seq<Path>, base: nat, j: nat)
    requires KeysOf(keys, base) && j < PAGES
    ensures keys[j] == KeyOf(base + j * PAGE) && (base + j * PAGE) % PAGE == 0
  {
    assert Open(KEYS);
  }

  ghost predicate IsKey(keys: seq<Path>, n: nat, k: Path) {
    exists j: nat | j < n && j < |keys| :: k == keys[j]
  }

  ghost predicate Small(x: Walked) { x.Page? && x.level == 0 }

  /** Page j of the slot is a 4 KiB mapping of frame f. */
  ghost predicate Held(w: Vm, root: nat, keys: seq<Path>, j: nat, f: nat) {
    j < |keys| && Root(w, root) && var x := Walk(w.mem, root, PML4, keys[j]); Small(x) && x.entry.frame == f
  }

  /** The first n pages of the slot have lost their mappings, and nothing else has changed. */
  ghost predicate Cleared(w: Vm, v: Vm, root: nat, keys: seq<Path>, n: nat) {
    && (forall r | Root(w, r) :: Root(v, r))
    && (forall r, k: Path | Root(w, r) ::
          Walk(v.mem, r, PML4, k) ==
          if r == root && IsKey(keys, n, k) && Small(Walk(w.mem, r, PML4, k)) then NotMapped else Walk(w.mem, r, PML4, k))
  }

  /** Of the usable frames that are no tables, exactly those mapped by the first n pages have become free. */
  ghost predicate Freed(w: Vm, v: Vm, root: nat, keys: seq<Path>, n: nat, usable: set<nat>) {
    && v.tables == w.tables
    && forall f :: f in v.free <==> f in w.free || (f in usable && f !in w.tables && exists j: nat | j < n :: Held(w, root, keys, j, f))
  }

  /** The frames gone astray are those mapped by the first n pages that are tables or were never handed out. */
  ghost predicate Strayed(w: Vm, v: Vm, stray: set<nat>, root: nat, keys: seq<Path>, n: nat, usable: set<nat>, managed: set<nat>) {
    forall f :: f in stray <==> f in managed && !Returnable(v, f, usable, managed) && exists j: nat | j < n :: Held(w, root, keys, j, f)
  }

  /** What the first n pages map can be given back. */
  ghost predicate Releasable(w: Vm, root: nat, keys: seq<Path>, n: nat, usable: set<nat>, managed: set<nat>) {
    forall j: nat, f | j < n && Held(w, root, keys, j, f) && f in managed :: Returnable(w, f, usable, managed)
  }

  lemma NoneAstray(w: Vm, v: Vm, stray: set<nat>, root: nat, keys: seq<Path>, n: nat, usable: set<nat>, managed: set<nat>)
    requires Strayed(w, v, stray, root, keys, n, usable, managed) && v.tables == w.tables
    ensures stray == {} <==> Releasable(w, root, keys, n, usable, managed)
  {
    if stray != {} {
      var f :| f in stray;
      var j: nat :| j < n && Held(w, root, keys, j, f);
    } else {
      forall j: nat, f | j < n && Held(w, root, keys, j, f) && f in managed ensures Returnable(w, f, usable, managed) {
        assert f !in stray;
      }
    }
  }

  lemma ClearedAt(w: Vm, v: Vm, root: nat, keys: seq<Path>, j: nat)
    requires Keys(keys) && j < PAGES && Cleared(w, v, root, keys, j) && Root(w, root)
    ensures Root(v, root) && Walk(v.mem, root, PML4, keys[j]) == Walk(w.mem, root, PML4, keys[j])
  {
    assert !IsKey(keys, j, keys[j]);
  }

  lemma IsKeyNext(keys: seq<Path>, j: nat, k: Path)
    requires j < |keys|
    ensures IsKey(keys, j + 1, k) <==> IsKey(keys, j, k) || k == keys[j]
  {
    if IsKey(keys, j + 1, k) {
      var i: nat :| i < j + 1 && i < |keys| && k == keys[i];
      assert i == j || IsKey(keys, j, k);
    }
  }

  lemma ClearedNext(w: Vm, v: Vm, u: Vm, root: nat, keys: seq<Path>, j: nat, unmapped: bool)
    requires Keys(keys) && j < PAGES && Cleared(w, v, root, keys, j)
    requires unmapped ==> WalksChanged(v, u, root, keys[j], NotMapped)
    requires unmapped && Root(w, root) ==> Small(Walk(w.mem, root, PML4, keys[j]))
    requires !unmapped ==> u == v && !(Root(w, root) && Small(Walk(w.mem, root, PML4, keys[j])))
    ensures Cleared(w, u, root, keys, j + 1)
  {
    forall r, k: Path | Root(w, r)
      ensures Walk(u.mem, r, PML4, k) ==
              if r == root && IsKey(keys, j + 1, k) && Small(Walk(w.mem, r, PML4, k)) then NotMapped else Walk(w.mem, r, PML4, k)
    {
      IsKeyNext(keys, j, k);
    }
  }

  lemma HeldNext(w: Vm, root: nat, keys: seq<Path>, j: nat, f: nat)
    ensures (exists i: nat | i < j + 1 :: Held(w, root, keys, i, f)) <==> (exists i: nat | i < j :: Held(w, root, keys, i, f)) || Held(w, root, keys, j, f)
  {
    if exists i: nat | i < j + 1 :: Held(w, root, keys, i, f) {
      var i: nat :| i < j + 1 && Held(w, root, keys, i, f);
      assert i == j || exists i': nat | i' < j :: Held(w, root, keys, i', f);
    }
  }

  lemma FreedNext(w: Vm, v: Vm, u: Vm, root: nat, keys: seq<Path>, j: nat, usable: set<nat>, unmapped: bool, frame: nat)
    requires Freed(w, v, root, keys, j, usable) && u.tables == v.tables && j < |keys|
    requires unmapped ==> Held(w, root, keys, j, frame)
    requires unmapped ==> u.free == if frame in usable && frame !in v.tables then v.free + {frame} else v.free
    requires !unmapped ==> u.free == v.free && forall f :: !Held(w, root, keys, j, f)
    ensures Freed(w, u, root, keys, j + 1, usable)
  {
    forall f ensures f in u.free <==> f in w.free || (f in usable && f !in w.tables && exists i: nat | i < j + 1 :: Held(w, root, keys, i, f)) {
      HeldNext(w, root, keys, j, f);
    }
  }

  lemma StrayedNext(w: Vm, v: Vm, u: Vm, stray: set<nat>, stray': set<nat>, root: nat, keys: seq<Path>, j: nat, usable: set<nat>,
                    managed: set<nat>, unmapped: bool, frame: nat)
    requires Strayed(w, v, stray, root, keys, j, usable, managed) && u.tables == v.tables && j < |keys|
    requires unmapped ==> Held(w, root, keys, j, frame)
    requires unmapped ==> stray' == stray + if frame in managed && !Returnable(u, frame, usable, managed) then {frame} else {}
    requires !unmapped ==> stray' == stray && forall f :: !Held(w, root, keys, j, f)
    ensures Strayed(w, u, stray', root, keys, j + 1, usable, managed)
  {
    forall f ensures f in stray' <==> f in managed && !Returnable(u, f, usable, managed) && exists i: nat | i < j + 1 :: Held(w, root, keys, i, f) {
      HeldNext(w, root, keys, j, f);
    }
  }

  /** Unmaps and frees whatever 4 KiB pages the slot maps. */
  method ClearSlot(vm: Vmm, root: nat, base: nat, ghost keys: seq<Path>)
    requires vm.Valid() && KeysOf(keys, base)
    modifies vm`mem, vm`v, vm`stray, vm.pmm`freeFrames, vm.pmm`free, vm.pmm.bitmap
    ensures vm.Sane()
    ensures Cleared(old(vm.v), vm.v, root, keys, PAGES) && Freed(old(vm.v), vm.v, root, keys, PAGES, vm.usable)
    ensures Strayed(old(vm.v), vm.v, vm.stray, root, keys, PAGES, vm.usable, vm.pmm.managed)
  {
    ghost var w := vm.v;
    for j := 0 to PAGES
      invariant vm.Sane()
      invariant Cleared(w, vm.v, root, keys, j) && Freed(w, vm.v, root, keys, j, vm.usable)
      invariant Strayed(w, vm.v, vm.stray, root, keys, j, vm.usable, vm.pmm.managed)
    {
      var _, _ := ClearPage(vm, root, base, j, keys, w);
    }
  }

  /** A small page found now in place j was there from the start. */
  lemma WhetherHeld(w: Vm, v: Vm, root: nat, keys: seq<Path>, j: nat, found: bool, frame: nat)
    requires Keys(keys) && j < PAGES && Cleared(w, v, root, keys, j) && v.tables == w.tables
    requires found <==> Root(v, root) && exists e :: Walk(v.mem, root, PML4, keys[j]) == Page(e, 0)
    requires found ==> exists e :: Walk(v.mem, root, PML4, keys[j]) == Page(e, 0) && frame == e.frame
    ensures found <==> exists f :: Held(w, root, keys, j, f)
    ensures found ==> Held(w, root, keys, j, frame)
  {
    if Root(w, root) { ClearedAt(w, v, root, keys, j); }
    if found { assert Held(w, root, keys, j, frame); }
  }

  lemma ClearedFrom(w: Vm, u: Vm, v: Vm, root: nat, keys: seq<Path>, n: nat)
    requires Cleared(w, u, root, keys, n) && v.mem == u.mem && v.tables == u.tables
    ensures Cleared(w, v, root, keys, n)
  {
  }

  lemma UnmappedNext(w: Vm, v: Vm, u: Vm, root: nat, keys: seq<Path>, j: nat, k: Path, unmapped: bool, frame: nat)
    requires Keys(keys) && j < PAGES && Cleared(w, v, root, keys, j) && v.tables == w.tables && k == keys[j]
    requires unmapped <==> Root(v, root) && exists e :: Walk(v.mem, root, PML4, k) == Page(e, 0)
    requires unmapped ==> exists e :: Walk(v.mem, root, PML4, k) == Page(e, 0) && frame == e.frame
    requires if unmapped then WalksChanged(v, u, root, k, NotMapped) else u == v
    ensures Cleared(w, u, root, keys, j + 1)
    ensures unmapped <==> exists f :: Held(w, root, keys, j, f)
    ensures unmapped ==> Held(w, root, keys, j, frame)
  {
    WhetherHeld(w, v, root, keys, j, unmapped, frame);
    if Root(w, root) && Small(Walk(w.mem, root, PML4, keys[j])) {
      assert Held(w, root, keys, j, Walk(w.mem, root, PML4, keys[j]).entry.frame);
    }
    ClearedNext(w, v, u, root, keys, j, unmapped);
  }

  method UnmapKey(vm: Vmm, root: nat, base: nat, j: nat, ghost keys: seq<Path>, ghost w: Vm) returns (code: int, frame: nat)
    requires vm.Sane() && KeysOf(keys, base) && j < PAGES && Cleared(w, vm.v, root, keys, j) && vm.v.tables == w.tables
    modifies vm`mem, vm`v
    ensures vm.Sane() && Cleared(w, vm.v, root, keys, j + 1)
    ensures vm.v.tables == w.tables && vm.v.free == old(vm.v).free && vm.v.up == old(vm.v).up
    ensures code == 0 <==> exists f :: Held(w, root, keys, j, f)
    ensures code == 0 ==> Held(w, root, keys, j, frame)
    ensures code != 0 ==> vm.v == old(vm.v)
  {
    ghost var v := vm.v;
    var va := base + j * PAGE;
    KeyAt(keys, base, j);
    code, frame := vm.UnmapPage(root, va);
    UnmappedNext(w, v, vm.v, root, keys, j, KeyOf(va), code == 0, frame);
  }

  method ClearPage(vm: Vmm, root: nat, base: nat, j: nat, ghost keys: seq<Path>, ghost w: Vm) returns (code: int, frame: nat)
    requires vm.Sane() && KeysOf(keys, base) && j < PAGES
    requires Cleared(w, vm.v, root, keys, j) && Freed(w, vm.v, root, keys, j, vm.usable)
    requires Strayed(w, vm.v, vm.stray, root, keys, j, vm.usable, vm.pmm.managed)
    modifies vm`mem, vm`v, vm`stray, vm.pmm`freeFrames, vm.pmm`free, vm.pmm.bitmap
    ensures vm.Sane()
    ensures Cleared(w, vm.v, root, keys, j + 1) && Freed(w, vm.v, root, keys, j + 1, vm.usable)
    ensures Strayed(w, vm.v, vm.stray, root, keys, j + 1, vm.usable, vm.pmm.managed)
    ensures code == 0 <==> exists f :: Held(w, root, keys, j, f)
    ensures code == 0 ==> Held(w, root, keys, j, frame)
    ensures code != 0 ==> vm.v == old(vm.v) && vm.stray == old(vm.stray)
  {
    ghost var v, lost := vm.v, vm.stray;
    code, frame := UnmapKey(vm, root, base, j, keys, w);
    ghost var u := vm.v;
    if code == 0 { GiveFrame(vm, frame); }
    ClearedFrom(w, u, vm.v, root, keys, j + 1);
    FreedNext(w, v, vm.v, root, keys, j, vm.usable, code == 0, frame);
    StrayedNext(w, v, vm.v, lost, vm.stray, root, keys, j, vm.usable, vm.pmm.managed, code == 0, frame);
  }

  // ---- mapping a slot ---------------------------------------------------------------------

  const FRAME_LIMIT: nat := 0x100_0000_0000

  /** A present, writable kernel page. */
  function StackLeaf(f: nat): Walked { Page(Entry(true, true, false, false, false, false, 0, f), 0) }

  lemma LeafFrame(f: nat)
    requires f < FRAME_LIMIT
    ensures Page(LeafEntry(f * PAGE, WRITABLE), 0) == StackLeaf(f)
  {
    assert f * PAGE / PAGE == f;
  }

  /** The pages mapped so far, none of which was mapped before, are all that translates differently. */
  ghost predicate BuiltWalks(w: Vm, v: Vm, root: nat, keys: seq<Path>, pages: seq<nat>)
    requires |pages| <= |keys|
  {
    && (forall r | Root(w, r) :: Root(v, r))
    && (forall r, k: Path | Root(w, r) && !(r == root && IsKey(keys, |pages|, k)) ::
          Walk(v.mem, r, PML4, k) == Walk(w.mem, r, PML4, k))
    && (forall j: nat | j < |pages| ::
          && Walk(v.mem, root, PML4, keys[j]) == StackLeaf(pages[j])
          && Walk(w.mem, root, PML4, keys[j]) == NotMapped)
  }

  /** At most this many frames and records were used up for n pages and their tables. */
  ghost predicate Spent(w: Vm, v: Vm, n: nat) { |w.free| <= |v.free| + 4 * n && |v.tables| <= |w.tables| + 3 * n }

  /** Of the free frames some became tables and the given ones became stack pages. */
  ghost predicate BuiltFrames(w: Vm, v: Vm, pages: seq<nat>, usable: set<nat>) {
    && Spent(w, v, |pages|)
    && (forall i, j | 0 <= i < j < |pages| :: pages[i] != pages[j])
    && (forall f | f in pages :: f in w.free && f in usable && f < FRAME_LIMIT && f !in v.free && f !in v.tables)
    && (forall f | f in v.free :: f in w.free)
    && (forall f | f in w.free :: f in v.free || f in v.tables || f in pages)
    && (forall t | t in v.tables :: t in w.tables || t in w.free)
    && (forall t | t in w.tables :: t in v.tables)
  }

  lemma BuiltWalksNext(w: Vm, v: Vm, u: Vm, root: nat, keys: seq<Path>, pages: seq<nat>, f: nat)
    requires Keys(keys) && |pages| < PAGES && BuiltWalks(w, v, root, keys, pages) && Root(w, root)
    requires WalksChanged(v, u, root, keys[|pages|], StackLeaf(f))
    requires Walk(v.mem, root, PML4, keys[|pages|]) == NotMapped
    ensures BuiltWalks(w, u, root, keys, pages + [f])
  {
    var n, more := |pages|, pages + [f];
    forall r, k: Path | Root(w, r) && !(r == root && IsKey(keys, n + 1, k))
      ensures Walk(u.mem, r, PML4, k) == Walk(w.mem, r, PML4, k)
    {
      IsKeyNext(keys, n, k);
    }
    NotKeyYet(keys, n);
    forall j: nat | j < |more|
      ensures Walk(u.mem, root, PML4, keys[j]) == StackLeaf(more[j])
              && Walk(w.mem, root, PML4, keys[j]) == NotMapped
    {
      assert j < n ==> keys[j] != keys[n];
    }
  }

  lemma NotKeyYet(keys: seq<Path>, n: nat)
    requires Keys(keys) && n < PAGES
    ensures !IsKey(keys, n, keys[n])
  {
  }

  lemma BuiltFramesNext(w: Vm, v: Vm, v1: Vm, u: Vm, pages: seq<nat>, f: nat, usable: set<nat>)
    requires BuiltFrames(w, v, pages, usable) && f in v.free && f in usable && f < FRAME_LIMIT && f !in v.tables
    requires v1 == Vm(v.mem, v.tables, v.up, v.free - {f}) && Taken(v1, u)
    ensures BuiltFrames(w, u, pages + [f], usable)
  {
  }

  /** Frames and records for n pages, each with all its tables. */
  ghost predicate Affords(v: Vm, n: nat) { 4 * n <= |v.free| && |v.tables| + 3 * n <= MAX_TABLES }

  /** The table of level l on the way to page j is not there, and on the way to no earlier page. */
  ghost predicate Lacking(mem: Mem, root: nat, keys: seq<Path>, j: nat, l: nat)
    requires j < |keys|
  {
    Reach(mem, root, PML4, keys[j], l) == 0 && forall i | 0 <= i < j :: !SameWay(keys[i], keys[j], l)
  }

  ghost function NewTables(mem: Mem, root: nat, keys: seq<Path>, j: nat): nat
    requires j < |keys|
  {
    (if Lacking(mem, root, keys, j, 0) then 1 else 0) + (if Lacking(mem, root, keys, j, 1) then 1 else 0)
    + (if Lacking(mem, root, keys, j, 2) then 1 else 0)
  }

  /** How many tables the first n pages lack altogether. */
  ghost function StackTables(mem: Mem, root: nat, keys: seq<Path>, n: nat): nat
    requires n <= |keys|
  {
    if n == 0 then 0 else StackTables(mem, root, keys, n - 1) + NewTables(mem, root, keys, n - 1)
  }

  const ROOM: int := -19

  /** There are frames and records for the first n pages and the tables they lack. */
  ghost predicate RoomFor(v: Vm, root: nat, keys: seq<Path>, n: nat) {
    n <= |keys| ==> n + StackTables(v.mem, root, keys, n) <= |v.free| && |v.tables| + StackTables(v.mem, root, keys, n) <= MAX_TABLES
  }

  /** There are frames and records for the stack and the tables it lacks. */
  ghost predicate StackRoom(v: Vm, root: nat, keys: seq<Path>) {
    forall n {:trigger Open(n)} :: Open(n) && n == ROOM ==> RoomFor(v, root, keys, PAGES)
  }

  /** After the first n pages: which tables there are, and what was used up. */
  ghost predicate Progress(w: Vm, v: Vm, root: nat, keys: seq<Path>, n: nat) {
    forall m {:trigger Open(m)} :: Open(m) && m == ROOM ==>
      && n <= |keys| && |w.free| == |v.free| + n + StackTables(w.mem, root, keys, n)
      && |v.tables| == |w.tables| + StackTables(w.mem, root, keys, n) <= MAX_TABLES
      && Standing(w, v, root, keys, n)
  }

  ghost predicate Standing(w: Vm, v: Vm, root: nat, keys: seq<Path>, n: nat)
    requires n <= |keys|
  {
    forall k: Path, l: nat | l < PML4 ::
      Reach(v.mem, root, PML4, k, l) != 0 <==> Reach(w.mem, root, PML4, k, l) != 0 || exists i: nat | i < n :: SameWay(keys[i], k, l)
  }

  lemma ProgressStart(w: Vm, root: nat, keys: seq<Path>)
    requires |w.tables| <= MAX_TABLES
    ensures Progress(w, w, root, keys, 0)
  {
  }

  /** What the next page lacks now is what it was counted to lack. */
  lemma MissingNow(w: Vm, v: Vm, root: nat, keys: seq<Path>, n: nat)
    requires n < |keys| && Standing(w, v, root, keys, n) && Good(v, {}) && Root(v, root)
    ensures Missing(v.mem, root, keys[n]) == NewTables(w.mem, root, keys, n)
  {
    var k := keys[n];
    assert Open(TREES);
    forall l: nat | l < PML4 ensures Reach(v.mem, root, PML4, k, l) == 0 <==> Lacking(w.mem, root, keys, n, l) {
    }
    if Reach(v.mem, root, PML4, k, 0) != 0 { ReachUp(v, root, PML4, k, 0); }
    if Reach(v.mem, root, PML4, k, 1) != 0 { ReachUp(v, root, PML4, k, 1); }
  }

  lemma StandingNext(w: Vm, v: Vm, u: Vm, root: nat, keys: seq<Path>, n: nat)
    requires n < |keys| && Standing(w, v, root, keys, n) && Root(v, root) && Extended(v, u, root, keys[n], 0)
    ensures Standing(w, u, root, keys, n + 1)
  {
    forall k: Path, l: nat | l < PML4
      ensures Reach(u.mem, root, PML4, k, l) != 0 <==> Reach(w.mem, root, PML4, k, l) != 0 || exists i: nat | i < n + 1 :: SameWay(keys[i], k, l)
    {
      if exists i: nat | i < n + 1 :: SameWay(keys[i], k, l) {
        var i: nat :| i < n + 1 && SameWay(keys[i], k, l);
        assert i < n || SameWay(keys[n], k, l);
      }
      if SameWay(keys[n], k, l) { assert n < n + 1 && SameWay(keys[n], k, l); }
    }
  }

  /** One more page, of the frame f, has been mapped. */
  lemma ProgressNext(w: Vm, v: Vm, v1: Vm, u: Vm, root: nat, keys: seq<Path>, n: nat, f: nat)
    requires n < |keys| && Progress(w, v, root, keys, n) && Good(v, {}) && Root(v, root)
    requires f in v.free && v1 == Vm(v.mem, v.tables, v.up, v.free - {f})
    requires Used(v1, u, Missing(v.mem, root, keys[n])) && WayOpened(v1, u, root, keys[n]) && |u.tables| <= MAX_TABLES
    ensures Progress(w, u, root, keys, n + 1) && RoomFor(w, root, keys, n + 1)
  {
    assert Open(ROOM);
    assert Open(WAY);
    MissingNow(w, v, root, keys, n);
    assert Extended(v, u, root, keys[n], 0);
    StandingNext(w, v, u, root, keys, n);
  }

  /** Without room for one more page there was none for the stack. */
  lemma NoProgress(w: Vm, v: Vm, root: nat, keys: seq<Path>, n: nat)
    requires n < |keys| && Progress(w, v, root, keys, n) && Good(v, {}) && Root(v, root)
    requires |v.free| < 1 + Missing(v.mem, root, keys[n]) || |v.tables| + Missing(v.mem, root, keys[n]) > MAX_TABLES
    ensures !RoomFor(w, root, keys, n + 1)
  {
    assert Open(ROOM);
    MissingNow(w, v, root, keys, n);
  }

  lemma {:induction false} RoomGrows(w: Vm, root: nat, keys: seq<Path>, n: nat, m: nat)
    requires n <= m <= |keys| && RoomFor(w, root, keys, m)
    ensures RoomFor(w, root, keys, n)
    decreases m - n
  {
    if n < m { RoomGrows(w, root, keys, n + 1, m); }
  }

  /** Three tables for each page always suffice. */
  lemma AffordsRoom(w: Vm, root: nat, keys: seq<Path>)
    requires Affords(w, PAGES) && |keys| == PAGES
    ensures StackRoom(w, root, keys)
  {
    AtMostThree(w.mem, root, keys, PAGES);
  }

  lemma {:induction false} AtMostThree(mem: Mem, root: nat, keys: seq<Path>, n: nat)
    requires n <= |keys|
    ensures StackTables(mem, root, keys, n) <= 3 * n
  {
    if n > 0 { AtMostThree(mem, root, keys, n - 1); }
  }

  const BUILD: int := -20

  /** The given pages have been mapped: what is translated now, which frames are where and what it took. */
  ghost predicate Building(w: Vm, v: Vm, root: nat, keys: seq<Path>, pages: seq<nat>, usable: set<nat>) {
    forall n {:trigger Open(n)} :: Open(n) && n == BUILD ==>
      |pages| <= |keys| && BuiltWalks(w, v, root, keys, pages) && BuiltFrames(w, v, pages, usable) && Progress(w, v, root, keys, |pages|)
  }

  lemma BuildingStart(w: Vm, root: nat, keys: seq<Path>, usable: set<nat>)
    requires |w.tables| <= MAX_TABLES
    ensures Building(w, w, root, keys, [], usable)
  {
    ProgressStart(w, root, keys);
  }

  lemma BuildingFacts(w: Vm, v: Vm, root: nat, keys: seq<Path>, pages: seq<nat>, usable: set<nat>)
    requires Building(w, v, root, keys, pages, usable)
    ensures |pages| <= |keys| && BuiltWalks(w, v, root, keys, pages) && BuiltFrames(w, v, pages, usable) && RoomFor(w, root, keys, |pages|)
  {
    assert Open(BUILD);
    assert Open(ROOM);
  }

  lemma PageBuilt(w: Vm, v: Vm, v1: Vm, u: Vm, root: nat, keys: seq<Path>, pages: seq<nat>, f: nat, usable: set<nat>)
    requires Keys(keys) && |pages| < PAGES && Root(w, root) && Good(v, {}) && |u.tables| <= MAX_TABLES
    requires Building(w, v, root, keys, pages, usable)
    requires f in v.free && f in usable && f < FRAME_LIMIT && f !in v.tables && v1 == Vm(v.mem, v.tables, v.up, v.free - {f})
    requires var k := keys[|pages|];
             && WalksChanged(v1, u, root, k, StackLeaf(f)) && Taken(v1, u) && Walk(v1.mem, root, PML4, k) == NotMapped
             && WayOpened(v1, u, root, k) && Used(v1, u, Missing(v1.mem, root, k))
    ensures Building(w, u, root, keys, pages + [f], usable)
  {
    assert Open(BUILD);
    OnePageMore(w, v, v1, u, root, keys, pages, f, usable);
  }

  lemma OnePageMore(w: Vm, v: Vm, v1: Vm, u: Vm, root: nat, keys: seq<Path>, pages: seq<nat>, f: nat, usable: set<nat>)
    requires Keys(keys) && |pages| < PAGES && Root(w, root) && Good(v, {}) && |u.tables| <= MAX_TABLES
    requires BuiltWalks(w, v, root, keys, pages) && BuiltFrames(w, v, pages, usable) && Progress(w, v, root, keys, |pages|)
    requires f in v.free && f in usable && f < FRAME_LIMIT && f !in v.tables && v1 == Vm(v.mem, v.tables, v.up, v.free - {f})
    requires var k := keys[|pages|];
             && WalksChanged(v1, u, root, k, StackLeaf(f)) && Taken(v1, u) && Walk(v1.mem, root, PML4, k) == NotMapped
             && WayOpened(v1, u, root, k) && Used(v1, u, Missing(v1.mem, root, k))
    ensures BuiltWalks(w, u, root, keys, pages + [f]) && BuiltFrames(w, u, pages + [f], usable)
    ensures Progress(w, u, root, keys, |pages| + 1)
  {
    BuiltWalksNext(w, v, u, root, keys, pages, f);
    BuiltFramesNext(w, v, v1, u, pages, f, usable);
    ProgressNext(w, v, v1, u, root, keys, |pages|, f);
  }

  /** No frame, or a frame that could not be mapped. */
  lemma PageRefused(w: Vm, v: Vm, v1: Vm, root: nat, keys: seq<Path>, pages: seq<nat>, f: nat, usable: set<nat>)
    requires Keys(keys) && |pages| < PAGES && Root(w, root) && Good(v, {}) && Building(w, v, root, keys, pages, usable)
    requires if f == 0 then v.free == {} else f in v.free && v1 == Vm(v.mem, v.tables, v.up, v.free - {f}) && !CanMap(v1, root, keys[|pages|])
    ensures !RoomFor(w, root, keys, |pages| + 1) || Walk(w.mem, root, PML4, keys[|pages|]) != NotMapped
  {
    assert Open(BUILD);
    BuiltElsewhere(w, v, root, keys, pages, |pages|);
    if Walk(w.mem, root, PML4, keys[|pages|]) == NotMapped { NoProgress(w, v, root, keys, |pages|); }
  }

  /** The frame was given back. */
  lemma StillBuilt(w: Vm, v: Vm, u: Vm, root: nat, keys: seq<Path>, pages: seq<nat>, f: nat, usable: set<nat>)
    requires Building(w, v, root, keys, pages, usable) && Root(w, root) && SameWalks(v, u) && u.tables == v.tables
    requires if f == 0 then u == v else f in v.free && u.free == v.free - {f} + {f}
    ensures |pages| <= |keys| && BuiltWalks(w, u, root, keys, pages) && BuiltFrames(w, u, pages, usable)
  {
    assert Open(BUILD);
    assert u.free == v.free;
    SameFrames(w, v, u, pages, usable);
  }

  lemma SameFrames(w: Vm, v: Vm, u: Vm, pages: seq<nat>, usable: set<nat>)
    requires BuiltFrames(w, v, pages, usable) && u.free == v.free && u.tables == v.tables
    ensures BuiltFrames(w, u, pages, usable)
  {
  }

  /** One more page: a frame is taken and mapped, or given back if it cannot be mapped. */
  method BuildPage(vm: Vmm, root: nat, base: nat, pages: seq<nat>, ghost keys: seq<Path>, ghost w: Vm) returns (f: nat)
    requires vm.Valid() && KeysOf(keys, base) && |pages| < PAGES && forall m | m in vm.usable :: m < FRAME_LIMIT
    requires Building(w, vm.v, root, keys, pages, vm.usable) && Root(w, root) && Root(vm.v, root)
    modifies vm`mem, vm`registry, vm`v, vm`stray, vm`tableAt, vm.pmm`freeFrames, vm.pmm`free, vm.pmm.bitmap
    ensures vm.Valid() && Root(vm.v, root)
    ensures f != 0 ==> Building(w, vm.v, root, keys, pages + [f], vm.usable)
    ensures f == 0 ==> BuiltWalks(w, vm.v, root, keys, pages) && BuiltFrames(w, vm.v, pages, vm.usable)
    ensures f == 0 ==> !RoomFor(w, root, keys, |pages| + 1) || Walk(w.mem, root, PML4, keys[|pages|]) != NotMapped
  {
    ghost var v := vm.v;
    f := TakeFrame(vm);
    ghost var v1 := vm.v;
    if f == 0 {
      PageRefused(w, v, v1, root, keys, pages, 0, vm.usable);
      StillBuilt(w, v, v, root, keys, pages, 0, vm.usable);
      return;
    }
    KeyAt(keys, base, |pages|);
    var ok := PlaceFrame(vm, root, base + |pages| * PAGE, f, keys[|pages|]);
    if ok {
      vm.Capacity();
      PageBuilt(w, v, v1, vm.v, root, keys, pages, f, vm.usable);
    } else {
      PageRefused(w, v, v1, root, keys, pages, f, vm.usable);
      StillBuilt(w, v, vm.v, root, keys, pages, f, vm.usable);
      f := 0;
    }
  }

  /** Maps a frame just taken, or gives it back. */
  method PlaceFrame(vm: Vmm, root: nat, va: nat, f: nat, ghost k: Path) returns (ok: bool)
    requires vm.Valid() && va % PAGE == 0 && k == KeyOf(va) && f in vm.usable && f < FRAME_LIMIT && f !in vm.v.tables
    modifies vm`mem, vm`registry, vm`v, vm`stray, vm`tableAt, vm.pmm`freeFrames, vm.pmm`free, vm.pmm.bitmap
    ensures vm.Valid()
    ensures ok ==> WalksChanged(old(vm.v), vm.v, root, k, StackLeaf(f)) && Taken(old(vm.v), vm.v)
    ensures ok ==> Walk(old(vm.v).mem, root, PML4, k) == NotMapped
    ensures !ok ==> SameWalks(old(vm.v), vm.v) && vm.v.tables == old(vm.v).tables && vm.v.free == old(vm.v).free + {f}
    ensures ok ==> WayOpened(old(vm.v), vm.v, root, k) && Used(old(vm.v), vm.v, Missing(old(vm.v).mem, root, k))
    ensures !ok && Root(old(vm.v), root) ==> !CanMap(old(vm.v), root, k)
  {
    ghost var v1 := vm.v;
    LeafFrame(f);
    var code := vm.MapPage(root, va, f * PAGE, WRITABLE);
    if code == 0 { return true; }
    RestoredWalks(v1, vm.v, {});
    GiveFrame(vm, f);
    return false;
  }

  /** A page the slot maps is a usable frame, and neither a table nor free. */
  ghost predicate Guarded(w: Vm, root: nat, keys: seq<Path>, usable: set<nat>) {
    forall j: nat, f | Held(w, root, keys, j, f) :: f in usable && f !in w.tables && f !in w.free
  }

  lemma GuardedReleasable(w: Vm, root: nat, keys: seq<Path>, n: nat, usable: set<nat>, managed: set<nat>)
    requires Guarded(w, root, keys, usable)
    ensures Releasable(w, root, keys, n, usable, managed)
  {
  }

  /** After a failed attempt: the frames it took are free again or are tables, and the other frames that
      became free are those the slot mapped before. */
  ghost predicate GivenBack(w: Vm, u: Vm, root: nat, keys: seq<Path>, usable: set<nat>) {
    && (forall f | f in w.free :: f in u.free || f in u.tables)
    && (forall f | f in u.free && f !in w.free :: exists j: nat | j < PAGES :: Held(w, root, keys, j, f))
    && (forall j: nat, f | j < PAGES && Held(w, root, keys, j, f) && f in usable && f !in u.tables :: f in u.free)
    && (forall t | t in u.tables :: t in w.tables || t in w.free)
    && (forall t | t in w.tables :: t in u.tables)
  }

  /** What an undone attempt leaves astray was in the slot before. */
  lemma UndoneStrays(w: Vm, v: Vm, u: Vm, stray: set<nat>, root: nat, keys: seq<Path>, pages: seq<nat>, usable: set<nat>, managed: set<nat>)
    requires Keys(keys) && Root(w, root) && |pages| <= PAGES && u.tables == v.tables && usable <= managed
    requires BuiltWalks(w, v, root, keys, pages) && BuiltFrames(w, v, pages, usable)
    requires Strayed(v, u, stray, root, keys, PAGES, usable, managed)
    ensures Strayed(w, u, stray, root, keys, PAGES, usable, managed)
    ensures Guarded(w, root, keys, usable) ==> stray == {}
  {
    forall f | !Returnable(u, f, usable, managed)
      ensures (exists j: nat | j < PAGES :: Held(v, root, keys, j, f)) <==> exists j: nat | j < PAGES :: Held(w, root, keys, j, f)
    {
      forall j: nat | j < PAGES ensures Held(v, root, keys, j, f) <==> Held(w, root, keys, j, f) {
        if j >= |pages| { BuiltElsewhere(w, v, root, keys, pages, j); }
      }
    }
  }

  lemma BuiltElsewhere(w: Vm, v: Vm, root: nat, keys: seq<Path>, pages: seq<nat>, j: nat)
    requires Keys(keys) && Root(w, root) && |pages| <= j < PAGES && BuiltWalks(w, v, root, keys, pages)
    ensures Walk(v.mem, root, PML4, keys[j]) == Walk(w.mem, root, PML4, keys[j])
  {
    assert !IsKey(keys, |pages|, keys[j]);
  }

  lemma UndoneWalks(w: Vm, v: Vm, u: Vm, root: nat, keys: seq<Path>, pages: seq<nat>)
    requires Keys(keys) && Root(w, root) && |pages| <= PAGES
    requires BuiltWalks(w, v, root, keys, pages) && Cleared(v, u, root, keys, PAGES)
    ensures Cleared(w, u, root, keys, PAGES)
  {
    forall r, k: Path | Root(w, r)
      ensures Walk(u.mem, r, PML4, k) ==
              if r == root && IsKey(keys, PAGES, k) && Small(Walk(w.mem, r, PML4, k)) then NotMapped else Walk(w.mem, r, PML4, k)
    {
      assert Root(v, r);
      if r == root && IsKey(keys, |pages|, k) {
        var j: nat :| j < |pages| && j < |keys| && k == keys[j];
        assert IsKey(keys, PAGES, k);
      }
    }
  }

  lemma UndoneFrames(w: Vm, v: Vm, u: Vm, root: nat, keys: seq<Path>, pages: seq<nat>, usable: set<nat>)
    requires Keys(keys) && Root(w, root) && |pages| <= PAGES
    requires BuiltWalks(w, v, root, keys, pages) && BuiltFrames(w, v, pages, usable)
    requires Freed(v, u, root, keys, PAGES, usable)
    ensures GivenBack(w, u, root, keys, usable)
  {
    forall f | f in w.free ensures f in u.free || f in u.tables {
      if f in pages {
        var j: nat :| j < |pages| && pages[j] == f;
        assert Held(v, root, keys, j, f);
      }
    }
    forall f | f in u.free && f !in w.free ensures exists j: nat | j < PAGES :: Held(w, root, keys, j, f) {
      var j: nat :| j < PAGES && Held(v, root, keys, j, f);
      if j >= |pages| {
        BuiltElsewhere(w, v, root, keys, pages, j);
        assert Held(w, root, keys, j, f);
      }
    }
    forall j: nat, f | j < PAGES && Held(w, root, keys, j, f) && f in usable && f !in u.tables ensures f in u.free {
      assert j >= |pages|;
      BuiltElsewhere(w, v, root, keys, pages, j);
      assert Held(v, root, keys, j, f);
    }
  }

  /** Maps a stack of four new frames, or fails; a failure takes away whatever the slot mapped
      before, so it leaves all translations as they were just when the slot was empty. */
  method MapStack(vm: Vmm, root: nat, base: nat, ghost keys: seq<Path>) returns (ok: bool, pages: seq<nat>)
    requires vm.Valid() && KeysOf(keys, base) && Root(vm.v, root)
    requires forall m | m in vm.usable :: m < FRAME_LIMIT
    modifies vm`mem, vm`registry, vm`v, vm`stray, vm`tableAt, vm.pmm`freeFrames, vm.pmm`free, vm.pmm.bitmap
    ensures vm.Sane() && (ok || Guarded(old(vm.v), root, keys, vm.usable) ==> vm.Valid())
    ensures ok ==> |pages| == PAGES && BuiltWalks(old(vm.v), vm.v, root, keys, pages)
    ensures ok ==> BuiltFrames(old(vm.v), vm.v, pages, vm.usable)
    ensures ok ==> forall j: nat | j < PAGES ::
              Walk(vm.v.mem, root, PML4, keys[j]) == Page(Entry(true, true, false, false, false, false, 0, pages[j]), 0)
    ensures !ok ==> pages == [0, 0, 0, 0] && Cleared(old(vm.v), vm.v, root, keys, PAGES)
    ensures !ok ==> GivenBack(old(vm.v), vm.v, root, keys, vm.usable)
    ensures !ok ==> Strayed(old(vm.v), vm.v, vm.stray, root, keys, PAGES, vm.usable, vm.pmm.managed)
    ensures ok <==> StackRoom(old(vm.v), root, keys) && forall j: nat | j < PAGES :: Walk(old(vm.v).mem, root, PML4, keys[j]) == NotMapped
  {
    ghost var w := vm.v;
    pages := [];
    vm.Capacity();
    BuildingStart(w, root, keys, vm.usable);
    while |pages| < PAGES
      invariant vm.Valid() && |pages| <= PAGES && Root(vm.v, root) && Building(w, vm.v, root, keys, pages, vm.usable)
      decreases PAGES - |pages|
    {
      var f := BuildPage(vm, root, base, pages, keys, w);
      if f == 0 {
        RefusedFor(w, root, keys, |pages|);
        TakeBack(vm, root, base, pages, keys, w);
        return false, [0, 0, 0, 0];
      }
      pages := pages + [f];
    }
    BuildingFacts(w, vm.v, root, keys, pages, vm.usable);
    return true, pages;
  }

  lemma RefusedFor(w: Vm, root: nat, keys: seq<Path>, n: nat)
    requires n < PAGES == |keys| && (!RoomFor(w, root, keys, n + 1) || Walk(w.mem, root, PML4, keys[n]) != NotMapped)
    ensures !(StackRoom(w, root, keys) && forall j: nat | j < PAGES :: Walk(w.mem, root, PML4, keys[j]) == NotMapped)
  {
    assert Open(ROOM);
    if RoomFor(w, root, keys, PAGES) { RoomGrows(w, root, keys, n + 1, PAGES); }
  }

  /** The rollback, after the given pages have been mapped. */
  method TakeBack(vm: Vmm, root: nat, base: nat, ghost pages: seq<nat>, ghost keys: seq<Path>, ghost w: Vm)
    requires vm.Valid() && KeysOf(keys, base) && Root(w, root) && |pages| <= PAGES
    requires BuiltWalks(w, vm.v, root, keys, pages) && BuiltFrames(w, vm.v, pages, vm.usable)
    modifies vm`mem, vm`v, vm`stray, vm.pmm`freeFrames, vm.pmm`free, vm.pmm.bitmap
    ensures vm.Sane() && (Guarded(w, root, keys, vm.usable) ==> vm.Valid())
    ensures Cleared(w, vm.v, root, keys, PAGES) && GivenBack(w, vm.v, root, keys, vm.usable)
    ensures Strayed(w, vm.v, vm.stray, root, keys, PAGES, vm.usable, vm.pmm.managed)
  {
    ghost var v := vm.v;
    assert vm.usable <= vm.pmm.managed by { assert Open(0); }
    ClearSlot(vm, root, base, keys);
    UndoneWalks(w, v, vm.v, root, keys, pages);
    UndoneFrames(w, v, vm.v, root, keys, pages, vm.usable);
    UndoneStrays(w, v, vm.v, vm.stray, root, keys, pages, vm.usable, vm.pmm.managed);
  }

  /** The slot maps no 4 KiB page. */
  ghost predicate Vacant(w: Vm, root: nat, keys: seq<Path>) {
    forall j: nat, f :: !Held(w, root, keys, j, f)
  }

  /** A failed attempt leaves every translation alone exactly when it found the slot empty. */
  lemma ClearedSame(w: Vm, u: Vm, root: nat, keys: seq<Path>)
    requires Keys(keys) && Cleared(w, u, root, keys, PAGES) && Root(w, root)
    ensures SameWalks(w, u) <==> Vacant(w, root, keys)
  {
    if SameWalks(w, u) {
      forall j: nat, f ensures !Held(w, root, keys, j, f) {
        assert j < |keys| ==> IsKey(keys, PAGES, keys[j]);
      }
    }
    if !SameWalks(w, u) {
      var r, k: Path :| Root(w, r) && Walk(u.mem, r, PML4, k) != Walk(w.mem, r, PML4, k);
      var j: nat :| j < PAGES && j < |keys| && k == keys[j];
      assert Held(w, root, keys, j, Walk(w.mem, r, PML4, k).entry.frame);
    }
  }

  // ---- releasing a task's stack -----------------------------------------------------------

  /** The slot maps exactly the given frames. */
  ghost predicate Stacked(v: Vm, root: nat, keys: seq<Path>, pages: seq<nat>) {
    |pages| == PAGES == |keys| && forall j: nat | j < PAGES :: Held(v, root, keys, j, pages[j])
  }

  /** An address of the slot translates to the start of frame f, be it by a 4 KiB or by a large page. */
  ghost predicate MatchesAt(v: Vm, root: nat, k: Path, va: nat, f: nat) {
    Root(v, root) && var x := Walk(v.mem, root, PML4, k); x.Page? && Physical(x.entry, x.level, va) == f * PAGE
  }

  ghost predicate Matches(v: Vm, root: nat, base: nat, keys: seq<Path>, pages: seq<nat>) {
    |pages| == PAGES == |keys| && forall j: nat | j < PAGES :: MatchesAt(v, root, keys[j], base + j * PAGE, pages[j])
  }

  /** A page that matches and is not part of a large page maps the recorded frame. */
  lemma SmallMatches(v: Vm, root: nat, keys: seq<Path>, base: nat, j: nat, f: nat)
    requires |keys| == PAGES && base % PAGE == 0 && j < PAGES
    ensures Held(v, root, keys, j, f) <==> MatchesAt(v, root, keys[j], base + j * PAGE, f) && Small(Walk(v.mem, root, PML4, keys[j]))
  {
    assert (base + j * PAGE) % PAGE == 0;
  }

  lemma StackMatches(v: Vm, root: nat, keys: seq<Path>, base: nat, pages: seq<nat>)
    requires |keys| == PAGES == |pages| && base % PAGE == 0
    ensures Stacked(v, root, keys, pages) <==>
            Matches(v, root, base, keys, pages) && forall j: nat | j < PAGES :: Small(Walk(v.mem, root, PML4, keys[j]))
  {
    forall j: nat | j < PAGES
      ensures Held(v, root, keys, j, pages[j]) <==>
              MatchesAt(v, root, keys[j], base + j * PAGE, pages[j]) && Small(Walk(v.mem, root, PML4, keys[j]))
    {
      SmallMatches(v, root, keys, base, j, pages[j]);
    }
  }

  /** Compares the translation of every page of the slot with the frames the task recorded. */
  method CheckStack(vm: Vmm, root: nat, base: nat, pages: seq<nat>, ghost keys: seq<Path>) returns (ok: bool)
    requires vm.Valid() && KeysOf(keys, base) && |pages| == PAGES
    ensures ok <==> Matches(vm.v, root, base, keys, pages)
  {
    for j := 0 to PAGES
      invariant forall i: nat | i < j :: MatchesAt(vm.v, root, keys[i], base + i * PAGE, pages[i])
    {
      KeyAt(keys, base, j);
      var code, physical := vm.Translate(root, base + j * PAGE);
      if code != 0 || physical != pages[j] * PAGE {
        assert !MatchesAt(vm.v, root, keys[j], base + j * PAGE, pages[j]);
        return false;
      }
    }
    return true;
  }

  /** The frames agree, the first page is a small one, and a later one lies in a large page. */
  ghost predicate Torn(v: Vm, root: nat, base: nat, keys: seq<Path>, pages: seq<nat>) {
    base != 0 && Matches(v, root, base, keys, pages) && Small(Walk(v.mem, root, PML4, keys[0])) && !Stacked(v, root, keys, pages)
  }

  /** Releases a stack that is mapped as recorded, page by page. It succeeds exactly if no page lies in a
      large one, and touches nothing if a page does not match or the first one is large; otherwise it stops
      at the first large page, after n pages. */
  method UnmapStack(vm: Vmm, root: nat, base: nat, pages: seq<nat>, ghost keys: seq<Path>) returns (code: int, n: nat)
    requires vm.Valid() && KeysOf(keys, base) && |pages| == PAGES
    modifies vm`mem, vm`v, vm`stray, vm.pmm`freeFrames, vm.pmm`free, vm.pmm.bitmap
    ensures vm.Sane() && (code == 0 || code == -1) && n <= PAGES
    ensures vm.Valid() <==> Releasable(old(vm.v), root, keys, n, vm.usable, vm.pmm.managed)
    ensures code == 0 <==> base != 0 && old(Stacked(vm.v, root, keys, pages))
    ensures Releasing(old(vm.v), vm.v, vm.stray, root, keys, n, vm.usable, vm.pmm.managed)
    ensures code == 0 ==> n == PAGES
    ensures base == 0 || !old(Matches(vm.v, root, base, keys, pages)) ==> n == 0 && vm.v == old(vm.v)
    ensures code == -1 && base != 0 && old(Matches(vm.v, root, base, keys, pages)) ==>
              n < PAGES && !Small(Walk(old(vm.v).mem, root, PML4, keys[n])) && forall j: nat | j < n :: Held(old(vm.v), root, keys, j, pages[j])
    ensures code == -1 && !SameWalks(old(vm.v), vm.v) <==> Torn(old(vm.v), root, base, keys, pages)
    ensures code == -1 && !Torn(old(vm.v), root, base, keys, pages) ==> vm.v == old(vm.v) && vm.stray == {}
  {
    code, n := -1, 0;
    ghost var w := vm.v;
    StackMatches(w, root, keys, base, pages);
    NothingReleased(w, root, keys, vm.usable, vm.pmm.managed);
    if base == 0 { return; }
    var ok := CheckStack(vm, root, base, pages, keys);
    if !ok { return; }
    code, n := ReleasePages(vm, root, base, pages, keys);
    TornApart(w, vm.v, root, base, keys, pages, n);
  }

  lemma FirstMatches(w: Vm, root: nat, base: nat, keys: seq<Path>, pages: seq<nat>)
    requires Matches(w, root, base, keys, pages)
    ensures Root(w, root) && Walk(w.mem, root, PML4, keys[0]).Page?
  {
    assert MatchesAt(w, root, keys[0], base + 0 * PAGE, pages[0]);
  }

  /** The stack that matches is left half released exactly if its first page was a small one. */
  lemma TornApart(w: Vm, v: Vm, root: nat, base: nat, keys: seq<Path>, pages: seq<nat>, n: nat)
    requires KeysOf(keys, base) && base != 0 && Matches(w, root, base, keys, pages) && n <= PAGES && Cleared(w, v, root, keys, n)
    requires forall j: nat | j < n :: Held(w, root, keys, j, pages[j])
    requires n < PAGES ==> !Small(Walk(w.mem, root, PML4, keys[n]))
    ensures n == PAGES <==> Stacked(w, root, keys, pages)
    ensures n < PAGES ==> (!SameWalks(w, v) <==> Torn(w, root, base, keys, pages)) && (n == 0 <==> !Torn(w, root, base, keys, pages))
  {
    StackMatches(w, root, keys, base, pages);
    if 0 < n {
      assert Held(w, root, keys, 0, pages[0]) && IsKey(keys, n, keys[0]);
      assert Root(w, root) && Walk(v.mem, root, PML4, keys[0]) != Walk(w.mem, root, PML4, keys[0]);
    } else {
      FirstMatches(w, root, base, keys, pages);
    }
  }

  /** Of a stack that matches, page n is a small page exactly if it is the recorded one. */
  lemma RecordedFrame(v: Vm, root: nat, base: nat, keys: seq<Path>, pages: seq<nat>, n: nat)
    requires Matches(v, root, base, keys, pages) && base % PAGE == 0 && n < PAGES
    ensures Small(Walk(v.mem, root, PML4, keys[n])) <==> Held(v, root, keys, n, pages[n])
    ensures forall f | Held(v, root, keys, n, f) :: f == pages[n]
  {
    SmallMatches(v, root, keys, base, n, pages[n]);
  }

  /** The first n pages are mapped to the recorded frames. */
  ghost predicate AllHeld(w: Vm, root: nat, keys: seq<Path>, pages: seq<nat>, n: nat) {
    n <= |pages| && forall j: nat | j < n :: Held(w, root, keys, j, pages[j])
  }

  /** The second pass: the pages up to the first large one. */
  method ReleasePages(vm: Vmm, root: nat, base: nat, pages: seq<nat>, ghost keys: seq<Path>) returns (code: int, n: nat)
    requires vm.Valid() && KeysOf(keys, base) && Matches(vm.v, root, base, keys, pages)
    modifies vm`mem, vm`v, vm`stray, vm.pmm`freeFrames, vm.pmm`free, vm.pmm.bitmap
    ensures vm.Sane() && n <= PAGES && code == (if n == PAGES then 0 else -1)
    ensures vm.Valid() <==> Releasable(old(vm.v), root, keys, n, vm.usable, vm.pmm.managed)
    ensures Releasing(old(vm.v), vm.v, vm.stray, root, keys, n, vm.usable, vm.pmm.managed)
    ensures Cleared(old(vm.v), vm.v, root, keys, n) && (n == 0 ==> vm.v == old(vm.v) && vm.stray == {})
    ensures n < PAGES ==> !Small(Walk(old(vm.v).mem, root, PML4, keys[n]))
    ensures forall j: nat | j < n :: Held(old(vm.v), root, keys, j, pages[j])
  {
    ghost var w := vm.v;
    n := 0;
    NothingReleased(w, root, keys, vm.usable, vm.pmm.managed);
    while n < PAGES
      invariant n <= PAGES && vm.Sane() && Releasing(w, vm.v, vm.stray, root, keys, n, vm.usable, vm.pmm.managed)
      invariant AllHeld(w, root, keys, pages, n)
    {
      var ok := ReleasePage(vm, root, base, n, pages, keys, w);
      if !ok { break; }
      n := n + 1;
    }
    ReleasingFacts(w, vm.v, vm.stray, root, keys, n, vm.usable, vm.pmm.managed);
    code := if n == PAGES then 0 else -1;
  }

  const RELEASE: int := -13

  /** Exactly the first n pages have been released. */
  ghost predicate Releasing(w: Vm, v: Vm, stray: set<nat>, root: nat, keys: seq<Path>, n: nat, usable: set<nat>, managed: set<nat>) {
    forall o {:trigger Open(o)} :: Open(o) && o == RELEASE ==>
      && Cleared(w, v, root, keys, n) && Freed(w, v, root, keys, n, usable)
      && Strayed(w, v, stray, root, keys, n, usable, managed) && (n == 0 ==> v == w)
  }

  lemma ReleasingFacts(w: Vm, v: Vm, stray: set<nat>, root: nat, keys: seq<Path>, n: nat, usable: set<nat>, managed: set<nat>)
    requires Releasing(w, v, stray, root, keys, n, usable, managed)
    ensures Cleared(w, v, root, keys, n) && Freed(w, v, root, keys, n, usable)
    ensures Strayed(w, v, stray, root, keys, n, usable, managed) && (n == 0 ==> v == w)
    ensures (stray == {} <==> Releasable(w, root, keys, n, usable, managed)) && (n == 0 ==> stray == {})
  {
    assert Open(RELEASE);
    NoneAstray(w, v, stray, root, keys, n, usable, managed);
  }

  lemma NothingReleased(w: Vm, root: nat, keys: seq<Path>, usable: set<nat>, managed: set<nat>)
    ensures Releasing(w, w, {}, root, keys, 0, usable, managed)
  {
  }

  method ReleasePage(vm: Vmm, root: nat, base: nat, n: nat, pages: seq<nat>, ghost keys: seq<Path>, ghost w: Vm) returns (ok: bool)
    requires vm.Sane() && KeysOf(keys, base) && Matches(w, root, base, keys, pages) && n < PAGES
    requires Releasing(w, vm.v, vm.stray, root, keys, n, vm.usable, vm.pmm.managed) && AllHeld(w, root, keys, pages, n)
    modifies vm`mem, vm`v, vm`stray, vm.pmm`freeFrames, vm.pmm`free, vm.pmm.bitmap
    ensures vm.Sane() && Releasing(w, vm.v, vm.stray, root, keys, if ok then n + 1 else n, vm.usable, vm.pmm.managed)
    ensures if ok then AllHeld(w, root, keys, pages, n + 1) else !Small(Walk(w.mem, root, PML4, keys[n]))
  {
    assert Open(RELEASE);
    RecordedFrame(w, root, base, keys, pages, n);
    var code, physical := ClearPage(vm, root, base, n, keys, w);
    ok := code == 0 && physical == pages[n];
    if ok { OneMoreHeld(w, root, keys, pages, n); }
  }

  lemma OneMoreHeld(w: Vm, root: nat, keys: seq<Path>, pages: seq<nat>, n: nat)
    requires n < |pages| && AllHeld(w, root, keys, pages, n) && Held(w, root, keys, n, pages[n])
    ensures AllHeld(w, root, keys, pages, n + 1)
  {
  }

  // ---- a stack across a large page --------------------------------------------------------

  /** One more table of root 1, linked from the given slot. */
  ghost function Grown(v: Vm, p: nat, i: nat, c: nat, level: nat): Vm
    requires p in v.mem && i < ENTRIES
  {
    Link(Vm(v.mem[c := Empty()], v.tables[c := Info(level, 1)], v.up, v.free - {c}), p, i, TableEntry(c, 0))
  }

  lemma GrownGood(v: Vm, p: nat, i: nat, c: nat, level: nat)
    requires Good(v, {}) && Root(v, 1) && p in v.tables && p in v.mem && v.tables[p] == Info(level + 1, 1) && i < ENTRIES
    requires !v.mem[p][i].present && c in v.free && c != 0 && level < PML4 && c !in v.tables && c != p
    ensures Good(Grown(v, p, i, c, level), {})
  {
    AddGood(v, c, Info(level, 1), {});
    LinkGood(Add(v, c, Info(level, 1)), p, i, TableEntry(c, 0), {c});
    assert {c} - {c} == {};
  }

  const LARGE := Entry(true, true, false, true, false, false, 0, 512)
  const SMALL := Entry(true, true, false, false, false, false, 0, 7)

  /** Root 1 with tables 2, 3 and 4 down to the last page below 2 MiB, and a large page above it. */
  ghost function LargeAbove(): (v: Vm)
    ensures Root(v, 1) && Good(v, {})
    ensures Walk(v.mem, 1, PML4, Key(0, 0, 0, 511)) == Page(SMALL, 0)
    ensures forall j: nat | j < ENTRIES :: Walk(v.mem, 1, PML4, Key(0, 0, 1, j)) == Page(LARGE, 1)
  {
    var v0 := Vm(map[1 := Empty(), 2 := Empty(), 3 := Empty(), 4 := Empty()], map[1 := Info(PML4, 1)], map[], {2, 3, 4});
    var v1 := Grown(v0, 1, 0, 2, 2);
    var v2 := Grown(v1, 2, 0, 3, 1);
    var v3 := Grown(v2, 3, 0, 4, 0);
    var v4 := Write(v3, 4, 511, SMALL);
    GrownGood(v0, 1, 0, 2, 2); GrownGood(v1, 2, 0, 3, 1); GrownGood(v2, 3, 0, 4, 0);
    WriteGood(v3, 4, 511, SMALL, {}); WriteGood(v4, 3, 1, LARGE, {});
    Write(v4, 3, 1, LARGE)
  }

  /** The keys of the pages from 4 KiB below 2 MiB on. */
  lemma BoundaryKeys(keys: seq<Path>)
    requires KeysOf(keys, 0x1F_F000)
    ensures keys[0] == Key(0, 0, 0, 511) && keys[1] == Key(0, 0, 1, 0) && keys[2] == Key(0, 0, 1, 1) && keys[3] == Key(0, 0, 1, 2)
  {
    KeyAt(keys, 0x1F_F000, 0);
    KeyAt(keys, 0x1F_F000, 1);
    KeyAt(keys, 0x1F_F000, 2);
    KeyAt(keys, 0x1F_F000, 3);
  }

  /** Page j lies j - 1 pages into the large page. */
  lemma InsideLarge(v: Vm, k: Path, j: nat, large: Entry)
    requires Root(v, 1) && 1 <= j < 4 && Walk(v.mem, 1, PML4, k) == Page(large, 1) && large.frame == 512
    ensures MatchesAt(v, 1, k, 0x1F_F000 + j * PAGE, 511 + j)
  {
    PhysicalRuns(large, 1, 0x1F_F000 + j * PAGE, 1);
  }

  lemma JustBelow(v: Vm, k: Path, small: Entry)
    requires Root(v, 1) && Walk(v.mem, 1, PML4, k) == Page(small, 0)
    ensures MatchesAt(v, 1, k, 0x1F_F000, small.frame)
  {
    PhysicalRuns(small, 0, 0x1F_F000, small.frame);
  }

  lemma BoundaryMatches(v: Vm, keys: seq<Path>)
    requires v == LargeAbove() && KeysOf(keys, 0x1F_F000)
    ensures Matches(v, 1, 0x1F_F000, keys, [7, 512, 513, 514])
    ensures Small(Walk(v.mem, 1, PML4, keys[0])) && !Small(Walk(v.mem, 1, PML4, keys[1]))
  {
    BoundaryKeys(keys);
    var pages := [7, 512, 513, 514];
    forall j: nat | j < PAGES ensures MatchesAt(v, 1, keys[j], 0x1F_F000 + j * PAGE, pages[j]) {
      if j == 0 {
        JustBelow(v, keys[0], SMALL);
      } else {
        InsideLarge(v, keys[j], j, LARGE);
      }
    }
  }

  /** The stack of identifier 1 in a window that starts two pages below 2 MiB: its first page is a small
      one, the others lie in a large page, and all frames agree with the record. */
  lemma TornStack() returns (v: Vm, start: nat, end: nat, keys: seq<Path>, pages: seq<nat>)
    ensures Window(start, end) && KeysOf(keys, StackBase(start, 1)) && Good(v, {}) && Torn(v, 1, StackBase(start, 1), keys, pages)
  {
    start, end := 0x1F_E000, 0x100_0000;
    v, keys, pages := LargeAbove(), SlotKeys(0x1F_F000), [7, 512, 513, 514];
    BoundaryMatches(v, keys);
    assert !Held(v, 1, keys, 1, pages[1]);
  }
}
