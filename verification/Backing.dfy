/** Which stack pages are mapped: those of the registered tasks, each to its own frames, and no
    guard page (kernel/sched/task.c, kernel/linker.ld). */
module Backing {
  import opened Frames
  import opened Guard
  import opened Paging
  import opened VirtualMemory
  import opened Tasks
  import opened Owners
  import opened Stacks

  const LAYOUT: int := -9
  const BACKED: int := -10

  /** The translation keys of the 256 slots and of their guard pages are all different. */
  ghost predicate Layout(slots: seq<seq<Path>>, guards: seq<Path>) {
    && |slots| == MAX_TASKS == |guards|
    && (forall i: nat | i < MAX_TASKS :: Keys(slots[i]))
    && (forall i: nat, j: nat, i': nat, j': nat | i < MAX_TASKS && i' < MAX_TASKS && j < PAGES && j' < PAGES && i != i' ::
          slots[i][j] != slots[i'][j'])
    && (forall i: nat, i': nat, j: nat | i < MAX_TASKS && i' < MAX_TASKS && j < PAGES :: guards[i] != slots[i'][j])
  }

  ghost predicate LayoutOf(slots: seq<seq<Path>>, guards: seq<Path>, start: nat) {
    && |slots| == MAX_TASKS == |guards|
    && forall n {:trigger Open(n)} :: Open(n) && n == LAYOUT ==>
         Layout(slots, guards)
         && forall i: nat | i < MAX_TASKS :: KeysOf(slots[i], StackBase(start, i + 1)) && guards[i] == KeyOf(start + i * SLOT_SIZE)
  }

  ghost function SlotsOf(start: nat, end: nat): (slots: seq<seq<Path>>)
    requires Window(start, end)
    ensures |slots| == MAX_TASKS && forall i: nat | i < MAX_TASKS :: KeysOf(slots[i], StackBase(start, i + 1))
  {
    seq(MAX_TASKS, i requires 0 <= i < MAX_TASKS => SlotBase(start, end, i); SlotKeys(StackBase(start, i + 1)))
  }

  lemma SlotBase(start: nat, end: nat, i: nat)
    requires Window(start, end) && i < MAX_TASKS
    ensures var base := StackBase(start, i + 1);
            base % PAGE == 0 && base / SEGMENT == (base + STACK_SIZE - 1) / SEGMENT == start / SEGMENT
  {
    StackInWindow(start, end, i + 1);
  }

  ghost function GuardsOf(start: nat): (guards: seq<Path>)
    ensures |guards| == MAX_TASKS && forall i: nat | i < MAX_TASKS :: guards[i] == KeyOf(start + i * SLOT_SIZE)
  {
    seq(MAX_TASKS, i requires 0 <= i < MAX_TASKS => KeyOf(start + i * SLOT_SIZE))
  }

  /** Pages of different slots, and guard pages and stack pages, have different keys. */
  lemma LayoutExists(start: nat, end: nat)
    requires Window(start, end)
    ensures LayoutOf(SlotsOf(start, end), GuardsOf(start), start)
  {
    var slots, guards := SlotsOf(start, end), GuardsOf(start);
    forall i: nat, j: nat, i': nat, j': nat | i < MAX_TASKS && i' < MAX_TASKS && j < PAGES && j' < PAGES && i != i'
      ensures slots[i][j] != slots[i'][j']
    {
      KeyAt(slots[i], StackBase(start, i + 1), j);
      KeyAt(slots[i'], StackBase(start, i' + 1), j');
      SlotPages(start, end, i, j, i', j');
    }
    forall i: nat, i': nat, j: nat | i < MAX_TASKS && i' < MAX_TASKS && j < PAGES ensures guards[i] != slots[i'][j] {
      KeyAt(slots[i'], StackBase(start, i' + 1), j);
      GuardPage(start, end, i, i', j);
    }
  }

  lemma SlotPages(start: nat, end: nat, i: nat, j: nat, i': nat, j': nat)
    requires Window(start, end) && i < MAX_TASKS && i' < MAX_TASKS && j < PAGES && j' < PAGES && i != i'
    ensures KeyOf(StackBase(start, i + 1) + j * PAGE) != KeyOf(StackBase(start, i' + 1) + j' * PAGE)
  {
    var a, b := StackBase(start, i + 1) + j * PAGE, StackBase(start, i' + 1) + j' * PAGE;
    InSegment(start, end, a);
    InSegment(start, end, b);
    KeysApart(a, b);
  }

  lemma GuardPage(start: nat, end: nat, i: nat, i': nat, j: nat)
    requires Window(start, end) && i < MAX_TASKS && i' < MAX_TASKS && j < PAGES
    ensures KeyOf(start + i * SLOT_SIZE) != KeyOf(StackBase(start, i' + 1) + j * PAGE)
  {
    var a, b := start + i * SLOT_SIZE, StackBase(start, i' + 1) + j * PAGE;
    InSegment(start, end, a);
    InSegment(start, end, b);
    KeysApart(a, b);
  }

  lemma InSegment(start: nat, end: nat, a: nat)
    requires Window(start, end) && start <= a < start + MAX_TASKS * SLOT_SIZE
    ensures a / SEGMENT == start / SEGMENT
  {
  }

  // ---- the invariant ----------------------------------------------------------------------

  /** A registered task's slot maps exactly the frames it records, which are its own. */
  ghost predicate HasStack(s: State, v: Vm, root: nat, usable: set<nat>, slots: seq<seq<Path>>, t: nat)
    requires Known(s, t) && |s.registry| == MAX_TASKS == |slots|
  {
    var x := s.tasks[t];
    && x.space == root && Stacked(v, root, slots[x.id - 1], x.pages)
    && forall f | f in x.pages :: f in usable && f !in v.free && f !in v.tables
  }

  ghost predicate Unmapped(v: Vm, root: nat, keys: seq<Path>) {
    forall j: nat | j < |keys| :: Walk(v.mem, root, PML4, keys[j]) == NotMapped
  }

  /** No frame is a page of two tasks, or twice of one. */
  ghost predicate OwnFrames(s: State) {
    forall t, t', i, j | Known(s, t) && Known(s, t') && 0 <= i < |s.tasks[t].pages| && 0 <= j < |s.tasks[t'].pages|
      && s.tasks[t].pages[i] == s.tasks[t'].pages[j] :: t == t' && i == j
  }

  lemma OwnFrame(s: State, t: nat, r: nat, f: nat)
    requires OwnFrames(s) && Known(s, t) && Known(s, r) && t != r && f in s.tasks[r].pages
    ensures f !in s.tasks[t].pages
  {
    var k :| 0 <= k < |s.tasks[r].pages| && s.tasks[r].pages[k] == f;
    forall a | 0 <= a < |s.tasks[t].pages| ensures s.tasks[t].pages[a] != f {
    }
  }

  ghost predicate Facts(s: State, v: Vm, root: nat, usable: set<nat>, slots: seq<seq<Path>>, guards: seq<Path>)
    requires |s.registry| == MAX_TASKS == |slots| == |guards|
  {
    && Root(v, root) && (forall m | m in usable :: m < FRAME_LIMIT)
    && (forall t | Known(s, t) :: HasStack(s, v, root, usable, slots, t))
    && OwnFrames(s)
    && (forall i: nat | i < MAX_TASKS && s.registry[i] == 0 :: Unmapped(v, root, slots[i]))
    && Unmapped(v, root, guards)
  }

  /** Stack pages are mapped exactly while a task holds the identifier, to frames that belong to no
      other task and to no table; guard pages are never mapped. */
  ghost predicate Backed(s: State, v: Vm, root: nat, usable: set<nat>, slots: seq<seq<Path>>, guards: seq<Path>) {
    && |s.registry| == MAX_TASKS == |slots| == |guards|
    && forall n {:trigger Open(n)} :: Open(n) && n == BACKED ==> Facts(s, v, root, usable, slots, guards)
  }

  /** Nothing that concerns stacks differs. */
  ghost predicate SameStacks(s: State, u: State) {
    && u.registry == s.registry
    && (forall t | Known(u, t) :: Known(s, t))
    && (forall t | Known(s, t) :: Known(u, t) && u.tasks[t].id == s.tasks[t].id && u.tasks[t].pages == s.tasks[t].pages
                                  && u.tasks[t].space == s.tasks[t].space)
  }

  lemma BackedKept(s: State, u: State, v: Vm, root: nat, usable: set<nat>, slots: seq<seq<Path>>, guards: seq<Path>)
    requires Backed(s, v, root, usable, slots, guards) && SameStacks(s, u)
    ensures Backed(u, v, root, usable, slots, guards)
  {
    assert Open(BACKED);
    forall t | Known(u, t) ensures HasStack(u, v, root, usable, slots, t) {
      assert HasStack(s, v, root, usable, slots, t);
    }
    forall t, t', i, j | Known(u, t) && Known(u, t') && 0 <= i < |u.tasks[t].pages| && 0 <= j < |u.tasks[t'].pages|
                         && u.tasks[t].pages[i] == u.tasks[t'].pages[j]
      ensures t == t' && i == j
    {
      assert Known(s, t) && Known(s, t');
    }
  }

  /** The slot of a free identifier is empty, that of a used one holds the task's frames. */
  lemma SlotFacts(s: State, v: Vm, root: nat, usable: set<nat>, slots: seq<seq<Path>>, guards: seq<Path>, id: nat)
    requires Static(s) && Backed(s, v, root, usable, slots, guards) && 1 <= id <= MAX_TASKS
    ensures Root(v, root) && forall m | m in usable :: m < FRAME_LIMIT
    ensures Guarded(v, root, slots[id - 1], usable)
    ensures s.registry[id - 1] == 0 <==> Vacant(v, root, slots[id - 1])
    ensures s.registry[id - 1] == 0 ==> Unmapped(v, root, slots[id - 1])
  {
    assert Open(BACKED);
    assert Open(STATIC);
    var t := s.registry[id - 1];
    if t == 0 {
      assert Unmapped(v, root, slots[id - 1]);
    } else {
      assert Known(s, t) && HasStack(s, v, root, usable, slots, t);
      assert Held(v, root, slots[id - 1], 0, s.tasks[t].pages[0]);
      var keys := slots[id - 1];
      forall j: nat, f | Held(v, root, keys, j, f) ensures f in usable && f !in v.tables && f !in v.free {
        assert Held(v, root, keys, j, s.tasks[t].pages[j]);
      }
    }
  }

  /** A failed attempt to map a stack keeps every translation exactly when the identifier was free. */
  lemma FailedCreate(s: State, v: Vm, w: Vm, root: nat, usable: set<nat>, slots: seq<seq<Path>>, guards: seq<Path>, id: nat)
    requires Static(s) && Backed(s, v, root, usable, slots, guards) && 1 <= id <= MAX_TASKS && Keys(slots[id - 1])
    requires Cleared(v, w, root, slots[id - 1], PAGES)
    ensures SameWalks(v, w) <==> s.registry[id - 1] == 0
  {
    SlotFacts(s, v, root, usable, slots, guards, id);
    ClearedSame(v, w, root, slots[id - 1]);
  }

  /** It then also keeps all stacks. */
  lemma BackedAfterFailure(s: State, v: Vm, w: Vm, root: nat, usable: set<nat>, slots: seq<seq<Path>>, guards: seq<Path>, keys: seq<Path>)
    requires Backed(s, v, root, usable, slots, guards) && SameWalks(v, w) && GivenBack(v, w, root, keys, usable)
    requires Vacant(v, root, keys)
    ensures Backed(s, w, root, usable, slots, guards)
  {
    assert Open(BACKED);
    forall t | Known(s, t) ensures HasStack(s, w, root, usable, slots, t) {
      assert HasStack(s, v, root, usable, slots, t);
      SameStacked(v, w, root, slots[s.tasks[t].id - 1], s.tasks[t].pages);
    }
    forall i: nat | i < MAX_TASKS && s.registry[i] == 0 ensures Unmapped(w, root, slots[i]) {
      assert Unmapped(v, root, slots[i]);
    }
  }

  lemma SameStacked(v: Vm, w: Vm, root: nat, keys: seq<Path>, pages: seq<nat>)
    requires Stacked(v, root, keys, pages) && Root(w, root)
    requires forall j: nat | j < PAGES :: Walk(w.mem, root, PML4, keys[j]) == Walk(v.mem, root, PML4, keys[j])
    ensures Stacked(w, root, keys, pages)
  {
    forall j: nat | j < PAGES ensures Held(w, root, keys, j, pages[j]) {
      assert Held(v, root, keys, j, pages[j]);
    }
  }

  lemma OtherSlot(slots: seq<seq<Path>>, guards: seq<Path>, i: nat, i': nat, j: nat)
    requires Layout(slots, guards) && i < MAX_TASKS && i' < MAX_TASKS && j < PAGES
    ensures i != i' ==> !IsKey(slots[i], PAGES, slots[i'][j])
    ensures !IsKey(slots[i], PAGES, guards[i'])
  {
  }

  lemma StackMapped(w: Vm, root: nat, keys: seq<Path>, pages: seq<nat>)
    requires Root(w, root) && |pages| == PAGES == |keys|
    requires forall j: nat | j < PAGES :: Walk(w.mem, root, PML4, keys[j]) == StackLeaf(pages[j])
    ensures Stacked(w, root, keys, pages)
  {
    forall j: nat | j < PAGES ensures Held(w, root, keys, j, pages[j]) {
    }
  }

  /** What the translation of a key outside one slot is, before and after a change of that slot. */
  ghost predicate OnlySlotChanged(v: Vm, w: Vm, root: nat, keys: seq<Path>) {
    forall k: Path | !IsKey(keys, PAGES, k) :: Walk(w.mem, root, PML4, k) == Walk(v.mem, root, PML4, k)
  }

  lemma OthersStacked(v: Vm, w: Vm, root: nat, slots: seq<seq<Path>>, guards: seq<Path>, i: nat)
    requires Layout(slots, guards) && i < MAX_TASKS && Root(v, root) && Root(w, root) && OnlySlotChanged(v, w, root, slots[i])
    ensures forall i': nat, pages | i' < MAX_TASKS && i' != i && Stacked(v, root, slots[i'], pages) :: Stacked(w, root, slots[i'], pages)
    ensures forall i': nat | i' < MAX_TASKS && i' != i && Unmapped(v, root, slots[i']) :: Unmapped(w, root, slots[i'])
    ensures Unmapped(v, root, guards) ==> Unmapped(w, root, guards)
  {
    forall i': nat, j: nat | i' < MAX_TASKS && i' != i && j < PAGES
      ensures Walk(w.mem, root, PML4, slots[i'][j]) == Walk(v.mem, root, PML4, slots[i'][j])
    {
      OtherSlot(slots, guards, i, i', j);
    }
    forall i': nat, pages | i' < MAX_TASKS && i' != i && Stacked(v, root, slots[i'], pages) ensures Stacked(w, root, slots[i'], pages) {
      SameStacked(v, w, root, slots[i'], pages);
    }
    forall i': nat | i' < MAX_TASKS ensures Walk(w.mem, root, PML4, guards[i']) == Walk(v.mem, root, PML4, guards[i']) {
      OtherSlot(slots, guards, i, i', 0);
    }
  }

  /** A new task with a newly mapped stack. */
  lemma BackedAdmit(s: State, t: nat, x: Task, frames: map<nat, Cont>, u: State,
                    v: Vm, w: Vm, root: nat, usable: set<nat>, slots: seq<seq<Path>>, guards: seq<Path>)
    requires RegistryOk(s) && CanAdmit(s, t, x, frames) && u == Admit(s, t, x, frames) && x.space == root
    requires Backed(s, v, root, usable, slots, guards) && Layout(slots, guards)
    requires BuiltWalks(v, w, root, slots[x.id - 1], x.pages) && BuiltFrames(v, w, x.pages, usable)
    ensures Backed(u, w, root, usable, slots, guards)
  {
    assert Open(BACKED);
    assert forall r, f | Known(s, r) && f in s.tasks[r].pages :: f !in v.free by {
      forall r, f | Known(s, r) && f in s.tasks[r].pages ensures f !in v.free {
        assert HasStack(s, v, root, usable, slots, r);
      }
    }
    AdmitStacks(s, t, x, frames, u, v, w, root, usable, slots, guards);
    AdmitFrames(s, t, x, frames, u, v);
    OthersStacked(v, w, root, slots, guards, x.id - 1);
  }

  lemma AdmitStacks(s: State, t: nat, x: Task, frames: map<nat, Cont>, u: State,
                    v: Vm, w: Vm, root: nat, usable: set<nat>, slots: seq<seq<Path>>, guards: seq<Path>)
    requires RegistryOk(s) && CanAdmit(s, t, x, frames) && u == Admit(s, t, x, frames) && x.space == root
    requires |s.registry| == MAX_TASKS && Layout(slots, guards) && Root(v, root)
    requires forall r | Known(s, r) :: HasStack(s, v, root, usable, slots, r)
    requires BuiltWalks(v, w, root, slots[x.id - 1], x.pages) && BuiltFrames(v, w, x.pages, usable)
    ensures forall r | Known(u, r) :: HasStack(u, w, root, usable, slots, r)
  {
    StackMapped(w, root, slots[x.id - 1], x.pages);
    forall r | Known(u, r) ensures HasStack(u, w, root, usable, slots, r) {
      AdmitKnown(s, t, x, frames, u, r);
      if r != t {
        assert HasStack(s, v, root, usable, slots, r);
        AdmitOther(s, x, u, r, v, w, root, usable, slots, guards);
      }
    }
  }

  /** Another task's stack is as it was. */
  lemma AdmitOther(s: State, x: Task, u: State, r: nat,
                   v: Vm, w: Vm, root: nat, usable: set<nat>, slots: seq<seq<Path>>, guards: seq<Path>)
    requires |s.registry| == |u.registry| == MAX_TASKS && Known(s, r) && Known(u, r) && u.tasks[r] == s.tasks[r]
    requires 1 <= x.id <= MAX_TASKS && s.tasks[r].id != x.id && Layout(slots, guards) && |x.pages| == PAGES
    requires HasStack(s, v, root, usable, slots, r) && Root(v, root)
    requires BuiltWalks(v, w, root, slots[x.id - 1], x.pages) && BuiltFrames(v, w, x.pages, usable)
    ensures HasStack(u, w, root, usable, slots, r)
  {
    var i := s.tasks[r].id - 1;
    forall j: nat | j < PAGES
      ensures Walk(w.mem, root, PML4, slots[i][j]) == Walk(v.mem, root, PML4, slots[i][j])
    {
      OtherSlot(slots, guards, x.id - 1, i, j);
    }
    SameStacked(v, w, root, slots[i], s.tasks[r].pages);
    StillUnused(s.tasks[r].pages, x.pages, v, w, usable);
    StackKept(s, u, r, v, w, root, usable, slots);
  }

  /** Mapping a new stack takes only free frames. */
  lemma StillUnused(pages: seq<nat>, fresh': seq<nat>, v: Vm, w: Vm, usable: set<nat>)
    requires BuiltFrames(v, w, fresh', usable) && forall f | f in pages :: f !in v.free && f !in v.tables
    ensures forall f | f in pages :: f !in w.free && f !in w.tables
  {
  }

  lemma AdmitFrames(s: State, t: nat, x: Task, frames: map<nat, Cont>, u: State, v: Vm)
    requires RegistryOk(s) && CanAdmit(s, t, x, frames) && u == Admit(s, t, x, frames) && OwnFrames(s)
    requires forall r, f | Known(s, r) && f in s.tasks[r].pages :: f !in v.free
    requires forall f | f in x.pages :: f in v.free
    requires forall i, j | 0 <= i < j < |x.pages| :: x.pages[i] != x.pages[j]
    ensures OwnFrames(u)
  {
    forall r, r', i, j | Known(u, r) && Known(u, r') && 0 <= i < |u.tasks[r].pages| && 0 <= j < |u.tasks[r'].pages|
                         && u.tasks[r].pages[i] == u.tasks[r'].pages[j]
      ensures r == r' && i == j
    {
      AdmitKnown(s, t, x, frames, u, r);
      AdmitKnown(s, t, x, frames, u, r');
      assert u.tasks[r].pages[i] in u.tasks[r].pages && u.tasks[r'].pages[j] in u.tasks[r'].pages;
    }
  }

  /** Releasing t's stack does not free a frame of another task. */
  lemma StillOwned(s: State, t: nat, r: nat, v: Vm, w: Vm, root: nat, usable: set<nat>, keys: seq<Path>)
    requires OwnFrames(s) && Known(s, t) && Known(s, r) && t != r && forall f | f in s.tasks[r].pages :: f !in v.free
    requires Stacked(v, root, keys, s.tasks[t].pages) && Freed(v, w, root, keys, PAGES, usable)
    ensures forall f | f in s.tasks[r].pages :: f !in w.free
  {
    forall j: nat, f | Held(v, root, keys, j, f) ensures f in s.tasks[t].pages {
      assert Held(v, root, keys, j, s.tasks[t].pages[j]);
    }
    forall f | f in s.tasks[r].pages ensures f !in w.free {
      OwnFrame(s, t, r, f);
    }
  }

  lemma SlotEmptied(v: Vm, w: Vm, root: nat, keys: seq<Path>, pages: seq<nat>)
    requires Stacked(v, root, keys, pages) && Cleared(v, w, root, keys, PAGES)
    ensures Unmapped(w, root, keys)
  {
    forall j: nat | j < |keys| ensures Walk(w.mem, root, PML4, keys[j]) == NotMapped {
      assert Held(v, root, keys, j, pages[j]);
      assert IsKey(keys, PAGES, keys[j]);
    }
  }

  lemma ForgetFrames(s: State, t: nat, i: nat, u: State)
    requires RegistryOk(s) && CanForget(s, t, i) && u == Forget(s, t, i) && OwnFrames(s)
    ensures OwnFrames(u)
  {
    forall r, r', a, b | Known(u, r) && Known(u, r') && 0 <= a < |u.tasks[r].pages| && 0 <= b < |u.tasks[r'].pages|
                         && u.tasks[r].pages[a] == u.tasks[r'].pages[b]
      ensures r == r' && a == b
    {
      ForgetKnown(s, t, i, u, r);
      ForgetKnown(s, t, i, u, r');
    }
  }

  lemma StackKept(s: State, u: State, r: nat, v: Vm, w: Vm, root: nat, usable: set<nat>, slots: seq<seq<Path>>)
    requires |s.registry| == |u.registry| == MAX_TASKS == |slots| && Known(s, r) && Known(u, r) && u.tasks[r] == s.tasks[r]
    requires HasStack(s, v, root, usable, slots, r) && Stacked(w, root, slots[s.tasks[r].id - 1], s.tasks[r].pages)
    requires forall f | f in s.tasks[r].pages :: f !in w.free && f !in w.tables
    ensures HasStack(u, w, root, usable, slots, r)
  {
  }

  lemma ForgetStacks(s: State, t: nat, i: nat, u: State,
                     v: Vm, w: Vm, root: nat, usable: set<nat>, slots: seq<seq<Path>>, guards: seq<Path>)
    requires RegistryOk(s) && CanForget(s, t, i) && u == Forget(s, t, i) && OwnFrames(s)
    requires |s.registry| == MAX_TASKS && Layout(slots, guards) && Root(v, root)
    requires forall r | Known(s, r) :: HasStack(s, v, root, usable, slots, r)
    requires Cleared(v, w, root, slots[s.tasks[t].id - 1], PAGES) && Freed(v, w, root, slots[s.tasks[t].id - 1], PAGES, usable)
    ensures forall r | Known(u, r) :: HasStack(u, w, root, usable, slots, r)
  {
    OthersStacked(v, w, root, slots, guards, s.tasks[t].id - 1);
    forall r | Known(u, r) ensures HasStack(u, w, root, usable, slots, r) {
      ForgetKnown(s, t, i, u, r);
      assert HasStack(s, v, root, usable, slots, r) && HasStack(s, v, root, usable, slots, t);
      StillOwned(s, t, r, v, w, root, usable, slots[s.tasks[t].id - 1]);
      StackKept(s, u, r, v, w, root, usable, slots);
    }
  }

  /** A task is gone and its stack unmapped and freed. */
  lemma BackedForget(s: State, t: nat, i: nat, u: State,
                     v: Vm, w: Vm, root: nat, usable: set<nat>, slots: seq<seq<Path>>, guards: seq<Path>)
    requires RegistryOk(s) && CanForget(s, t, i) && u == Forget(s, t, i)
    requires Backed(s, v, root, usable, slots, guards) && Layout(slots, guards)
    requires Cleared(v, w, root, slots[s.tasks[t].id - 1], PAGES) && Freed(v, w, root, slots[s.tasks[t].id - 1], PAGES, usable)
    ensures Backed(u, w, root, usable, slots, guards)
  {
    assert Open(BACKED);
    var id, keys := s.tasks[t].id, slots[s.tasks[t].id - 1];
    assert HasStack(s, v, root, usable, slots, t);
    ForgetStacks(s, t, i, u, v, w, root, usable, slots, guards);
    ForgetFrames(s, t, i, u);
    SlotEmptied(v, w, root, keys, s.tasks[t].pages);
    FreeSlots(s.registry, u.registry, id - 1, v, w, root, slots, guards);
  }

  /** The slots of free identifiers, and the guards, stay unmapped. */
  lemma FreeSlots(a: seq<nat>, b: seq<nat>, i: nat, v: Vm, w: Vm, root: nat, slots: seq<seq<Path>>, guards: seq<Path>)
    requires |a| == MAX_TASKS && i < MAX_TASKS && b == a[i := 0] && Layout(slots, guards) && Root(v, root) && Root(w, root)
    requires OnlySlotChanged(v, w, root, slots[i]) && Unmapped(w, root, slots[i]) && Unmapped(v, root, guards)
    requires forall n: nat | n < MAX_TASKS && a[n] == 0 :: Unmapped(v, root, slots[n])
    ensures forall n: nat | n < MAX_TASKS && b[n] == 0 :: Unmapped(w, root, slots[n])
    ensures Unmapped(w, root, guards)
  {
    OthersStacked(v, w, root, slots, guards, i);
    forall n: nat | n < MAX_TASKS && b[n] == 0 ensures Unmapped(w, root, slots[n]) {
      if n != i { assert Unmapped(v, root, slots[n]); }
    }
  }
}
