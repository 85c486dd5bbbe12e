/** The page-table manager (kernel/mm/vmm/vmm.c) over the frame allocator. */
module VirtualMemory {
  import opened Frames
  import opened Guard
  import opened Paging
  import opened Slots
  import opened Trees
  import opened Cloning
  import opened Preparing
  import opened CloneCheck
  import opened Costs
  import opened Ways

  const MAX_SPACES: nat := 256
  const SPACES: int := -3

  datatype SpaceState = Created | Active | Inactive

  /** The four table indexes of a virtual address. */
  function KeyOf(va: nat): Path {
    Key(va / 0x80_0000_0000 % ENTRIES, va / 0x4000_0000 % ENTRIES, va / 0x20_0000 % ENTRIES, va / 0x1000 % ENTRIES)
  }

  /** Two addresses have the same key exactly when they agree in bits 47..12. */
  lemma KeyBits(a: nat, b: nat)
    ensures KeyOf(a) == KeyOf(b) <==> a / 0x1000 % 0x10_0000_0000 == b / 0x1000 % 0x10_0000_0000
  {
    var k, m := KeyOf(a), KeyOf(b);
    KeyValue(a);
    KeyValue(b);
    Digits((k.pml4 * 512 + k.pdpt) * 512 + k.pd, k.pt, (m.pml4 * 512 + m.pdpt) * 512 + m.pd, m.pt);
    Digits(k.pml4 * 512 + k.pdpt, k.pd, m.pml4 * 512 + m.pdpt, m.pd);
    Digits(k.pml4, k.pdpt, m.pml4, m.pdpt);
  }

  lemma Digits(x: nat, p: nat, y: nat, q: nat)
    requires p < 512 && q < 512
    ensures x * 512 + p == y * 512 + q <==> x == y && p == q
  {
  }

  /** Bits 47..12 as a number in base 512. */
  lemma KeyValue(a: nat)
    ensures var k := KeyOf(a); a / 0x1000 % 0x10_0000_0000 == ((k.pml4 * 512 + k.pdpt) * 512 + k.pd) * 512 + k.pt
  {
    var n := a / 0x1000;
    var n1 := n / 512;
    var n2 := n1 / 512;
    Shifted(a, n, n1, n2);
    FourDigits(n);
    ThreeDigits(n1);
    TwoDigits(n2);
  }

  lemma Shifted(a: nat, n: nat, n1: nat, n2: nat)
    requires n == a / 0x1000 && n1 == n / 512 && n2 == n1 / 512
    ensures a / 0x20_0000 == n1 && a / 0x4000_0000 == n2 && a / 0x80_0000_0000 == n2 / 512
  {
  }

  lemma FourDigits(n: nat)
    ensures n % 0x10_0000_0000 == n / 512 % 0x800_0000 * 512 + n % 512
  {
  }

  lemma ThreeDigits(n: nat)
    ensures n % 0x800_0000 == n / 512 % 0x4_0000 * 512 + n % 512
  {
  }

  lemma TwoDigits(n: nat)
    ensures n % 0x4_0000 == n / 512 % 512 * 512 + n % 512
  {
  }

  /** Only the writable (2) and user (4) bits may be requested for a mapping. */
  predicate FlagsOk(flags: nat) { flags % 2 == 0 && flags < 8 }

  function TableEntry(child: nat, flags: nat): Entry {
    Entry(true, true, flags / 4 % 2 == 1, false, false, false, 0, child)
  }

  function LeafEntry(pa: nat, flags: nat): Entry {
    Entry(true, flags / 2 % 2 == 1, flags / 4 % 2 == 1, false, false, false, 0, pa / PAGE % 0x100_0000_0000)
  }

  /** From v to w at most three free frames became tables: nothing else was taken and nothing given
      back. */
  ghost predicate Taken(v: Vm, w: Vm) {
    && |v.free| <= |w.free| + 3 && |w.tables| <= |v.tables| + 3
    && (forall f | f in w.free :: f in v.free)
    && (forall f | f in v.free :: f in w.free || f in w.tables)
    && (forall t | t in w.tables :: t in v.tables || t in v.free)
    && (forall t | t in v.tables :: t in w.tables)
  }

  lemma OpenedTaken(v0: Vm, v1: Vm, parent: nat, index: nat, child: nat, flags: nat, info: Info, created: bool)
    requires Opened(v0, v1, parent, index, child, flags, info, created)
    ensures Taken(v0, v1)
  {
    OpenedCounts(v0, v1, parent, index, child, flags, info, created);
  }

  /** What happened while the three lower tables of a walk were opened. */
  ghost predicate Opened(v0: Vm, v1: Vm, parent: nat, index: nat, child: nat, flags: nat, info: Info, created: bool) {
    && Good(v0, {}) && Good(v1, {}) && SameWalks(v0, v1)
    && parent in v0.tables && parent in v0.mem && index < ENTRIES
    && child != 0 && child in v1.tables && child in v1.mem && v1.tables[child] == info
    && Edge(v1, parent, index) && v1.mem[parent][index].frame == child
    && (created ==> child in v0.free && child in v0.mem && !v0.mem[parent][index].present
                    && v1 == Link(Add(v0, child, info), parent, index, TableEntry(child, flags)))
    && (!created ==> v1 == v0)
  }

  lemma OpenedAll(v0: Vm, v1: Vm, v2: Vm, v3: Vm, root: nat, k: Path, pdpt: nat, pd: nat, pt: nat, flags: nat, c2: bool, c1: bool, c0: bool)
    requires Opened(v0, v1, root, k.pml4, pdpt, flags, Info(2, root), c2)
    requires Opened(v1, v2, pdpt, k.pdpt, pd, flags, Info(1, root), c1)
    requires Opened(v2, v3, pd, k.pd, pt, flags, Info(0, root), c0)
    ensures SameWalks(v0, v3) && Taken(v0, v3)
  {
    SameWalksTrans(v0, v1, v2);
    SameWalksTrans(v0, v2, v3);
    OpenedTaken(v0, v1, root, k.pml4, pdpt, flags, Info(2, root), c2);
    OpenedTaken(v1, v2, pdpt, k.pdpt, pd, flags, Info(1, root), c1);
    OpenedTaken(v2, v3, pd, k.pd, pt, flags, Info(0, root), c0);
    OpenedCounts(v0, v1, root, k.pml4, pdpt, flags, Info(2, root), c2);
    OpenedCounts(v1, v2, pdpt, k.pdpt, pd, flags, Info(1, root), c1);
    OpenedCounts(v2, v3, pd, k.pd, pt, flags, Info(0, root), c0);
  }

  lemma LeafReached(v0: Vm, v1: Vm, v2: Vm, v3: Vm, root: nat, k: Path, pdpt: nat, pd: nat, pt: nat, flags: nat, c2: bool, c1: bool, c0: bool)
    requires Root(v0, root)
    requires Opened(v0, v1, root, k.pml4, pdpt, flags, Info(2, root), c2)
    requires Opened(v1, v2, pdpt, k.pdpt, pd, flags, Info(1, root), c1)
    requires Opened(v2, v3, pd, k.pd, pt, flags, Info(0, root), c0)
    ensures Root(v3, root) && Reach(v3.mem, root, PML4, k, 0) == pt
  {
    TableFacts(v1, {}, root);
    TableFacts(v2, {}, root);
    TableFacts(v1, {}, pdpt);
    TableFacts(v2, {}, pdpt);
    assert v3.mem[pdpt] == v2.mem[pdpt];
    assert v3.mem[root] == v1.mem[root];
    WalkStep(v3, {}, root, PML4, k);
    WalkStep(v3, {}, pdpt, 2, k);
    WalkStep(v3, {}, pd, 1, k);
  }

  /** A mapping of (r, k) can be made: nothing is mapped there yet, no huge page is in the way, and
      there are frames and records for the tables it needs. */
  ghost predicate CanMap(v: Vm, r: nat, k: Path) {
    Walk(v.mem, r, PML4, k) == NotMapped && !NoRoom(v, Missing(v.mem, r, k))
  }

  lemma OpenedCounts(v0: Vm, v1: Vm, parent: nat, index: nat, child: nat, flags: nat, info: Info, created: bool)
    requires Opened(v0, v1, parent, index, child, flags, info, created)
    ensures |v1.free| == |v0.free| - (if created then 1 else 0)
    ensures |v1.tables| == |v0.tables| + (if created then 1 else 0)
  {
    if created {
      assert child !in v0.tables by { assert Open(TREES); }
      assert |v0.tables[child := info]| == |v0.tables| + 1;
    }
  }

  /** A created table is empty, so whatever comes below it is created too. */
  lemma CreatedIsEmpty(v0: Vm, v1: Vm, parent: nat, index: nat, child: nat, flags: nat, info: Info, i: nat)
    requires Opened(v0, v1, parent, index, child, flags, info, true) && i < ENTRIES
    ensures v1.mem[child][i] == ZERO
  {
    TableFacts(v0, {}, parent);
  }

  lemma FailAtPdpt(v0: Vm, root: nat, k: Path)
    requires Good(v0, {}) && Root(v0, root) && root in v0.mem
    requires var e := v0.mem[root][k.pml4]; if e.present then e.huge else NoRoom(v0, 1)
    ensures !CanMap(v0, root, k)
  {
    WalkStep(v0, {}, root, PML4, k);
  }

  lemma FailAtPd(v0: Vm, v1: Vm, root: nat, k: Path, pdpt: nat, flags: nat, c2: bool)
    requires Root(v0, root) && Opened(v0, v1, root, k.pml4, pdpt, flags, Info(2, root), c2)
    requires var e := v1.mem[pdpt][k.pdpt]; if e.present then e.huge else NoRoom(v1, 1)
    ensures !CanMap(v0, root, k)
  {
    WalkStep(v0, {}, root, PML4, k);
    OpenedCounts(v0, v1, root, k.pml4, pdpt, flags, Info(2, root), c2);
    if c2 {
      CreatedIsEmpty(v0, v1, root, k.pml4, pdpt, flags, Info(2, root), k.pdpt);
    } else {
      WalkStep(v0, {}, pdpt, 2, k);
    }
  }

  lemma FailAtPt(v0: Vm, v1: Vm, v2: Vm, root: nat, k: Path, pdpt: nat, pd: nat, flags: nat, c2: bool, c1: bool)
    requires Root(v0, root) && Opened(v0, v1, root, k.pml4, pdpt, flags, Info(2, root), c2)
    requires Opened(v1, v2, pdpt, k.pdpt, pd, flags, Info(1, root), c1)
    requires var e := v2.mem[pd][k.pd]; if e.present then e.huge else NoRoom(v2, 1)
    ensures !CanMap(v0, root, k)
  {
    WalkStep(v0, {}, root, PML4, k);
    OpenedCounts(v0, v1, root, k.pml4, pdpt, flags, Info(2, root), c2);
    OpenedCounts(v1, v2, pdpt, k.pdpt, pd, flags, Info(1, root), c1);
    if c2 { CreatedIsEmpty(v0, v1, root, k.pml4, pdpt, flags, Info(2, root), k.pdpt); }
    if c1 { CreatedIsEmpty(v1, v2, pdpt, k.pdpt, pd, flags, Info(1, root), k.pd); }
    if !c2 { WalkStep(v0, {}, pdpt, 2, k); }
    if !c2 && !c1 { WalkStep(v0, {}, pd, 1, k); }
  }

  lemma OpenedWay(v: Vm, v0: Vm, v1: Vm, root: nat, k: Path, l: nat, parent: nat, child: nat, flags: nat, created: bool)
    requires Root(v0, root) && l < PML4 && parent == Reach(v0.mem, root, PML4, k, l + 1) != 0 && Extended(v, v0, root, k, l + 1)
    requires Opened(v0, v1, parent, k.At(l + 1), child, flags, Info(l, root), created) && forall r | Root(v, r) :: Root(v0, r)
    ensures Extended(v, v1, root, k, l) && Reach(v1.mem, root, PML4, k, l) == child && forall r | Root(v, r) :: Root(v1, r)
  {
    if created {
      TableAdded(v0, v1, root, k, l, parent, TableEntry(child, flags), Info(l, root));
    } else {
      ReachNext(v0.mem, root, PML4, k, l);
      TableThere(v0, root, k, l);
    }
    ExtendedBy(v, v0, v1, root, k, l);
  }

  /** The three opened tables are the missing ones of the way, and all that is new. */
  lemma OpenedWays(v0: Vm, v1: Vm, v2: Vm, v3: Vm, root: nat, k: Path, pdpt: nat, pd: nat, pt: nat, flags: nat, c2: bool, c1: bool, c0: bool)
    requires Root(v0, root)
    requires Opened(v0, v1, root, k.pml4, pdpt, flags, Info(2, root), c2)
    requires Opened(v1, v2, pdpt, k.pdpt, pd, flags, Info(1, root), c1)
    requires Opened(v2, v3, pd, k.pd, pt, flags, Info(0, root), c0)
    ensures Extended(v0, v3, root, k, 0) && forall r | Root(v0, r) :: Root(v3, r)
  {
    TableFacts(v0, {}, root);
    NothingAdded(v0, root, k);
    OpenedWay(v0, v0, v1, root, k, 2, root, pdpt, flags, c2);
    OpenedWay(v0, v1, v2, root, k, 1, pdpt, pd, flags, c1);
    OpenedWay(v0, v2, v3, root, k, 0, pd, pt, flags, c0);
  }

  /** The leaf is written into the table at the end of the opened way. */
  lemma LeafStored(v0: Vm, v1: Vm, v2: Vm, v3: Vm, v: Vm, root: nat, k: Path, leaf: Entry,
                   pdpt: nat, pd: nat, pt: nat, flags: nat, c2: bool, c1: bool, c0: bool)
    requires Root(v0, root) && leaf.present
    requires Opened(v0, v1, root, k.pml4, pdpt, flags, Info(2, root), c2)
    requires Opened(v1, v2, pdpt, k.pdpt, pd, flags, Info(1, root), c1)
    requires Opened(v2, v3, pd, k.pd, pt, flags, Info(0, root), c0)
    requires pt in v3.mem && v == Write(v3, pt, k.pt, leaf)
    ensures Good(v, {}) && WalksChanged(v0, v, root, k, Page(leaf, 0)) && Taken(v0, v) && WayOpened(v0, v, root, k)
  {
    OpenedWays(v0, v1, v2, v3, root, k, pdpt, pd, pt, flags, c2, c1, c0);
    LeafAdded(v0, v3, v, root, k, pt, k.pt, leaf);
    WriteGood(v3, pt, k.pt, leaf, {});
    LeafReached(v0, v1, v2, v3, root, k, pdpt, pd, pt, flags, c2, c1, c0);
    LeafWalks(v3, v, root, k, pt, leaf, {});
    OpenedAll(v0, v1, v2, v3, root, k, pdpt, pd, pt, flags, c2, c1, c0);
    ChangedAfterSame(v0, v3, v, root, k, Page(leaf, 0));
  }

  /** When all three tables are open, the request fits exactly if the last slot is empty. */
  lemma OpenDecides(v0: Vm, v1: Vm, v2: Vm, v3: Vm, root: nat, k: Path, pdpt: nat, pd: nat, pt: nat, flags: nat, c2: bool, c1: bool, c0: bool)
    requires Root(v0, root) && |v3.tables| <= MAX_TABLES
    requires Opened(v0, v1, root, k.pml4, pdpt, flags, Info(2, root), c2)
    requires Opened(v1, v2, pdpt, k.pdpt, pd, flags, Info(1, root), c1)
    requires Opened(v2, v3, pd, k.pd, pt, flags, Info(0, root), c0)
    ensures CanMap(v0, root, k) <==> !v3.mem[pt][k.pt].present
    ensures Used(v0, v3, Missing(v0.mem, root, k))
  {
    WalkStep(v0, {}, root, PML4, k);
    OpenedCounts(v0, v1, root, k.pml4, pdpt, flags, Info(2, root), c2);
    OpenedCounts(v1, v2, pdpt, k.pdpt, pd, flags, Info(1, root), c1);
    OpenedCounts(v2, v3, pd, k.pd, pt, flags, Info(0, root), c0);
    if c2 { CreatedIsEmpty(v0, v1, root, k.pml4, pdpt, flags, Info(2, root), k.pdpt); }
    if c1 { CreatedIsEmpty(v1, v2, pdpt, k.pdpt, pd, flags, Info(1, root), k.pd); }
    if c0 { CreatedIsEmpty(v2, v3, pd, k.pd, pt, flags, Info(0, root), k.pt); }
    if !c2 { WalkStep(v0, {}, pdpt, 2, k); }
    if !c2 && !c1 { WalkStep(v0, {}, pd, 1, k); }
    if !c2 && !c1 && !c0 { WalkStep(v0, {}, pt, 0, k); }
  }

  /** Every registered address space has a live root without reserved entries, and at most one is
      active: the one the manager remembers. */
  ghost predicate SpacesGood(v: Vm, roots: map<nat, SpaceState>, active: nat) {
    forall n {:trigger Open(n)} :: Open(n) && n == SPACES ==>
      && (forall r | r in roots :: r != 0 && Root(v, r))
      && (forall r, k: Path | r in roots :: Walk(v.mem, r, PML4, k) != Reserved)
      && (forall r | r in roots && roots[r] == Active :: r == active)
      && (active != 0 ==> active in roots && roots[active] == Active)
  }

  lemma SpacesKept(v: Vm, w: Vm, roots: map<nat, SpaceState>, active: nat)
    requires SpacesGood(v, roots, active) && SameWalks(v, w)
    ensures SpacesGood(w, roots, active)
  {
    assert Open(SPACES);
  }

  lemma SpacesChanged(v: Vm, w: Vm, roots: map<nat, SpaceState>, active: nat, r: nat, k: Path, page: Walked)
    requires SpacesGood(v, roots, active) && WalksChanged(v, w, r, k, page) && page != Reserved
    ensures SpacesGood(w, roots, active)
  {
    assert Open(SPACES);
  }

  lemma SpaceFacts(v: Vm, roots: map<nat, SpaceState>, active: nat, r: nat)
    requires SpacesGood(v, roots, active)
    ensures 0 !in roots
    ensures r in roots ==> Root(v, r) && (roots[r] == Active <==> r == active)
    ensures active != 0 ==> active in roots
  {
    assert Open(SPACES);
  }

  /** Bitwise or, as the code combines a page base with an offset. */
  function BitOr(a: nat, b: nat): nat {
    if a == 0 then b else if b == 0 then a
    else 2 * BitOr(a / 2, b / 2) + (if a % 2 == 1 || b % 2 == 1 then 1 else 0)
  }

  function PageSize(level: nat): nat {
    if level == 0 then 0x1000 else if level == 1 then 0x20_0000 else 0x4000_0000
  }

  function Pow2(k: nat): nat { if k == 0 then 1 else 2 * Pow2(k - 1) }

  /** With a base aligned to the size of the page, the or is a sum. */
  lemma {:induction false} OrAdds(a: nat, b: nat, k: nat)
    requires b < Pow2(k)
    ensures BitOr(a * Pow2(k), b) == a * Pow2(k) + b
  {
    if k == 0 {
      assert a * Pow2(k) == a;
    } else {
      var n := Pow2(k - 1);
      assert a * Pow2(k) == 2 * (a * n);
      OrAdds(a, b / 2, k - 1);
    }
  }

  /** The physical address of virtual address va inside the page that a walk found. */
  function Physical(e: Entry, level: nat, va: nat): nat {
    BitOr(e.frame * PAGE, va % PageSize(level))
  }

  lemma PageSizes()
    ensures Pow2(12) == PageSize(0) && Pow2(21) == PageSize(1) && Pow2(30) == PageSize(2)
  {
    assert Pow2(4) == 0x10 && Pow2(8) == 0x100 && Pow2(12) == 0x1000;
    assert Pow2(16) == 0x1_0000 && Pow2(20) == 0x10_0000 && Pow2(24) == 0x100_0000 && Pow2(28) == 0x1000_0000;
  }

  /** Inside an aligned page of any size, physical addresses run on from the frame. */
  lemma PhysicalRuns(e: Entry, level: nat, va: nat, n: nat)
    requires level <= 2 && e.frame * PAGE == n * PageSize(level)
    ensures Physical(e, level, va) == e.frame * PAGE + va % PageSize(level)
  {
    PageSizes();
    OrAdds(n, va % PageSize(level), if level == 0 then 12 else if level == 1 then 21 else 30);
  }

  /** The first n slots of p have been checked: `now` are the marks, `marked` those from before. */
  ghost predicate Checked(v: Vm, p: nat, l: nat, owner: nat, n: nat, marked: set<nat>, now: set<nat>) {
    && 0 < l && p in v.tables && v.tables[p] == Info(l, owner) && p in v.mem && n <= ENTRIES
    && now == marked + SubUpTo(v.mem, p, l, n) && SubUpTo(v.mem, p, l, n) !! marked
    && TreeUpTo(v.mem, p, l, n) && (forall j | 0 <= j < n :: LiveAt(v, p, l, owner, j))
    && (l == PML4 ==> forall j | 0 <= j < n :: v.mem[p][j].present ==> !v.mem[p][j].huge)
  }

  lemma Accepted(v: Vm, p: nat, l: nat, owner: nat, i: nat, marked: set<nat>, now: set<nat>)
    requires i < ENTRIES && Checked(v, p, l, owner, i, marked, now) && Ref(v.mem[p][i])
    requires var c := v.mem[p][i].frame; Live(v, c, l - 1, owner) && Tree(v.mem, c, l - 1) && Sub(v.mem, c, l - 1) !! now
    ensures Checked(v, p, l, owner, i + 1, marked, now + Sub(v.mem, v.mem[p][i].frame, l - 1))
  {
    assert LiveAt(v, p, l, owner, i);
    assert SubAt(v.mem, p, l, i) == Sub(v.mem, v.mem[p][i].frame, l - 1);
    assert TreeAt(v.mem, p, l, i);
  }

  lemma Skipped(v: Vm, p: nat, l: nat, owner: nat, i: nat, marked: set<nat>, now: set<nat>)
    requires i < ENTRIES && Checked(v, p, l, owner, i, marked, now) && !Ref(v.mem[p][i])
    requires v.mem[p][i].present ==> l != PML4
    ensures Checked(v, p, l, owner, i + 1, marked, now)
  {
    assert LiveAt(v, p, l, owner, i);
    assert SubAt(v.mem, p, l, i) == {};
    assert TreeAt(v.mem, p, l, i);
  }

  lemma AllChecked(v: Vm, p: nat, l: nat, owner: nat, marked: set<nat>, now: set<nat>)
    requires Checked(v, p, l, owner, ENTRIES, marked, now)
    ensures Live(v, p, l, owner) && NoReserved(v.mem, p, l) && Tree(v.mem, p, l) && Sub(v.mem, p, l) !! marked
    ensures now == marked + Sub(v.mem, p, l)
  {}

  /** A refused child refuses its parent. */
  lemma Refused(v: Vm, p: nat, l: nat, owner: nat, i: nat, marked: set<nat>)
    requires 0 < l <= PML4 && p in v.mem && i < ENTRIES && Ref(v.mem[p][i])
    requires var c := v.mem[p][i].frame;
             !(Live(v, c, l - 1, owner) && NoReserved(v.mem, c, l - 1) && Tree(v.mem, c, l - 1) && Sub(v.mem, c, l - 1) !! marked + SubUpTo(v.mem, p, l, i))
    ensures !(Live(v, p, l, owner) && Tree(v.mem, p, l) && Sub(v.mem, p, l) !! marked)
  {
    if Live(v, p, l, owner) && Tree(v.mem, p, l) && Sub(v.mem, p, l) !! marked {
      assert LiveAt(v, p, l, owner, i);
      TreePrefix(v.mem, p, l, ENTRIES, i + 1);
      SubUpToAt(v.mem, p, l, ENTRIES, i);
      assert false;
    }
  }

  lemma {:induction false} TreePrefix(mem: Mem, p: nat, l: nat, n: nat, m: nat)
    requires 0 < l && p in mem && m <= n <= ENTRIES && TreeUpTo(mem, p, l, n)
    ensures TreeUpTo(mem, p, l, m)
    decreases n
  {
    if m < n { TreePrefix(mem, p, l, n - 1, m); }
  }

  /** w is v after the tables in s have been given up; the recorded slots are left alone. */
  ghost predicate Gone(v: Vm, w: Vm, s: set<nat>) {
    && (forall q :: q in w.tables <==> q in v.tables && q !in s)
    && (forall q | q in w.tables :: w.tables[q] == v.tables[q])
    && (forall q :: q in w.free <==> q in v.free || q in s)
    && w.up == v.up
    && (forall q :: q in w.mem <==> q in v.mem)
    && (forall q | q in v.mem && q !in s :: w.mem[q] == v.mem[q])
  }

  /** The trees behind the first n slots of p are gone, the slots from m on are untouched, p is left. */
  ghost predicate Emptied(v: Vm, w: Vm, p: nat, l: nat, owner: nat, n: nat, m: nat) {
    && 0 < l <= PML4 && p in v.mem && n <= m <= ENTRIES
    && p in w.mem && p in w.tables && p in v.tables && p !in w.free
    && (forall j | m <= j < ENTRIES :: w.mem[p][j] == v.mem[p][j])
    && EmptiedRest(v, w, p, SubUpTo(v.mem, p, l, n))
  }

  ghost predicate EmptiedRest(v: Vm, w: Vm, p: nat, s: set<nat>) {
    && (forall q | q != p :: q in w.tables <==> q in v.tables && q !in s)
    && (forall q | q in w.tables && q in v.tables :: w.tables[q] == v.tables[q])
    && (forall q | q != p :: q in w.free <==> q in v.free || q in s)
    && w.up == v.up
    && (forall q :: q in w.mem <==> q in v.mem)
    && (forall q | q in v.mem && q in w.mem && q !in s :: w.mem[q] == v.mem[q])
  }

  lemma EmptiedStart(v: Vm, p: nat, l: nat, owner: nat)
    requires 0 < l <= PML4 && p in v.mem && p in v.tables && p !in v.free
    ensures Emptied(v, v, p, l, owner, 0, 0)
  {}

  lemma EmptiedStore(v: Vm, u: Vm, p: nat, l: nat, owner: nat, i: nat)
    requires i < ENTRIES && Emptied(v, u, p, l, owner, i, i)
    ensures Emptied(v, Write(u, p, i, ZERO), p, l, owner, i, i + 1)
  {
    SubHasRoot(v.mem, p, l, i);
  }

  lemma EmptiedSkip(v: Vm, w: Vm, p: nat, l: nat, owner: nat, i: nat, m: nat)
    requires i < ENTRIES && Emptied(v, w, p, l, owner, i, m) && !Ref(v.mem[p][i]) && i < m + 1
    ensures Emptied(v, w, p, l, owner, i + 1, if m == i then i + 1 else m)
  {
    assert SubUpTo(v.mem, p, l, i + 1) == SubUpTo(v.mem, p, l, i);
  }

  /** The tree behind the next slot is still whole. */
  lemma EmptiedChild(v: Vm, w: Vm, p: nat, l: nat, owner: nat, i: nat)
    requires i < ENTRIES && Emptied(v, w, p, l, owner, i, i + 1) && Ref(v.mem[p][i])
    requires Live(v, p, l, owner) && Tree(v.mem, p, l)
    ensures var c := v.mem[p][i].frame;
            Live(w, c, l - 1, owner) && Tree(w.mem, c, l - 1) && Sub(w.mem, c, l - 1) == Sub(v.mem, c, l - 1)
  {
    var c := v.mem[p][i].frame;
    assert LiveAt(v, p, l, owner, i);
    ChildUntouched(v, w, p, l, owner, i);
    SubFrame(v.mem, w.mem, c, l - 1);
    LiveFrame(v, w, c, l - 1, owner);
  }

  /** The tree below slot i is disjoint from the ones destroyed before, so it is as it was. */
  lemma ChildUntouched(v: Vm, w: Vm, p: nat, l: nat, owner: nat, i: nat)
    requires i < ENTRIES && Emptied(v, w, p, l, owner, i, i + 1) && Ref(v.mem[p][i])
    requires Live(v, p, l, owner) && Tree(v.mem, p, l)
    ensures var c := v.mem[p][i].frame;
            Tree(v.mem, c, l - 1) && Live(v, c, l - 1, owner) && Agree(v.mem, w.mem, Sub(v.mem, c, l - 1))
            && forall x | x in Sub(v.mem, c, l - 1) :: x in w.tables && w.tables[x] == v.tables[x]
  {
    var c := v.mem[p][i].frame;
    assert LiveAt(v, p, l, owner, i);
    TreePrefix(v.mem, p, l, ENTRIES, i + 1);
    SubHasRoot(v.mem, p, l, i);
    var s, done := Sub(v.mem, c, l - 1), SubUpTo(v.mem, p, l, i);
    assert s == SubAt(v.mem, p, l, i) && s !! done;
    forall x | x in s ensures x in v.tables && x in v.mem { LiveSub(v, c, l - 1, owner, x); }
  }

  lemma EmptiedNext(v: Vm, w: Vm, z: Vm, p: nat, l: nat, owner: nat, i: nat)
    requires i < ENTRIES && Emptied(v, w, p, l, owner, i, i + 1) && Ref(v.mem[p][i]) && Tree(v.mem, p, l)
    requires Gone(w, z, Sub(v.mem, v.mem[p][i].frame, l - 1))
    ensures Emptied(v, z, p, l, owner, i + 1, i + 1)
  {
    TreePrefix(v.mem, p, l, ENTRIES, i + 1);
    SubHasRoot(v.mem, p, l, i);
    assert SubAt(v.mem, p, l, i) == Sub(v.mem, v.mem[p][i].frame, l - 1);
    assert SubUpTo(v.mem, p, l, i + 1) == SubUpTo(v.mem, p, l, i) + SubAt(v.mem, p, l, i);
  }

  lemma EmptiedEnd(v: Vm, w: Vm, p: nat, l: nat, owner: nat)
    requires p in v.tables && p in v.mem
    requires if l == 0 then w == v else Emptied(v, w, p, l, owner, ENTRIES, ENTRIES)
    ensures Gone(v, Paging.Remove(w, p), Sub(v.mem, p, l))
  {
    SubSelf(v.mem, p, l);
  }

  lemma GoneWithout(v: Vm, w: Vm, s: set<nat>)
    requires Gone(v, w, s)
    ensures Without(v, Vm(w.mem, w.tables, w.up - s, w.free), s)
  {
    assert w.tables == v.tables - s;
    assert w.free == v.free + s;
  }

  /** A whole address space is a tree, and the others have no table in it. */
  lemma SpaceTree(v: Vm, r: nat)
    requires Good(v, {}) && Root(v, r) && forall k: Path :: Walk(v.mem, r, PML4, k) != Reserved
    ensures Live(v, r, PML4, r) && NoReserved(v.mem, r, PML4) && Tree(v.mem, r, PML4)
    ensures forall x | x in Sub(v.mem, r, PML4) :: x in v.tables && v.tables[x].owner == r
    ensures forall x | x in v.tables && v.tables[x].owner == r :: x in Sub(v.mem, r, PML4)
  {
    assert Open(TREES);
    forall i | 0 <= i < ENTRIES && v.mem[r][i].present ensures !v.mem[r][i].huge {
      assert Walk(v.mem, r, PML4, Key(i, 0, 0, 0)) != Reserved;
    }
    GoodLive(v, r, PML4, r);
    UniqueTree(v, r, PML4);
    var s := Sub(v.mem, r, PML4);
    forall x | x in s ensures x in v.tables && v.tables[x].owner == r { SubTables(v, r, PML4, x); }
    forall x | x in v.tables && v.tables[x].owner == r ensures x in s { OwnedReached(v, x); }
  }

  /** w is v without the tables of root r: their frames are free again, no other frame is, every
      other table and every other translation is as before. */
  ghost predicate OnlyOwnerGone(v: Vm, w: Vm, r: nat) {
    && (forall x :: x in w.tables <==> x in v.tables && v.tables[x].owner != r)
    && (forall x :: x in w.free <==> x in v.free || (x in v.tables && v.tables[x].owner == r))
    && (forall x | x in w.tables :: x in v.mem && x in w.mem && w.tables[x] == v.tables[x] && w.mem[x] == v.mem[x])
    && SameWalks(w, v)
  }

  lemma SpaceGone(v: Vm, w: Vm, r: nat, roots: map<nat, SpaceState>, active: nat)
    requires Good(v, {}) && SpacesGood(v, roots, active) && r in roots && r != active
    requires SameWalks(w, v) && Without(v, w, Sub(v.mem, r, PML4))
    ensures OnlyOwnerGone(v, w, r) && SpacesGood(w, roots - {r}, active)
  {
    assert Open(SPACES);
    SpaceTree(v, r);
    assert forall x | x in v.tables :: x in v.mem by { assert Open(TREES); }
    forall q | q in roots - {r} ensures Root(w, q) {
      assert Root(v, q);
    }
  }

  lemma SpaceIsTree(v: Vm, roots: map<nat, SpaceState>, active: nat, r: nat)
    requires Good(v, {}) && SpacesGood(v, roots, active) && r in roots
    ensures Live(v, r, PML4, r) && NoReserved(v.mem, r, PML4) && Tree(v.mem, r, PML4)
  {
    assert Open(SPACES);
    SpaceTree(v, r);
  }

  lemma CreatedRoot(v: Vm, w: Vm, r: nat, roots: map<nat, SpaceState>, active: nat)
    requires Good(v, {}) && SpacesGood(v, roots, active) && r in v.free && r != 0 && w == Add(v, r, Info(PML4, r))
    ensures r !in roots && r !in v.tables && Good(w, {}) && SameWalks(v, w)
    ensures forall k: Path :: Walk(w.mem, r, PML4, k) == NotMapped
    ensures SpacesGood(w, roots[r := Created], active)
  {
    assert r !in v.tables && forall q | q in v.tables && q in v.mem :: w.mem[q] == v.mem[q] by { assert Open(TREES); }
    assert r !in roots by { assert Open(SPACES); }
    AddGood(v, r, Info(PML4, r), {});
    KeptWalks(v, w, {});
    SpacesKept(v, w, roots, active);
    SpacesAdd(w, r, roots, active);
  }

  lemma SpacesAdd(w: Vm, r: nat, roots: map<nat, SpaceState>, active: nat)
    requires SpacesGood(w, roots, active) && r !in roots && r != 0 && Root(w, r)
    requires forall k: Path :: Walk(w.mem, r, PML4, k) != Reserved
    ensures SpacesGood(w, roots[r := Created], active)
  {
    assert Open(SPACES);
  }

  lemma ReleasedRoot(v: Vm, u: Vm, r: nat)
    requires r in v.free && r in v.mem && r !in v.tables && u == Paging.Remove(Add(v, r, Info(PML4, r)), r)
    ensures Restored(v, u)
  {
    assert u.tables == v.tables && u.free == v.free;
  }

  /** The registry after root has been activated. */
  ghost function ActivatedRoots(roots: map<nat, SpaceState>, active: nat, root: nat): map<nat, SpaceState> {
    (if active != 0 && active != root then roots[active := Inactive] else roots)[root := Active]
  }

  lemma Activated(v: Vm, roots: map<nat, SpaceState>, active: nat, root: nat)
    requires SpacesGood(v, roots, active) && root in roots
    ensures var after := ActivatedRoots(roots, active, root);
            && SpacesGood(v, after, root) && after.Keys == roots.Keys
            && forall r | r in roots && r != root :: after[r] == if r == active then Inactive else roots[r]
    ensures active != 0 && active != root ==> active in roots
  {
    assert Open(SPACES);
    if active != 0 && active != root {
      assert ActivatedRoots(roots, active, root) == roots[active := Inactive][root := Active];
    } else {
      assert ActivatedRoots(roots, active, root) == roots[root := Active];
    }
  }

  /** All that holds after a preparation: the translations, and a new root that clones the source. */
  ghost predicate Prepared(v0: Vm, v: Vm, kr: nat, sr: nat, cl: nat) {
    forall o {:trigger Open(o)} :: Open(o) && o == PREPARE ==>
      && PreparedWalks(v0, v, kr, sr) && cl in v0.free && Root(v, cl) && Accepts(v.mem, sr, cl, PML4) && OnlyTaken(v0, v)
      && forall k: Path :: Walk(v.mem, cl, PML4, k) == Walk(v0.mem, sr, PML4, k)
  }

  lemma ChildReady(v0: Vm, w: Vm, src: nat, d: nat, l: nat, owner: nat, i: nat, orphans: set<nat>)
    requires Copying(v0, w, src, d, l, owner, i, orphans) && 0 < l <= PML4 && i < ENTRIES && Readable(v0.mem, v0.free, src, l)
    requires src in v0.mem && Ref(v0.mem[src][i]) && (l < PML4 ==> Root(v0, owner))
    ensures Good(w, Pending(l, d, orphans)) && Readable(w.mem, w.free, v0.mem[src][i].frame, l - 1)
    ensures Root(w, if l == PML4 then d else owner)
  {
    CopyFacts(v0, w, src, d, l, owner, i, orphans);
    CopyReadable(v0, w, src, d, l, owner, i, orphans);
  }

  lemma ChildFailed(v0: Vm, w: Vm, z: Vm, src: nat, d: nat, l: nat, owner: nat, i: nat, orphans: set<nat>)
    requires Copying(v0, w, src, d, l, owner, i, orphans) && Spending(v0, w, src, l, i)
    requires 0 < l <= PML4 && i < ENTRIES && Readable(v0.mem, v0.free, src, l) && src in v0.mem && Ref(v0.mem[src][i])
    requires Restored(w, z) && !Clonable(w, v0.mem[src][i].frame, l - 1)
    ensures Begun(v0, z, d, l, owner, orphans) && !Clonable(v0, src, l)
  {
    CopyFacts(v0, w, src, d, l, owner, i, orphans);
    CopyReadable(v0, w, src, d, l, owner, i, orphans);
    CopyRestored(v0, w, z, src, d, l, owner, i, orphans);
    SpendFailed(v0, w, src, l, i);
  }

  lemma ChildDone(v0: Vm, w: Vm, z: Vm, src: nat, d: nat, l: nat, owner: nat, i: nat, c: nat, orphans: set<nat>)
    requires Copying(v0, w, src, d, l, owner, i, orphans) && Spending(v0, w, src, l, i) && Good(v0, orphans)
    requires 0 < l <= PML4 && i < ENTRIES && Readable(v0.mem, v0.free, src, l) && src in v0.mem && Ref(v0.mem[src][i])
    requires Cloned(w, z, v0.mem[src][i].frame, c, l - 1, if l == PML4 then d else owner, Pending(l, d, orphans))
    requires Complete(w.mem, v0.mem[src][i].frame, l - 1) && Used(w, z, Copies(w.mem, v0.mem[src][i].frame, l - 1))
    ensures d in z.tables && d in z.mem
    ensures var u := Link(z, d, i, WithFrame(v0.mem[src][i], c));
            Copying(v0, u, src, d, l, owner, i + 1, orphans) && Spending(v0, u, src, l, i + 1)
  {
    CopyFacts(v0, w, src, d, l, owner, i, orphans);
    CopyReadable(v0, w, src, d, l, owner, i, orphans);
    CopyChild(v0, w, z, src, d, l, owner, i, c, orphans);
    SpendChild(v0, w, z, Link(z, d, i, WithFrame(v0.mem[src][i], c)), src, l, i);
  }

  lemma PreparableParts(v: Vm, kr: nat, sr: nat)
    requires kr in v.mem && sr in v.mem
    ensures Preparable(v, kr, sr) <==> Clonable(v, sr, PML4) && Fillable(v, kr, sr, Copies(v.mem, sr, PML4))
  {
    assert forall i | 0 <= i < ENTRIES ::
        LargeGap(v.mem, kr, sr, i) <==> !v.mem[kr][i].present && v.mem[sr][i].present && v.mem[sr][i].huge;
  }

  /** What preparation needs: no reference to frame 0 and no large page where the kernel root has a gap, and
      frames and records for a full clone and for the copies that fill the gaps. */
  ghost predicate Preparable(v: Vm, kr: nat, sr: nat) {
    && kr in v.mem && sr in v.mem && Complete(v.mem, sr, PML4)
    && (forall i | 0 <= i < ENTRIES && !v.mem[kr][i].present && v.mem[sr][i].present :: !v.mem[sr][i].huge)
    && !NoRoom(v, Copies(v.mem, sr, PML4) + GapCopies(v.mem, kr, sr, ENTRIES))
  }

  /** The first table of a clone. */
  lemma SpendFirst(v: Vm, w: Vm, src: nat, d: nat, l: nat, owner: nat, orphans: set<nat>)
    requires Good(v, orphans) && src != 0 && src in v.mem && d in v.free
    requires w == Add(v, d, Info(l, if l == PML4 && owner == 0 then d else owner))
    ensures Spending(v, w, src, l, 0)
  {
    assert d !in v.tables by { assert Open(TREES); }
    SpendStart(v, w, src, d, l, Info(l, if l == PML4 && owner == 0 then d else owner));
  }

  lemma KernelAfterClone(v0: Vm, v1: Vm, cl: nat, kr: nat)
    requires Good(v0, {}) && Root(v0, kr) && Begun(v0, v1, cl, PML4, 0, {})
    ensures Good(v1, {}) && Grows(v0, v1) && Root(v1, kr) && kr in v1.mem
  {
    TableFacts(v0, {}, kr);
  }

  lemma BegunRestored(v0: Vm, v1: Vm, v: Vm, cl: nat)
    requires Begun(v0, v1, cl, PML4, 0, {}) && Restored(v1, v)
    ensures Begun(v0, v, cl, PML4, 0, {})
  {
    RestoredGood(v1, v, {});
    assert forall q | q in v0.mem && q !in v0.free :: q !in v1.free;
    GrowsRestored(v0, v1, v);
  }

  lemma SpacesPrepared(v0: Vm, v: Vm, kr: nat, sr: nat, roots: map<nat, SpaceState>, active: nat)
    requires SpacesGood(v0, roots, active) && PreparedWalks(v0, v, kr, sr) && kr in v0.mem
    requires forall k: Path | kr in v0.mem && !v0.mem[kr][k.pml4].present :: Walk(v0.mem, sr, PML4, k) != Reserved
    ensures SpacesGood(v, roots, active)
  {
    assert Open(SPACES);
  }

  /** Usable frames are memory, only they are free, and tables are usable frames that are not free. */
  ghost predicate InUsable(v: Vm, usable: set<nat>) {
    (forall f | f in usable :: f in v.mem) && v.free <= usable && forall p | p in v.tables :: p in usable && p !in v.free
  }

  lemma OneMore(v: Vm, usable: set<nat>, t: nat, info: Info, epochs: seq<nat>, epoch: nat, count: nat, more: nat)
    requires InUsable(v, usable) && t in usable && t !in v.free && NoneAhead(epochs, epoch, count) && count <= more
    ensures InUsable(Vm(v.mem, v.tables[t := info], v.up, v.free), usable) && NoneAhead(epochs, epoch, more)
  {
  }

  ghost predicate Untouched(ram: Mem, mem: Mem, usable: set<nat>) {
    forall f | f in ram && f !in usable :: f in mem && mem[f] == ram[f]
  }

  /** No record's epoch is ahead of the counter, and records never used have none. */
  ghost predicate NoneAhead(epochs: seq<nat>, epoch: nat, count: nat) {
    && |epochs| == MAX_TABLES && epoch < U64
    && forall i | 0 <= i < MAX_TABLES :: epochs[i] <= epoch && (count <= i ==> epochs[i] == 0)
  }

  class Vmm {
    const pmm: Pmm
    var mem: Mem
    var registry: SlotTable<Info>
    var spaces: SlotTable<SpaceState>
    /** validation_epoch of each registry record. */
    var epochs: seq<nat>
    var epoch: nat
    var kernelRoot: nat
    var lastClone: nat
    var active: nat
    var cr3: nat
    /** The snapshot the properties speak about, and where the registries keep their records. */
    ghost const ram: Mem
    ghost const loader: nat
    /** The frames that were free at the start; no others are ever handed out. */
    ghost const usable: set<nat>
    ghost var v: Vm
    /** Frames that were given back although they are tables or were never handed out. */
    ghost var stray: set<nat>
    ghost var tableAt: map<nat, nat>
    ghost var roots: map<nat, SpaceState>
    ghost var rootAt: map<nat, nat>

    /** The data structures are what they claim to be, but frames may have gone astray.
        The verifier looks inside part n only where `Open(n)` is mentioned. */
    ghost predicate Form()
      reads this, pmm, pmm.bitmap
    {
      forall n {:trigger Open(n)} :: Open(n) ==> Part(n)
    }

    /** The data structures are what they claim to be; nothing is said about the page tables. */
    ghost predicate Shape()
      reads this, pmm, pmm.bitmap
    {
      Form() && stray == {}
    }

    ghost predicate Part(n: int)
      reads this, pmm, pmm.bitmap
    {
      && (n == 0 ==> FramesOk()) && (n == 1 ==> RecordsOk()) && (n == 2 ==> SpacesOk())
      && (n == 3 ==> EpochsOk()) && (n == 4 ==> mem == v.mem && Outside())
    }

    lemma Parts()
      requires Form()
      ensures FramesOk() && RecordsOk() && SpacesOk() && EpochsOk() && mem == v.mem && Outside()
    {
      assert Open(0) && Open(1) && Open(2) && Open(3) && Open(4);
    }

    lemma Whole()
      requires FramesOk() && RecordsOk() && SpacesOk() && EpochsOk() && mem == v.mem && Outside()
      ensures Form()
    {
    }

    ghost predicate FramesOk()
      reads `v, `stray, pmm, pmm.bitmap
    {
      pmm.Valid() && pmm.free == v.free + stray && usable <= pmm.managed && InUsable(v, usable)
    }

    /** Memory that is not usable is as the boot loader left it. */
    ghost predicate Outside()
      reads `v
    {
      Untouched(ram, v.mem, usable)
    }

    ghost predicate RecordsOk()
      reads `v, `registry, `tableAt
    {
      Holds(registry, v.tables, tableAt) && |registry.slots| == MAX_TABLES
    }

    ghost predicate SpacesOk()
      reads `spaces, `roots, `rootAt
    {
      Holds(spaces, roots, rootAt) && |spaces.slots| == MAX_SPACES
    }

    /** Only the list of address spaces has changed. */
    twostate lemma SpacesWritten()
      requires old(Form()) && SpacesOk()
      requires unchanged(`mem, `v, `stray, `registry, `tableAt, `epochs, `epoch) && unchanged(pmm) && unchanged(pmm.bitmap)
      ensures Form()
    {
      assert old(FramesOk()) && old(RecordsOk()) && old(EpochsOk()) && old(mem == v.mem && Outside()) by {
        assert Open(0) && Open(1) && Open(3) && Open(4);
      }
      assert FramesOk() && RecordsOk() && EpochsOk() && Outside();
    }

    /** Only the registry of tables has changed. */
    twostate lemma TablesWritten()
      requires old(Form()) && RecordsOk() && EpochsOk() && InUsable(v, usable)
      requires v == Vm(old(v).mem, v.tables, old(v).up, old(v).free)
      requires unchanged(`mem, `stray, `spaces, `roots, `rootAt) && unchanged(pmm) && unchanged(pmm.bitmap)
      ensures Form()
    {
      assert old(FramesOk()) && old(SpacesOk()) && old(mem == v.mem && Outside()) by {
        assert Open(0) && Open(2) && Open(4);
      }
      assert FramesOk() && SpacesOk() && Outside();
    }

    ghost predicate EpochsOk()
      reads `epochs, `epoch, `registry
    {
      NoneAhead(epochs, epoch, registry.count)
    }

    /** CR3 holds the active address space, and before the first activation the boot loader's tables,
        which lie in frames that are not usable. */
    ghost predicate Loaded()
      reads `active, `cr3
    {
      cr3 == (if active == 0 then loader else active) && LoaderReadable()
    }

    ghost predicate LoaderReadable() {
      forall n {:trigger Open(n)} :: Open(n) && n == 5 ==> Readable(ram, usable, loader, PML4)
    }

    /** The invariant of the interface, but for frames that have gone astray. */
    ghost predicate Sane()
      reads this, pmm, pmm.bitmap
    {
      Form() && Good(v, {}) && SpacesGood(v, roots, active) && Loaded()
    }

    /** The invariant of the interface. */
    ghost predicate Valid()
      reads this, pmm, pmm.bitmap
    {
      Sane() && stray == {}
    }

    /** All static variables start at zero; CR3 holds whatever tables the boot loader left. */
    constructor (pmm: Pmm, ram: Mem, cr3: nat)
      requires pmm.Valid() && pmm.free <= ram.Keys && Readable(ram, pmm.free, cr3, PML4)
      ensures Valid() && this.pmm == pmm && v == Vm(ram, map[], map[], pmm.free) && this.cr3 == cr3 && usable == pmm.free
      ensures roots == map[] && active == 0 && kernelRoot == 0
    {
      this.pmm := pmm;
      this.ram, loader, usable, stray := ram, cr3, pmm.free, {};
      registry := SlotTable(seq(MAX_TABLES, _ => Slot(0, Info(0, 0), false)), 0);
      spaces := SlotTable(seq(MAX_SPACES, _ => Slot(0, Created, false)), 0);
      epochs := seq(MAX_TABLES, _ => 0);
      mem, epoch, kernelRoot, lastClone, active := ram, 0, 0, 0, 0;
      v, tableAt, roots, rootAt := Vm(ram, map[], map[], pmm.free), map[], map[], map[];
      this.cr3 := cr3;
    }

    /** In every valid state: disjoint trees of correctly owned and levelled tables in used frames,
        and at most one active address space, the one remembered. */
    lemma Meaning()
      requires Valid()
      ensures Separated(v)
      ensures pmm.free <= usable && forall t | t in v.tables :: t in usable && t !in pmm.free
      ensures forall r | r in roots :: Root(v, r) && (roots[r] == Active <==> r == active)
      ensures active != 0 ==> active in roots && cr3 == active
    {
      assert Open(0);
      Separation(v);
      SpaceFacts(v, roots, active, active);
      forall r | r in roots ensures Root(v, r) && (roots[r] == Active <==> r == active) {
        SpaceFacts(v, roots, active, r);
      }
    }

    /** Whatever CR3 refers to can be copied: none of its tables is a free frame or another root. */
    lemma CurrentReadable(r: nat)
      requires Valid() && Root(v, r) && r != cr3
      ensures Readable(v.mem, v.free + {r}, cr3, PML4)
    {
      if active == 0 {
        assert v.free <= usable && r in usable by { assert Open(0); }
        assert Outside() by { assert Open(4); }
        assert Readable(ram, usable, loader, PML4) by { assert Open(5); }
        ReadableKept(ram, usable, v.mem, v.free + {r}, loader, PML4);
      } else {
        SpaceFacts(v, roots, active, active);
        GoodReadable(v, active, PML4, r);
      }
    }

    // ---- one store, one record, one frame at a time -----------------------------------------

    method GetFrame() returns (t: nat)
      requires Shape()
      modifies `v, pmm`freeFrames, pmm`free, pmm.bitmap
      ensures Shape()
      ensures t == 0 <==> old(v).free == {}
      ensures t != 0 ==> t in old(v).free && t in v.mem && t in usable && t !in v.tables
      ensures v == if t == 0 then old(v) else Vm(old(v).mem, old(v).tables, old(v).up, old(v).free - {t})
    {
      Parts();
      t := pmm.Alloc();
      if t != 0 { v := Vm(v.mem, v.tables, v.up, v.free - {t}); }
      Whole();
    }

    method PutFrame(t: nat)
      requires Form() && t !in v.tables && t in usable
      modifies `v, pmm`freeFrames, pmm`free, pmm.bitmap
      ensures Form() && v == Vm(old(v).mem, old(v).tables, old(v).up, old(v).free + {t})
    {
      Parts();
      pmm.FreeFrame(t);
      v := Vm(v.mem, v.tables, v.up, v.free + {t});
      Whole();
    }

    /** The allocator takes back any frame in its range. One that is a table, or that it did not hand out,
        goes astray. */
    method PutAny(t: nat)
      requires Form()
      modifies `v, `stray, pmm`freeFrames, pmm`free, pmm.bitmap
      ensures Form() && pmm.free == old(pmm.free) + if t in pmm.managed then {t} else {}
      ensures v == Vm(old(v).mem, old(v).tables, old(v).up, if t in usable && t !in v.tables then old(v).free + {t} else old(v).free)
      ensures stray == old(stray) + if t in pmm.managed && (t !in usable || t in v.tables) then {t} else {}
    {
      Parts();
      if t in usable && t !in v.tables {
        v := Vm(v.mem, v.tables, v.up, v.free + {t});
      } else if t in pmm.managed {
        stray := stray + {t};
      }
      pmm.FreeFrame(t);
      Whole();
    }

    method ZeroPage(t: nat)
      requires Shape() && t in v.mem && t in usable
      modifies `mem, `v
      ensures Shape() && v == Vm(old(v).mem[t := Empty()], old(v).tables, old(v).up, old(v).free)
    {
      Parts();
      mem := mem[t := Empty()];
      v := Vm(mem, v.tables, v.up, v.free);
      Whole();
    }

    method Store(p: nat, i: nat, e: Entry)
      requires Form() && p in v.tables && p in v.mem && i < ENTRIES
      modifies `mem, `v
      ensures Form() && v == Write(old(v), p, i, e)
    {
      Parts();
      mem := mem[p := mem[p][i := e]];
      v := Vm(mem, v.tables, v.up, v.free);
      Whole();
    }

    method Register(t: nat, info: Info) returns (ok: bool)
      requires Shape() && t in usable && t !in v.free && t !in v.tables && t != 0
      modifies `registry, `v, `tableAt
      ensures Shape()
      ensures ok <==> |old(v).tables| < MAX_TABLES
      ensures v == if ok then Vm(old(v).mem, old(v).tables[t := info], old(v).up, old(v).free) else old(v)
    {
      assert RecordsOk() && EpochsOk() && InUsable(v, usable) by { assert Open(0) && Open(1) && Open(3); }
      var records, index := Insert(registry, v.tables, tableAt, t, info);
      if index < 0 { return false; }
      OneMore(v, usable, t, info, epochs, epoch, registry.count, records.count);
      registry := records;
      v := Vm(v.mem, v.tables[t := info], v.up, v.free);
      tableAt := tableAt[t := index];
      TablesWritten();
      return true;
    }

    method Unregister(t: nat) returns (ok: bool)
      requires Shape()
      modifies `registry, `v, `tableAt
      ensures Shape()
      ensures ok <==> t in old(v).tables
      ensures v == Vm(old(v).mem, old(v).tables - {t}, old(v).up, old(v).free)
    {
      assert RecordsOk() && EpochsOk() && InUsable(v, usable) by { assert Open(0) && Open(1) && Open(3); }
      var code;
      registry, code := Slots.Remove(registry, v.tables, tableAt, t);
      v := Vm(v.mem, v.tables - {t}, v.up, v.free);
      tableAt := tableAt - {t};
      TablesWritten();
      return code == 0;
    }

    lemma Capacity()
      requires Shape()
      ensures |v.tables| <= MAX_TABLES
    {
      assert Open(1);
      Room(registry, v.tables, tableAt);
    }

    // ---- tables -----------------------------------------------------------------------------

    method AllocateTable(level: nat, owner: nat) returns (t: nat)
      requires Shape() && level <= PML4
      modifies `mem, `registry, `v, `tableAt, pmm`freeFrames, pmm`free, pmm.bitmap
      ensures Shape()
      ensures t == 0 ==> Restored(old(v), v)
      ensures t != 0 ==> t in old(v).free && t in old(v).mem
      ensures t != 0 ==> v == Add(old(v), t, Info(level, if level == PML4 && owner == 0 then t else owner))
      ensures t == 0 <==> old(v).free == {} || |old(v).tables| >= MAX_TABLES
    {
      t := GetFrame();
      if t == 0 { return 0; }
      ZeroPage(t);
      var ok := Register(t, Info(level, if level == PML4 && owner == 0 then t else owner));
      if !ok {
        PutFrame(t);
        return 0;
      }
    }

    /** The table must be registered; its record goes first, then its frame. */
    method ReleaseTable(t: nat) returns (code: int)
      requires Shape()
      modifies `registry, `v, `tableAt, pmm`freeFrames, pmm`free, pmm.bitmap
      ensures Shape()
      ensures code == if t in old(v).tables then 0 else -1
      ensures v == if code == 0 then Paging.Remove(old(v), t) else old(v)
    {
      var managed := IsTable(t);
      if !managed { return -1; }
      var ok := Unregister(t);
      PutFrame(t);
      return 0;
    }

    method IsTable(t: nat) returns (found: bool)
      requires Form()
      ensures found <==> t in v.tables
      ensures found ==> t in usable
    {
      assert Open(0) && Open(1);
      var index := Find(registry, v.tables, tableAt, t);
      return index >= 0;
    }

    method VerifyRecord(t: nat, level: nat, owner: nat) returns (ok: bool)
      requires Form()
      ensures ok <==> t in v.tables && v.tables[t] == Info(level, owner)
    {
      assert Open(1);
      var index := Find(registry, v.tables, tableAt, t);
      return index >= 0 && registry.slots[index].value == Info(level, owner);
    }

    method VerifyChild(e: Entry, level: nat, owner: nat) returns (child: nat)
      requires Form()
      ensures child != 0 ==> child == e.frame && e.present && !e.huge && child in v.tables && v.tables[child] == Info(level, owner)
      ensures e.present && !e.huge && e.frame in v.tables && v.tables[e.frame] == Info(level, owner) ==> child == e.frame
    {
      if !e.present || e.huge { return 0; }
      var ok := VerifyRecord(e.frame, level, owner);
      return if ok then e.frame else 0;
    }

    method Load(p: nat, i: nat) returns (e: Entry)
      requires Form() && p in v.mem && i < ENTRIES
      ensures e == v.mem[p][i]
    {
      assert Open(4);
      e := mem[p][i];
    }

    /** The child table behind slot `index`, created empty when the slot is. */
    method GetOrCreate(parent: nat, index: nat, flags: nat, level: nat, root: nat) returns (child: nat, created: bool)
      requires Shape() && Good(v, {}) && parent in v.tables && v.tables[parent] == Info(level + 1, root)
      requires parent in v.mem && index < ENTRIES
      modifies `mem, `registry, `v, `tableAt, pmm`freeFrames, pmm`free, pmm.bitmap
      ensures Shape() && Good(v, {})
      ensures child == 0 ==> !created && Restored(old(v), v)
      ensures child != 0 ==> child in v.tables && v.tables[child] == Info(level, root) && child in v.mem
      ensures child != 0 ==> Edge(v, parent, index) && v.mem[parent][index].frame == child
      ensures child != 0 ==> SameWalks(old(v), v)
      ensures child != 0 && !created ==> v == old(v)
      ensures created ==> child in old(v).free && child in old(v).mem && !old(v).mem[parent][index].present && v == Link(Add(old(v), child, Info(level, root)), parent, index, TableEntry(child, flags))
      ensures var e := old(v).mem[parent][index];
              child == 0 <==> if e.present then e.huge else NoRoom(old(v), 1)
    {
      TableFacts(v, {}, parent);
      var e := Load(parent, index);
      if e.present {
        if !e.huge { EdgeFacts(v, {}, parent, index); TableFacts(v, {}, e.frame); }
        child := VerifyChild(e, level, root);
        return child, false;
      }
      child := AllocateTable(level, root);
      if child == 0 {
        RestoredGood(old(v), v, {});
        return 0, false;
      }
      AddGood(old(v), child, Info(level, root), {});
      Store(parent, index, TableEntry(child, flags));
      SetUp(child, parent, index);
      LinkGood(Add(old(v), child, Info(level, root)), parent, index, TableEntry(child, flags), {child});
      assert {child} - {child} == {};
      CreateWalks(old(v), parent, index, TableEntry(child, flags), Info(level, root), {});
      return child, true;
    }

    ghost method SetUp(child: nat, parent: nat, index: nat)
      requires Shape()
      modifies `v
      ensures Shape() && v == Vm(old(v).mem, old(v).tables, old(v).up[child := (parent, index)], old(v).free)
    {
      v := Vm(v.mem, v.tables, v.up[child := (parent, index)], v.free);
    }

    ghost method ClearUp(child: nat)
      requires Shape()
      modifies `v
      ensures Shape() && v == Vm(old(v).mem, old(v).tables, old(v).up - {child}, old(v).free)
    {
      v := Vm(v.mem, v.tables, v.up - {child}, v.free);
    }

    /** Detaches and releases a table, provided the slot still refers to it. */
    method RollbackTable(parent: nat, index: nat, child: nat) returns (code: int)
      requires Shape() && parent in v.tables && parent in v.mem && index < ENTRIES
      modifies `mem, `registry, `v, `tableAt, pmm`freeFrames, pmm`free, pmm.bitmap
      ensures Shape()
      ensures var e := old(v).mem[parent][index];
              if child == 0 || !e.present || e.frame != child then code == -1 && v == old(v)
              else if child in old(v).tables then code == 0 && v == Paging.Remove(Unlink(old(v), parent, index), child)
              else code == -1 && v == Unlink(old(v), parent, index)
    {
      if child == 0 { return -1; }
      var e := Load(parent, index);
      if !e.present || e.frame != child { return -1; }
      Store(parent, index, ZERO);
      ClearUp(child);
      code := ReleaseTable(child);
    }

    /** Takes back the table that this operation created behind a slot, if it did create one. */
    method UndoIf(created: bool, parent: nat, index: nat, child: nat, flags: nat, info: Info, ghost before: Vm, ghost after: Vm)
      requires Shape() && Good(before, {}) && Good(after, {}) && Restored(after, v)
      requires parent in before.tables && parent in before.mem && index < ENTRIES
      requires created ==> !before.mem[parent][index].present && child in before.free && child in before.mem && child != 0 && child in after.tables
      requires created ==> after == Link(Add(before, child, info), parent, index, TableEntry(child, flags))
      requires !created ==> after == before
      modifies `mem, `registry, `v, `tableAt, pmm`freeFrames, pmm`free, pmm.bitmap
      ensures Shape() && Restored(before, v)
    {
      if created {
        TableFacts(before, {}, parent);
        TableFacts(after, {}, parent);
        UndoLink(before, after, v, parent, index, TableEntry(child, flags), info, {});
        var code := RollbackTable(parent, index, child);
      }
    }

    /** The three tables below the root on the way to key k, created where they are missing; on
        failure the last one is 0 and everything is as before. */
    method OpenTables(root: nat, k: Path, flags: nat)
      returns (pdpt: nat, pd: nat, pt: nat, c2: bool, c1: bool, c0: bool, ghost v1: Vm, ghost v2: Vm)
      requires Shape() && Good(v, {}) && Root(v, root) && root in v.mem
      modifies `mem, `registry, `v, `tableAt, pmm`freeFrames, pmm`free, pmm.bitmap
      ensures Shape()
      ensures pt == 0 ==> Restored(old(v), v) && !CanMap(old(v), root, k)
      ensures pt != 0 ==> Opened(old(v), v1, root, k.pml4, pdpt, flags, Info(2, root), c2)
      ensures pt != 0 ==> Opened(v1, v2, pdpt, k.pdpt, pd, flags, Info(1, root), c1)
      ensures pt != 0 ==> Opened(v2, v, pd, k.pd, pt, flags, Info(0, root), c0)
    {
      pd, pt, c1, c0, v2 := 0, 0, false, false, v;
      pdpt, c2 := GetOrCreate(root, k.pml4, flags, 2, root);
      v1 := v;
      if pdpt == 0 {
        FailAtPdpt(old(v), root, k);
        return;
      }
      assert Opened(old(v), v1, root, k.pml4, pdpt, flags, Info(2, root), c2);
      pd, c1 := GetOrCreate(pdpt, k.pdpt, flags, 1, root);
      if pd == 0 {
        FailAtPd(old(v), v1, root, k, pdpt, flags, c2);
        UndoIf(c2, root, k.pml4, pdpt, flags, Info(2, root), old(v), v1);
        return;
      }
      v2 := v;
      assert Opened(v1, v2, pdpt, k.pdpt, pd, flags, Info(1, root), c1);
      pt, c0 := GetOrCreate(pd, k.pd, flags, 0, root);
      if pt == 0 {
        FailAtPt(old(v), v1, v2, root, k, pdpt, pd, flags, c2, c1);
        UndoIf(c1, pdpt, k.pdpt, pd, flags, Info(1, root), v1, v2);
        UndoIf(c2, root, k.pml4, pdpt, flags, Info(2, root), old(v), v1);
        return;
      }
    }

    /** Takes back the tables that were created on the way to key k. */
    method CloseTables(root: nat, k: Path, flags: nat, pdpt: nat, pd: nat, pt: nat, c2: bool, c1: bool, c0: bool,
                       ghost v0: Vm, ghost v1: Vm, ghost v2: Vm)
      requires Shape() && Good(v0, {}) && Root(v0, root)
      requires Opened(v0, v1, root, k.pml4, pdpt, flags, Info(2, root), c2)
      requires Opened(v1, v2, pdpt, k.pdpt, pd, flags, Info(1, root), c1)
      requires Opened(v2, v, pd, k.pd, pt, flags, Info(0, root), c0)
      modifies `mem, `registry, `v, `tableAt, pmm`freeFrames, pmm`free, pmm.bitmap
      ensures Shape() && Restored(v0, v) && Good(v, {})
    {
      ghost var v3 := v;
      UndoIf(c0, pd, k.pd, pt, flags, Info(0, root), v2, v3);
      UndoIf(c1, pdpt, k.pdpt, pd, flags, Info(1, root), v1, v2);
      UndoIf(c2, root, k.pml4, pdpt, flags, Info(2, root), v0, v1);
      RestoredGood(v0, v, {});
    }

    method MapLeaf(root: nat, k: Path, leaf: Entry, flags: nat) returns (code: int)
      requires Shape() && Good(v, {}) && Root(v, root) && root in v.mem && leaf.present
      modifies `mem, `registry, `v, `tableAt, pmm`freeFrames, pmm`free, pmm.bitmap
      ensures Shape() && Good(v, {})
      ensures code == 0 || code == -1
      ensures code == 0 <==> CanMap(old(v), root, k)
      ensures code == 0 ==> WalksChanged(old(v), v, root, k, Page(leaf, 0)) && Taken(old(v), v)
      ensures code == 0 ==> WayOpened(old(v), v, root, k) && Used(old(v), v, Missing(old(v).mem, root, k))
      ensures code == -1 ==> Restored(old(v), v)
    {
      ghost var v1, v2;
      var pdpt, pd, pt, c2, c1, c0;
      pdpt, pd, pt, c2, c1, c0, v1, v2 := OpenTables(root, k, flags);
      if pt == 0 {
        RestoredGood(old(v), v, {});
        return -1;
      }
      ghost var v3 := v;
      var e := Load(pt, k.pt);
      Capacity();
      OpenDecides(old(v), v1, v2, v3, root, k, pdpt, pd, pt, flags, c2, c1, c0);
      if e.present {
        CloseTables(root, k, flags, pdpt, pd, pt, c2, c1, c0, old(v), v1, v2);
        return -1;
      }
      Store(pt, k.pt, leaf);
      LeafStored(old(v), v1, v2, v3, v, root, k, leaf, pdpt, pd, pt, flags, c2, c1, c0);
      return 0;
    }

    // ---- the interface ----------------------------------------------------------------------

    /** One 4 KiB mapping. Tables that are missing on the way are created, and taken back again if
        a later step fails. */
    method MapPage(root: nat, va: nat, pa: nat, flags: nat) returns (code: int)
      requires Valid()
      modifies `mem, `registry, `v, `tableAt, pmm`freeFrames, pmm`free, pmm.bitmap
      ensures Valid()
      ensures code == 0 || code == -1
      ensures code == 0 <==> flags in {0, 2, 4, 6} && va % PAGE == 0 && pa % PAGE == 0
                             && Root(old(v), root) && Walk(old(v).mem, root, PML4, KeyOf(va)) == NotMapped
                             && !NoRoom(old(v), Missing(old(v).mem, root, KeyOf(va)))
      ensures code == 0 ==> WalksChanged(old(v), v, root, KeyOf(va), Page(LeafEntry(pa, flags), 0)) && Taken(old(v), v)
      ensures code == 0 ==> WayOpened(old(v), v, root, KeyOf(va)) && Used(old(v), v, Missing(old(v).mem, root, KeyOf(va)))
      ensures code == -1 ==> Restored(old(v), v)
    {
      assert !Root(v, 0) by { assert Open(TREES); }
      if root == 0 || !FlagsOk(flags) { return -1; }
      var ok := VerifyRecord(root, PML4, root);
      if !ok || va % PAGE != 0 || pa % PAGE != 0 { return -1; }
      TableFacts(v, {}, root);
      code := MapLeaf(root, KeyOf(va), LeafEntry(pa, flags), flags);
      if code != 0 {
        RestoredWalks(old(v), v, {});
        SpacesKept(old(v), v, roots, active);
      } else {
        SpacesChanged(old(v), v, roots, active, root, KeyOf(va), Page(LeafEntry(pa, flags), 0));
      }
    }

    /** The last-level table on the way to key k, or 0 if a table is missing or a huge page is in
        the way. */
    method FindPt(root: nat, k: Path) returns (pt: nat)
      requires Form() && Good(v, {}) && Root(v, root)
      ensures pt == Reach(v.mem, root, PML4, k, 0)
      ensures pt != 0 ==> pt in v.mem && pt in v.tables && v.tables[pt] == Info(0, root)
      ensures pt != 0 ==> Walk(v.mem, root, PML4, k) == if v.mem[pt][k.pt].present then Page(v.mem[pt][k.pt], 0) else NotMapped
      ensures pt == 0 ==> forall e :: Walk(v.mem, root, PML4, k) != Page(e, 0)
    {
      WalkStep(v, {}, root, PML4, k);
      var e3 := Load(root, k.pml4);
      var pdpt := VerifyChild(e3, 2, root);
      if pdpt == 0 { return 0; }
      WalkStep(v, {}, pdpt, 2, k);
      var e2 := Load(pdpt, k.pdpt);
      var pd := VerifyChild(e2, 1, root);
      if pd == 0 { return 0; }
      WalkStep(v, {}, pd, 1, k);
      var e1 := Load(pd, k.pd);
      pt := VerifyChild(e1, 0, root);
      if pt != 0 { WalkStep(v, {}, pt, 0, k); }
    }

    /** Removes one 4 KiB mapping and hands back its frame; no frame is freed and no table goes. */
    method UnmapPage(root: nat, va: nat) returns (code: int, frame: nat)
      requires Sane()
      modifies `mem, `v
      ensures Sane()
      ensures code == 0 || code == -1
      ensures code == 0 <==> Root(v, root) && va % PAGE == 0 && exists e :: Walk(old(v).mem, root, PML4, KeyOf(va)) == Page(e, 0)
      ensures code == 0 ==> exists e :: Walk(old(v).mem, root, PML4, KeyOf(va)) == Page(e, 0) && frame == e.frame
      ensures code == 0 ==> WalksChanged(old(v), v, root, KeyOf(va), NotMapped)
      ensures v.tables == old(v).tables && v.free == old(v).free && v.up == old(v).up
      ensures code == -1 ==> v == old(v)
    {
      frame := 0;
      assert !Root(v, 0) by { assert Open(TREES); }
      if root == 0 { return -1, 0; }
      var ok := VerifyRecord(root, PML4, root);
      if !ok || va % PAGE != 0 { return -1, 0; }
      var k := KeyOf(va);
      var pt := FindPt(root, k);
      if pt == 0 { return -1, 0; }
      var e := Load(pt, k.pt);
      if !e.present { return -1, 0; }
      Store(pt, k.pt, ZERO);
      WriteGood(old(v), pt, k.pt, ZERO, {});
      LeafWalks(old(v), v, root, k, pt, ZERO, {});
      SpacesChanged(old(v), v, roots, active, root, k, NotMapped);
      return 0, e.frame;
    }

    /** The software walk: huge pages of both sizes are followed, nothing changes. */
    method Translate(root: nat, va: nat) returns (code: int, pa: nat)
      requires Valid()
      ensures code == 0 || code == -1
      ensures code == 0 <==> Root(v, root) && Walk(v.mem, root, PML4, KeyOf(va)).Page?
      ensures code == 0 ==> pa == Physical(Walk(v.mem, root, PML4, KeyOf(va)).entry, Walk(v.mem, root, PML4, KeyOf(va)).level, va)
    {
      code, pa := -1, 0;
      assert !Root(v, 0) by { assert Open(TREES); }
      if root == 0 { return; }
      var ok := VerifyRecord(root, PML4, root);
      if !ok { return; }
      var k := KeyOf(va);
      WalkStep(v, {}, root, PML4, k);
      var e3 := Load(root, k.pml4);
      if !e3.present || e3.huge { return; }
      var pdpt := VerifyChild(e3, 2, root);
      if pdpt == 0 { return; }
      WalkStep(v, {}, pdpt, 2, k);
      var e2 := Load(pdpt, k.pdpt);
      if !e2.present { return; }
      if e2.huge { return 0, BitOr(e2.frame * PAGE, va % 0x4000_0000); }
      var pd := VerifyChild(e2, 1, root);
      if pd == 0 { return; }
      WalkStep(v, {}, pd, 1, k);
      var e1 := Load(pd, k.pd);
      if !e1.present { return; }
      if e1.huge { return 0, BitOr(e1.frame * PAGE, va % 0x20_0000); }
      var pt := VerifyChild(e1, 0, root);
      if pt == 0 { return; }
      WalkStep(v, {}, pt, 0, k);
      var e0 := Load(pt, k.pt);
      if !e0.present { return; }
      return 0, BitOr(e0.frame * PAGE, va % PAGE);
    }

    // ---- whole trees ------------------------------------------------------------------------

    /** The tables whose record carries the current validation epoch. */
    ghost function Marked(): set<nat>
      reads `v, `tableAt, `epochs, `epoch
    {
      set t | t in v.tables && t in tableAt && tableAt[t] < |epochs| && epochs[tableAt[t]] == epoch
    }

    /** A fresh epoch: no record carries it, even after the 64-bit counter wraps. */
    method NewEpoch()
      requires Shape()
      modifies `epoch, `epochs
      ensures Shape() && Marked() == {}
    {
      assert Open(3) && Open(1) && Open(RECORDS);
      epoch := (epoch + 1) % U64;
      if epoch == 0 {
        epoch := 1;
        var cleared := epochs;
        for i := 0 to registry.count
          invariant |cleared| == MAX_TABLES
          invariant forall j | 0 <= j < MAX_TABLES && (j < i || registry.count <= j) :: cleared[j] == 0
        {
          cleared := cleared[i := 0];
        }
        epochs := cleared;
      }
    }

    /** Checks one record and marks it; a record that is already marked is refused. */
    method Visit(t: nat, level: nat, owner: nat) returns (ok: bool)
      requires Shape()
      modifies `epochs
      ensures Shape()
      ensures ok <==> t in v.tables && v.tables[t] == Info(level, owner) && t !in old(Marked())
      ensures Marked() == if ok then old(Marked()) + {t} else old(Marked())
      ensures ok ==> t in v.mem
    {
      assert Open(0) && Open(1) && Open(3) && Open(RECORDS);
      var index := Find(registry, v.tables, tableAt, t);
      if index < 0 || registry.slots[index].value != Info(level, owner) { return false; }
      if epochs[index] == epoch { return false; }
      epochs := epochs[index := epoch];
      return true;
    }

    /** Depth-first check of a hierarchy: accepted exactly when it is a tree of live, correctly owned
        and levelled tables that avoids the tables marked before. */
    method ValidateTree(p: nat, l: nat, owner: nat) returns (ok: bool)
      requires Shape() && l <= PML4
      modifies `epochs
      ensures Shape()
      ensures ok <==> Live(v, p, l, owner) && NoReserved(v.mem, p, l) && Tree(v.mem, p, l) && Sub(v.mem, p, l) !! old(Marked())
      ensures ok ==> Marked() == old(Marked()) + Sub(v.mem, p, l)
      ensures old(Marked()) <= Marked()
      decreases l, 1
    {
      SubSelf(v.mem, p, l);
      ok := Visit(p, l, owner);
      if !ok || l == 0 { return; }
      for i := 0 to ENTRIES
        invariant Shape() && ok && Checked(v, p, l, owner, i, old(Marked()), Marked())
      {
        ok := ValidateEntry(p, l, owner, i, old(Marked()));
        if !ok { return; }
      }
      AllChecked(v, p, l, owner, old(Marked()), Marked());
    }

    /** One entry of the search: a reference is followed, and a root may hold no large page. */
    method ValidateEntry(p: nat, l: nat, owner: nat, i: nat, ghost marked: set<nat>) returns (ok: bool)
      requires Shape() && 0 < l <= PML4 && i < ENTRIES && Checked(v, p, l, owner, i, marked, Marked())
      modifies `epochs
      ensures Shape() && old(Marked()) <= Marked()
      ensures ok ==> Checked(v, p, l, owner, i + 1, marked, Marked())
      ensures !ok ==> !(Live(v, p, l, owner) && NoReserved(v.mem, p, l) && Tree(v.mem, p, l) && Sub(v.mem, p, l) !! marked)
      decreases l, 0
    {
      ghost var now := Marked();
      var e := Load(p, i);
      if !Ref(e) {
        if e.present && l == PML4 { return false; }
        Skipped(v, p, l, owner, i, marked, now);
        return true;
      }
      ok := ValidateTree(e.frame, l - 1, owner);
      if ok {
        Accepted(v, p, l, owner, i, marked, now);
      } else {
        Refused(v, p, l, owner, i, marked);
      }
    }

    /** Clears and releases a tree of tables from the leaves up. Mapped frames are not touched. */
    method DestroyTree(p: nat, l: nat, ghost owner: nat)
      requires Shape() && l <= PML4 && Live(v, p, l, owner) && Tree(v.mem, p, l)
      modifies `mem, `registry, `v, `tableAt, pmm`freeFrames, pmm`free, pmm.bitmap
      ensures Shape() && Gone(old(v), v, Sub(old(v).mem, p, l))
      decreases l, 1
    {
      if l != 0 {
        assert p !in v.free by { assert Open(0); }
        EmptiedStart(v, p, l, owner);
        for i := 0 to ENTRIES
          invariant Shape() && Emptied(old(v), v, p, l, owner, i, i)
        {
          DestroyEntry(p, l, i, old(v), owner);
        }
      }
      EmptiedEnd(old(v), v, p, l, owner);
      var code := ReleaseTable(p);
    }

    method DestroyEntry(p: nat, l: nat, i: nat, ghost v0: Vm, ghost owner: nat)
      requires Shape() && 0 < l <= PML4 && i < ENTRIES && Emptied(v0, v, p, l, owner, i, i)
      requires Live(v0, p, l, owner) && Tree(v0.mem, p, l)
      modifies `mem, `registry, `v, `tableAt, pmm`freeFrames, pmm`free, pmm.bitmap
      ensures Shape() && Emptied(v0, v, p, l, owner, i + 1, i + 1)
      decreases l, 0
    {
      var e := Load(p, i);
      if !e.present {
        EmptiedSkip(v0, v, p, l, owner, i, i);
        return;
      }
      EmptiedStore(v0, v, p, l, owner, i);
      Store(p, i, ZERO);
      if e.huge {
        EmptiedSkip(v0, v, p, l, owner, i, i + 1);
        return;
      }
      ghost var w := v;
      EmptiedChild(v0, w, p, l, owner, i);
      DestroyTree(e.frame, l - 1, owner);
      EmptiedNext(v0, w, v, p, l, owner, i);
    }

    ghost method DropUp(s: set<nat>)
      requires Shape()
      modifies `v
      ensures Shape() && v == Vm(old(v).mem, old(v).tables, old(v).up - s, old(v).free)
    {
      v := Vm(v.mem, v.tables, v.up - s, v.free);
    }

    // ---- address spaces ---------------------------------------------------------------------

    method FindSpace(root: nat) returns (found: bool, state: SpaceState)
      requires Shape()
      ensures found <==> root in roots
      ensures found ==> state == roots[root]
    {
      assert Open(2);
      var index := Find(spaces, roots, rootAt, root);
      if index < 0 { return false, Created; }
      return true, spaces.slots[index].value;
    }

    method AddSpace(root: nat) returns (ok: bool)
      requires Shape() && root !in roots && root != 0
      modifies `spaces, `roots, `rootAt
      ensures Shape()
      ensures ok <==> |old(roots)| < MAX_SPACES
      ensures roots == if ok then old(roots)[root := Created] else old(roots)
    {
      assert SpacesOk() by { assert Open(2); }
      var records, index := Insert(spaces, roots, rootAt, root, Created);
      if index < 0 { return false; }
      spaces := records;
      roots, rootAt := roots[root := Created], rootAt[root := index];
      SpacesWritten();
      return true;
    }

    method DropSpace(root: nat)
      requires Shape()
      modifies `spaces, `roots, `rootAt
      ensures Shape() && roots == old(roots) - {root}
    {
      assert SpacesOk() by { assert Open(2); }
      var code;
      spaces, code := Slots.Remove(spaces, roots, rootAt, root);
      roots, rootAt := roots - {root}, rootAt - {root};
      SpacesWritten();
    }

    method SetSpace(root: nat, state: SpaceState)
      requires Shape() && root in roots
      modifies `spaces, `roots
      ensures Shape() && roots == old(roots)[root := state]
    {
      assert SpacesOk() by { assert Open(2); }
      spaces := Update(spaces, roots, rootAt, root, state);
      roots := roots[root := state];
      SpacesWritten();
    }

    /** An empty, registered address space, or 0. */
    method CreateSpace() returns (root: nat)
      requires Valid()
      modifies `mem, `registry, `v, `tableAt, `spaces, `roots, `rootAt, pmm`freeFrames, pmm`free, pmm.bitmap
      ensures Valid()
      ensures root == 0 <==> NoRoom(old(v), 1) || |old(roots)| >= MAX_SPACES
      ensures root == 0 ==> Restored(old(v), v) && roots == old(roots)
      ensures root != 0 ==> root in old(v).free && v == Add(old(v), root, Info(PML4, root)) && roots == old(roots)[root := Created]
      ensures root != 0 ==> SameWalks(old(v), v) && forall k: Path :: Walk(v.mem, root, PML4, k) == NotMapped
    {
      root := AllocateTable(PML4, 0);
      if root == 0 {
        RestoredGood(old(v), v, {});
        RestoredWalks(old(v), v, {});
        SpacesKept(old(v), v, roots, active);
        return 0;
      }
      CreatedRoot(old(v), v, root, roots, active);
      var ok := AddSpace(root);
      if !ok {
        var code := ReleaseTable(root);
        ReleasedRoot(old(v), v, root);
        RestoredGood(old(v), v, {});
        RestoredWalks(old(v), v, {});
        SpacesKept(old(v), v, roots, active);
        return 0;
      }
    }

    /** The manager starts with one empty address space for the kernel. */
    method Init()
      requires Valid()
      modifies `mem, `registry, `v, `tableAt, `spaces, `roots, `rootAt, `kernelRoot, `lastClone, pmm`freeFrames, pmm`free, pmm.bitmap
      ensures Valid() && lastClone == 0
      ensures kernelRoot != 0 ==> Root(v, kernelRoot) && roots == old(roots)[kernelRoot := Created] && kernelRoot in old(v).free
      ensures kernelRoot != 0 ==> forall k: Path :: Walk(v.mem, kernelRoot, PML4, k) == NotMapped
      ensures kernelRoot != 0 ==> v.free == old(v).free - {kernelRoot} && |v.tables| == |old(v).tables| + 1
      ensures kernelRoot == 0 <==> NoRoom(old(v), 1) || |old(roots)| >= MAX_SPACES
      ensures kernelRoot == 0 ==> Restored(old(v), v)
    {
      assert forall t | t in v.tables :: t !in v.free by { assert Open(TREES); }
      var root := CreateSpace();
      SetKernel(root);
      SetClone(0);
      assert root != 0 ==> |v.tables| == |old(v).tables| + 1;
    }

    method SetKernel(root: nat)
      requires Shape()
      modifies `kernelRoot
      ensures Shape() && kernelRoot == root
    {
      kernelRoot := root;
    }

    /** Makes a registered address space the active one and the previous one inactive. */
    method Activate(root: nat) returns (code: int)
      requires Valid()
      modifies `cr3, `spaces, `roots, `active
      ensures Valid()
      ensures code == if root in old(roots) then 0 else -1
      ensures code == 0 ==> active == root && roots == ActivatedRoots(old(roots), old(active), root)
      ensures code == 0 && old(active) != root ==> cr3 == root
      ensures code == -1 ==> active == old(active) && roots == old(roots) && cr3 == old(cr3)
    {
      SpaceFacts(v, roots, active, root);
      if root == 0 { return -1; }
      var found, state := FindSpace(root);
      if !found { return -1; }
      SpaceFacts(v, roots, active, root);
      var ok := VerifyRecord(root, PML4, root);
      if !ok { return -1; }
      if active == root && state == Active { return 0; }
      SwitchTo(root);
      return 0;
    }

    /** Loads CR3 and moves the active state from one record to the other. */
    method SwitchTo(root: nat)
      requires Valid() && root in roots && root != 0
      modifies `cr3, `spaces, `roots, `active
      ensures Valid() && active == root == cr3 && roots == ActivatedRoots(old(roots), old(active), root)
    {
      Activated(v, roots, active, root);
      SetCr3(root);
      if active != 0 && active != root {
        SetSpace(active, Inactive);
      }
      SetSpace(root, Active);
      SetActive(root);
    }

    method SetCr3(root: nat)
      requires Shape()
      modifies `cr3
      ensures Shape() && cr3 == root
    {
      cr3 := root;
    }

    method SetActive(root: nat)
      requires Shape()
      modifies `active
      ensures Shape() && active == root
    {
      active := root;
    }

    method ForgetClone(root: nat)
      requires Shape()
      modifies `lastClone
      ensures Shape() && lastClone == if old(lastClone) == root then 0 else old(lastClone)
    {
      if lastClone == root { lastClone := 0; }
    }

    /** A full check of one address space under a fresh epoch. */
    method CheckSpace(root: nat) returns (ok: bool)
      requires Shape()
      modifies `epoch, `epochs
      ensures Shape()
      ensures ok <==> Live(v, root, PML4, root) && NoReserved(v.mem, root, PML4) && Tree(v.mem, root, PML4)
    {
      NewEpoch();
      ok := ValidateTree(root, PML4, root);
    }

    /** The checks and the destruction on their own, whatever the tables hold: accepted exactly when the
        hierarchy is a tree of live, correctly owned and levelled tables without reserved entries; a
        refusal changes nothing but epoch marks. */
    method DestroyChecked(root: nat) returns (code: int)
      requires Shape()
      modifies `mem, `registry, `v, `tableAt, `epoch, `epochs, pmm`freeFrames, pmm`free, pmm.bitmap
      ensures Shape() && (code == 0 || code == -1)
      ensures code == 0 <==> root != 0 && root != active && root in roots && roots[root] != Active
                             && Live(old(v), root, PML4, root) && NoReserved(old(v).mem, root, PML4) && Tree(old(v).mem, root, PML4)
      ensures code == 0 ==> Gone(old(v), v, Sub(old(v).mem, root, PML4))
      ensures code == -1 ==> v == old(v) && mem == old(mem) && registry == old(registry) && tableAt == old(tableAt)
    {
      if root == 0 || root == active { return -1; }
      var found, state := FindSpace(root);
      if !found || state == Active { return -1; }
      var ok := VerifyRecord(root, PML4, root);
      if !ok { return -1; }
      ok := CheckSpace(root);
      if !ok { return -1; }
      DestroyTree(root, PML4, root);
      return 0;
    }

    /** Destroys a registered address space that is not active: all its tables go, nothing else. Under
        the invariant the checks never refuse one. */
    method DestroySpace(root: nat) returns (code: int)
      requires Valid()
      modifies `mem, `registry, `v, `tableAt, `spaces, `roots, `rootAt, `epoch, `epochs, `lastClone, pmm`freeFrames, pmm`free, pmm.bitmap
      ensures Valid()
      ensures code == if root in old(roots) && root != active then 0 else -1
      ensures code == 0 ==> roots == old(roots) - {root} && OnlyOwnerGone(old(v), v, root)
      ensures code == -1 ==> v == old(v) && roots == old(roots)
    {
      code := DestroyTables(root);
      if code != 0 { return; }
      Retire(root);
    }

    method DestroyTables(root: nat) returns (code: int)
      requires Valid()
      modifies `mem, `registry, `v, `tableAt, `epoch, `epochs, pmm`freeFrames, pmm`free, pmm.bitmap
      ensures Shape() && Good(v, {})
      ensures code == if root in roots && root != active then 0 else -1
      ensures code == 0 ==> SpacesGood(v, roots - {root}, active) && OnlyOwnerGone(old(v), v, root)
      ensures code == -1 ==> v == old(v)
    {
      SpaceFacts(v, roots, active, root);
      if root in roots { SpaceIsTree(v, roots, active, root); }
      code := DestroyChecked(root);
      if code != 0 { return; }
      SettleGone(root, old(v));
    }

    /** Gives up the record of a root whose tables are gone. */
    method Retire(root: nat)
      requires Shape() && Loaded() && Good(v, {}) && SpacesGood(v, roots - {root}, active)
      modifies `spaces, `roots, `rootAt, `lastClone
      ensures Valid() && roots == old(roots) - {root}
    {
      DropSpace(root);
      ForgetClone(root);
    }

    /** The invariant after the tables of a root are gone. */
    ghost method SettleGone(root: nat, v0: Vm)
      requires Shape() && Good(v0, {}) && SpacesGood(v0, roots, active) && root in roots && root != active
      requires Gone(v0, v, Sub(v0.mem, root, PML4)) && Live(v0, root, PML4, root) && Tree(v0.mem, root, PML4)
      modifies `v
      ensures Shape() && Good(v, {}) && SpacesGood(v, roots - {root}, active) && OnlyOwnerGone(v0, v, root)
    {
      SpaceFacts(v0, roots, active, root);
      ghost var s := Sub(v0.mem, root, PML4);
      GoneWithout(v0, v, s);
      DropUp(s);
      WithoutGood(v0, v, root, PML4, {});
      assert {} - {root} == {};
      SpaceGone(v0, v, root, roots, active);
    }

    // ---- copies -----------------------------------------------------------------------------

    /** Throws away a hierarchy under construction, frames and records included. */
    method DiscardNew(d: nat, l: nat, ghost before: Vm, ghost owner: nat, ghost orphans: set<nat>)
      requires Shape() && l <= PML4 && Good(before, orphans) && Begun(before, v, d, l, owner, orphans)
      requires l == PML4 ==> orphans == {}
      modifies `mem, `registry, `v, `tableAt, pmm`freeFrames, pmm`free, pmm.bitmap
      ensures Shape() && Restored(before, v)
    {
      assert Live(v, d, l, v.tables[d].owner) && Tree(v.mem, d, l) by {
        assert Open(TREES);
        GoodLive(v, d, l, v.tables[d].owner);
        UniqueTree(v, d, l);
      }
      ghost var w, s := v, Sub(v.mem, d, l);
      DestroyTree(d, l, v.tables[d].owner);
      GoneWithout(w, v, s);
      DropUp(s);
      GrowthUndone(before, w, v, d, l, orphans);
    }

    /** A copy of the hierarchy at src in new tables; leaves are shared. With level 3 the copy is a
        root of its own, below it belongs to `owner`. On failure nothing is kept. */
    method CloneTable(src: nat, l: nat, owner: nat, ghost orphans: set<nat>) returns (d: nat)
      requires Shape() && Good(v, orphans) && l <= PML4 && Readable(v.mem, v.free, src, l)
      requires if l == PML4 then owner == 0 && orphans == {} else Root(v, owner)
      modifies `mem, `registry, `v, `tableAt, pmm`freeFrames, pmm`free, pmm.bitmap
      ensures Shape()
      ensures d == 0 ==> Restored(old(v), v)
      ensures d != 0 ==> Cloned(old(v), v, src, d, l, owner, orphans) && Used(old(v), v, Copies(old(v).mem, src, l))
      ensures d != 0 <==> Complete(old(v).mem, src, l) && !NoRoom(old(v), Copies(old(v).mem, src, l))
      decreases l, 2
    {
      if src == 0 { return 0; }
      d := AllocateTable(l, owner);
      if d == 0 { return 0; }
      CopyStart(old(v), v, src, d, l, owner, orphans);
      SpendFirst(old(v), v, src, d, l, owner, orphans);
      for i := 0 to ENTRIES
        invariant Shape() && Copying(old(v), v, src, d, l, owner, i, orphans) && Spending(old(v), v, src, l, i)
      {
        var ok := CloneEntry(src, d, l, owner, i, old(v), orphans);
        if !ok {
          DiscardNew(d, l, old(v), owner, orphans);
          return 0;
        }
      }
      CopyEnd(old(v), v, src, d, l, owner, orphans);
      Capacity();
      SpendEnd(old(v), v, src, l);
    }

    /** One entry of a clone: a table is cloned in turn, anything else is copied as it is. */
    method CloneEntry(src: nat, d: nat, l: nat, owner: nat, i: nat, ghost v0: Vm, ghost orphans: set<nat>) returns (ok: bool)
      requires Shape() && Good(v0, orphans) && l <= PML4 && i < ENTRIES && Readable(v0.mem, v0.free, src, l)
      requires if l == PML4 then owner == 0 && orphans == {} else Root(v0, owner)
      requires Copying(v0, v, src, d, l, owner, i, orphans) && Spending(v0, v, src, l, i)
      modifies `mem, `registry, `v, `tableAt, pmm`freeFrames, pmm`free, pmm.bitmap
      ensures Shape()
      ensures if ok then Copying(v0, v, src, d, l, owner, i + 1, orphans) && Spending(v0, v, src, l, i + 1)
              else Begun(v0, v, d, l, owner, orphans) && !Clonable(v0, src, l)
      decreases l, 1
    {
      ghost var w := v;
      CopyFacts(v0, w, src, d, l, owner, i, orphans);
      var e := Load(src, i);
      if !e.present {
        CopySkip(v0, w, src, d, l, owner, i, orphans);
        SpendNothing(v0, w, v, src, l, i);
        return true;
      }
      if l == 0 || e.huge {
        CopyLeaf(v0, w, src, d, l, owner, i, orphans);
        Store(d, i, e);
        SpendNothing(v0, w, v, src, l, i);
        return true;
      }
      ok := CloneChild(src, d, l, owner, i, e, v0, orphans);
    }

    /** A reference: the table behind it is cloned and linked. */
    method CloneChild(src: nat, d: nat, l: nat, owner: nat, i: nat, e: Entry, ghost v0: Vm, ghost orphans: set<nat>) returns (ok: bool)
      requires Shape() && Good(v0, orphans) && 0 < l <= PML4 && i < ENTRIES && Readable(v0.mem, v0.free, src, l)
      requires if l == PML4 then owner == 0 && orphans == {} else Root(v0, owner)
      requires Copying(v0, v, src, d, l, owner, i, orphans) && Spending(v0, v, src, l, i)
      requires src in v0.mem && e == v0.mem[src][i] && Ref(e)
      modifies `mem, `registry, `v, `tableAt, pmm`freeFrames, pmm`free, pmm.bitmap
      ensures Shape()
      ensures if ok then Copying(v0, v, src, d, l, owner, i + 1, orphans) && Spending(v0, v, src, l, i + 1)
              else Begun(v0, v, d, l, owner, orphans) && !Clonable(v0, src, l)
      decreases l, 0
    {
      ghost var w := v;
      ChildReady(v0, w, src, d, l, owner, i, orphans);
      var c := CloneTable(e.frame, l - 1, if l == PML4 then d else owner, Pending(l, d, orphans));
      if c == 0 {
        ChildFailed(v0, w, v, src, d, l, owner, i, orphans);
        return false;
      }
      ChildDone(v0, w, v, src, d, l, owner, i, c, orphans);
      Store(d, i, WithFrame(e, c));
      SetUp(c, d, i);
      return true;
    }

    // ---- preparing the kernel root ----------------------------------------------------------

    /** Throws away one finished subtree that has not been linked. */
    method DropOrphan(c: nat, ghost orphans: set<nat>)
      requires Shape() && Good(v, orphans) && c in orphans && c in v.tables && v.tables[c].level == 2
      modifies `mem, `registry, `v, `tableAt, pmm`freeFrames, pmm`free, pmm.bitmap
      ensures Shape() && Without(old(v), v, Sub(old(v).mem, c, 2))
    {
      assert Live(v, c, 2, v.tables[c].owner) && Tree(v.mem, c, 2) by {
        assert Open(TREES);
        GoodLive(v, c, 2, v.tables[c].owner);
        UniqueTree(v, c, 2);
      }
      ghost var s := Sub(v.mem, c, 2);
      DestroyTree(c, 2, v.tables[c].owner);
      GoneWithout(old(v), v, s);
      DropUp(s);
    }

    method TearDown(roots: seq<nat>, ghost v1: Vm, ghost orphans: set<nat>)
      requires Shape() && Tearing(v1, v, roots, 0, orphans)
      modifies `mem, `registry, `v, `tableAt, pmm`freeFrames, pmm`free, pmm.bitmap
      ensures Shape() && Restored(v1, v)
    {
      ghost var left := orphans;
      for i := 0 to ENTRIES
        invariant Shape() && Tearing(v1, v, roots, i, left)
      {
        if roots[i] == 0 { continue; }
        ghost var w := v;
        DropOrphan(roots[i], left);
        TearNext(v1, w, v, roots, i, left);
        left := left - {roots[i]};
      }
      TearEnd(v1, v, roots, left);
    }

    /** One new subtree for every slot that the kernel root lacks and the source root has. */
    method BuildRoots(kr: nat, sr: nat, ghost v0: Vm, ghost extra: nat) returns (ok: bool, roots: seq<nat>, ghost orphans: set<nat>)
      requires Shape() && Good(v, {}) && Grows(v0, v) && Root(v, kr) && kr in v.mem
      requires kr in v0.mem && kr !in v0.free && Used(v0, v, extra) && Complete(v0.mem, sr, PML4)
      requires sr != 0 && sr in v0.mem && sr !in v0.free && Readable(v0.mem, v0.free, sr, PML4)
      modifies `mem, `registry, `v, `tableAt, pmm`freeFrames, pmm`free, pmm.bitmap
      ensures Shape()
      ensures ok ==> Built(v0, old(v), v, kr, sr, roots, ENTRIES, orphans)
      ensures !ok ==> Restored(old(v), v)
      ensures ok <==> Fillable(v0, kr, sr, extra)
    {
      roots, orphans := seq(ENTRIES, _ => 0), {};
      BuildStart(v0, v, kr, sr, roots);
      FillStart(v0, v, kr, sr, extra);
      for i := 0 to ENTRIES
        invariant Shape() && Built(v0, old(v), v, kr, sr, roots, i, orphans) && Filling(v0, v, kr, sr, extra, i)
      {
        ok, roots, orphans := BuildSlot(kr, sr, i, roots, v0, old(v), orphans, extra);
        if !ok {
          TearStart(v0, old(v), v, kr, sr, roots, i, orphans);
          TearDown(roots, old(v), orphans);
          return;
        }
      }
      Capacity();
      FillEnd(v0, v, kr, sr, extra);
      ok := true;
    }

    /** A copy for slot i, if the kernel root lacks it; a large page cannot be copied there. */
    method BuildSlot(kr: nat, sr: nat, i: nat, roots: seq<nat>, ghost v0: Vm, ghost v1: Vm, ghost orphans: set<nat>, ghost extra: nat)
      returns (ok: bool, roots': seq<nat>, ghost orphans': set<nat>)
      requires Shape() && Built(v0, v1, v, kr, sr, roots, i, orphans) && i < ENTRIES
      requires kr in v0.mem && kr !in v0.free && Filling(v0, v, kr, sr, extra, i) && Complete(v0.mem, sr, PML4)
      requires sr != 0 && sr in v0.mem && sr !in v0.free && Readable(v0.mem, v0.free, sr, PML4)
      modifies `mem, `registry, `v, `tableAt, pmm`freeFrames, pmm`free, pmm.bitmap
      ensures Shape()
      ensures Built(v0, v1, v, kr, sr, roots', if ok then i + 1 else i, orphans')
      ensures if ok then Filling(v0, v, kr, sr, extra, i + 1) else !Fillable(v0, kr, sr, extra)
    {
      ok, roots', orphans' := true, roots, orphans;
      ghost var w := v;
      BuiltReads(v0, v1, w, kr, sr, roots, i, orphans);
      var b := Load(kr, i);
      var e := Load(sr, i);
      if b.present || !e.present {
        BuildSkip(v0, v1, w, kr, sr, roots, i, orphans);
        FillNothing(v0, w, kr, sr, extra, i);
        return;
      }
      if e.huge {
        FillFailed(v0, w, kr, sr, extra, i);
        ok := false;
        return;
      }
      BuildReadable(v0, v1, w, kr, sr, roots, i, orphans);
      var c := CloneTable(e.frame, 2, kr, orphans);
      if c == 0 {
        BuildFailed(v0, v1, w, v, kr, sr, roots, i, orphans);
        FillFailed(v0, w, kr, sr, extra, i);
        ok := false;
        return;
      }
      BuildAdd(v0, v1, w, v, kr, sr, roots, i, c, orphans);
      FillCopy(v0, w, v, kr, sr, extra, i);
      roots', orphans' := roots[i := c], orphans + {c};
    }

    method Publish(kr: nat, sr: nat, roots: seq<nat>, ghost v0: Vm, ghost v1: Vm, ghost orphans: set<nat>)
      requires Shape() && Built(v0, v1, v, kr, sr, roots, ENTRIES, orphans)
      requires Good(v0, {}) && Root(v0, kr) && sr != kr && sr in v0.mem && sr !in v0.free
      modifies `mem, `v
      ensures Shape() && Published(v0, v1, old(v), v, kr, sr, roots, ENTRIES, orphans, {})
    {
      PublishStart(v0, v1, v, kr, sr, roots, orphans);
      ghost var left := orphans;
      for i := 0 to ENTRIES
        invariant Shape() && Published(v0, v1, old(v), v, kr, sr, roots, i, orphans, left)
      {
        left := PublishSlot(kr, sr, roots, i, v0, v1, old(v), orphans, left);
      }
      assert left == {} by { assert Open(PREPARE); }
    }

    method PublishSlot(kr: nat, sr: nat, roots: seq<nat>, i: nat, ghost v0: Vm, ghost v1: Vm, ghost vb: Vm, ghost orphans: set<nat>, ghost left: set<nat>)
      returns (ghost rest: set<nat>)
      requires Shape() && i < ENTRIES && Published(v0, v1, vb, v, kr, sr, roots, i, orphans, left)
      requires Good(v0, {}) && Root(v0, kr) && sr != kr && sr in v0.mem && sr !in v0.free
      modifies `mem, `v
      ensures Shape() && Published(v0, v1, vb, v, kr, sr, roots, i + 1, orphans, rest)
    {
      rest := left;
      PublishFacts(v0, v1, vb, v, kr, sr, roots, i, orphans, left);
      if roots[i] == 0 {
        PublishSkip(v0, v1, vb, v, kr, sr, roots, i, orphans, left);
        return;
      }
      var e := Load(sr, i);
      PublishNext(v0, v1, vb, v, kr, sr, roots, i, orphans, left);
      Store(kr, i, WithFrame(e, roots[i]));
      SetUp(roots[i], kr, i);
      rest := left - {roots[i]};
    }

    method SetClone(root: nat)
      requires Shape()
      modifies `lastClone
      ensures Shape() && lastClone == root
    {
      lastClone := root;
    }

    /** Gives the kernel root its own copy of everything CR3 maps that it does not map itself, and
        keeps a full clone beside it. All or nothing. */
    method Prepare() returns (code: int)
      requires Valid() && (kernelRoot != 0 ==> Root(v, kernelRoot))
      modifies `mem, `registry, `v, `tableAt, `lastClone, pmm`freeFrames, pmm`free, pmm.bitmap
      ensures Valid()
      ensures code == 0 || code == -1
      ensures code == -1 ==> Restored(old(v), v) && lastClone == old(lastClone)
      ensures code == 0 && cr3 == kernelRoot ==> v == old(v) && lastClone == old(lastClone)
      ensures code == 0 && cr3 != kernelRoot ==> PreparedWalks(old(v), v, kernelRoot, cr3)
      ensures code == 0 && cr3 != kernelRoot ==> lastClone in old(v).free && Root(v, lastClone)
      ensures code == 0 && cr3 != kernelRoot ==> forall k: Path :: Walk(v.mem, lastClone, PML4, k) == Walk(old(v).mem, cr3, PML4, k)
      ensures code == 0 && cr3 != kernelRoot ==> Accepts(v.mem, cr3, lastClone, PML4) && OnlyTaken(old(v), v)
      ensures code == 0 <==> kernelRoot != 0 && cr3 != 0 && (cr3 == kernelRoot || Preparable(old(v), kernelRoot, cr3))
    {
      if kernelRoot == 0 || cr3 == 0 { return -1; }
      if cr3 == kernelRoot { return 0; }
      CurrentReadable(kernelRoot);
      code := PrepareFrom(kernelRoot, cr3);
      assert Open(PREPARE);
    }

    method PrepareFrom(kr: nat, sr: nat) returns (code: int)
      requires Valid() && Root(v, kr) && sr != kr && sr != 0 && Readable(v.mem, v.free + {kr}, sr, PML4)
      modifies `mem, `registry, `v, `tableAt, `lastClone, pmm`freeFrames, pmm`free, pmm.bitmap
      ensures Valid()
      ensures code == 0 || code == -1
      ensures code == -1 ==> Restored(old(v), v) && lastClone == old(lastClone)
      ensures code == 0 ==> Prepared(old(v), v, kr, sr, lastClone)
      ensures code == 0 <==> Preparable(old(v), kr, sr)
    {
      TableFacts(v, {}, kr);
      ReadableKept(v.mem, v.free + {kr}, v.mem, v.free, sr, PML4);
      PreparableParts(v, kr, sr);
      var cl := CloneTable(sr, PML4, 0, {});
      if cl == 0 {
        RestoredValid(old(v));
        return -1;
      }
      code := FillGaps(kr, sr, cl, old(v));
    }

    /** With the clone made, the gaps of the kernel root are filled, or the clone goes too. */
    method FillGaps(kr: nat, sr: nat, cl: nat, ghost v0: Vm) returns (code: int)
      requires Shape() && Loaded() && Good(v0, {}) && SpacesGood(v0, roots, active) && Root(v0, kr) && sr != kr && sr != 0
      requires kr in v0.mem && kr !in v0.free && sr in v0.mem && sr !in v0.free
      requires Readable(v0.mem, v0.free + {kr}, sr, PML4) && Readable(v0.mem, v0.free, sr, PML4)
      requires Cloned(v0, v, sr, cl, PML4, 0, {}) && Used(v0, v, Copies(v0.mem, sr, PML4)) && Complete(v0.mem, sr, PML4)
      modifies `mem, `registry, `v, `tableAt, `lastClone, pmm`freeFrames, pmm`free, pmm.bitmap
      ensures Valid() && (code == 0 || code == -1)
      ensures code == -1 ==> Restored(v0, v) && lastClone == old(lastClone)
      ensures code == 0 ==> lastClone == cl && Prepared(v0, v, kr, sr, cl)
      ensures code == 0 <==> Fillable(v0, kr, sr, Copies(v0.mem, sr, PML4))
    {
      ghost var v1 := v;
      KernelAfterClone(v0, v1, cl, kr);
      var ok, roots, orphans := BuildRoots(kr, sr, v0, Copies(v0.mem, sr, PML4));
      if !ok {
        DropClone(cl, v0, v1);
        return -1;
      }
      PublishClone(kr, sr, cl, roots, v0, v1, orphans);
      return 0;
    }

    method DropClone(cl: nat, ghost v0: Vm, ghost v1: Vm)
      requires Shape() && Loaded() && Good(v0, {}) && SpacesGood(v0, roots, active)
      requires Begun(v0, v1, cl, PML4, 0, {}) && Restored(v1, v)
      modifies `mem, `registry, `v, `tableAt, pmm`freeFrames, pmm`free, pmm.bitmap
      ensures Valid() && Restored(v0, v)
    {
      BegunRestored(v0, v1, v, cl);
      DiscardNew(cl, PML4, v0, 0, {});
      RestoredValid(v0);
    }

    /** Links all copies and remembers the clone. */
    method PublishClone(kr: nat, sr: nat, cl: nat, roots: seq<nat>, ghost v0: Vm, ghost v1: Vm, ghost orphans: set<nat>)
      requires Shape() && Loaded() && Good(v0, {}) && SpacesGood(v0, this.roots, active) && Root(v0, kr) && sr != kr && sr != 0
      requires Readable(v0.mem, v0.free + {kr}, sr, PML4) && Cloned(v0, v1, sr, cl, PML4, 0, {})
      requires Built(v0, v1, v, kr, sr, roots, ENTRIES, orphans)
      modifies `mem, `v, `lastClone
      ensures Valid() && lastClone == cl && Prepared(v0, v, kr, sr, cl)
    {
      ghost var w := v;
      TableFacts(v0, {}, kr);
      Publish(kr, sr, roots, v0, v1, orphans);
      PreparedEnd(v0, v1, w, v, kr, sr, roots, orphans, cl);
      SpacesPrepared(v0, v, kr, sr, this.roots, active);
      SetClone(cl);
    }

    lemma RestoredValid(v0: Vm)
      requires Shape() && Good(v0, {}) && SpacesGood(v0, roots, active) && Loaded() && Restored(v0, v)
      ensures Valid()
    {
      RestoredGood(v0, v, {});
      RestoredWalks(v0, v, {});
      SpacesKept(v0, v, roots, active);
    }
  }
}
