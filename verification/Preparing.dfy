/** The transaction that fills the kernel's root from the boot loader's tables: subtrees are built
    as orphans, then either all linked or all thrown away. */
module Preparing {
  import opened Guard
  import opened Paging
  import opened Trees
  import opened Cloning
  import opened CloneCheck

  const PREPARE: int := -5

  // ---- building ---------------------------------------------------------------------------

  /** roots[j] is a new copy of the subtree behind slot j of the source root sr, for the kernel root kr. */
  ghost predicate CopyOk(v0: Vm, v1: Vm, v: Vm, kr: nat, sr: nat, c: nat, j: nat, orphans: set<nat>) {
    && j < ENTRIES && sr in v0.mem && kr in v1.mem && kr in v1.tables
    && c in orphans && c in v.tables && v.tables[c] == Info(2, kr) && c !in v1.tables
    && !v1.mem[kr][j].present && Ref(v0.mem[sr][j])
    && Mirrors(v0.mem, v0.mem[sr][j].frame, v.mem, c, 2, v0.free)
  }

  ghost predicate Distinct(roots: seq<nat>) {
    forall i, j | 0 <= i < |roots| && 0 <= j < |roots| && roots[i] != 0 && roots[i] == roots[j] :: i == j
  }

  /** Since v1, the subtrees listed in `roots` have been built for the first n slots. */
  ghost predicate Built(v0: Vm, v1: Vm, v: Vm, kr: nat, sr: nat, roots: seq<nat>, n: nat, orphans: set<nat>) {
    forall o {:trigger Open(o)} :: Open(o) && o == PREPARE ==>
      && Good(v1, {}) && Root(v1, kr) && kr in v1.mem && sr in v0.mem
      && Good(v, orphans) && Grows(v0, v1) && Grows(v1, v) && NoNewRoot(v1, v, 0)
      && |roots| == ENTRIES && Distinct(roots) && n <= ENTRIES
      && (forall j | 0 <= j < ENTRIES && roots[j] != 0 :: j < n && CopyOk(v0, v1, v, kr, sr, roots[j], j, orphans))
      && (forall j | 0 <= j < n && v0.mem[sr][j].present && !v1.mem[kr][j].present :: roots[j] != 0)
      && (forall x | x in orphans :: x != 0 && exists j :: 0 <= j < ENTRIES && roots[j] == x)
  }

  lemma BuiltFacts(v0: Vm, v1: Vm, v: Vm, kr: nat, sr: nat, roots: seq<nat>, n: nat, orphans: set<nat>)
    requires Built(v0, v1, v, kr, sr, roots, n, orphans)
    ensures Good(v, orphans) && Good(v1, {}) && Grows(v0, v1) && Grows(v1, v) && |roots| == ENTRIES && sr in v0.mem
    ensures kr in v1.mem && kr in v.mem && v.mem[kr] == v1.mem[kr] && Root(v, kr)
    ensures n < ENTRIES ==> roots[n] == 0
  {
    assert Open(PREPARE);
    assert kr !in v1.free by { assert Open(TREES); }
  }

  lemma BuildStart(v0: Vm, v1: Vm, kr: nat, sr: nat, roots: seq<nat>)
    requires Good(v1, {}) && Grows(v0, v1) && Root(v1, kr) && kr in v1.mem && sr in v0.mem
    requires |roots| == ENTRIES && forall j | 0 <= j < ENTRIES :: roots[j] == 0
    ensures Built(v0, v1, v1, kr, sr, roots, 0, {})
  {
    assert Grows(v1, v1) by { assert Open(TREES); }
  }

  lemma BuildSkip(v0: Vm, v1: Vm, v: Vm, kr: nat, sr: nat, roots: seq<nat>, n: nat, orphans: set<nat>)
    requires Built(v0, v1, v, kr, sr, roots, n, orphans) && n < ENTRIES && sr in v0.mem && kr in v1.mem
    requires v1.mem[kr][n].present || !v0.mem[sr][n].present
    ensures Built(v0, v1, v, kr, sr, roots, n + 1, orphans)
  {
    assert Open(PREPARE);
  }

  lemma BuildAdd(v0: Vm, v1: Vm, v: Vm, z: Vm, kr: nat, sr: nat, roots: seq<nat>, n: nat, c: nat, orphans: set<nat>)
    requires Built(v0, v1, v, kr, sr, roots, n, orphans) && n < ENTRIES && sr in v0.mem && kr in v1.mem && |roots| == ENTRIES
    requires !v1.mem[kr][n].present && Ref(v0.mem[sr][n]) && c != 0
    requires Readable(v0.mem, v0.free, v0.mem[sr][n].frame, 2)
    requires Cloned(v, z, v0.mem[sr][n].frame, c, 2, kr, orphans)
    ensures Built(v0, v1, z, kr, sr, roots[n := c], n + 1, orphans + {c})
  {
    BuildGrows(v0, v1, v, z, kr, sr, roots, n, c, orphans);
    BuildCopies(v0, v1, v, z, kr, sr, roots, roots[n := c], n, c, orphans);
    BuildSeq(v0, v1, v, kr, sr, roots, roots[n := c], n, c, orphans);
  }

  lemma BuildGrows(v0: Vm, v1: Vm, v: Vm, z: Vm, kr: nat, sr: nat, roots: seq<nat>, n: nat, c: nat, orphans: set<nat>)
    requires Built(v0, v1, v, kr, sr, roots, n, orphans) && Begun(v, z, c, 2, kr, orphans)
    ensures Good(v1, {}) && Root(v1, kr) && kr in v1.mem && sr in v0.mem
    ensures Good(z, orphans + {c}) && Grows(v0, v1) && Grows(v1, z) && NoNewRoot(v1, z, 0)
  {
    assert Open(PREPARE);
    GrowsTrans(v1, v, z);
  }

  lemma BuildCopies(v0: Vm, v1: Vm, v: Vm, z: Vm, kr: nat, sr: nat, roots: seq<nat>, after: seq<nat>, n: nat, c: nat, orphans: set<nat>)
    requires Built(v0, v1, v, kr, sr, roots, n, orphans) && n < ENTRIES && sr in v0.mem && kr in v1.mem && |roots| == ENTRIES && after == roots[n := c]
    requires !v1.mem[kr][n].present && Ref(v0.mem[sr][n]) && Readable(v0.mem, v0.free, v0.mem[sr][n].frame, 2)
    requires Cloned(v, z, v0.mem[sr][n].frame, c, 2, kr, orphans)
    ensures forall j | 0 <= j < ENTRIES && after[j] != 0 :: j < n + 1 && CopyOk(v0, v1, z, kr, sr, after[j], j, orphans + {c})
  {
    assert Open(PREPARE);
    GrowsTrans(v0, v1, v);
    AddedOk(v0, v1, v, z, kr, sr, n, c, orphans);
    forall j | 0 <= j < ENTRIES && roots[j] != 0 ensures CopyOk(v0, v1, z, kr, sr, roots[j], j, orphans + {c}) {
      CopyOkKept(v0, v1, v, z, kr, sr, roots[j], j, orphans, orphans + {c});
    }
  }

  lemma BuildSeq(v0: Vm, v1: Vm, v: Vm, kr: nat, sr: nat, roots: seq<nat>, after: seq<nat>, n: nat, c: nat, orphans: set<nat>)
    requires Built(v0, v1, v, kr, sr, roots, n, orphans) && n < ENTRIES && c !in v.tables && c != 0 && |roots| == ENTRIES && after == roots[n := c]
    requires sr in v0.mem && kr in v1.mem
    ensures Distinct(after)
    ensures forall j | 0 <= j < n + 1 && v0.mem[sr][j].present && !v1.mem[kr][j].present :: after[j] != 0
    ensures forall x | x in orphans + {c} :: x != 0 && exists j :: 0 <= j < ENTRIES && after[j] == x
  {
    assert Open(PREPARE);
    assert roots[n] == 0 && after[n] == c;
    forall x | x in orphans ensures exists j :: 0 <= j < ENTRIES && after[j] == x {
      var j :| 0 <= j < ENTRIES && roots[j] == x;
      assert after[j] == x;
    }
  }

  lemma AddedOk(v0: Vm, v1: Vm, v: Vm, z: Vm, kr: nat, sr: nat, n: nat, c: nat, orphans: set<nat>)
    requires Grows(v0, v1) && Grows(v1, v) && Grows(v0, v) && n < ENTRIES && sr in v0.mem && kr in v1.mem && kr in v1.tables
    requires !v1.mem[kr][n].present && Ref(v0.mem[sr][n])
    requires Readable(v0.mem, v0.free, v0.mem[sr][n].frame, 2)
    requires Cloned(v, z, v0.mem[sr][n].frame, c, 2, kr, orphans)
    ensures CopyOk(v0, v1, z, kr, sr, c, n, orphans + {c})
  {
    MirrorsSource(v0.mem, v0.free, v.mem, v0.mem[sr][n].frame, z.mem, c, 2, v.free);
  }

  /** Growth elsewhere keeps a finished copy. */
  lemma CopyOkKept(v0: Vm, v1: Vm, v: Vm, z: Vm, kr: nat, sr: nat, c: nat, j: nat, orphans: set<nat>, more: set<nat>)
    requires CopyOk(v0, v1, v, kr, sr, c, j, orphans) && orphans <= more && Good(v, orphans) && Grows(v, z)
    ensures CopyOk(v0, v1, z, kr, sr, c, j, more)
  {
    assert Open(TREES);
    MirrorsKept(v, v0.mem, v0.mem[sr][j].frame, z.mem, c, 2, v0.free);
  }

  /** A subtree that could not be built leaves the others as they were. */
  lemma BuildFailed(v0: Vm, v1: Vm, v: Vm, z: Vm, kr: nat, sr: nat, roots: seq<nat>, n: nat, orphans: set<nat>)
    requires Built(v0, v1, v, kr, sr, roots, n, orphans) && Restored(v, z)
    ensures Built(v0, v1, z, kr, sr, roots, n, orphans)
  {
    assert Open(PREPARE);
    RestoredGood(v, z, orphans);
    assert forall q | q in v1.mem && q !in v1.free :: q !in v.free;
    GrowsRestored(v1, v, z);
    assert Grows(v, z);
    forall j | 0 <= j < ENTRIES && roots[j] != 0 ensures CopyOk(v0, v1, z, kr, sr, roots[j], j, orphans) {
      CopyOkKept(v0, v1, v, z, kr, sr, roots[j], j, orphans, orphans);
    }
  }

  // ---- throwing everything away -----------------------------------------------------------

  /** The subtrees of roots[n..] are still there, as orphans; the others are gone again. */
  ghost predicate Tearing(v1: Vm, v: Vm, roots: seq<nat>, n: nat, orphans: set<nat>) {
    && Good(v1, {}) && Good(v, orphans) && Grows(v1, v) && NoNewRoot(v1, v, 0) && |roots| == ENTRIES && Distinct(roots)
    && (forall x | x in orphans :: x != 0 && x in v.tables && v.tables[x].level == 2 && x !in v1.tables
                                   && exists j :: n <= j < ENTRIES && roots[j] == x)
    && (forall j | n <= j < ENTRIES && roots[j] != 0 :: roots[j] in orphans)
  }

  lemma TearStart(v0: Vm, v1: Vm, v: Vm, kr: nat, sr: nat, roots: seq<nat>, n: nat, orphans: set<nat>)
    requires Built(v0, v1, v, kr, sr, roots, n, orphans)
    ensures Tearing(v1, v, roots, 0, orphans)
  {
    assert Open(PREPARE);
    forall x | x in orphans
      ensures x != 0 && x in v.tables && v.tables[x].level == 2 && x !in v1.tables && exists j :: 0 <= j < ENTRIES && roots[j] == x
    {
      var j :| 0 <= j < ENTRIES && roots[j] == x;
      assert CopyOk(v0, v1, v, kr, sr, roots[j], j, orphans);
    }
  }

  lemma TearNext(v1: Vm, v: Vm, z: Vm, roots: seq<nat>, n: nat, orphans: set<nat>)
    requires n < ENTRIES && Tearing(v1, v, roots, n, orphans) && roots[n] != 0
    requires Without(v, z, Sub(v.mem, roots[n], 2))
    ensures Tearing(v1, z, roots, n + 1, orphans - {roots[n]})
  {
    var c := roots[n];
    WithoutGood(v, z, c, 2, orphans);
    assert Open(TREES);
    var s := Sub(v.mem, c, 2);
    forall x | x in s ensures x in v.tables && x !in v1.tables && (x == c || x in v.up) {
      OnlyNewBelow(v1, v, c, 2, x, orphans);
      SubTables(v, c, 2, x);
    }
    GrowsWithout(v1, v, z, s);
    assert NoNewRoot(v1, z, 0);
  }

  lemma GrowsWithout(v1: Vm, v: Vm, z: Vm, s: set<nat>)
    requires Grows(v1, v) && Without(v, z, s) && TablesOk(v1) && UpOk(v1)
    requires forall x | x in s :: x in v.tables && x !in v1.tables
    ensures Grows(v1, z)
  {}

  /** Below a new orphan there are only new tables. */
  lemma {:induction false} OnlyNewBelow(v: Vm, w: Vm, p: nat, m: nat, x: nat, orphans: set<nat>)
    requires TablesOk(v) && UpOk(v) && Linked(v, {}) && TablesOk(w) && EdgesOk(w) && Grows(v, w)
    requires p in w.tables && w.tables[p].level == m && p !in v.tables && x in Sub(w.mem, p, m)
    ensures x in w.tables && x !in v.tables
    decreases m
  {
    if x != p {
      var i := SubWhich(w.mem, p, m, ENTRIES, x);
      assert Edge(w, p, i);
      assert w.mem[p][i].frame !in v.tables;
      OnlyNewBelow(v, w, w.mem[p][i].frame, m - 1, x, orphans);
    }
  }

  /** With no orphan and no new root left, nothing has grown. */
  lemma TearEnd(v1: Vm, v: Vm, roots: seq<nat>, orphans: set<nat>)
    requires Tearing(v1, v, roots, ENTRIES, orphans)
    ensures Restored(v1, v)
  {
    assert orphans == {};
    assert Open(TREES);
    forall x | x in v.tables ensures x in v1.tables { NothingNew(v1, v, x); }
    GrowsNothing(v1, v);
  }

  lemma GrowsNothing(v1: Vm, v: Vm)
    requires Grows(v1, v) && TablesOk(v1) && UpOk(v) && forall x | x in v.tables :: x in v1.tables
    ensures Restored(v1, v)
  {
    MapBack(v1.tables, v.tables, v.tables, {});
    MapBack(v1.up, v.up, v.up, {});
    SetBack(v1.free, v.free, v.free, {});
  }

  lemma {:induction false} NothingNew(v: Vm, w: Vm, x: nat)
    requires TablesOk(v) && EdgesOk(v) && TablesOk(w) && EdgesOk(w) && UpOk(w) && Linked(w, {}) && Grows(v, w) && NoNewRoot(v, w, 0)
    requires x in w.tables
    ensures x in v.tables
    decreases PML4 - w.tables[x].level
  {
    if w.tables[x].level < PML4 {
      var q, i := w.up[x].0, w.up[x].1;
      assert Edge(w, q, i);
      NothingNew(v, w, q);
      assert v.mem[q] == w.mem[q];
      assert Edge(v, q, i);
    } else {
      assert Root(w, x);
    }
  }

  // ---- linking everything -----------------------------------------------------------------

  /** The subtrees of roots[..n] are linked into the kernel root; those of roots[n..] still wait. */
  ghost predicate Published(v0: Vm, v1: Vm, w: Vm, v: Vm, kr: nat, sr: nat, roots: seq<nat>, n: nat, all: set<nat>, orphans: set<nat>) {
    forall o {:trigger Open(o)} :: Open(o) && o == PREPARE ==>
      && Built(v0, v1, w, kr, sr, roots, ENTRIES, all) && Good(v, orphans) && n <= ENTRIES && |roots| == ENTRIES
      && v.tables == w.tables && v.free == w.free && (forall q :: q in v.mem <==> q in w.mem)
      && (forall q | q in v.mem && q != kr :: v.mem[q] == w.mem[q])
      && kr in v.mem && sr in v0.mem
      && (forall j | 0 <= j < ENTRIES :: v.mem[kr][j] == if j < n && roots[j] != 0 then WithFrame(v0.mem[sr][j], roots[j]) else w.mem[kr][j])
      && (forall x | x in orphans :: exists j :: n <= j < ENTRIES && roots[j] == x)
      && (forall j | n <= j < ENTRIES && roots[j] != 0 :: roots[j] in orphans)
  }

  lemma PublishStart(v0: Vm, v1: Vm, w: Vm, kr: nat, sr: nat, roots: seq<nat>, orphans: set<nat>)
    requires Built(v0, v1, w, kr, sr, roots, ENTRIES, orphans)
    ensures Published(v0, v1, w, w, kr, sr, roots, 0, orphans, orphans)
  {
    BuiltFacts(v0, v1, w, kr, sr, roots, ENTRIES, orphans);
    assert Open(PREPARE);
  }

  lemma PublishSkip(v0: Vm, v1: Vm, w: Vm, v: Vm, kr: nat, sr: nat, roots: seq<nat>, n: nat, all: set<nat>, orphans: set<nat>)
    requires Published(v0, v1, w, v, kr, sr, roots, n, all, orphans) && n < ENTRIES && |roots| == ENTRIES && roots[n] == 0
    ensures Published(v0, v1, w, v, kr, sr, roots, n + 1, all, orphans)
  {
    assert Open(PREPARE);
    assert forall x | x in orphans :: x != 0 by {
      assert Open(TREES);
    }
  }

  lemma PublishFacts(v0: Vm, v1: Vm, w: Vm, v: Vm, kr: nat, sr: nat, roots: seq<nat>, n: nat, all: set<nat>, orphans: set<nat>)
    requires Published(v0, v1, w, v, kr, sr, roots, n, all, orphans)
    requires sr != kr && sr !in v0.free && sr in v0.mem
    ensures kr in v.tables && kr in v.mem && |roots| == ENTRIES && sr in v.mem && v.mem[sr] == v0.mem[sr]
  {
    assert Open(PREPARE);
    GrowsTrans(v0, v1, w);
  }

  lemma PublishNext(v0: Vm, v1: Vm, w: Vm, v: Vm, kr: nat, sr: nat, roots: seq<nat>, n: nat, all: set<nat>, orphans: set<nat>)
    requires Published(v0, v1, w, v, kr, sr, roots, n, all, orphans) && n < ENTRIES && |roots| == ENTRIES && roots[n] != 0
    requires kr in v.mem && sr in v0.mem
    ensures Published(v0, v1, w, Link(v, kr, n, WithFrame(v0.mem[sr][n], roots[n])), kr, sr, roots, n + 1, all, orphans - {roots[n]})
  {
    BuiltFacts(v0, v1, w, kr, sr, roots, ENTRIES, all) by { assert Open(PREPARE); }
    assert Open(PREPARE);
    assert CopyOk(v0, v1, w, kr, sr, roots[n], n, all);
    LinkGood(v, kr, n, WithFrame(v0.mem[sr][n], roots[n]), orphans);
  }

  // ---- what has been achieved -------------------------------------------------------------

  /** Everything translates as before, except that the kernel root follows the source root sr
      wherever its own slot was empty. */
  ghost predicate PreparedWalks(v0: Vm, v: Vm, kr: nat, sr: nat) {
    && (forall r | Root(v0, r) :: Root(v, r))
    && (forall r, k: Path | Root(v0, r) && r != kr :: Walk(v.mem, r, PML4, k) == Walk(v0.mem, r, PML4, k))
    && (forall k: Path | kr in v0.mem ::
          Walk(v.mem, kr, PML4, k) == Walk(v0.mem, if v0.mem[kr][k.pml4].present then kr else sr, PML4, k))
  }

  /** Frames were only taken, and every frame taken is a table now. */
  ghost predicate OnlyTaken(v: Vm, w: Vm) {
    && (forall f | f in w.free :: f in v.free) && (forall f | f in v.free :: f in w.free || f in w.tables)
    && (forall t | t in w.tables :: t in v.tables || t in v.free) && (forall t | t in v.tables :: t in w.tables)
  }

  /** A change to one table is invisible from other address spaces and from lower tables. */
  lemma {:induction false} WalkKeptExcept(v: Vm, mem: Mem, d: nat, t: nat, l: nat, k: Path)
    requires TablesOk(v) && EdgesOk(v) && d in v.tables && t in v.tables && v.tables[t].level == l
    requires v.tables[t].owner != v.tables[d].owner || l < v.tables[d].level
    requires forall q | q in v.tables && q in v.mem && q != d :: q in mem && mem[q] == v.mem[q]
    ensures Walk(mem, t, l, k) == Walk(v.mem, t, l, k)
    decreases l
  {
    var e := v.mem[t][k.At(l)];
    if l > 0 && Ref(e) {
      assert Edge(v, t, k.At(l));
      WalkKeptExcept(v, mem, d, e.frame, l - 1, k);
    }
  }

  /** The kernel root's walk, when all its slots have been dealt with. */
  lemma KernelWalk(v0: Vm, v1: Vm, w: Vm, v: Vm, kr: nat, sr: nat, roots: seq<nat>, all: set<nat>, k: Path)
    requires Good(v0, {}) && Root(v0, kr) && kr in v0.mem && sr in v0.mem && Good(w, all) && kr in w.tables && w.tables[kr].level == PML4
    requires Grows(v0, v1) && Grows(v1, w) && |roots| == ENTRIES && kr in v.mem && kr in v1.mem
    requires forall q | q in w.mem && q != kr :: q in v.mem && v.mem[q] == w.mem[q]
    requires v.mem[kr][k.pml4] == if roots[k.pml4] != 0 then WithFrame(v0.mem[sr][k.pml4], roots[k.pml4]) else v0.mem[kr][k.pml4]
    requires roots[k.pml4] != 0 ==> CopyOk(v0, v1, w, kr, sr, roots[k.pml4], k.pml4, all)
    requires v0.mem[sr][k.pml4].present && !v1.mem[kr][k.pml4].present ==> roots[k.pml4] != 0
    ensures Walk(v.mem, kr, PML4, k) == Walk(v0.mem, if v0.mem[kr][k.pml4].present then kr else sr, PML4, k)
  {
    KernelUntouched(v0, v1, w, v, kr);
    var j := k.pml4;
    if v0.mem[kr][j].present {
      assert v.mem[kr][j] == v0.mem[kr][j];
      if Ref(v0.mem[kr][j]) { KernelWalkOld(v0, w, v, kr, k, all); }
    } else if roots[j] != 0 {
      KernelWalkNew(v0, v1, w, v, kr, sr, roots[j], all, k);
    }
  }

  lemma KernelUntouched(v0: Vm, v1: Vm, w: Vm, v: Vm, kr: nat)
    requires Good(v0, {}) && Root(v0, kr) && kr in v0.mem && Grows(v0, v1) && Grows(v1, w)
    requires forall q | q in w.mem && q != kr :: q in v.mem && v.mem[q] == w.mem[q]
    ensures kr in v1.mem && v1.mem[kr] == v0.mem[kr]
    ensures forall q | q in v0.tables && q in v0.mem && q != kr :: q in v.mem && v.mem[q] == v0.mem[q]
  {
    assert forall q | q in v0.tables && q in v0.mem :: q !in v0.free by { assert Open(TREES); }
  }

  lemma KernelWalkNew(v0: Vm, v1: Vm, w: Vm, v: Vm, kr: nat, sr: nat, c: nat, all: set<nat>, k: Path)
    requires Good(w, all) && kr in w.tables && w.tables[kr].level == PML4 && CopyOk(v0, v1, w, kr, sr, c, k.pml4, all)
    requires forall q | q in w.mem && q != kr :: q in v.mem && v.mem[q] == w.mem[q]
    ensures Walk(v.mem, c, 2, k) == Walk(v0.mem, v0.mem[sr][k.pml4].frame, 2, k)
  {
    assert TablesOk(w) && EdgesOk(w) by { assert Open(TREES); }
    MirrorsBelow(w, v0.mem, v0.mem[sr][k.pml4].frame, v.mem, c, 2, v0.free, kr);
    MirrorsWalk(v0.mem, v0.mem[sr][k.pml4].frame, v.mem, c, 2, v0.free, k);
  }

  lemma KernelWalkOld(v0: Vm, w: Vm, v: Vm, kr: nat, k: Path, all: set<nat>)
    requires Good(v0, {}) && Root(v0, kr) && kr in v0.mem && Ref(v0.mem[kr][k.pml4])
    requires forall q | q in v0.tables && q in v0.mem && q != kr :: q in v.mem && v.mem[q] == v0.mem[q]
    ensures Walk(v.mem, v0.mem[kr][k.pml4].frame, 2, k) == Walk(v0.mem, v0.mem[kr][k.pml4].frame, 2, k)
  {
    assert Open(TREES);
    assert Edge(v0, kr, k.pml4);
    WalkKeptExcept(v0, v.mem, kr, v0.mem[kr][k.pml4].frame, 2, k);
  }

  lemma PublishEnd(v0: Vm, v1: Vm, w: Vm, v: Vm, kr: nat, sr: nat, roots: seq<nat>, all: set<nat>, orphans: set<nat>)
    requires Published(v0, v1, w, v, kr, sr, roots, ENTRIES, all, orphans) && Good(v0, {}) && Root(v0, kr) && sr in v0.mem
    ensures Good(v, {}) && PreparedWalks(v0, v, kr, sr)
    ensures forall q | q in v1.tables && q != kr :: q in v1.mem && q in v.mem && v.mem[q] == v1.mem[q] && q in v.tables && v.tables[q] == v1.tables[q]
    ensures forall k: Path | kr in v0.mem && !v0.mem[kr][k.pml4].present :: Walk(v0.mem, sr, PML4, k) != Reserved
  {
    PublishedTables(v0, v1, w, v, kr, sr, roots, all, orphans);
    TableFacts(v0, {}, kr);
    forall k: Path
      ensures Walk(v.mem, kr, PML4, k) == Walk(v0.mem, if v0.mem[kr][k.pml4].present then kr else sr, PML4, k)
      ensures !v0.mem[kr][k.pml4].present ==> Walk(v0.mem, sr, PML4, k) != Reserved
    {
      PublishedKernel(v0, v1, w, v, kr, sr, roots, all, orphans, k);
    }
    forall r, k: Path | Root(v0, r) && r != kr ensures Walk(v.mem, r, PML4, k) == Walk(v0.mem, r, PML4, k) {
      OtherWalk(v0, v.mem, kr, r, k);
    }
  }

  lemma PublishedTables(v0: Vm, v1: Vm, w: Vm, v: Vm, kr: nat, sr: nat, roots: seq<nat>, all: set<nat>, orphans: set<nat>)
    requires Published(v0, v1, w, v, kr, sr, roots, ENTRIES, all, orphans) && Good(v0, {})
    ensures Good(v, {}) && forall r | Root(v0, r) :: Root(v, r)
    ensures forall q | q in v1.tables && q != kr :: q in v1.mem && q in v.mem && v.mem[q] == v1.mem[q] && q in v.tables && v.tables[q] == v1.tables[q]
    ensures forall q | q in v0.tables && q in v0.mem && q != kr :: q in v.mem && v.mem[q] == v0.mem[q]
  {
    assert Open(PREPARE);
    assert orphans == {};
    assert forall q | q in v1.tables :: q in v1.mem && q !in v1.free by { assert Open(TREES); }
    assert forall q | q in v0.tables :: q !in v0.free by { assert Open(TREES); }
  }

  lemma PublishedKernel(v0: Vm, v1: Vm, w: Vm, v: Vm, kr: nat, sr: nat, roots: seq<nat>, all: set<nat>, orphans: set<nat>, k: Path)
    requires Published(v0, v1, w, v, kr, sr, roots, ENTRIES, all, orphans) && Good(v0, {}) && Root(v0, kr) && sr in v0.mem && kr in v0.mem
    ensures Walk(v.mem, kr, PML4, k) == Walk(v0.mem, if v0.mem[kr][k.pml4].present then kr else sr, PML4, k)
    ensures !v0.mem[kr][k.pml4].present ==> Walk(v0.mem, sr, PML4, k) != Reserved
  {
    assert Open(PREPARE);
    BuiltFacts(v0, v1, w, kr, sr, roots, ENTRIES, all);
    TableFacts(v0, {}, kr);
    assert roots[k.pml4] != 0 ==> CopyOk(v0, v1, w, kr, sr, roots[k.pml4], k.pml4, all);
    KernelWalk(v0, v1, w, v, kr, sr, roots, all, k);
    if !v0.mem[kr][k.pml4].present && v0.mem[sr][k.pml4].present {
      OnlyRootsReserved(v0.mem, v0.mem[sr][k.pml4].frame, 2, k);
    }
  }

  lemma {:induction false} OnlyRootsReserved(mem: Mem, t: nat, l: nat, k: Path)
    requires l < PML4
    ensures Walk(mem, t, l, k) != Reserved
    decreases l
  {
    if l > 0 && t in mem && Ref(mem[t][k.At(l)]) { OnlyRootsReserved(mem, mem[t][k.At(l)].frame, l - 1, k); }
  }

  lemma OtherWalk(v0: Vm, mem: Mem, kr: nat, r: nat, k: Path)
    requires Good(v0, {}) && Root(v0, kr) && Root(v0, r) && r != kr
    requires forall q | q in v0.tables && q in v0.mem && q != kr :: q in mem && mem[q] == v0.mem[q]
    ensures Walk(mem, r, PML4, k) == Walk(v0.mem, r, PML4, k)
  {
    assert Open(TREES);
    WalkKeptExcept(v0, mem, kr, r, PML4, k);
  }

  /** The two roots, and all that was in use, are still what they were. */
  lemma BuiltReads(v0: Vm, v1: Vm, v: Vm, kr: nat, sr: nat, roots: seq<nat>, n: nat, orphans: set<nat>)
    requires Built(v0, v1, v, kr, sr, roots, n, orphans) && sr in v0.mem && sr !in v0.free && kr in v0.mem && kr !in v0.free
    ensures Good(v, orphans) && |roots| == ENTRIES && Root(v, kr)
    ensures kr in v1.mem && kr in v.mem && v.mem[kr] == v1.mem[kr] == v0.mem[kr] && sr in v.mem && v.mem[sr] == v0.mem[sr]
    ensures forall q | q in v0.mem && q !in v0.free :: q in v.mem && v.mem[q] == v0.mem[q]
  {
    BuiltFacts(v0, v1, v, kr, sr, roots, n, orphans);
    GrowsTrans(v0, v1, v);
  }

  /** The next source subtree can still be read. */
  lemma BuildReadable(v0: Vm, v1: Vm, v: Vm, kr: nat, sr: nat, roots: seq<nat>, n: nat, orphans: set<nat>)
    requires Built(v0, v1, v, kr, sr, roots, n, orphans) && n < ENTRIES && Readable(v0.mem, v0.free, sr, PML4) && sr != 0
    requires sr in v0.mem && Ref(v0.mem[sr][n])
    ensures Readable(v0.mem, v0.free, v0.mem[sr][n].frame, 2)
    ensures Readable(v.mem, v.free, v0.mem[sr][n].frame, 2)
  {
    assert Open(PREPARE);
    GrowsTrans(v0, v1, v);
    assert v.free <= v0.free;
    ReadableKept(v0.mem, v0.free, v.mem, v.free, v0.mem[sr][n].frame, 2);
  }

  /** The standalone clone is untouched by what happens to the kernel root. */
  lemma CloneStays(v0: Vm, v1: Vm, v: Vm, kr: nat, sr: nat, cl: nat)
    requires Cloned(v0, v1, sr, cl, PML4, 0, {}) && Root(v0, kr)
    requires forall q | q in v1.tables && q != kr :: q in v1.mem && q in v.mem && v.mem[q] == v1.mem[q] && q in v.tables && v.tables[q] == v1.tables[q]
    ensures Root(v, cl) && forall k: Path :: Walk(v.mem, cl, PML4, k) == Walk(v0.mem, sr, PML4, k)
  {
    forall k: Path ensures Walk(v.mem, cl, PML4, k) == Walk(v0.mem, sr, PML4, k) {
      OtherWalk(v1, v.mem, kr, cl, k);
      MirrorsWalk(v0.mem, sr, v1.mem, cl, PML4, v0.free, k);
    }
  }

  /** The copy of a root keeps mirroring while another root is written. */
  lemma CopyMirrors(v0: Vm, v1: Vm, mem: Mem, kr: nat, sr: nat, cl: nat)
    requires Cloned(v0, v1, sr, cl, PML4, 0, {}) && Root(v1, kr) && cl != kr
    requires forall q | q in v1.tables && q in v1.mem && q != kr :: q in mem && mem[q] == v1.mem[q]
    ensures Mirrors(v0.mem, sr, mem, cl, PML4, v0.free)
  {
    assert TablesOk(v1) && EdgesOk(v1) by { assert Open(TREES); }
    forall i | 0 <= i < ENTRIES ensures MirrorSlot(v0.mem, sr, mem, cl, PML4, v0.free, i) {
      assert MirrorSlot(v0.mem, sr, v1.mem, cl, PML4, v0.free, i);
      if Ref(v0.mem[sr][i]) {
        EdgeFacts(v1, {}, cl, i);
        MirrorsBelow(v1, v0.mem, v0.mem[sr][i].frame, mem, v1.mem[cl][i].frame, 2, v0.free, kr);
      }
    }
  }

  /** The verifier accepts the clone that a finished preparation leaves behind. */
  lemma CloneAccepted(v0: Vm, v1: Vm, w: Vm, v: Vm, kr: nat, sr: nat, roots: seq<nat>, all: set<nat>, cl: nat)
    requires Published(v0, v1, w, v, kr, sr, roots, ENTRIES, all, {}) && Good(v0, {}) && Root(v0, kr)
    requires Cloned(v0, v1, sr, cl, PML4, 0, {}) && Readable(v0.mem, v0.free + {kr}, sr, PML4)
    ensures Accepts(v.mem, sr, cl, PML4)
  {
    PublishedTables(v0, v1, w, v, kr, sr, roots, all, {});
    CopyMirrors(v0, v1, v.mem, kr, sr, cl);
    assert forall q | q in v0.mem && q !in v0.free && q != kr :: q in v.mem && v.mem[q] == v0.mem[q] by { assert Open(PREPARE); }
    ClonesAccepted(v0.mem, v0.free + {kr}, v.mem, sr, cl, PML4, v0.free);
  }

  lemma PublishTook(v0: Vm, v1: Vm, w: Vm, v: Vm, kr: nat, sr: nat, roots: seq<nat>, all: set<nat>)
    requires Published(v0, v1, w, v, kr, sr, roots, ENTRIES, all, {})
    ensures OnlyTaken(v0, v)
  {
    assert Open(PREPARE);
    BuiltFacts(v0, v1, w, kr, sr, roots, ENTRIES, all);
    GrowsTrans(v0, v1, w);
  }

  /** All that holds once the copies are published. */
  lemma PreparedEnd(v0: Vm, v1: Vm, w: Vm, v: Vm, kr: nat, sr: nat, roots: seq<nat>, all: set<nat>, cl: nat)
    requires Published(v0, v1, w, v, kr, sr, roots, ENTRIES, all, {}) && Good(v0, {}) && Root(v0, kr) && sr in v0.mem
    requires Cloned(v0, v1, sr, cl, PML4, 0, {}) && Readable(v0.mem, v0.free + {kr}, sr, PML4)
    ensures Good(v, {}) && PreparedWalks(v0, v, kr, sr)
    ensures forall k: Path | kr in v0.mem && !v0.mem[kr][k.pml4].present :: Walk(v0.mem, sr, PML4, k) != Reserved
    ensures Root(v, cl) && forall k: Path :: Walk(v.mem, cl, PML4, k) == Walk(v0.mem, sr, PML4, k)
    ensures Accepts(v.mem, sr, cl, PML4) && OnlyTaken(v0, v)
  {
    PublishTook(v0, v1, w, v, kr, sr, roots, all);
    PublishEnd(v0, v1, w, v, kr, sr, roots, all, {});
    CloneStays(v0, v1, v, kr, sr, cl);
    CloneAccepted(v0, v1, w, v, kr, sr, roots, all, cl);
  }
}
