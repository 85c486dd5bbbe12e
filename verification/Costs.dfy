/** What copies of page-table hierarchies cost (kernel/mm/vmm/vmm.c): the tables a clone needs, and that
    the clone succeeds exactly if there are frames and records for them. */
module Costs {
  import opened Guard
  import opened Paging
  import opened Trees
  import opened Cloning

  const COST: int := -17

  // ---- counting tables --------------------------------------------------------------------

  /** The tables a copy of p needs, a table counted once for every reference to it. */
  ghost function Copies(mem: Mem, p: nat, l: nat): nat
    decreases l, ENTRIES + 1
  {
    if p == 0 || p !in mem || l == 0 then 1 else 1 + CopiesUpTo(mem, p, l, ENTRIES)
  }

  /** Those below the first n entries. */
  ghost function CopiesUpTo(mem: Mem, p: nat, l: nat, n: nat): nat
    requires p in mem && n <= ENTRIES
    decreases l, n
  {
    if n == 0 then 0 else CopiesUpTo(mem, p, l, n - 1) + CopiesAt(mem, p, l, n - 1)
  }

  ghost function CopiesAt(mem: Mem, p: nat, l: nat, i: nat): nat
    requires p in mem && i < ENTRIES
    decreases l, 0
  {
    if l > 0 && Ref(mem[p][i]) then Copies(mem, mem[p][i].frame, l - 1) else 0
  }

  /** No reference on the way down is to frame 0. */
  ghost predicate Complete(mem: Mem, p: nat, l: nat)
    decreases l
  {
    p != 0 && (p in mem && l > 0 ==> forall i | 0 <= i < ENTRIES && Ref(mem[p][i]) :: Complete(mem, mem[p][i].frame, l - 1))
  }

  ghost predicate CompleteAt(mem: Mem, p: nat, l: nat, i: nat)
    requires p in mem && i < ENTRIES
  {
    l > 0 && Ref(mem[p][i]) ==> Complete(mem, mem[p][i].frame, l - 1)
  }

  lemma {:induction false} NoCopies(mem: Mem, p: nat, n: nat)
    requires p in mem && n <= ENTRIES
    ensures CopiesUpTo(mem, p, 0, n) == 0
  {
    if n > 0 { NoCopies(mem, p, n - 1); }
  }

  /** A table takes one frame more than what is below its entries. */
  lemma CopiesAll(mem: Mem, p: nat, l: nat)
    requires p in mem && p != 0
    ensures Copies(mem, p, l) == 1 + CopiesUpTo(mem, p, l, ENTRIES)
  {
    NoCopies(mem, p, ENTRIES);
  }

  lemma {:induction false} CopiesGrow(mem: Mem, p: nat, l: nat, n: nat, m: nat)
    requires p in mem && n <= m <= ENTRIES
    ensures CopiesUpTo(mem, p, l, n) <= CopiesUpTo(mem, p, l, m)
    decreases m
  {
    if n < m { CopiesGrow(mem, p, l, n, m - 1); }
  }

  /** Frames handed out do not change what a hierarchy that can be read costs. */
  lemma {:induction false} CostsKept(mem: Mem, free: set<nat>, mem': Mem, p: nat, l: nat)
    requires Readable(mem, free, p, l) && forall q | q in mem && q !in free :: q in mem' && mem'[q] == mem[q]
    ensures Copies(mem', p, l) == Copies(mem, p, l) && (Complete(mem', p, l) <==> Complete(mem, p, l))
    decreases l, ENTRIES + 1
  {
    if p != 0 && l > 0 {
      CostsUpToKept(mem, free, mem', p, l, ENTRIES);
      forall i | 0 <= i < ENTRIES && Ref(mem[p][i])
        ensures Complete(mem', mem[p][i].frame, l - 1) <==> Complete(mem, mem[p][i].frame, l - 1)
      {
        CostsKept(mem, free, mem', mem[p][i].frame, l - 1);
      }
    }
  }

  lemma {:induction false} CostsUpToKept(mem: Mem, free: set<nat>, mem': Mem, p: nat, l: nat, n: nat)
    requires p != 0 && l > 0 && n <= ENTRIES && p in mem && p in mem'
    requires Readable(mem, free, p, l) && forall q | q in mem && q !in free :: q in mem' && mem'[q] == mem[q]
    ensures CopiesUpTo(mem', p, l, n) == CopiesUpTo(mem, p, l, n)
    decreases l, n
  {
    if n > 0 {
      CostsUpToKept(mem, free, mem', p, l, n - 1);
      if Ref(mem[p][n - 1]) { CostsKept(mem, free, mem', mem[p][n - 1].frame, l - 1); }
    }
  }

  /** A tree needs as many tables as it has. */
  lemma {:induction false} CopiesOfTree(mem: Mem, p: nat, l: nat)
    requires Tree(mem, p, l) && Complete(mem, p, l)
    ensures Copies(mem, p, l) == |Sub(mem, p, l)|
    decreases l, ENTRIES + 1
  {
    if p in mem && l > 0 { CopiesOfTreeUpTo(mem, p, l, ENTRIES); }
  }

  lemma {:induction false} CopiesOfTreeUpTo(mem: Mem, p: nat, l: nat, n: nat)
    requires p in mem && l > 0 && n <= ENTRIES && TreeUpTo(mem, p, l, n) && Complete(mem, p, l)
    ensures 1 + CopiesUpTo(mem, p, l, n) == |SubUpTo(mem, p, l, n)|
    decreases l, n
  {
    if n > 0 {
      CopiesOfTreeUpTo(mem, p, l, n - 1);
      if Ref(mem[p][n - 1]) { CopiesOfTree(mem, mem[p][n - 1].frame, l - 1); }
      assert |SubUpTo(mem, p, l, n)| == |SubUpTo(mem, p, l, n - 1)| + |SubAt(mem, p, l, n - 1)|;
    }
  }

  /** The walk for k, from table p at level l on, follows a reference to frame 0. */
  ghost predicate MeetsZero(mem: Mem, p: nat, l: nat, k: Path)
    decreases l
  {
    p == 0 || (l > 0 && p in mem && mem[p][k.At(l)].present && !mem[p][k.At(l)].huge && MeetsZero(mem, mem[p][k.At(l)].frame, l - 1, k))
  }

  function Turned(k: Path, l: nat, i: nat): (k': Path)
    requires l <= PML4 && i < ENTRIES
    ensures k'.At(l) == i && forall m: nat | m < l :: k'.At(m) == k.At(m)
  {
    if l == 0 then k.(pt := i) else if l == 1 then k.(pd := i) else if l == 2 then k.(pdpt := i) else k.(pml4 := i)
  }

  lemma {:induction false} BelowOnly(mem: Mem, p: nat, l: nat, k: Path, k': Path)
    requires forall m: nat | m <= l :: k.At(m) == k'.At(m)
    ensures MeetsZero(mem, p, l, k) <==> MeetsZero(mem, p, l, k')
    decreases l
  {
    if p != 0 && l > 0 && p in mem && Ref(mem[p][k.At(l)]) { BelowOnly(mem, mem[p][k.At(l)].frame, l - 1, k, k'); }
  }

  ghost predicate NeverZero(mem: Mem, p: nat, l: nat) { forall k: Path :: !MeetsZero(mem, p, l, k) }

  /** A hierarchy is complete exactly if no address leads to frame 0. */
  lemma {:induction false} CompleteWalks(mem: Mem, p: nat, l: nat)
    requires l <= PML4
    ensures Complete(mem, p, l) <==> NeverZero(mem, p, l)
    decreases l
  {
    if p == 0 {
      assert MeetsZero(mem, p, l, Key(0, 0, 0, 0));
    } else if p in mem && l > 0 {
      forall i | 0 <= i < ENTRIES && Ref(mem[p][i])
        ensures Complete(mem, mem[p][i].frame, l - 1) <==> NeverZero(mem, mem[p][i].frame, l - 1)
      {
        CompleteWalks(mem, mem[p][i].frame, l - 1);
      }
      if Complete(mem, p, l) {
        forall k: Path ensures !MeetsZero(mem, p, l, k) {
          if Ref(mem[p][k.At(l)]) { assert NeverZero(mem, mem[p][k.At(l)].frame, l - 1); }
        }
      } else {
        var i: nat :| i < ENTRIES && Ref(mem[p][i]) && !Complete(mem, mem[p][i].frame, l - 1);
        ZeroBelow(mem, p, l, i);
      }
    }
  }

  lemma ZeroBelow(mem: Mem, p: nat, l: nat, i: nat)
    requires 0 < l <= PML4 && p in mem && i < ENTRIES && Ref(mem[p][i]) && !NeverZero(mem, mem[p][i].frame, l - 1)
    ensures !NeverZero(mem, p, l)
  {
    var k: Path :| MeetsZero(mem, mem[p][i].frame, l - 1, k);
    BelowOnly(mem, mem[p][i].frame, l - 1, k, Turned(k, l, i));
    assert MeetsZero(mem, p, l, Turned(k, l, i));
  }

  /** The manager's own tables never refer to frame 0. */
  lemma {:induction false} OwnComplete(v: Vm, orphans: set<nat>, p: nat, l: nat)
    requires Good(v, orphans) && p in v.tables && v.tables[p].level == l
    ensures Complete(v.mem, p, l)
    decreases l
  {
    TableFacts(v, orphans, p);
    if l > 0 {
      forall i | 0 <= i < ENTRIES && Ref(v.mem[p][i]) ensures Complete(v.mem, v.mem[p][i].frame, l - 1) {
        EdgeFacts(v, orphans, p, i);
        OwnComplete(v, orphans, v.mem[p][i].frame, l - 1);
      }
    }
  }

  // ---- spending ---------------------------------------------------------------------------

  /** n free frames of v have become tables in w. */
  ghost predicate Used(v: Vm, w: Vm, n: nat) { |v.free| == |w.free| + n && |w.tables| == |v.tables| + n }

  /** Whether a hierarchy can be cloned. */
  ghost predicate Clonable(v: Vm, p: nat, l: nat) {
    Complete(v.mem, p, l) && !NoRoom(v, Copies(v.mem, p, l))
  }

  /** A table and the copies for the first n entries of src have been paid for. */
  ghost predicate Spending(v: Vm, w: Vm, src: nat, l: nat, n: nat) {
    forall o {:trigger Open(o)} :: Open(o) && o == COST ==>
      && src != 0 && src in v.mem && n <= ENTRIES && Used(v, w, 1 + CopiesUpTo(v.mem, src, l, n))
      && forall j | 0 <= j < n :: CompleteAt(v.mem, src, l, j)
  }

  lemma SpendStart(v: Vm, w: Vm, src: nat, d: nat, l: nat, info: Info)
    requires src != 0 && src in v.mem && d in v.free && d !in v.tables && w == Add(v, d, info)
    ensures Spending(v, w, src, l, 0)
  {
    OneLess(v.free, d);
    OneMoreKey(v.tables, d, info);
  }

  lemma OneLess(s: set<nat>, d: nat)
    requires d in s
    ensures |s| == |s - {d}| + 1
  {
  }

  lemma OneMoreKey(m: map<nat, Info>, d: nat, info: Info)
    requires d !in m
    ensures |m[d := info]| == |m| + 1
  {
    assert m[d := info].Keys == m.Keys + {d};
  }

  /** An entry that is no reference costs nothing. */
  lemma SpendNothing(v: Vm, w: Vm, z: Vm, src: nat, l: nat, n: nat)
    requires Spending(v, w, src, l, n) && n < ENTRIES && src in v.mem && !(l > 0 && Ref(v.mem[src][n]))
    requires z.free == w.free && z.tables == w.tables
    ensures Spending(v, z, src, l, n + 1)
  {
    assert Open(COST);
    SpentOneMore(v, z, src, l, n);
  }

  lemma SpentOneMore(v: Vm, u: Vm, src: nat, l: nat, n: nat)
    requires src != 0 && src in v.mem && n < ENTRIES && CompleteAt(v.mem, src, l, n)
    requires Used(v, u, 1 + CopiesUpTo(v.mem, src, l, n) + CopiesAt(v.mem, src, l, n))
    requires forall j | 0 <= j < n :: CompleteAt(v.mem, src, l, j)
    ensures Spending(v, u, src, l, n + 1)
  {
    assert CopiesUpTo(v.mem, src, l, n + 1) == CopiesUpTo(v.mem, src, l, n) + CopiesAt(v.mem, src, l, n);
    assert forall j | 0 <= j < n + 1 :: CompleteAt(v.mem, src, l, j);
  }

  /** A reference costs a copy of what it refers to. */
  lemma SpendChild(v: Vm, w: Vm, z: Vm, u: Vm, src: nat, l: nat, n: nat)
    requires Spending(v, w, src, l, n) && n < ENTRIES && src in v.mem && l > 0 && Ref(v.mem[src][n])
    requires Readable(v.mem, v.free, v.mem[src][n].frame, l - 1)
    requires forall q | q in v.mem && q !in v.free :: q in w.mem && w.mem[q] == v.mem[q]
    requires Complete(w.mem, v.mem[src][n].frame, l - 1) && Used(w, z, Copies(w.mem, v.mem[src][n].frame, l - 1))
    requires u.free == z.free && u.tables == z.tables
    ensures Spending(v, u, src, l, n + 1)
  {
    assert Open(COST);
    CostsKept(v.mem, v.free, w.mem, v.mem[src][n].frame, l - 1);
    SpentOneMore(v, u, src, l, n);
  }

  /** If a reference cannot be copied then, neither could the whole have been at the start. */
  lemma SpendFailed(v: Vm, w: Vm, src: nat, l: nat, n: nat)
    requires Spending(v, w, src, l, n) && n < ENTRIES && src in v.mem && l > 0 && Ref(v.mem[src][n])
    requires Readable(v.mem, v.free, v.mem[src][n].frame, l - 1)
    requires forall q | q in v.mem && q !in v.free :: q in w.mem && w.mem[q] == v.mem[q]
    requires !Clonable(w, v.mem[src][n].frame, l - 1)
    ensures !Clonable(v, src, l)
  {
    assert Open(COST);
    CostsKept(v.mem, v.free, w.mem, v.mem[src][n].frame, l - 1);
    CopiesAll(v.mem, src, l);
    CopiesGrow(v.mem, src, l, n + 1, ENTRIES);
  }

  lemma SpendEnd(v: Vm, w: Vm, src: nat, l: nat)
    requires Spending(v, w, src, l, ENTRIES) && |w.tables| <= MAX_TABLES
    ensures Used(v, w, Copies(v.mem, src, l)) && Clonable(v, src, l)
  {
    assert Open(COST);
    CopiesAll(v.mem, src, l);
    forall i | 0 <= i < ENTRIES && l > 0 && Ref(v.mem[src][i]) ensures Complete(v.mem, v.mem[src][i].frame, l - 1) {
      assert CompleteAt(v.mem, src, l, i);
    }
  }

  // ---- the gaps of the kernel root --------------------------------------------------------

  /** The tables needed to copy the first n entries of root sr that root kr lacks. */
  ghost function GapCopies(mem: Mem, kr: nat, sr: nat, n: nat): nat
    requires kr in mem && sr in mem && n <= ENTRIES
  {
    if n == 0 then 0
    else GapCopies(mem, kr, sr, n - 1)
         + if !mem[kr][n - 1].present && Ref(mem[sr][n - 1]) then Copies(mem, mem[sr][n - 1].frame, 2) else 0
  }

  /** A large page among them cannot be copied. */
  ghost predicate LargeGap(mem: Mem, kr: nat, sr: nat, i: nat)
    requires kr in mem && sr in mem && i < ENTRIES
  {
    !mem[kr][i].present && mem[sr][i].present && mem[sr][i].huge
  }

  lemma {:induction false} GapsGrow(mem: Mem, kr: nat, sr: nat, n: nat, m: nat)
    requires kr in mem && sr in mem && n <= m <= ENTRIES
    ensures GapCopies(mem, kr, sr, n) <= GapCopies(mem, kr, sr, m)
    decreases m
  {
    if n < m { GapsGrow(mem, kr, sr, n, m - 1); }
  }

  /** Whether the gaps of kr can be filled from sr, when extra tables have been made since v already. */
  ghost predicate Fillable(v: Vm, kr: nat, sr: nat, extra: nat)
    requires kr in v.mem && sr in v.mem
  {
    (forall i | 0 <= i < ENTRIES :: !LargeGap(v.mem, kr, sr, i)) && !NoRoom(v, extra + GapCopies(v.mem, kr, sr, ENTRIES))
  }

  /** Since v, extra tables and the copies for the first n gaps have been made. */
  ghost predicate Filling(v: Vm, w: Vm, kr: nat, sr: nat, extra: nat, n: nat) {
    forall o {:trigger Open(o)} :: Open(o) && o == COST ==>
      && kr in v.mem && sr in v.mem && n <= ENTRIES && Used(v, w, extra + GapCopies(v.mem, kr, sr, n))
      && forall i | 0 <= i < n :: !LargeGap(v.mem, kr, sr, i)
  }

  lemma FillStart(v: Vm, w: Vm, kr: nat, sr: nat, extra: nat)
    requires kr in v.mem && sr in v.mem && Used(v, w, extra)
    ensures Filling(v, w, kr, sr, extra, 0)
  {
  }

  lemma FillNothing(v: Vm, w: Vm, kr: nat, sr: nat, extra: nat, n: nat)
    requires Filling(v, w, kr, sr, extra, n) && n < ENTRIES && kr in v.mem && sr in v.mem
    requires v.mem[kr][n].present || !v.mem[sr][n].present
    ensures Filling(v, w, kr, sr, extra, n + 1)
  {
    assert Open(COST);
  }

  lemma FillCopy(v: Vm, w: Vm, z: Vm, kr: nat, sr: nat, extra: nat, n: nat)
    requires Filling(v, w, kr, sr, extra, n) && n < ENTRIES && kr in v.mem && sr in v.mem
    requires !v.mem[kr][n].present && Ref(v.mem[sr][n]) && Readable(v.mem, v.free, v.mem[sr][n].frame, 2)
    requires forall q | q in v.mem && q !in v.free :: q in w.mem && w.mem[q] == v.mem[q]
    requires Used(w, z, Copies(w.mem, v.mem[sr][n].frame, 2))
    ensures Filling(v, z, kr, sr, extra, n + 1)
  {
    CostsKept(v.mem, v.free, w.mem, v.mem[sr][n].frame, 2);
    assert !LargeGap(v.mem, kr, sr, n);
    assert Open(COST);
  }

  /** Copying stopped at gap n of a complete hierarchy. */
  lemma FillFailed(v: Vm, w: Vm, kr: nat, sr: nat, extra: nat, n: nat)
    requires Filling(v, w, kr, sr, extra, n) && n < ENTRIES && kr in v.mem && sr in v.mem && Complete(v.mem, sr, PML4)
    requires !v.mem[kr][n].present && v.mem[sr][n].present
    requires !v.mem[sr][n].huge ==> Readable(v.mem, v.free, v.mem[sr][n].frame, 2) && !Clonable(w, v.mem[sr][n].frame, 2)
    requires forall q | q in v.mem && q !in v.free :: q in w.mem && w.mem[q] == v.mem[q]
    ensures !Fillable(v, kr, sr, extra)
  {
    assert Open(COST);
    if v.mem[sr][n].huge {
      assert LargeGap(v.mem, kr, sr, n);
    } else {
      CostsKept(v.mem, v.free, w.mem, v.mem[sr][n].frame, 2);
      GapsGrow(v.mem, kr, sr, n + 1, ENTRIES);
    }
  }

  lemma FillEnd(v: Vm, w: Vm, kr: nat, sr: nat, extra: nat)
    requires Filling(v, w, kr, sr, extra, ENTRIES) && kr in v.mem && sr in v.mem && |w.tables| <= MAX_TABLES
    ensures Fillable(v, kr, sr, extra)
  {
    assert Open(COST);
  }
}
