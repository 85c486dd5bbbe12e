/** Which tables a translation passes, and which ones a mapping adds (kernel/mm/vmm/vmm.c). */
module Ways {
  import opened Guard
  import opened Paging

  /** Both keys pass the same table of level l in every root: they have the same indexes above it. */
  ghost predicate SameWay(k: Path, k': Path, l: nat) {
    forall m: nat | l < m <= PML4 :: k.At(m) == k'.At(m)
  }

  /** From v to w the tables on the way to (r, k), of level l and above, were added where they were missing;
      no other table of any root was added or taken away. */
  ghost predicate Extended(v: Vm, w: Vm, r: nat, k: Path, l: nat) {
    forall r', k': Path, m: nat | Root(v, r') && m < PML4 ::
      Reach(w.mem, r', PML4, k', m) != 0 <==> Reach(v.mem, r', PML4, k', m) != 0 || (r' == r && l <= m && SameWay(k, k', m))
  }

  const WAY: int := -18

  /** The same for all the tables on the way. */
  ghost predicate WayOpened(v: Vm, w: Vm, r: nat, k: Path) {
    forall n {:trigger Open(n)} :: Open(n) && n == WAY ==> Extended(v, w, r, k, 0)
  }

  // ---- walks as far as a table ------------------------------------------------------------

  lemma {:induction false} ReachSame(mem: Mem, t: nat, l: nat, k: Path, k': Path, target: nat)
    requires l <= PML4 && SameWay(k, k', target)
    ensures Reach(mem, t, l, k, target) == Reach(mem, t, l, k', target)
    decreases l
  {
    if target < l && t in mem && mem[t][k.At(l)].present && !mem[t][k.At(l)].huge {
      ReachSame(mem, mem[t][k.At(l)].frame, l - 1, k, k', target);
    }
  }

  /** One step further. */
  lemma {:induction false} ReachNext(mem: Mem, t: nat, l: nat, k: Path, target: nat)
    requires target < l && Reach(mem, t, l, k, target + 1) != 0 && Reach(mem, t, l, k, target + 1) in mem
    ensures var e := mem[Reach(mem, t, l, k, target + 1)][k.At(target + 1)];
            Reach(mem, t, l, k, target) == if e.present && !e.huge then e.frame else 0
    decreases l
  {
    if target + 1 < l { ReachNext(mem, mem[t][k.At(l)].frame, l - 1, k, target); }
  }

  /** A new empty table c, linked into slot i of table p, is reached through that slot, and is all that is
      reached anew. */
  lemma {:induction false} ReachLinked(v: Vm, mem: Mem, p: nat, i: nat, e: Entry, t: nat, l: nat, k: Path, target: nat)
    requires TablesOk(v) && EdgesOk(v) && t in v.tables && v.tables[t].level == l
    requires p in v.tables && i < ENTRIES && v.tables[p].level > 0 && !v.mem[p][i].present && e.present && !e.huge
    requires e.frame !in v.tables && mem == v.mem[e.frame := Empty()][p := v.mem[p][i := e]]
    ensures Reach(mem, t, l, k, target) ==
            if v.tables[p].level <= l && Reach(v.mem, t, l, k, v.tables[p].level) == p && k.At(v.tables[p].level) == i
               && target == v.tables[p].level - 1
            then e.frame else Reach(v.mem, t, l, k, target)
    decreases l
  {
    if target < l {
      var f := v.mem[t][k.At(l)];
      if t == p && k.At(l) == i {
        assert mem[t][k.At(l)] == e;
        if target < l - 1 { assert mem[e.frame][k.At(l - 1)] == ZERO; }
      } else {
        assert mem[t][k.At(l)] == f;
        if f.present && !f.huge {
          assert Edge(v, t, k.At(l));
          ReachLinked(v, mem, p, i, e, f.frame, l - 1, k, target);
        }
      }
    }
  }

  /** What a last-level table holds does not matter for reaching tables. */
  lemma {:induction false} ReachLeaf(v: Vm, mem: Mem, p: nat, i: nat, e: Entry, t: nat, l: nat, k: Path, target: nat)
    requires TablesOk(v) && EdgesOk(v) && t in v.tables && v.tables[t].level == l
    requires p in v.tables && i < ENTRIES && v.tables[p].level == 0 && mem == v.mem[p := v.mem[p][i := e]]
    ensures Reach(mem, t, l, k, target) == Reach(v.mem, t, l, k, target)
    decreases l
  {
    if target < l && v.mem[t][k.At(l)].present && !v.mem[t][k.At(l)].huge {
      assert Edge(v, t, k.At(l));
      ReachLeaf(v, mem, p, i, e, v.mem[t][k.At(l)].frame, l - 1, k, target);
    }
  }

  // ---- what a mapping adds ----------------------------------------------------------------

  lemma NothingAdded(v: Vm, r: nat, k: Path)
    ensures Extended(v, v, r, k, PML4)
  {
  }

  /** The table of level l on the way to (r, k) is created, under table p. */
  lemma TableAdded(v: Vm, w: Vm, r: nat, k: Path, l: nat, p: nat, e: Entry, info: Info)
    requires Good(v, {}) && Root(v, r) && l < PML4 && p == Reach(v.mem, r, PML4, k, l + 1) != 0 && p in v.mem
    requires !v.mem[p][k.At(l + 1)].present && e.present && !e.huge && e.frame != 0 && e.frame in v.free
    requires w == Link(Add(v, e.frame, info), p, k.At(l + 1), e)
    ensures Reach(w.mem, r, PML4, k, l) == e.frame
    ensures forall r', k': Path, m: nat | Root(v, r') && m < PML4 ::
              Reach(w.mem, r', PML4, k', m) != 0 <==> Reach(v.mem, r', PML4, k', m) != 0 || (r' == r && l == m && SameWay(k, k', m))
  {
    assert Open(TREES);
    ReachTable(v, r, PML4, k, l + 1);
    assert w.mem == v.mem[e.frame := Empty()][p := v.mem[p][k.At(l + 1) := e]];
    forall r', k': Path, m: nat | Root(v, r') && m < PML4
      ensures Reach(w.mem, r', PML4, k', m) != 0 <==> Reach(v.mem, r', PML4, k', m) != 0 || (r' == r && l == m && SameWay(k, k', m))
      ensures r' == r && k' == k && m == l ==> Reach(w.mem, r', PML4, k', m) == e.frame
    {
      ReachLinked(v, w.mem, p, k.At(l + 1), e, r', PML4, k', m);
      MeetsAt(v, r, k, r', k', l);
    }
  }

  /** A walk passes the same slot of the same table exactly if it has the same root and the same indexes. */
  lemma MeetsAt(v: Vm, r: nat, k: Path, r': nat, k': Path, l: nat)
    requires TablesOk(v) && EdgesOk(v) && Root(v, r) && Root(v, r') && l < PML4 && Reach(v.mem, r, PML4, k, l + 1) != 0
    ensures Reach(v.mem, r', PML4, k', l + 1) == Reach(v.mem, r, PML4, k, l + 1) && k'.At(l + 1) == k.At(l + 1) <==>
            r' == r && SameWay(k, k', l)
  {
    if Reach(v.mem, r', PML4, k', l + 1) == Reach(v.mem, r, PML4, k, l + 1) {
      WalksMeet(v, r, k, r', k', l + 1);
    }
    if r' == r && SameWay(k, k', l) {
      ReachSame(v.mem, r, PML4, k, k', l + 1);
    }
  }

  lemma ExtendedBy(v0: Vm, v: Vm, w: Vm, r: nat, k: Path, l: nat)
    requires l < PML4 && Extended(v0, v, r, k, l + 1) && forall r' | Root(v0, r') :: Root(v, r')
    requires forall r', k': Path, m: nat | Root(v, r') && m < PML4 ::
               Reach(w.mem, r', PML4, k', m) != 0 <==> Reach(v.mem, r', PML4, k', m) != 0 || (r' == r && l == m && SameWay(k, k', m))
    ensures Extended(v0, w, r, k, l)
  {
  }

  /** The table of level l is there already. */
  lemma TableThere(v: Vm, r: nat, k: Path, l: nat)
    requires l < PML4 && Reach(v.mem, r, PML4, k, l) != 0
    ensures forall k': Path | SameWay(k, k', l) :: Reach(v.mem, r, PML4, k', l) != 0
  {
    forall k': Path | SameWay(k, k', l) ensures Reach(v.mem, r, PML4, k', l) != 0 {
      ReachSame(v.mem, r, PML4, k, k', l);
    }
  }

  /** The leaf is written. */
  lemma LeafAdded(v0: Vm, v: Vm, w: Vm, r: nat, k: Path, p: nat, i: nat, e: Entry)
    requires Extended(v0, v, r, k, 0) && Good(v, {}) && forall r' | Root(v0, r') :: Root(v, r')
    requires p in v.tables && p in v.mem && v.tables[p].level == 0 && i < ENTRIES && w == Write(v, p, i, e)
    ensures WayOpened(v0, w, r, k)
  {
    assert Open(TREES);
    forall r', k': Path, m: nat | Root(v0, r') && m < PML4
      ensures Reach(w.mem, r', PML4, k', m) == Reach(v.mem, r', PML4, k', m)
    {
      ReachLeaf(v, w.mem, p, i, e, r', PML4, k', m);
    }
  }
}
