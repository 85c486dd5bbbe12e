/** The set of tables below a table, and when that part of memory is a tree. */
module Trees {
  import opened Guard
  import opened Paging

  predicate Ref(e: Entry) { e.present && !e.huge }

  /** All tables reached from p, p included. */
  ghost function Sub(mem: Mem, p: nat, l: nat): set<nat>
    decreases l, ENTRIES + 1
  {
    if l == 0 || p !in mem then {p} else SubUpTo(mem, p, l, ENTRIES)
  }

  /** p and the tables reached through its first n slots. */
  ghost function SubUpTo(mem: Mem, p: nat, l: nat, n: nat): set<nat>
    requires 0 < l && p in mem && n <= ENTRIES
    decreases l, n
  {
    if n == 0 then {p}
    else SubUpTo(mem, p, l, n - 1) + SubAt(mem, p, l, n - 1)
  }

  /** The tables reached through slot i of p. */
  ghost function SubAt(mem: Mem, p: nat, l: nat, i: nat): set<nat>
    requires 0 < l && p in mem && i < ENTRIES
    decreases l, 0
  {
    if Ref(mem[p][i]) then Sub(mem, mem[p][i].frame, l - 1) else {}
  }

  /** Each table below p is reached exactly once. */
  ghost predicate Tree(mem: Mem, p: nat, l: nat)
    decreases l, ENTRIES + 1
  {
    l == 0 || p !in mem || TreeUpTo(mem, p, l, ENTRIES)
  }

  ghost predicate TreeUpTo(mem: Mem, p: nat, l: nat, n: nat)
    requires 0 < l && p in mem && n <= ENTRIES
    decreases l, n
  {
    n == 0 || (TreeUpTo(mem, p, l, n - 1) && TreeAt(mem, p, l, n - 1) && SubAt(mem, p, l, n - 1) !! SubUpTo(mem, p, l, n - 1))
  }

  ghost predicate TreeAt(mem: Mem, p: nat, l: nat, i: nat)
    requires 0 < l && p in mem && i < ENTRIES
    decreases l, 0
  {
    Ref(mem[p][i]) ==> Tree(mem, mem[p][i].frame, l - 1)
  }

  /** Every table below p is registered for the owner at its level. */
  ghost predicate Live(v: Vm, p: nat, l: nat, owner: nat)
    decreases l
  {
    && p in v.tables && v.tables[p] == Info(l, owner) && p in v.mem
    && (l > 0 ==> forall i | 0 <= i < ENTRIES :: LiveAt(v, p, l, owner, i))
  }

  ghost predicate LiveAt(v: Vm, p: nat, l: nat, owner: nat, i: nat)
    requires 0 < l && p in v.mem && i < ENTRIES
    decreases l, 0
  {
    Ref(v.mem[p][i]) ==> Live(v, v.mem[p][i].frame, l - 1, owner)
  }

  /** A root has no huge entry. */
  ghost predicate NoReserved(mem: Mem, p: nat, l: nat) {
    l == PML4 && p in mem ==> forall i | 0 <= i < ENTRIES :: mem[p][i].present ==> !mem[p][i].huge
  }

  // ---- membership -------------------------------------------------------------------------

  lemma {:induction false} SubUpToAt(mem: Mem, p: nat, l: nat, n: nat, i: nat)
    requires 0 < l && p in mem && i < n <= ENTRIES
    ensures SubAt(mem, p, l, i) <= SubUpTo(mem, p, l, n) && p in SubUpTo(mem, p, l, n)
    decreases n
  {
    if i < n - 1 {
      SubUpToAt(mem, p, l, n - 1, i);
    } else {
      SubHasRoot(mem, p, l, n - 1);
    }
  }

  lemma {:induction false} SubHasRoot(mem: Mem, p: nat, l: nat, n: nat)
    requires 0 < l && p in mem && n <= ENTRIES
    ensures p in SubUpTo(mem, p, l, n)
    decreases n
  {
    if n > 0 { SubHasRoot(mem, p, l, n - 1); }
  }

  lemma {:induction false} SubWhich(mem: Mem, p: nat, l: nat, n: nat, x: nat) returns (i: nat)
    requires 0 < l && p in mem && n <= ENTRIES && x in SubUpTo(mem, p, l, n) && x != p
    ensures i < n && x in SubAt(mem, p, l, i)
    decreases n
  {
    if x in SubAt(mem, p, l, n - 1) {
      i := n - 1;
    } else {
      i := SubWhich(mem, p, l, n - 1, x);
    }
  }

  // ---- separated trees --------------------------------------------------------------------

  lemma {:induction false} SubTables(v: Vm, p: nat, l: nat, x: nat)
    requires TablesOk(v) && EdgesOk(v) && p in v.tables && v.tables[p].level == l && x in Sub(v.mem, p, l)
    ensures x in v.tables && v.tables[x].owner == v.tables[p].owner && v.tables[x].level <= l
    ensures x != p ==> v.tables[x].level < l && x in v.up && v.up[x].0 in Sub(v.mem, p, l)
    decreases l
  {
    if x != p {
      var i := SubWhich(v.mem, p, l, ENTRIES, x);
      assert Edge(v, p, i);
      SubUpToAt(v.mem, p, l, ENTRIES, i);
      SubTables(v, v.mem[p][i].frame, l - 1, x);
    }
  }

  /** The ancestor of x at level l, following the recorded slots. */
  ghost function Top(v: Vm, x: nat, l: nat): nat
    decreases if x in v.tables && v.tables[x].level < l then l - v.tables[x].level else 0
  {
    if x in v.tables && v.tables[x].level < l && x in v.up && v.up[x].0 in v.tables && v.tables[v.up[x].0].level == v.tables[x].level + 1
    then Top(v, v.up[x].0, l)
    else x
  }

  lemma {:induction false} SubTop(v: Vm, p: nat, l: nat, x: nat)
    requires TablesOk(v) && EdgesOk(v) && UpOk(v) && p in v.tables && v.tables[p].level == l && x in Sub(v.mem, p, l)
    ensures x in v.tables && Top(v, x, l) == p
    decreases l
  {
    if x != p {
      var i := SubWhich(v.mem, p, l, ENTRIES, x);
      var c := v.mem[p][i].frame;
      assert Edge(v, p, i) && c in v.up && v.up[c] == (p, i);
      SubTables(v, c, l - 1, x);
      SubTop(v, c, l - 1, x);
      TopRaise(v, x, l - 1, c);
    }
  }

  /** From the ancestor at one level to the one above. */
  lemma {:induction false} TopRaise(v: Vm, x: nat, l: nat, c: nat)
    requires TablesOk(v) && EdgesOk(v) && UpOk(v) && x in v.tables && v.tables[x].level <= l
    requires Top(v, x, l) == c && c in v.tables && v.tables[c].level == l && c in v.up
    ensures Top(v, x, l + 1) == v.up[c].0
    decreases l - v.tables[x].level
  {
    assert Edge(v, v.up[c].0, v.up[c].1);
    if x != c {
      assert v.tables[x].level < l;
      assert x in v.up;
      assert Edge(v, v.up[x].0, v.up[x].1);
      TopRaise(v, v.up[x].0, l, c);
    }
  }

  /** Tables with one recorded slot each form trees. */
  lemma {:induction false} UniqueTree(v: Vm, p: nat, l: nat)
    requires TablesOk(v) && EdgesOk(v) && UpOk(v) && p in v.tables && v.tables[p].level == l
    ensures Tree(v.mem, p, l)
    decreases l, ENTRIES + 1
  {
    if l > 0 { UniqueTreeUpTo(v, p, l, ENTRIES); }
  }

  lemma {:induction false} UniqueTreeUpTo(v: Vm, p: nat, l: nat, n: nat)
    requires TablesOk(v) && EdgesOk(v) && UpOk(v) && p in v.tables && v.tables[p].level == l && 0 < l && n <= ENTRIES
    ensures TreeUpTo(v.mem, p, l, n)
    decreases l, n
  {
    if n > 0 {
      UniqueTreeUpTo(v, p, l, n - 1);
      if Ref(v.mem[p][n - 1]) {
        assert Edge(v, p, n - 1);
        UniqueTree(v, v.mem[p][n - 1].frame, l - 1);
        var here, before := SubAt(v.mem, p, l, n - 1), SubUpTo(v.mem, p, l, n - 1);
        forall x | x in here ensures x !in before {
          SlotsApart(v, p, l, n - 1, x);
        }
        assert here !! before;
      }
      assert TreeAt(v.mem, p, l, n - 1);
    }
  }

  lemma SlotsApart(v: Vm, p: nat, l: nat, n: nat, x: nat)
    requires TablesOk(v) && EdgesOk(v) && UpOk(v) && p in v.tables && v.tables[p].level == l && 0 < l && n < ENTRIES
    requires x in SubAt(v.mem, p, l, n)
    ensures x !in SubUpTo(v.mem, p, l, n)
  {
    assert Edge(v, p, n);
    SubTables(v, v.mem[p][n].frame, l - 1, x);
    SubTop(v, v.mem[p][n].frame, l - 1, x);
    if x in SubUpTo(v.mem, p, l, n) {
      var j := SubWhich(v.mem, p, l, n, x);
      assert Edge(v, p, j);
      SubTop(v, v.mem[p][j].frame, l - 1, x);
      assert false;
    }
  }

  lemma {:induction false} GoodLive(v: Vm, p: nat, l: nat, owner: nat)
    requires TablesOk(v) && EdgesOk(v) && p in v.tables && v.tables[p] == Info(l, owner)
    ensures Live(v, p, l, owner)
    decreases l
  {
    if l > 0 {
      forall i | 0 <= i < ENTRIES && Ref(v.mem[p][i]) ensures Live(v, v.mem[p][i].frame, l - 1, owner) {
        assert Edge(v, p, i);
        GoodLive(v, v.mem[p][i].frame, l - 1, owner);
      }
      forall i | 0 <= i < ENTRIES ensures LiveAt(v, p, l, owner, i) {}
    }
  }

  lemma {:induction false} SubClosed(v: Vm, p: nat, l: nat, q: nat, i: nat)
    requires TablesOk(v) && EdgesOk(v) && p in v.tables && v.tables[p].level == l
    requires q in Sub(v.mem, p, l) && Edge(v, q, i)
    ensures v.mem[q][i].frame in Sub(v.mem, p, l)
    decreases l
  {
    SubTables(v, p, l, q);
    if q == p {
      SubUpToAt(v.mem, p, l, ENTRIES, i);
      SubSelf(v.mem, v.mem[q][i].frame, l - 1);
    } else {
      var j := SubWhich(v.mem, p, l, ENTRIES, q);
      assert Edge(v, p, j);
      SubUpToAt(v.mem, p, l, ENTRIES, j);
      SubClosed(v, v.mem[p][j].frame, l - 1, q, i);
    }
  }

  lemma SubSelf(mem: Mem, p: nat, l: nat)
    ensures p in Sub(mem, p, l)
  {
    if l > 0 && p in mem { SubHasRoot(mem, p, l, ENTRIES); }
  }

  /** When no table is an orphan, every table of an address space is reached from its root. */
  lemma {:induction false} OwnedReached(v: Vm, x: nat)
    requires TablesOk(v) && EdgesOk(v) && UpOk(v) && Linked(v, {}) && x in v.tables
    ensures x in Sub(v.mem, v.tables[x].owner, PML4)
    decreases PML4 - v.tables[x].level
  {
    if v.tables[x].level < PML4 {
      var q, i := v.up[x].0, v.up[x].1;
      assert Edge(v, q, i);
      OwnedReached(v, q);
      SubClosed(v, v.tables[x].owner, PML4, q, i);
    } else {
      SubSelf(v.mem, x, PML4);
    }
  }

  // ---- framing ----------------------------------------------------------------------------

  ghost predicate Agree(mem: Mem, mem': Mem, s: set<nat>) {
    forall x | x in s :: (x in mem <==> x in mem') && (x in mem ==> mem'[x] == mem[x])
  }

  lemma {:induction false} SubFrame(mem: Mem, mem': Mem, p: nat, l: nat)
    requires Agree(mem, mem', Sub(mem, p, l))
    ensures Sub(mem', p, l) == Sub(mem, p, l) && (Tree(mem, p, l) ==> Tree(mem', p, l))
    decreases l, ENTRIES + 1
  {
    SubSelf(mem, p, l);
    if l > 0 && p in mem { SubFrameUpTo(mem, mem', p, l, ENTRIES); }
  }

  lemma {:induction false} SubFrameUpTo(mem: Mem, mem': Mem, p: nat, l: nat, n: nat)
    requires 0 < l && p in mem && p in mem' && mem'[p] == mem[p] && n <= ENTRIES && Agree(mem, mem', SubUpTo(mem, p, l, n))
    ensures SubUpTo(mem', p, l, n) == SubUpTo(mem, p, l, n) && (TreeUpTo(mem, p, l, n) ==> TreeUpTo(mem', p, l, n))
    decreases l, n
  {
    if n > 0 {
      SubFrameUpTo(mem, mem', p, l, n - 1);
      assert SubAt(mem, p, l, n - 1) <= SubUpTo(mem, p, l, n);
      if Ref(mem[p][n - 1]) {
        assert SubAt(mem, p, l, n - 1) == Sub(mem, mem[p][n - 1].frame, l - 1);
        SubFrame(mem, mem', mem[p][n - 1].frame, l - 1);
      }
      assert SubAt(mem', p, l, n - 1) == SubAt(mem, p, l, n - 1);
      assert TreeAt(mem, p, l, n - 1) ==> TreeAt(mem', p, l, n - 1);
    }
  }

  lemma {:induction false} LiveFrame(v: Vm, w: Vm, p: nat, l: nat, owner: nat)
    requires Live(v, p, l, owner) && Agree(v.mem, w.mem, Sub(v.mem, p, l))
    requires forall x | x in Sub(v.mem, p, l) && x in v.tables :: x in w.tables && w.tables[x] == v.tables[x]
    ensures Live(w, p, l, owner)
    decreases l
  {
    SubSelf(v.mem, p, l);
    if l > 0 {
      forall i | 0 <= i < ENTRIES ensures LiveAt(w, p, l, owner, i) {
        assert LiveAt(v, p, l, owner, i);
        SubUpToAt(v.mem, p, l, ENTRIES, i);
        if Ref(v.mem[p][i]) { LiveFrame(v, w, v.mem[p][i].frame, l - 1, owner); }
      }
    }
  }

  /** All tables below a live one are registered. */
  lemma {:induction false} LiveSub(v: Vm, p: nat, l: nat, owner: nat, x: nat)
    requires Live(v, p, l, owner) && x in Sub(v.mem, p, l)
    ensures x in v.tables && x in v.mem && v.tables[x].owner == owner
    decreases l
  {
    if x != p {
      var i := SubWhich(v.mem, p, l, ENTRIES, x);
      assert LiveAt(v, p, l, owner, i);
      LiveSub(v, v.mem[p][i].frame, l - 1, owner, x);
    }
  }

  // ---- taking a whole tree away -----------------------------------------------------------

  /** w is v without the tables in s. */
  ghost predicate Without(v: Vm, w: Vm, s: set<nat>) {
    && w.tables == v.tables - s && w.free == v.free + s && w.up == v.up - s
    && (forall q :: q in w.mem <==> q in v.mem)
    && (forall q | q in v.mem && q !in s :: w.mem[q] == v.mem[q])
  }

  lemma NoWayIn(v: Vm, p: nat, l: nat, q: nat, i: nat)
    requires TablesOk(v) && EdgesOk(v) && p in v.tables && v.tables[p].level == l && p !in v.up
    requires Edge(v, q, i) && q !in Sub(v.mem, p, l)
    ensures v.mem[q][i].frame !in Sub(v.mem, p, l)
  {
    if v.mem[q][i].frame in Sub(v.mem, p, l) {
      SubTables(v, p, l, v.mem[q][i].frame);
      assert false;
    }
  }

  lemma WithoutEdges(v: Vm, w: Vm, p: nat, l: nat)
    requires TablesOk(v) && EdgesOk(v) && UpOk(v) && p in v.tables && v.tables[p].level == l && p !in v.up
    requires Without(v, w, Sub(v.mem, p, l))
    ensures EdgesOk(w) && UpOk(w)
  {
    var s := Sub(v.mem, p, l);
    forall q: nat, i: nat
      ensures Edge(w, q, i) <==> Edge(v, q, i) && q !in s
      ensures Edge(w, q, i) ==> w.mem[q][i] == v.mem[q][i] && v.mem[q][i].frame !in s
    {
      if Edge(v, q, i) && q !in s { NoWayIn(v, p, l, q, i); }
    }
    forall c | c in w.up ensures v.up[c].0 !in s {
      if v.up[c].0 in s { SubClosed(v, p, l, v.up[c].0, v.up[c].1); }
    }
  }

  lemma WithoutTables(v: Vm, w: Vm, p: nat, l: nat, orphans: set<nat>)
    requires TablesOk(v) && EdgesOk(v) && UpOk(v) && Linked(v, orphans) && Clean(v) && p in v.tables && v.tables[p].level == l && p !in v.up
    requires l < PML4 || orphans == {}
    requires Without(v, w, Sub(v.mem, p, l))
    ensures TablesOk(w) && Clean(w)
  {
    var s := Sub(v.mem, p, l);
    forall q | q in w.tables ensures v.tables[q].owner !in s {
      var r := v.tables[q].owner;
      if r in s {
        SubTables(v, p, l, r);
        OwnedReached(v, q);
        assert false;
      }
    }
  }

  lemma WithoutLinks(v: Vm, w: Vm, p: nat, l: nat, orphans: set<nat>)
    requires TablesOk(v) && EdgesOk(v) && Linked(v, orphans) && p in v.tables && v.tables[p].level == l && p !in v.up
    requires Without(v, w, Sub(v.mem, p, l))
    ensures Linked(w, orphans - {p})
  {
    var s := Sub(v.mem, p, l);
    SubSelf(v.mem, p, l);
    forall q | q in orphans - {p} ensures q !in s {
      if q in s { SubTables(v, p, l, q); }
    }
  }

  /** Taking away an orphan's tree, or a root's when there are no orphans, keeps the rest intact,
      and the rest translates as before. */
  lemma WithoutGood(v: Vm, w: Vm, p: nat, l: nat, orphans: set<nat>)
    requires Good(v, orphans) && p in v.tables && v.tables[p].level == l
    requires if l < PML4 then p in orphans else orphans == {}
    requires Without(v, w, Sub(v.mem, p, l))
    ensures Good(w, orphans - {p})
    ensures SameWalks(w, v)
  {
    WithoutParts(v, w, p, l, orphans);
    assert Good(w, orphans - {p});
    assert forall q | q in w.tables && q in w.mem :: q in v.mem && v.mem[q] == w.mem[q] by { assert Open(TREES); }
    KeptWalks(w, v, orphans - {p});
  }

  lemma WithoutParts(v: Vm, w: Vm, p: nat, l: nat, orphans: set<nat>)
    requires Good(v, orphans) && p in v.tables && v.tables[p].level == l
    requires if l < PML4 then p in orphans else orphans == {}
    requires Without(v, w, Sub(v.mem, p, l))
    ensures TablesOk(w) && EdgesOk(w) && UpOk(w) && Linked(w, orphans - {p}) && Clean(w)
  {
    assert Open(TREES);
    assert p !in v.up;
    WithoutEdges(v, w, p, l);
    WithoutTables(v, w, p, l, orphans);
    WithoutLinks(v, w, p, l, orphans);
  }

  // ---- what the invariant means -----------------------------------------------------------

  /** Slot i of p is the one slot that refers to x. */
  ghost predicate OnlySlot(v: Vm, p: nat, i: nat, x: nat) {
    && Edge(v, p, i) && v.mem[p][i].frame == x
    && forall q: nat, j: nat | Edge(v, q, j) && v.mem[q][j].frame == x :: q == p && j == i
  }

  /** Registered tables are in use; every table below a root is referred to by exactly one slot and
      belongs to the tree of its root; no table is met twice below a root; and the trees of two roots
      have no table in common. */
  ghost predicate Separated(v: Vm) {
    && (forall x | x in v.tables && v.tables[x].level < PML4 :: exists p: nat, i: nat :: OnlySlot(v, p, i, x))
    && (forall p: nat, i: nat | Edge(v, p, i) ::
          && v.mem[p][i].frame in v.tables
          && v.tables[v.mem[p][i].frame] == Info(v.tables[p].level - 1, v.tables[p].owner))
    && (forall x | x in v.tables :: x !in v.free && x in Sub(v.mem, v.tables[x].owner, PML4))
    && (forall r | Root(v, r) :: Tree(v.mem, r, PML4))
    && (forall r, r' | Root(v, r) && Root(v, r') && r != r' :: Sub(v.mem, r, PML4) !! Sub(v.mem, r', PML4))
  }

  lemma Separation(v: Vm)
    requires Good(v, {})
    ensures Separated(v)
  {
    assert Open(TREES);
    forall x | x in v.tables && v.tables[x].level < PML4 ensures exists p: nat, i: nat :: OnlySlot(v, p, i, x) {
      assert OnlySlot(v, v.up[x].0, v.up[x].1, x);
    }
    forall x | x in v.tables ensures x in Sub(v.mem, v.tables[x].owner, PML4) { OwnedReached(v, x); }
    forall r | Root(v, r) ensures Tree(v.mem, r, PML4) { UniqueTree(v, r, PML4); }
    forall r, r' | Root(v, r) && Root(v, r') && r != r' ensures Sub(v.mem, r, PML4) !! Sub(v.mem, r', PML4) {
      var s, s' := Sub(v.mem, r, PML4), Sub(v.mem, r', PML4);
      forall x | x in s ensures x !in s' {
        SubTables(v, r, PML4, x);
        if x in s' { SubTables(v, r', PML4, x); }
      }
    }
  }
}
