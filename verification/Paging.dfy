/** Four-level page tables as values: physical memory holds 512-entry tables, a registry says
    which frames are tables, at which level and for which root (kernel/mm/vmm/vmm.c). */
module Paging {
  import opened Guard

  const ENTRIES: nat := 512
  const PML4: nat := 3
  const MAX_TABLES: nat := 4096
  const TREES: int := -2

  /** One page-table word. `frame` is the address field, `other` every bit not named here. */
  datatype Entry = Entry(present: bool, writable: bool, user: bool, huge: bool,
                         accessed: bool, dirty: bool, other: nat, frame: nat)

  const ZERO := Entry(false, false, false, false, false, false, 0, 0)

  type Table = t: seq<Entry> | |t| == ENTRIES witness seq(ENTRIES, _ => ZERO)

  function Empty(): (t: Table)
    ensures forall i | 0 <= i < ENTRIES :: t[i] == ZERO
  {
    seq(ENTRIES, _ => ZERO)
  }

  type Mem = map<nat, Table>

  /** The four table indexes of a virtual address: bits 47..12. */
  datatype Key = Key(pml4: nat, pdpt: nat, pd: nat, pt: nat) {
    function At(level: nat): nat {
      if level == 0 then pt else if level == 1 then pd else if level == 2 then pdpt else pml4
    }
  }

  type Path = k: Key | k.pml4 < ENTRIES && k.pdpt < ENTRIES && k.pd < ENTRIES && k.pt < ENTRIES
    witness Key(0, 0, 0, 0)

  /** What the processor finds: nothing, a reserved bit (a huge PML4 entry), or a page whose
      size depends on the level at which the walk ends. */
  datatype Walked = NotMapped | Reserved | Page(entry: Entry, level: nat)

  function Walk(mem: Mem, table: nat, level: nat, k: Path): Walked
    decreases level
  {
    if table !in mem then NotMapped
    else
      var e := mem[table][k.At(level)];
      if !e.present then NotMapped
      else if level == 0 then Page(e, 0)
      else if e.huge then (if level >= PML4 then Reserved else Page(e, level))
      else Walk(mem, e.frame, level - 1, k)
  }

  datatype Info = Info(level: nat, owner: nat)

  /** A snapshot of the manager: memory, registered tables, for each linked table the slot that
      refers to it, and the free frames of the frame allocator. */
  datatype Vm = Vm(mem: Mem, tables: map<nat, Info>, up: map<nat, (nat, nat)>, free: set<nat>)

  /** Frames or records for n more tables are lacking. */
  ghost predicate NoRoom(u: Vm, n: nat) { |u.free| < n || |u.tables| + n > MAX_TABLES }

  /** Slot i of table p refers to a lower table. */
  ghost predicate Edge(v: Vm, p: nat, i: nat) {
    && p in v.tables && p in v.mem && i < ENTRIES
    && v.tables[p].level > 0 && v.mem[p][i].present && !v.mem[p][i].huge
  }

  ghost predicate Root(v: Vm, r: nat) {
    r in v.tables && v.tables[r] == Info(PML4, r)
  }

  ghost predicate TablesOk(v: Vm) {
    forall p | p in v.tables ::
      && p != 0 && p in v.mem && p !in v.free
      && v.tables[p].level <= PML4
      && (v.tables[p].level == PML4 ==> v.tables[p].owner == p)
      && Root(v, v.tables[p].owner)
  }

  /** Every reference leads one level down, inside the same address space, and is the one slot
      that `up` records for its target. */
  ghost predicate EdgesOk(v: Vm) {
    forall p: nat, i: nat | Edge(v, p, i) ::
      && v.mem[p][i].frame in v.tables
      && v.tables[v.mem[p][i].frame] == Info(v.tables[p].level - 1, v.tables[p].owner)
      && v.mem[p][i].frame in v.up && v.up[v.mem[p][i].frame] == (p, i)
  }

  ghost predicate UpOk(v: Vm) {
    forall c | c in v.up ::
      c in v.tables && Edge(v, v.up[c].0, v.up[c].1) && v.mem[v.up[c].0][v.up[c].1].frame == c
  }

  /** Every table below the root is linked, except the given orphans. */
  ghost predicate Linked(v: Vm, orphans: set<nat>) {
    && (forall p | p in v.tables && v.tables[p].level < PML4 :: p in v.up || p in orphans)
    && (forall p | p in orphans :: p in v.tables && v.tables[p].level < PML4 && p !in v.up)
  }

  /** Words that are not present are zero. */
  ghost predicate Clean(v: Vm) {
    forall p, i | p in v.tables && p in v.mem && 0 <= i < ENTRIES && !v.mem[p][i].present :: v.mem[p][i] == ZERO
  }

  /** The separation invariant: the registered tables form disjoint trees, one per root. */
  ghost predicate Good(v: Vm, orphans: set<nat>) {
    forall n {:trigger Open(n)} :: Open(n) && n == TREES ==>
      TablesOk(v) && EdgesOk(v) && UpOk(v) && Linked(v, orphans) && Clean(v)
  }

  /** Same tables, same free frames, same contents of every frame that is not free. */
  ghost predicate Restored(v: Vm, w: Vm) {
    && w.tables == v.tables && w.up == v.up && w.free == v.free
    && (forall p :: p in w.mem <==> p in v.mem)
    && (forall p | p in v.mem && p !in v.free :: w.mem[p] == v.mem[p])
  }

  // ---- the five elementary updates --------------------------------------------------------

  /** Takes a free frame, zeroes it and registers it. */
  ghost function Add(v: Vm, c: nat, info: Info): Vm {
    Vm(v.mem[c := Empty()], v.tables[c := info], v.up, v.free - {c})
  }

  ghost function Write(v: Vm, p: nat, i: nat, e: Entry): Vm
    requires p in v.mem && i < ENTRIES
  {
    Vm(v.mem[p := v.mem[p][i := e]], v.tables, v.up, v.free)
  }

  ghost function Link(v: Vm, p: nat, i: nat, e: Entry): Vm
    requires p in v.mem && i < ENTRIES
  {
    Vm(v.mem[p := v.mem[p][i := e]], v.tables, v.up[e.frame := (p, i)], v.free)
  }

  ghost function Unlink(v: Vm, p: nat, i: nat): Vm
    requires p in v.mem && i < ENTRIES
  {
    Vm(v.mem[p := v.mem[p][i := ZERO]], v.tables, v.up - {v.mem[p][i].frame}, v.free)
  }

  ghost function Remove(v: Vm, c: nat): Vm {
    Vm(v.mem, v.tables - {c}, v.up, v.free + {c})
  }

  /** w has the references of v, to the same targets. */
  ghost predicate SameEdges(v: Vm, w: Vm) {
    forall q: nat, j: nat :: (Edge(w, q, j) <==> Edge(v, q, j)) && (Edge(v, q, j) ==> w.mem[q][j] == v.mem[q][j])
  }

  lemma KeepEdges(v: Vm, w: Vm)
    requires EdgesOk(v) && UpOk(v) && SameEdges(v, w) && w.up == v.up
    requires forall q | q in v.up :: q in v.tables && q in w.tables && w.tables[q] == v.tables[q]
    requires forall q: nat, j: nat {:trigger Edge(v, q, j)} | Edge(v, q, j) :: w.tables[q] == v.tables[q]
    ensures EdgesOk(w) && UpOk(w)
  {}

  lemma LinkEdges(v: Vm, w: Vm, p: nat, i: nat, c: nat)
    requires EdgesOk(v) && UpOk(v) && w.tables == v.tables
    requires forall q: nat, j: nat :: Edge(w, q, j) <==> Edge(v, q, j) || (q == p && j == i)
    requires forall q: nat, j: nat | Edge(w, q, j) && !(q == p && j == i) :: w.mem[q][j] == v.mem[q][j]
    requires Edge(w, p, i) && !Edge(v, p, i) && w.mem[p][i].frame == c
    requires c in v.tables && v.tables[c] == Info(v.tables[p].level - 1, v.tables[p].owner)
    requires c !in v.up && w.up == v.up[c := (p, i)]
    ensures EdgesOk(w) && UpOk(w)
  {}

  lemma Stored(v: Vm, w: Vm, p: nat, i: nat, e: Entry)
    requires p in v.tables && p in v.mem && i < ENTRIES
    requires w.mem == v.mem[p := v.mem[p][i := e]] && w.tables == v.tables
    ensures forall q: nat, j: nat ::
              Edge(w, q, j) <==> if q == p && j == i then v.tables[p].level > 0 && e.present && !e.huge else Edge(v, q, j)
    ensures forall q: nat, j: nat | Edge(w, q, j) && !(q == p && j == i) :: w.mem[q][j] == v.mem[q][j]
    ensures w.mem[p][i] == e
  {}

  lemma StoredRest(v: Vm, w: Vm, p: nat, i: nat, e: Entry)
    requires TablesOk(v) && Clean(v) && p in v.tables && i < ENTRIES
    requires w.mem == v.mem[p := v.mem[p][i := e]] && w.tables == v.tables && w.free == v.free
    requires e.present || e == ZERO
    ensures TablesOk(w) && Clean(w)
  {}

  lemma AddedRest(v: Vm, w: Vm, c: nat, info: Info)
    requires TablesOk(v) && Clean(v) && c in v.free && c != 0 && c !in v.tables
    requires w.mem == v.mem[c := Empty()] && w.tables == v.tables[c := info] && w.free == v.free - {c}
    requires info.level <= PML4
    requires if info.level == PML4 then info.owner == c else Root(v, info.owner)
    ensures TablesOk(w) && Clean(w)
  {}

  lemma AddedEdges(v: Vm, w: Vm, c: nat, info: Info)
    requires EdgesOk(v) && UpOk(v) && c !in v.tables
    requires w.mem == v.mem[c := Empty()] && w.tables == v.tables[c := info] && w.up == v.up
    ensures EdgesOk(w) && UpOk(w)
  {
    assert SameEdges(v, w);
    KeepEdges(v, w);
  }

  lemma AddedLinks(v: Vm, w: Vm, c: nat, info: Info, orphans: set<nat>)
    requires Linked(v, orphans) && UpOk(v) && c !in v.tables && w.tables == v.tables[c := info] && w.up == v.up
    ensures Linked(w, if info.level >= PML4 then orphans else orphans + {c})
  {}

  lemma AddGood(v: Vm, c: nat, info: Info, orphans: set<nat>)
    requires Good(v, orphans) && c in v.free && c != 0
    requires info.level <= PML4
    requires if info.level == PML4 then info.owner == c else Root(v, info.owner)
    ensures Good(Add(v, c, info), if info.level == PML4 then orphans else orphans + {c})
  {
    assert Open(TREES);
    var w := Add(v, c, info);
    AddedRest(v, w, c, info);
    AddedEdges(v, w, c, info);
    AddedLinks(v, w, c, info, orphans);
  }

  lemma LinkGood(v: Vm, p: nat, i: nat, e: Entry, orphans: set<nat>)
    requires Good(v, orphans) && p in v.tables && p in v.mem && i < ENTRIES
    requires !v.mem[p][i].present && e.present && !e.huge
    requires e.frame in orphans && e.frame in v.tables && v.tables[p].level > 0
    requires v.tables[e.frame] == Info(v.tables[p].level - 1, v.tables[p].owner)
    ensures Good(Link(v, p, i, e), orphans - {e.frame})
  {
    assert Open(TREES);
    var w := Link(v, p, i, e);
    Stored(v, w, p, i, e);
    StoredRest(v, w, p, i, e);
    LinkEdges(v, w, p, i, e.frame);
  }

  /** Writing an entry that is no reference over one that is no reference. */
  lemma WriteGood(v: Vm, p: nat, i: nat, e: Entry, orphans: set<nat>)
    requires Good(v, orphans) && p in v.tables && p in v.mem && i < ENTRIES
    requires e.present || e == ZERO
    requires v.tables[p].level > 0 ==> (e.present ==> e.huge) && (v.mem[p][i].present ==> v.mem[p][i].huge)
    ensures Good(Write(v, p, i, e), orphans)
  {
    assert Open(TREES);
    var w := Write(v, p, i, e);
    Stored(v, w, p, i, e);
    StoredRest(v, w, p, i, e);
    KeepEdges(v, w);
  }

  lemma TableFacts(v: Vm, orphans: set<nat>, p: nat)
    requires Good(v, orphans) && p in v.tables
    ensures p != 0 && p in v.mem && p !in v.free && v.tables[p].level <= PML4 && Root(v, v.tables[p].owner)
    ensures forall i | 0 <= i < ENTRIES && !v.mem[p][i].present :: v.mem[p][i] == ZERO
  {
    assert Open(TREES);
  }

  lemma EdgeFacts(v: Vm, orphans: set<nat>, p: nat, i: nat)
    requires Good(v, orphans) && Edge(v, p, i)
    ensures var c := v.mem[p][i].frame;
            && c in v.tables && v.tables[c] == Info(v.tables[p].level - 1, v.tables[p].owner)
            && c in v.up && v.up[c] == (p, i)
  {
    assert Open(TREES);
  }

  /** Adding, linking and taking back an empty table leaves everything as it was. */
  lemma UndoLink(v: Vm, w: Vm, u: Vm, p: nat, i: nat, e: Entry, info: Info, orphans: set<nat>)
    requires Good(v, orphans) && p in v.tables && p in v.mem && i < ENTRIES && !v.mem[p][i].present
    requires e.frame in v.free && e.frame in v.mem && w == Link(Add(v, e.frame, info), p, i, e)
    requires Restored(w, u) && p in u.mem && u.mem[p][i].frame == e.frame
    ensures Restored(v, Remove(Unlink(u, p, i), e.frame))
  {
    TableFacts(v, orphans, p);
    assert e.frame !in v.tables && e.frame !in v.up by { assert Open(TREES); }
    UndoLinkMaps(v, u, p, i, e, info);
  }

  lemma UndoLinkMaps(v: Vm, u: Vm, p: nat, i: nat, e: Entry, info: Info)
    requires p in v.mem && i < ENTRIES && v.mem[p][i] == ZERO && p !in v.free
    requires e.frame in v.free && e.frame in v.mem && e.frame !in v.tables && e.frame !in v.up
    requires Restored(Link(Add(v, e.frame, info), p, i, e), u) && p in u.mem && u.mem[p][i].frame == e.frame
    ensures Restored(v, Remove(Unlink(u, p, i), e.frame))
  {
    var c := e.frame;
    var z := Remove(Unlink(u, p, i), c);
    assert u.mem[p] == v.mem[p][i := e];
    assert z.mem[p] == v.mem[p];
    assert z.tables == v.tables;
    assert z.up == v.up;
    assert z.free == v.free;
  }

  lemma RestoredGood(v: Vm, w: Vm, orphans: set<nat>)
    requires Good(v, orphans) && Restored(v, w)
    ensures Good(w, orphans)
  {
    assert Open(TREES);
    assert SameEdges(v, w);
    KeepEdges(v, w);
  }

  // ---- page walks -------------------------------------------------------------------------

  /** The table at level `target` on the walk for k that starts in table t at level l; 0 if none. */
  ghost function Reach(mem: Mem, t: nat, l: nat, k: Path, target: nat): nat
    decreases l
  {
    if l <= target then (if l == target then t else 0)
    else if t !in mem then 0
    else
      var e := mem[t][k.At(l)];
      if e.present && !e.huge then Reach(mem, e.frame, l - 1, k, target) else 0
  }

  lemma {:induction false} ReachTable(v: Vm, t: nat, l: nat, k: Path, target: nat)
    requires TablesOk(v) && EdgesOk(v) && t in v.tables && v.tables[t].level == l && target <= l
    ensures var p := Reach(v.mem, t, l, k, target);
            p != 0 ==> p in v.tables && v.tables[p] == Info(target, v.tables[t].owner)
    decreases l
  {
    if target < l && v.mem[t][k.At(l)].present && !v.mem[t][k.At(l)].huge {
      assert Edge(v, t, k.At(l));
      ReachTable(v, v.mem[t][k.At(l)].frame, l - 1, k, target);
    }
  }

  /** The last step of a walk uses the slot that `up` records. */
  lemma {:induction false} ReachUp(v: Vm, t: nat, l: nat, k: Path, target: nat)
    requires TablesOk(v) && EdgesOk(v) && t in v.tables && v.tables[t].level == l && target < l
    requires Reach(v.mem, t, l, k, target) != 0
    ensures var p, c := Reach(v.mem, t, l, k, target + 1), Reach(v.mem, t, l, k, target);
            p != 0 && c in v.up && v.up[c] == (p, k.At(target + 1))
    decreases l
  {
    assert Edge(v, t, k.At(l));
    if target + 1 < l {
      ReachUp(v, v.mem[t][k.At(l)].frame, l - 1, k, target);
    }
  }

  /** Two walks that meet in one table started at the same root and took the same indexes. */
  lemma {:induction false} WalksMeet(v: Vm, r: nat, k: Path, r': nat, k': Path, target: nat)
    requires TablesOk(v) && EdgesOk(v) && Root(v, r) && Root(v, r') && target <= PML4
    requires Reach(v.mem, r, PML4, k, target) == Reach(v.mem, r', PML4, k', target) != 0
    ensures r == r' && forall l | target < l <= PML4 :: k.At(l) == k'.At(l)
    ensures target == 0 && k.pt == k'.pt ==> k == k'
    decreases PML4 - target
  {
    if target < PML4 {
      ReachUp(v, r, PML4, k, target);
      ReachUp(v, r', PML4, k', target);
      WalksMeet(v, r, k, r', k', target + 1);
    }
    assert target == 0 ==> k.At(1) == k'.At(1) && k.At(2) == k'.At(2) && k.At(3) == k'.At(3);
  }

  /** A walk sees only registered tables. */
  lemma {:induction false} WalkKept(v: Vm, mem: Mem, t: nat, l: nat, k: Path)
    requires TablesOk(v) && EdgesOk(v) && t in v.tables && v.tables[t].level == l
    requires forall p | p in v.tables :: p in mem && mem[p] == v.mem[p]
    ensures Walk(mem, t, l, k) == Walk(v.mem, t, l, k)
    decreases l
  {
    var e := v.mem[t][k.At(l)];
    if l > 0 && e.present && !e.huge {
      assert Edge(v, t, k.At(l));
      WalkKept(v, mem, e.frame, l - 1, k);
    }
  }

  /** A store is invisible to every walk that does not use the stored slot. */
  lemma {:induction false} WalkElsewhere(v: Vm, mem: Mem, p: nat, i: nat, e: Entry, t: nat, l: nat, k: Path)
    requires TablesOk(v) && EdgesOk(v) && t in v.tables && v.tables[t].level == l
    requires p in v.tables && i < ENTRIES && mem == v.mem[p := v.mem[p][i := e]]
    requires l >= v.tables[p].level ==> Reach(v.mem, t, l, k, v.tables[p].level) != p || k.At(v.tables[p].level) != i
    ensures Walk(mem, t, l, k) == Walk(v.mem, t, l, k)
    decreases l
  {
    var f := v.mem[t][k.At(l)];
    assert mem[t][k.At(l)] == f;
    if l > 0 && f.present && !f.huge {
      assert Edge(v, t, k.At(l));
      WalkElsewhere(v, mem, p, i, e, f.frame, l - 1, k);
    }
  }

  /** Linking an empty table maps nothing. */
  lemma {:induction false} WalkEmpty(v: Vm, mem: Mem, p: nat, i: nat, e: Entry, t: nat, l: nat, k: Path)
    requires TablesOk(v) && EdgesOk(v) && t in v.tables && v.tables[t].level == l
    requires p in v.tables && i < ENTRIES && mem == v.mem[p := v.mem[p][i := e]] && v.tables[p].level > 0
    requires !v.mem[p][i].present && !e.huge && e.frame != p && e.frame in v.mem && v.mem[e.frame] == Empty()
    ensures Walk(mem, t, l, k) == Walk(v.mem, t, l, k)
    decreases l
  {
    var f := v.mem[t][k.At(l)];
    if t == p && k.At(l) == i {
      assert Walk(mem, e.frame, l - 1, k) == NotMapped;
    } else {
      assert mem[t][k.At(l)] == f;
      if l > 0 && f.present && !f.huge {
        assert Edge(v, t, k.At(l));
        WalkEmpty(v, mem, p, i, e, f.frame, l - 1, k);
      }
    }
  }

  /** Every root of v is a root of w and translates every address alike. */
  ghost predicate SameWalks(v: Vm, w: Vm) {
    && (forall r | Root(v, r) :: Root(w, r))
    && (forall r, k: Path | Root(v, r) :: Walk(w.mem, r, PML4, k) == Walk(v.mem, r, PML4, k))
  }

  /** w translates like v, except that root r maps key k to `page`. */
  ghost predicate WalksChanged(v: Vm, w: Vm, r: nat, k: Path, page: Walked) {
    && (forall r' | Root(v, r') :: Root(w, r'))
    && (forall r', k': Path | Root(v, r') ::
          Walk(w.mem, r', PML4, k') == if r' == r && k' == k then page else Walk(v.mem, r', PML4, k'))
  }

  lemma KeptWalks(v: Vm, w: Vm, orphans: set<nat>)
    requires Good(v, orphans)
    requires forall p | p in v.tables && p in v.mem :: p in w.mem && w.mem[p] == v.mem[p]
    requires forall r | Root(v, r) :: Root(w, r)
    ensures SameWalks(v, w)
  {
    assert Open(TREES);
    forall r, k: Path | Root(v, r)
      ensures Walk(w.mem, r, PML4, k) == Walk(v.mem, r, PML4, k)
    {
      WalkKept(v, w.mem, r, PML4, k);
    }
  }

  lemma LinkWalks(v: Vm, w: Vm, p: nat, i: nat, e: Entry, orphans: set<nat>)
    requires Good(v, orphans) && p in v.tables && p in v.mem && i < ENTRIES && v.tables[p].level > 0
    requires !v.mem[p][i].present && !e.huge && e.frame != p && e.frame in v.mem && v.mem[e.frame] == Empty()
    requires w == Link(v, p, i, e)
    ensures SameWalks(v, w)
  {
    assert Open(TREES);
    forall r, k: Path | Root(v, r)
      ensures Walk(w.mem, r, PML4, k) == Walk(v.mem, r, PML4, k)
    {
      WalkEmpty(v, w.mem, p, i, e, r, PML4, k);
    }
  }

  /** A store into the last-level slot of (r, k) changes the translation of that page of that
      root and of nothing else. */
  lemma LeafWalks(v: Vm, w: Vm, r: nat, k: Path, p: nat, e: Entry, orphans: set<nat>)
    requires Good(v, orphans) && Root(v, r)
    requires p == Reach(v.mem, r, PML4, k, 0) != 0 && p in v.mem && w == Write(v, p, k.At(0), e)
    ensures WalksChanged(v, w, r, k, if e.present then Page(e, 0) else NotMapped)
  {
    assert Open(TREES);
    ReachTable(v, r, PML4, k, 0);
    forall r', k': Path | Root(v, r')
      ensures Walk(w.mem, r', PML4, k') ==
              if r' == r && k' == k then (if e.present then Page(e, 0) else NotMapped) else Walk(v.mem, r', PML4, k')
    {
      if r' == r && k' == k {
        WalkLeaf(v, w.mem, e, r, PML4, k);
      } else {
        if Reach(v.mem, r', PML4, k', 0) == p && k'.At(0) == k.At(0) {
          WalksMeet(v, r, k, r', k', 0);
          assert false;
        }
        WalkElsewhere(v, w.mem, p, k.At(0), e, r', PML4, k');
      }
    }
  }

  lemma {:induction false} WalkLeaf(v: Vm, mem: Mem, e: Entry, t: nat, l: nat, k: Path)
    requires TablesOk(v) && EdgesOk(v) && t in v.tables && v.tables[t].level == l
    requires var p := Reach(v.mem, t, l, k, 0);
             p != 0 && p in v.tables && v.tables[p].level == 0 && mem == v.mem[p := v.mem[p][k.At(0) := e]]
    ensures Walk(mem, t, l, k) == if e.present then Page(e, 0) else NotMapped
    decreases l
  {
    if l > 0 {
      assert Edge(v, t, k.At(l));
      WalkLeaf(v, mem, e, v.mem[t][k.At(l)].frame, l - 1, k);
    }
  }
  lemma CreateWalks(v: Vm, p: nat, i: nat, e: Entry, info: Info, orphans: set<nat>)
    requires Good(v, orphans) && p in v.tables && p in v.mem && i < ENTRIES && v.tables[p].level > 0
    requires !v.mem[p][i].present && !e.huge && e.frame in v.free && e.frame != 0 && info.level < PML4 && Root(v, info.owner)
    ensures SameWalks(v, Link(Add(v, e.frame, info), p, i, e))
  {
    var w := Add(v, e.frame, info);
    TableFacts(v, orphans, p);
    assert e.frame !in v.tables by { assert Open(TREES); }
    assert forall q | q in v.tables && q in v.mem :: q in w.mem && w.mem[q] == v.mem[q] by { assert Open(TREES); }
    KeptWalks(v, w, orphans);
    AddGood(v, e.frame, info, orphans);
    LinkWalks(w, Link(w, p, i, e), p, i, e, orphans + {e.frame});
  }

  lemma SameWalksTrans(u: Vm, v: Vm, w: Vm)
    requires SameWalks(u, v) && SameWalks(v, w)
    ensures SameWalks(u, w)
  {}

  lemma ChangedAfterSame(u: Vm, v: Vm, w: Vm, r: nat, k: Path, page: Walked)
    requires SameWalks(u, v) && WalksChanged(v, w, r, k, page)
    ensures WalksChanged(u, w, r, k, page)
  {}

  /** How many tables a mapping of (r, k) would have to create. */
  ghost function Missing(mem: Mem, r: nat, k: Path): nat {
    if Reach(mem, r, PML4, k, 0) != 0 then 0
    else if Reach(mem, r, PML4, k, 1) != 0 then 1
    else if Reach(mem, r, PML4, k, 2) != 0 then 2
    else 3
  }

  /** One step of a walk, seen from the slot it reads. */
  lemma WalkStep(v: Vm, orphans: set<nat>, t: nat, l: nat, k: Path)
    requires Good(v, orphans) && t in v.tables && v.tables[t].level == l
    ensures t in v.mem && t != 0 && Reach(v.mem, t, l, k, l) == t
    ensures var e := v.mem[t][k.At(l)];
            if !e.present then Walk(v.mem, t, l, k) == NotMapped
            else if l == 0 then Walk(v.mem, t, l, k) == Page(e, 0)
            else if e.huge then Walk(v.mem, t, l, k) == if l == PML4 then Reserved else Page(e, l)
            else e.frame in v.tables && e.frame != 0 && v.tables[e.frame] == Info(l - 1, v.tables[t].owner) &&
                 Walk(v.mem, t, l, k) == Walk(v.mem, e.frame, l - 1, k)
    ensures var e := v.mem[t][k.At(l)];
            forall target | 0 <= target < l ::
              Reach(v.mem, t, l, k, target) == if e.present && !e.huge then Reach(v.mem, e.frame, l - 1, k, target) else 0
  {
    assert Open(TREES);
    var e := v.mem[t][k.At(l)];
    if l > 0 && e.present && !e.huge {
      assert Edge(v, t, k.At(l));
    }
  }
  lemma RestoredWalks(v: Vm, w: Vm, orphans: set<nat>)
    requires Good(v, orphans) && Restored(v, w)
    ensures SameWalks(v, w)
  {
    assert forall p | p in v.tables && p in v.mem :: w.mem[p] == v.mem[p] by { assert Open(TREES); }
    KeptWalks(v, w, orphans);
  }
}
