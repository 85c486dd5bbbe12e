/** Copies of page-table hierarchies: what a clone is, that it translates like its source, and when
    the clone verifier is right. */
module Cloning {
  import opened Guard
  import opened Paging
  import opened Trees

  function WithFrame(e: Entry, f: nat): Entry {
    Entry(e.present, e.writable, e.user, e.huge, e.accessed, e.dirty, e.other, f)
  }

  /** A hierarchy that can be read while frames in `free` are handed out and overwritten. A zero
      address stands for a missing table. */
  ghost predicate Readable(mem: Mem, free: set<nat>, p: nat, l: nat)
    decreases l
  {
    p == 0 || (p in mem && p !in free &&
      (l > 0 ==> forall i | 0 <= i < ENTRIES && Ref(mem[p][i]) :: Readable(mem, free, mem[p][i].frame, l - 1)))
  }

  /** dst, in mem', copies src, in mem: tables are new frames, everything else is the same word. */
  ghost predicate Mirrors(mem: Mem, src: nat, mem': Mem, dst: nat, l: nat, pool: set<nat>)
    decreases l
  {
    && src != 0 && src in mem && dst != 0 && dst in mem' && dst in pool
    && forall i | 0 <= i < ENTRIES :: MirrorSlot(mem, src, mem', dst, l, pool, i)
  }

  ghost predicate MirrorSlot(mem: Mem, src: nat, mem': Mem, dst: nat, l: nat, pool: set<nat>, i: nat)
    requires src in mem && dst in mem' && i < ENTRIES
    decreases l, 0
  {
    var e, e' := mem[src][i], mem'[dst][i];
    if !e.present then e' == ZERO
    else if l == 0 || e.huge then e' == e
    else e' == WithFrame(e, e'.frame) && Mirrors(mem, e.frame, mem', e'.frame, l - 1, pool)
  }

  /** A clone translates every address as its source does, huge pages included. */
  lemma {:induction false} MirrorsWalk(mem: Mem, src: nat, mem': Mem, dst: nat, l: nat, pool: set<nat>, k: Path)
    requires Mirrors(mem, src, mem', dst, l, pool)
    ensures Walk(mem', dst, l, k) == Walk(mem, src, l, k)
    decreases l
  {
    assert MirrorSlot(mem, src, mem', dst, l, pool, k.At(l));
    var e, e' := mem[src][k.At(l)], mem'[dst][k.At(l)];
    if l > 0 && Ref(e) {
      MirrorsWalk(mem, e.frame, mem', e'.frame, l - 1, pool, k);
    }
  }

  /** Later changes outside the clone's tables do not matter. */
  lemma {:induction false} MirrorsKept(v: Vm, mem: Mem, src: nat, mem': Mem, dst: nat, l: nat, pool: set<nat>)
    requires TablesOk(v) && EdgesOk(v) && dst in v.tables && v.tables[dst].level == l
    requires Mirrors(mem, src, v.mem, dst, l, pool)
    requires forall q | q in v.tables && q in v.mem :: q in mem' && mem'[q] == v.mem[q]
    ensures Mirrors(mem, src, mem', dst, l, pool)
    decreases l
  {
    forall i | 0 <= i < ENTRIES ensures MirrorSlot(mem, src, mem', dst, l, pool, i) {
      assert MirrorSlot(mem, src, v.mem, dst, l, pool, i);
      var e := mem[src][i];
      if l > 0 && Ref(e) {
        assert Edge(v, dst, i);
        MirrorsKept(v, mem, e.frame, mem', v.mem[dst][i].frame, l - 1, pool);
      }
    }
  }

  lemma {:induction false} ReadableKept(mem: Mem, free: set<nat>, mem': Mem, free': set<nat>, p: nat, l: nat)
    requires Readable(mem, free, p, l) && free' <= free
    requires forall q | q in mem && q !in free :: q in mem' && mem'[q] == mem[q]
    ensures Readable(mem', free', p, l)
    decreases l
  {
    if p != 0 && l > 0 {
      forall i | 0 <= i < ENTRIES && Ref(mem[p][i]) ensures Readable(mem', free', mem'[p][i].frame, l - 1) {
        ReadableKept(mem, free, mem', free', mem[p][i].frame, l - 1);
      }
    }
  }

  /** The tables below a registered table are all in use, and none of them is another root. */
  lemma {:induction false} GoodReadable(v: Vm, p: nat, l: nat, r: nat)
    requires Good(v, {}) && p in v.tables && v.tables[p].level == l && p != r && (r in v.tables ==> Root(v, r))
    ensures Readable(v.mem, v.free + {r}, p, l)
    decreases l
  {
    TableFacts(v, {}, p);
    forall i | 0 <= i < ENTRIES && l > 0 && Ref(v.mem[p][i]) ensures Readable(v.mem, v.free + {r}, v.mem[p][i].frame, l - 1) {
      EdgeFacts(v, {}, p, i);
      GoodReadable(v, v.mem[p][i].frame, l - 1, r);
    }
  }

  /** The source may be read before or after unrelated frames changed. */
  lemma {:induction false} MirrorsSource(mem: Mem, free: set<nat>, mem1: Mem, src: nat, mem': Mem, dst: nat, l: nat, pool: set<nat>)
    requires Readable(mem, free, src, l) && Mirrors(mem1, src, mem', dst, l, pool) && pool <= free
    requires forall q | q in mem && q !in free :: q in mem1 && mem1[q] == mem[q]
    ensures Mirrors(mem, src, mem', dst, l, free)
    decreases l
  {
    forall i | 0 <= i < ENTRIES ensures MirrorSlot(mem, src, mem', dst, l, free, i) {
      assert MirrorSlot(mem1, src, mem', dst, l, pool, i);
      if l > 0 && Ref(mem[src][i]) {
        MirrorsSource(mem, free, mem1, mem[src][i].frame, mem', mem'[dst][i].frame, l - 1, pool);
      }
    }
  }

  // ---- growth -----------------------------------------------------------------------------

  /** w has the tables of v, untouched, and further tables made from free frames of v. */
  ghost predicate Grows(v: Vm, w: Vm) {
    && (forall q | q in v.tables :: q in w.tables && w.tables[q] == v.tables[q])
    && (forall q | q in w.tables :: q in v.tables || q in v.free)
    && (forall q :: q in w.free <==> q in v.free && q !in w.tables)
    && (forall q | q in v.up :: q in w.up && w.up[q] == v.up[q])
    && (forall q | q in w.up :: q in v.up || q in v.free)
    && (forall q :: q in w.mem <==> q in v.mem)
    && (forall q | q in v.mem && q !in v.free :: w.mem[q] == v.mem[q])
  }

  lemma GrowsTrans(u: Vm, v: Vm, w: Vm)
    requires Grows(u, v) && Grows(v, w)
    ensures Grows(u, w)
  {}

  lemma GrowsAdd(v: Vm, c: nat, info: Info)
    requires c in v.free && c !in v.tables && c in v.mem && forall q | q in v.tables :: q !in v.free
    ensures Grows(v, Add(v, c, info))
  {}

  /** Stores into new tables only. */
  lemma GrowsWrite(v: Vm, w: Vm, p: nat, i: nat, e: Entry)
    requires Grows(v, w) && p in v.free && p in w.mem && i < ENTRIES
    ensures Grows(v, Write(w, p, i, e))
  {}

  lemma GrowsLink(v: Vm, w: Vm, p: nat, i: nat, e: Entry)
    requires Grows(v, w) && p in v.free && p in w.mem && i < ENTRIES && e.frame in v.free && e.frame !in v.up
    ensures Grows(v, Link(w, p, i, e))
  {}

  lemma GrowsRestored(v: Vm, w: Vm, u: Vm)
    requires Grows(v, w) && Restored(w, u)
    requires forall q | q in v.mem && q !in v.free :: q !in w.free
    ensures Grows(v, u)
  {}

  ghost predicate NoNewRoot(v: Vm, w: Vm, d: nat) {
    forall r | Root(w, r) && r != d :: Root(v, r)
  }

  /** What has grown is exactly the tree of the one new table without a slot. */
  lemma {:induction false} NewReached(v: Vm, w: Vm, d: nat, l: nat, x: nat, orphans: set<nat>)
    requires TablesOk(v) && EdgesOk(v) && Linked(v, orphans)
    requires TablesOk(w) && EdgesOk(w) && UpOk(w) && Linked(w, if l == PML4 then orphans else orphans + {d})
    requires Grows(v, w) && NoNewRoot(v, w, d) && d in w.tables && w.tables[d].level == l && d !in v.tables
    requires x in w.tables && x !in v.tables
    ensures x in Sub(w.mem, d, l)
    decreases PML4 - w.tables[x].level
  {
    if x == d {
      SubSelf(w.mem, d, l);
    } else {
      assert !Root(w, x);
      assert x !in orphans;
      var q, i := w.up[x].0, w.up[x].1;
      assert Edge(w, q, i);
      if q in v.tables {
        assert v.mem[q] == w.mem[q];
        assert Edge(v, q, i);
        assert false;
      }
      NewReached(v, w, d, l, q, orphans);
      SubClosed(w, d, l, q, i);
    }
  }

  lemma {:induction false} OnlyNewReached(v: Vm, w: Vm, d: nat, l: nat, p: nat, m: nat, x: nat, orphans: set<nat>)
    requires TablesOk(v) && UpOk(v) && Linked(v, orphans)
    requires TablesOk(w) && EdgesOk(w) && Linked(w, if l == PML4 then orphans else orphans + {d})
    requires Grows(v, w) && p in w.tables && w.tables[p].level == m && p !in v.tables
    requires x in Sub(w.mem, p, m)
    ensures x in w.tables && x !in v.tables
    decreases m
  {
    if x != p {
      var i := SubWhich(w.mem, p, m, ENTRIES, x);
      assert Edge(w, p, i);
      var c := w.mem[p][i].frame;
      assert c !in v.tables;
      OnlyNewReached(v, w, d, l, c, m - 1, x, orphans);
    }
  }

  /** Giving up the new tree undoes the growth. */
  lemma GrowthUndone(v: Vm, w: Vm, z: Vm, d: nat, l: nat, orphans: set<nat>)
    requires Good(v, orphans) && Good(w, if l == PML4 then orphans else orphans + {d})
    requires Grows(v, w) && NoNewRoot(v, w, d) && d in w.tables && w.tables[d].level == l && d !in v.tables
    requires Without(w, z, Sub(w.mem, d, l))
    ensures Restored(v, z)
  {
    assert Open(TREES);
    var s := Sub(w.mem, d, l);
    forall x ensures x in s <==> x in w.tables && x !in v.tables {
      if x in s { OnlyNewReached(v, w, d, l, d, l, x, orphans); }
      if x in w.tables && x !in v.tables { NewReached(v, w, d, l, x, orphans); }
    }
    UndoneMaps(v, w, z, s);
  }

  lemma UndoneMaps(v: Vm, w: Vm, z: Vm, s: set<nat>)
    requires TablesOk(v) && UpOk(v) && UpOk(w) && Grows(v, w) && Without(w, z, s)
    requires forall x :: x in s <==> x in w.tables && x !in v.tables
    ensures Restored(v, z)
  {
    MapBack(v.tables, w.tables, z.tables, s);
    assert forall x | x in v.up :: x !in s;
    assert forall x | x in w.up && x !in v.up :: x in s;
    MapBack(v.up, w.up, z.up, s);
    SetBack(v.free, w.free, z.free, s);
  }

  lemma MapBack<T>(a: map<nat, T>, b: map<nat, T>, c: map<nat, T>, s: set<nat>)
    requires forall q | q in a :: q in b && b[q] == a[q] && q !in s
    requires forall q | q in b && q !in a :: q in s
    requires c == b - s
    ensures c == a
  {}

  lemma SetBack(a: set<nat>, b: set<nat>, c: set<nat>, s: set<nat>)
    requires forall q :: q in a <==> q in b || q in s
    requires c == b + s
    ensures c == a
  {}

  // ---- building a copy --------------------------------------------------------------------

  const COPY: int := -4

  /** A root needs no slot; any other new table is an orphan until it is linked. */
  ghost function Pending(l: nat, d: nat, orphans: set<nat>): set<nat> {
    if l == PML4 then orphans else orphans + {d}
  }

  /** From v, table d has been made at level l and nothing else has changed. */
  ghost predicate Begun(v: Vm, w: Vm, d: nat, l: nat, owner: nat, orphans: set<nat>) {
    && Good(w, Pending(l, d, orphans)) && Grows(v, w) && NoNewRoot(v, w, d)
    && d in w.tables && w.tables[d] == Info(l, if l == PML4 then d else owner) && d in w.mem
    && d in v.free && d !in v.tables
  }

  /** d is a finished copy of src. */
  ghost predicate Cloned(v: Vm, w: Vm, src: nat, d: nat, l: nat, owner: nat, orphans: set<nat>) {
    Begun(v, w, d, l, owner, orphans) && Mirrors(v.mem, src, w.mem, d, l, v.free)
  }

  /** The first n slots of src have been copied into d. */
  ghost predicate Copying(v: Vm, w: Vm, src: nat, d: nat, l: nat, owner: nat, n: nat, orphans: set<nat>) {
    forall o {:trigger Open(o)} :: Open(o) && o == COPY ==>
      && Begun(v, w, d, l, owner, orphans)
      && src != 0 && src in v.mem && src !in v.free && n <= ENTRIES && d != 0
      && (forall j | 0 <= j < n :: MirrorSlot(v.mem, src, w.mem, d, l, v.free, j))
      && (forall j | n <= j < ENTRIES :: w.mem[d][j] == ZERO)
  }

  lemma CopyFacts(v: Vm, w: Vm, src: nat, d: nat, l: nat, owner: nat, n: nat, orphans: set<nat>)
    requires Copying(v, w, src, d, l, owner, n, orphans)
    ensures Good(w, Pending(l, d, orphans)) && Grows(v, w) && NoNewRoot(v, w, d)
    ensures src in w.mem && src in v.mem && w.mem[src] == v.mem[src]
    ensures d in w.mem && d in w.tables && w.tables[d] == Info(l, if l == PML4 then d else owner)
    ensures d != 0 && d in v.free && d !in v.tables
  {
    assert Open(COPY);
  }

  lemma CopyStart(v: Vm, w: Vm, src: nat, d: nat, l: nat, owner: nat, orphans: set<nat>)
    requires Good(v, orphans) && d in v.free && d in v.mem && d != 0 && l <= PML4 && (l < PML4 ==> Root(v, owner))
    requires src != 0 && src in v.mem && src !in v.free
    requires w == Add(v, d, Info(l, if l == PML4 then d else owner))
    ensures Copying(v, w, src, d, l, owner, 0, orphans)
  {
    assert d !in v.tables && forall q | q in v.tables :: q !in v.free by { assert Open(TREES); }
    AddGood(v, d, Info(l, if l == PML4 then d else owner), orphans);
    GrowsAdd(v, d, Info(l, if l == PML4 then d else owner));
  }

  lemma CopySkip(v: Vm, w: Vm, src: nat, d: nat, l: nat, owner: nat, n: nat, orphans: set<nat>)
    requires Copying(v, w, src, d, l, owner, n, orphans) && n < ENTRIES && src in v.mem && !v.mem[src][n].present
    ensures Copying(v, w, src, d, l, owner, n + 1, orphans)
  {
    assert Open(COPY);
    assert MirrorSlot(v.mem, src, w.mem, d, l, v.free, n);
  }

  /** A store into another slot of d leaves this one a copy. */
  lemma SlotKept(v: Vm, w: Vm, mem: Mem, src: nat, d: nat, l: nat, j: nat)
    requires TablesOk(w) && EdgesOk(w) && d in w.tables && w.tables[d].level == l && src in v.mem && j < ENTRIES
    requires MirrorSlot(v.mem, src, w.mem, d, l, v.free, j)
    requires forall q | q in w.tables && q in w.mem && q != d :: q in mem && mem[q] == w.mem[q]
    requires d in mem && mem[d][j] == w.mem[d][j]
    ensures MirrorSlot(v.mem, src, mem, d, l, v.free, j)
  {
    var e := v.mem[src][j];
    if l > 0 && Ref(e) {
      assert Edge(w, d, j);
      MirrorsBelow(w, v.mem, e.frame, mem, w.mem[d][j].frame, l - 1, v.free, d);
    }
  }

  lemma SlotsKept(v: Vm, w: Vm, mem: Mem, src: nat, d: nat, l: nat, n: nat)
    requires TablesOk(w) && EdgesOk(w) && d in w.tables && w.tables[d].level == l && src in v.mem && n < ENTRIES
    requires forall j | 0 <= j < n :: MirrorSlot(v.mem, src, w.mem, d, l, v.free, j)
    requires forall q | q in w.tables && q in w.mem && q != d :: q in mem && mem[q] == w.mem[q]
    requires d in mem && forall j | 0 <= j < n :: mem[d][j] == w.mem[d][j]
    ensures forall j | 0 <= j < n :: MirrorSlot(v.mem, src, mem, d, l, v.free, j)
  {
    forall j | 0 <= j < n ensures MirrorSlot(v.mem, src, mem, d, l, v.free, j) {
      SlotKept(v, w, mem, src, d, l, j);
    }
  }

  /** Like MirrorsKept, when only a table of a higher level has changed. */
  lemma {:induction false} MirrorsBelow(v: Vm, mem: Mem, src: nat, mem': Mem, dst: nat, l: nat, pool: set<nat>, d: nat)
    requires TablesOk(v) && EdgesOk(v) && dst in v.tables && v.tables[dst].level == l && d in v.tables && v.tables[d].level > l
    requires Mirrors(mem, src, v.mem, dst, l, pool)
    requires forall q | q in v.tables && q in v.mem && q != d :: q in mem' && mem'[q] == v.mem[q]
    ensures Mirrors(mem, src, mem', dst, l, pool)
    decreases l
  {
    forall i | 0 <= i < ENTRIES ensures MirrorSlot(mem, src, mem', dst, l, pool, i) {
      assert MirrorSlot(mem, src, v.mem, dst, l, pool, i);
      var e := mem[src][i];
      if l > 0 && Ref(e) {
        assert Edge(v, dst, i);
        MirrorsBelow(v, mem, e.frame, mem', v.mem[dst][i].frame, l - 1, pool, d);
      }
    }
  }

  lemma CopyLeaf(v: Vm, w: Vm, src: nat, d: nat, l: nat, owner: nat, n: nat, orphans: set<nat>)
    requires Copying(v, w, src, d, l, owner, n, orphans) && n < ENTRIES && src in v.mem && d in w.mem
    requires v.mem[src][n].present && (l == 0 || v.mem[src][n].huge)
    ensures Copying(v, Write(w, d, n, v.mem[src][n]), src, d, l, owner, n + 1, orphans)
  {
    assert Open(COPY);
    var e := v.mem[src][n];
    var z := Write(w, d, n, e);
    WriteGood(w, d, n, e, Pending(l, d, orphans));
    GrowsWrite(v, w, d, n, e);
    CopyLeafSlots(v, w, z, src, d, l, n, e, Pending(l, d, orphans));
  }

  lemma CopyLeafSlots(v: Vm, w: Vm, z: Vm, src: nat, d: nat, l: nat, n: nat, e: Entry, o: set<nat>)
    requires Good(w, o) && d in w.tables && w.tables[d].level == l && d in w.mem && src in v.mem && n < ENTRIES
    requires e == v.mem[src][n] && e.present && (l == 0 || e.huge) && z == Write(w, d, n, e)
    requires forall j | 0 <= j < n :: MirrorSlot(v.mem, src, w.mem, d, l, v.free, j)
    ensures forall j | 0 <= j < n + 1 :: MirrorSlot(v.mem, src, z.mem, d, l, v.free, j)
  {
    assert TablesOk(w) && EdgesOk(w) by { assert Open(TREES); }
    SlotsKept(v, w, z.mem, src, d, l, n);
    assert MirrorSlot(v.mem, src, z.mem, d, l, v.free, n);
  }

  /** A child has been cloned; linking it copies the next slot. */
  lemma CopyChild(v: Vm, w: Vm, z: Vm, src: nat, d: nat, l: nat, owner: nat, n: nat, c: nat, orphans: set<nat>)
    requires Copying(v, w, src, d, l, owner, n, orphans) && n < ENTRIES && 0 < l <= PML4 && src in v.mem && d in z.mem
    requires Good(v, orphans) && Ref(v.mem[src][n]) && Readable(v.mem, v.free, v.mem[src][n].frame, l - 1)
    requires Cloned(w, z, v.mem[src][n].frame, c, l - 1, if l == PML4 then d else owner, Pending(l, d, orphans))
    ensures Copying(v, Link(z, d, n, WithFrame(v.mem[src][n], c)), src, d, l, owner, n + 1, orphans)
  {
    assert Open(COPY);
    var e := WithFrame(v.mem[src][n], c);
    var y := Link(z, d, n, e);
    CopyChildGood(v, w, z, d, l, owner, n, e, orphans);
    CopyChildSlots(v, w, z, src, d, l, n, e, Pending(l, d, orphans), Pending(l - 1, c, Pending(l, d, orphans)));
  }

  lemma CopyChildSlots(v: Vm, w: Vm, z: Vm, src: nat, d: nat, l: nat, n: nat, e: Entry, o: set<nat>, o': set<nat>)
    requires Good(w, o) && Good(z, o') && Grows(v, w) && Grows(w, z) && 0 < l && n < ENTRIES
    requires d in w.tables && w.tables[d].level == l && d in z.mem && d in w.mem && src in v.mem
    requires Ref(v.mem[src][n]) && e == WithFrame(v.mem[src][n], e.frame)
    requires e.frame in z.tables && z.tables[e.frame].level == l - 1
    requires Readable(v.mem, v.free, v.mem[src][n].frame, l - 1)
    requires Mirrors(w.mem, v.mem[src][n].frame, z.mem, e.frame, l - 1, w.free)
    requires forall j | 0 <= j < n :: MirrorSlot(v.mem, src, w.mem, d, l, v.free, j)
    ensures forall j | 0 <= j < n + 1 :: MirrorSlot(v.mem, src, Link(z, d, n, e).mem, d, l, v.free, j)
  {
    var y := Link(z, d, n, e);
    assert TablesOk(w) && EdgesOk(w) && TablesOk(z) && EdgesOk(z) by { assert Open(TREES); }
    LinkKeeps(w, z, y.mem, d, n, e);
    SlotsKept(v, w, y.mem, src, d, l, n);
    LinkedSlot(v, w, z, src, d, l, n, e);
  }

  /** Linking a new table into slot n of d changes no other slot of an older table. */
  lemma LinkKeeps(w: Vm, z: Vm, mem: Mem, d: nat, n: nat, e: Entry)
    requires TablesOk(w) && Grows(w, z) && n < ENTRIES && d in w.tables && d in z.mem && mem == Link(z, d, n, e).mem
    ensures forall q | q in w.tables && q in w.mem && q != d :: q in mem && mem[q] == w.mem[q]
    ensures d in mem && d in w.mem && forall j | 0 <= j < ENTRIES && j != n :: mem[d][j] == w.mem[d][j]
  {
  }

  lemma LinkedSlot(v: Vm, w: Vm, z: Vm, src: nat, d: nat, l: nat, n: nat, e: Entry)
    requires TablesOk(z) && EdgesOk(z) && Grows(v, w) && 0 < l && n < ENTRIES
    requires d in z.tables && z.tables[d].level == l && d in z.mem && src in v.mem
    requires Ref(v.mem[src][n]) && e == WithFrame(v.mem[src][n], e.frame)
    requires e.frame in z.tables && z.tables[e.frame].level == l - 1
    requires Readable(v.mem, v.free, v.mem[src][n].frame, l - 1)
    requires Mirrors(w.mem, v.mem[src][n].frame, z.mem, e.frame, l - 1, w.free)
    ensures MirrorSlot(v.mem, src, Link(z, d, n, e).mem, d, l, v.free, n)
  {
    var y := Link(z, d, n, e);
    MirrorsSource(v.mem, v.free, w.mem, v.mem[src][n].frame, z.mem, e.frame, l - 1, w.free);
    MirrorsBelow(z, v.mem, v.mem[src][n].frame, y.mem, e.frame, l - 1, v.free, d);
  }

  lemma CopyChildGood(v: Vm, w: Vm, z: Vm, d: nat, l: nat, owner: nat, n: nat, e: Entry, orphans: set<nat>)
    requires Good(v, orphans) && Begun(v, w, d, l, owner, orphans) && 0 < l <= PML4 && n < ENTRIES && d in z.mem
    requires w.mem[d][n] == ZERO && Ref(e)
    requires Begun(w, z, e.frame, l - 1, if l == PML4 then d else owner, Pending(l, d, orphans))
    ensures Begun(v, Link(z, d, n, e), d, l, owner, orphans)
  {
    var y := Link(z, d, n, e);
    var o := Pending(l, d, orphans);
    assert d !in w.free && e.frame !in v.up && e.frame !in o by { assert Open(TREES); }
    LinkGood(z, d, n, e, o + {e.frame});
    assert o + {e.frame} - {e.frame} == o;
    GrowsTrans(v, w, z);
    GrowsLink(v, z, d, n, e);
  }

  lemma CopyEnd(v: Vm, w: Vm, src: nat, d: nat, l: nat, owner: nat, orphans: set<nat>)
    requires Copying(v, w, src, d, l, owner, ENTRIES, orphans)
    ensures Cloned(v, w, src, d, l, owner, orphans)
  {
    assert Open(COPY);
  }

  /** A child that could not be cloned leaves the copy where it was. */
  lemma CopyRestored(v: Vm, w: Vm, z: Vm, src: nat, d: nat, l: nat, owner: nat, n: nat, orphans: set<nat>)
    requires Copying(v, w, src, d, l, owner, n, orphans) && Restored(w, z)
    ensures Begun(v, z, d, l, owner, orphans)
  {
    assert Open(COPY);
    RestoredGood(w, z, Pending(l, d, orphans));
    assert forall q | q in v.mem && q !in v.free :: q !in w.free;
    GrowsRestored(v, w, z);
  }

  lemma CopyReadable(v: Vm, w: Vm, src: nat, d: nat, l: nat, owner: nat, n: nat, orphans: set<nat>)
    requires Copying(v, w, src, d, l, owner, n, orphans) && n < ENTRIES && 0 < l && Readable(v.mem, v.free, src, l)
    requires src in v.mem && Ref(v.mem[src][n])
    ensures Readable(v.mem, v.free, v.mem[src][n].frame, l - 1)
    ensures Readable(w.mem, w.free, v.mem[src][n].frame, l - 1)
  {
    assert Open(COPY);
    assert w.free <= v.free;
    ReadableKept(v.mem, v.free, w.mem, w.free, v.mem[src][n].frame, l - 1);
  }
}
