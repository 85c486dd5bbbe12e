/** The clone verifier: what it accepts, that it accepts every clone, and exactly when an accepted
    pair really translates alike. */
module CloneCheck {
  import opened Guard
  import opened Paging
  import opened Trees
  import opened Cloning

  /** Equal up to the accessed and dirty bits, which the processor sets. */
  predicate SameLeaf(e: Entry, e': Entry) {
    e' == Entry(e.present, e.writable, e.user, e.huge, e'.accessed, e'.dirty, e.other, e.frame)
  }

  ghost predicate Accepts(mem: Mem, s: nat, d: nat, l: nat)
    decreases l
  {
    && s != 0 && d != 0 && s != d && s in mem && d in mem
    && forall i | 0 <= i < ENTRIES :: AcceptsSlot(mem, s, d, l, i)
  }

  ghost predicate AcceptsSlot(mem: Mem, s: nat, d: nat, l: nat, i: nat)
    requires s in mem && d in mem && i < ENTRIES
    decreases l, 0
  {
    var e, e' := mem[s][i], mem[d][i];
    if !e.present then !e'.present
    else if e.huge then e' == e
    else if !e'.present then false
    else if l == 0 then SameLeaf(e, e')
    else e.frame != 0 && e'.frame != 0 && e.frame != e'.frame && Accepts(mem, e.frame, e'.frame, l - 1)
  }

  /** Every clone is accepted, in the memory it was made in. */
  lemma {:induction false} ClonesAccepted(mem: Mem, free: set<nat>, mem': Mem, s: nat, d: nat, l: nat, pool: set<nat>)
    requires Readable(mem, free, s, l) && Mirrors(mem, s, mem', d, l, pool) && pool <= free
    requires forall q | q in mem && q !in free :: q in mem' && mem'[q] == mem[q]
    ensures Accepts(mem', s, d, l)
    decreases l
  {
    forall i | 0 <= i < ENTRIES ensures AcceptsSlot(mem', s, d, l, i) {
      assert MirrorSlot(mem, s, mem', d, l, pool, i);
      var e, e' := mem[s][i], mem'[d][i];
      if l > 0 && Ref(e) {
        ClonesAccepted(mem, free, mem', e.frame, e'.frame, l - 1, pool);
      }
    }
  }

  /** No huge destination entry faces a source entry that refers to a table. */
  ghost predicate NoHugeOpposite(mem: Mem, s: nat, d: nat, l: nat)
    decreases l
  {
    l > 0 && s in mem && d in mem ==>
      forall i | 0 <= i < ENTRIES && Ref(mem[s][i]) && mem[d][i].present ::
        !mem[d][i].huge && NoHugeOpposite(mem, mem[s][i].frame, mem[d][i].frame, l - 1)
  }

  predicate SameWalked(a: Walked, b: Walked) {
    if a.Page? && a.level == 0 then b.Page? && b.level == 0 && SameLeaf(a.entry, b.entry) else a == b
  }

  /** An accepted pair translates alike exactly when no huge entry faces a table. */
  lemma AcceptedExactly(mem: Mem, s: nat, d: nat, l: nat)
    requires Accepts(mem, s, d, l) && l <= PML4
    ensures NoHugeOpposite(mem, s, d, l) <==> Alike(mem, s, d, l)
  {
    if NoHugeOpposite(mem, s, d, l) {
      forall k: Path ensures SameWalked(Walk(mem, s, l, k), Walk(mem, d, l, k)) { AcceptedAlike(mem, s, d, l, k); }
    } else {
      var k := AcceptedUnlike(mem, s, d, l);
      assert !SameWalked(Walk(mem, s, l, k), Walk(mem, d, l, k));
    }
  }

  /** The two hierarchies have tables behind the same slots, never the same one, and agree exactly in
      the large-page words that no translation shows: reserved ones at the top, and last-level words
      that have that bit set. */
  ghost predicate Parallel(mem: Mem, s: nat, d: nat, l: nat)
    decreases l
  {
    && s != 0 && d != 0 && s != d && s in mem && d in mem
    && forall i | 0 <= i < ENTRIES :: ParallelSlot(mem, s, d, l, i)
  }

  ghost predicate ParallelSlot(mem: Mem, s: nat, d: nat, l: nat, i: nat)
    requires s in mem && d in mem && i < ENTRIES
    decreases l, 0
  {
    var e, e' := mem[s][i], mem[d][i];
    && (e.present && e.huge && (l == 0 || l >= PML4) ==> e' == e)
    && (l > 0 ==> (Ref(e) <==> Ref(e')))
    && (l > 0 && Ref(e) ==> e.frame != 0 && e'.frame != 0 && e.frame != e'.frame && Parallel(mem, e.frame, e'.frame, l - 1))
  }

  ghost predicate Alike(mem: Mem, s: nat, d: nat, l: nat) {
    forall k: Path :: SameWalked(Walk(mem, s, l, k), Walk(mem, d, l, k))
  }

  /** What the verifier accepts, apart from large pages that face a table: exactly the pairs with the
      same arrangement of different tables that translate every address alike. */
  lemma AcceptanceCondition(mem: Mem, s: nat, d: nat, l: nat)
    requires l <= PML4
    ensures Accepts(mem, s, d, l) && NoHugeOpposite(mem, s, d, l) <==> Parallel(mem, s, d, l) && Alike(mem, s, d, l)
  {
    if Accepts(mem, s, d, l) && NoHugeOpposite(mem, s, d, l) {
      AcceptedExactly(mem, s, d, l);
      AcceptedParallel(mem, s, d, l);
    }
    if Parallel(mem, s, d, l) && Alike(mem, s, d, l) {
      ParallelAccepted(mem, s, d, l);
    }
  }

  lemma {:induction false} AcceptedParallel(mem: Mem, s: nat, d: nat, l: nat)
    requires Accepts(mem, s, d, l) && NoHugeOpposite(mem, s, d, l)
    ensures Parallel(mem, s, d, l)
    decreases l
  {
    forall i | 0 <= i < ENTRIES ensures ParallelSlot(mem, s, d, l, i) {
      assert AcceptsSlot(mem, s, d, l, i);
      if l > 0 && Ref(mem[s][i]) { AcceptedParallel(mem, mem[s][i].frame, mem[d][i].frame, l - 1); }
    }
  }

  lemma {:induction false} ParallelAccepted(mem: Mem, s: nat, d: nat, l: nat)
    requires Parallel(mem, s, d, l) && Alike(mem, s, d, l) && l <= PML4
    ensures Accepts(mem, s, d, l) && NoHugeOpposite(mem, s, d, l)
    decreases l
  {
    forall i | 0 <= i < ENTRIES ensures AcceptsSlot(mem, s, d, l, i) {
      assert ParallelSlot(mem, s, d, l, i);
      SlotAlike(mem, s, d, l, i);
      if l > 0 && Ref(mem[s][i]) { ParallelAccepted(mem, mem[s][i].frame, mem[d][i].frame, l - 1); }
    }
    forall i | 0 <= i < ENTRIES && l > 0 && Ref(mem[s][i]) && mem[d][i].present
      ensures !mem[d][i].huge && NoHugeOpposite(mem, mem[s][i].frame, mem[d][i].frame, l - 1)
    {
      assert ParallelSlot(mem, s, d, l, i);
      SlotAlike(mem, s, d, l, i);
      ParallelAccepted(mem, mem[s][i].frame, mem[d][i].frame, l - 1);
    }
  }

  /** If two hierarchies translate alike, so do those behind one slot. */
  lemma SlotAlike(mem: Mem, s: nat, d: nat, l: nat, i: nat)
    requires s in mem && d in mem && i < ENTRIES && l <= PML4 && ParallelSlot(mem, s, d, l, i) && Alike(mem, s, d, l)
    ensures var e, e' := mem[s][i], mem[d][i];
            if l > 0 && Ref(e) then Alike(mem, e.frame, e'.frame, l - 1)
            else (e.present <==> e'.present) && (e.present ==> if l == 0 && !e.huge then SameLeaf(e, e') else e' == e)
  {
    var e, e' := mem[s][i], mem[d][i];
    if l > 0 && Ref(e) {
      var c, c', m := e.frame, e'.frame, l - 1;
      forall j: Path ensures SameWalked(Walk(mem, c, m, j), Walk(mem, c', m, j)) {
        var k: Path := SetAt(j, l, i);
        UpperIgnored(mem, c, m, j, k);
        UpperIgnored(mem, c', m, j, k);
        assert SameWalked(Walk(mem, s, l, k), Walk(mem, d, l, k));
      }
    } else {
      var k: Path := SetAt(Key(0, 0, 0, 0), l, i);
      assert SameWalked(Walk(mem, s, l, k), Walk(mem, d, l, k));
    }
  }

  /** Translating alike is not enough: an empty table behind a slot that the other root leaves empty
      is refused. */
  lemma AlikeButRefused() returns (mem: Mem)
    ensures NoHugeOpposite(mem, 1, 2, PML4) && Alike(mem, 1, 2, PML4) && !Accepts(mem, 1, 2, PML4)
  {
    var table := Entry(true, true, false, false, false, false, 0, 3);
    mem := map[1 := Empty()[0 := table], 2 := Empty(), 3 := Empty()];
    forall k: Path ensures SameWalked(Walk(mem, 1, PML4, k), Walk(mem, 2, PML4, k)) {
      assert Walk(mem, 3, 2, k) == NotMapped;
    }
    assert !AcceptsSlot(mem, 1, 2, PML4, 0);
  }

  lemma {:induction false} AcceptedAlike(mem: Mem, s: nat, d: nat, l: nat, k: Path)
    requires Accepts(mem, s, d, l) && NoHugeOpposite(mem, s, d, l)
    ensures SameWalked(Walk(mem, s, l, k), Walk(mem, d, l, k))
    decreases l
  {
    var i := k.At(l);
    assert AcceptsSlot(mem, s, d, l, i);
    if l > 0 && Ref(mem[s][i]) {
      AcceptedAlike(mem, mem[s][i].frame, mem[d][i].frame, l - 1, k);
    }
  }

  function SetAt(k: Path, l: nat, i: nat): Path
    requires i < ENTRIES
  {
    if l == 0 then Key(k.pml4, k.pdpt, k.pd, i) else if l == 1 then Key(k.pml4, k.pdpt, i, k.pt)
    else if l == 2 then Key(k.pml4, i, k.pd, k.pt) else Key(i, k.pdpt, k.pd, k.pt)
  }

  /** The key of an address at which an accepted pair differs. */
  lemma {:induction false} AcceptedUnlike(mem: Mem, s: nat, d: nat, l: nat) returns (k: Path)
    requires Accepts(mem, s, d, l) && !NoHugeOpposite(mem, s, d, l) && l <= PML4
    ensures !SameWalked(Walk(mem, s, l, k), Walk(mem, d, l, k))
    decreases l
  {
    var i :| 0 <= i < ENTRIES && Ref(mem[s][i]) && mem[d][i].present &&
             !(!mem[d][i].huge && NoHugeOpposite(mem, mem[s][i].frame, mem[d][i].frame, l - 1));
    assert AcceptsSlot(mem, s, d, l, i);
    if mem[d][i].huge {
      k := SetAt(Key(0, 0, 0, 0), l, i);
      assert Walk(mem, s, l, k) == Walk(mem, mem[s][i].frame, l - 1, k);
      WalkDepth(mem, mem[s][i].frame, l - 1, k);
    } else {
      var j := AcceptedUnlike(mem, mem[s][i].frame, mem[d][i].frame, l - 1);
      k := SetAt(j, l, i);
      UpperIgnored(mem, mem[s][i].frame, l - 1, j, k);
      UpperIgnored(mem, mem[d][i].frame, l - 1, j, k);
      assert Walk(mem, s, l, k) == Walk(mem, mem[s][i].frame, l - 1, k);
      assert Walk(mem, d, l, k) == Walk(mem, mem[d][i].frame, l - 1, k);
    }
  }

  lemma {:induction false} WalkDepth(mem: Mem, t: nat, l: nat, k: Path)
    requires l < PML4
    ensures Walk(mem, t, l, k) != Reserved && (Walk(mem, t, l, k).Page? ==> Walk(mem, t, l, k).level <= l)
    decreases l
  {
    if l > 0 && t in mem && Ref(mem[t][k.At(l)]) { WalkDepth(mem, mem[t][k.At(l)].frame, l - 1, k); }
  }

  lemma {:induction false} UpperIgnored(mem: Mem, t: nat, l: nat, j: Path, k: Path)
    requires forall m | 0 <= m <= l :: j.At(m) == k.At(m)
    ensures Walk(mem, t, l, j) == Walk(mem, t, l, k)
    decreases l
  {
    assert j.At(l) == k.At(l);
    if l > 0 && t in mem && Ref(mem[t][k.At(l)]) { UpperIgnored(mem, mem[t][k.At(l)].frame, l - 1, j, k); }
  }

  /** A concrete pair of roots that is accepted although it does not translate alike: the source has
      an empty table behind slot 0, the destination a huge entry. */
  lemma AcceptedButDifferent() returns (mem: Mem)
    ensures Accepts(mem, 1, 2, PML4)
    ensures Walk(mem, 1, PML4, Key(0, 0, 0, 0)) != Walk(mem, 2, PML4, Key(0, 0, 0, 0))
  {
    var table := Entry(true, true, false, false, false, false, 0, 3);
    var huge := Entry(true, true, false, true, false, false, 0, 4);
    mem := map[1 := Empty()[0 := table], 2 := Empty()[0 := huge], 3 := Empty(), 4 := Empty()];
    assert forall i | 0 <= i < ENTRIES :: AcceptsSlot(mem, 3, 4, 2, i);
    assert Accepts(mem, 3, 4, 2);
    assert forall i | 0 <= i < ENTRIES :: AcceptsSlot(mem, 1, 2, PML4, i);
    assert Walk(mem, 1, PML4, Key(0, 0, 0, 0)) == Walk(mem, 3, 2, Key(0, 0, 0, 0)) == NotMapped;
  }

  /** The pairs of tables that the verifier reads are memory. */
  ghost predicate Comparable(mem: Mem, s: nat, d: nat, l: nat)
    decreases l
  {
    s == 0 || d == 0 || s == d || (s in mem && d in mem &&
      (l > 0 ==> forall i | 0 <= i < ENTRIES && Ref(mem[s][i]) && mem[d][i].present ::
        Comparable(mem, mem[s][i].frame, mem[d][i].frame, l - 1)))
  }

  /** Compares two hierarchies slot by slot and stops at the first difference, whose kind, level
      and index the result encodes. */
  method VerifyLevel(mem: Mem, s: nat, d: nat, l: nat) returns (code: int)
    requires l <= PML4 && Comparable(mem, s, d, l)
    ensures code <= 0
    ensures code == 0 <==> Accepts(mem, s, d, l)
    decreases l
  {
    if s == 0 || d == 0 { return -1000000; }
    if s == d { return -1000002; }
    for i := 0 to ENTRIES
      invariant forall j | 0 <= j < i :: AcceptsSlot(mem, s, d, l, j)
    {
      var e, e' := mem[s][i], mem[d][i];
      var where := (l + 1) * 10000 + i;
      if !e.present {
        if e'.present {
          assert !AcceptsSlot(mem, s, d, l, i);
          return -(1000000 + where);
        }
        continue;
      }
      if e.huge {
        if e' != e {
          assert !AcceptsSlot(mem, s, d, l, i);
          return -(2000000 + where);
        }
        continue;
      }
      if !e'.present {
        assert !AcceptsSlot(mem, s, d, l, i);
        return -(3000000 + where);
      }
      if l == 0 {
        if !SameLeaf(e, e') {
          assert !AcceptsSlot(mem, s, d, l, i);
          return -(4000000 + where);
        }
        continue;
      }
      if e.frame == 0 || e'.frame == 0 {
        assert !AcceptsSlot(mem, s, d, l, i);
        return -(5000000 + where);
      }
      if e.frame == e'.frame {
        assert !AcceptsSlot(mem, s, d, l, i);
        return -(6000000 + where);
      }
      code := VerifyLevel(mem, e.frame, e'.frame, l - 1);
      if code != 0 {
        assert !AcceptsSlot(mem, s, d, l, i);
        return;
      }
    }
    code := 0;
  }
}
