/** The kernel heap's block list as a value: 32-byte headers and payloads that tile a 64 KiB arena
    (kernel/mm/heap/heap.c). */
module Blocks {
  const ARENA: nat := 65536
  const HEADER: nat := 32
  const ALIGN: nat := 16
  const MIN_SPLIT: nat := 32

  datatype Block = Block(size: nat, used: bool)

  /** Offset of the header of block k; of the end of the list for k == |bs|. */
  function Off(bs: seq<Block>, k: nat): nat
    requires k <= |bs|
  {
    if k == 0 then 0 else Off(bs, k - 1) + HEADER + bs[k - 1].size
  }

  function Bytes(bs: seq<Block>, used: bool): nat {
    if bs == [] then 0
    else Bytes(bs[..|bs| - 1], used) + (if bs[|bs| - 1].used == used then bs[|bs| - 1].size else 0)
  }

  /** The list covers the arena exactly, payloads are 16-aligned and not empty, and no two free
      blocks touch. */
  ghost predicate Tiled(bs: seq<Block>) {
    && bs != [] && Off(bs, |bs|) == ARENA
    && (forall k | 0 <= k < |bs| :: bs[k].size % ALIGN == 0 && 0 < bs[k].size)
    && (forall k | 0 < k < |bs| :: bs[k - 1].used || bs[k].used)
  }

  const INITIAL: seq<Block> := [Block(ARENA - HEADER, false)]

  // ---- operations -------------------------------------------------------------------------

  predicate Fits(b: Block, n: nat) { !b.used && n <= b.size }

  /** The first free block of at least n bytes, or |bs|. */
  function FirstFit(bs: seq<Block>, n: nat): (i: nat)
    ensures i <= |bs| && (i < |bs| ==> Fits(bs[i], n)) && forall j | 0 <= j < i :: !Fits(bs[j], n)
  {
    if bs == [] then 0
    else if Fits(bs[0], n) then 0
    else
      var i := FirstFit(bs[1..], n);
      assert forall j | 1 <= j < i + 1 :: bs[j] == bs[1..][j - 1];
      i + 1
  }

  /** Block i becomes two: n bytes, and the rest, which is free. */
  function Split(bs: seq<Block>, i: nat, n: nat): seq<Block>
    requires i < |bs| && n + HEADER <= bs[i].size
  {
    bs[..i] + [Block(n, bs[i].used), Block(bs[i].size - n - HEADER, false)] + bs[i + 1..]
  }

  /** Blocks i and i + 1 become one. */
  function Merge(bs: seq<Block>, i: nat): seq<Block>
    requires i + 1 < |bs|
  {
    bs[..i] + [Block(bs[i].size + HEADER + bs[i + 1].size, bs[i].used)] + bs[i + 2..]
  }

  function Mark(bs: seq<Block>, i: nat, used: bool): seq<Block>
    requires i < |bs|
  {
    bs[i := Block(bs[i].size, used)]
  }

  /** Hands out n bytes of block i, splitting off the rest when it is large enough. */
  function Take(bs: seq<Block>, i: nat, n: nat): seq<Block>
    requires i < |bs| && n <= bs[i].size
  {
    Mark(if bs[i].size - n >= HEADER + MIN_SPLIT then Split(bs, i, n) else bs, i, true)
  }

  /** Gives block i back and joins it with free neighbours, the next one first. */
  function Give(bs: seq<Block>, i: nat): seq<Block>
    requires i < |bs|
  {
    var freed := Mark(bs, i, false);
    var right := if i + 1 < |freed| && !freed[i + 1].used then Merge(freed, i) else freed;
    if i > 0 && !right[i - 1].used then Merge(right, i - 1) else right
  }

  /** Block i of bs, a free one of at least n bytes, was handed out: where 64 bytes or more would be left over,
      exactly n bytes, followed by a free block of the rest less 32 for its header; else the whole block.
      Every other block is as it was. */
  ghost predicate Carved(bs: seq<Block>, cs: seq<Block>, i: nat, n: nat) {
    && i < |bs| && i < |cs| && !bs[i].used && n <= bs[i].size && cs[i].used
    && (forall j | 0 <= j < i :: cs[j] == bs[j])
    && if bs[i].size >= n + 64
       then |cs| == |bs| + 1 && cs[i].size == n && cs[i + 1] == Block(bs[i].size - n - 32, false)
            && forall j | i < j < |bs| :: cs[j + 1] == bs[j]
       else |cs| == |bs| && cs[i].size == bs[i].size && forall j | i < j < |bs| :: cs[j] == bs[j]
  }

  lemma TakeCarves(bs: seq<Block>, i: nat, n: nat)
    requires i < |bs| && Fits(bs[i], n)
    ensures Carved(bs, Take(bs, i, n), i, n)
    ensures n <= Take(bs, i, n)[i].size < n + 64
  {
  }

  // ---- offsets ----------------------------------------------------------------------------

  lemma {:induction false} OffMono(bs: seq<Block>, j: nat, k: nat)
    requires j < k <= |bs|
    ensures Off(bs, j) + HEADER + bs[j].size <= Off(bs, k)
    decreases k
  {
    if j < k - 1 { OffMono(bs, j, k - 1); }
  }

  lemma {:induction false} OffPrefix(bs: seq<Block>, cs: seq<Block>, k: nat)
    requires k <= |bs| && k <= |cs| && forall j | 0 <= j < k :: bs[j].size == cs[j].size
    ensures Off(bs, k) == Off(cs, k)
  {
    if k > 0 { OffPrefix(bs, cs, k - 1); }
  }

  /** From equal offsets on, equal tails have equal offsets. */
  lemma {:induction false} OffShift(bs: seq<Block>, a: nat, cs: seq<Block>, b: nat, m: nat)
    requires a + m <= |bs| && b + m <= |cs| && Off(bs, a) == Off(cs, b)
    requires forall j | a <= j < a + m :: bs[j].size == cs[j - a + b].size
    ensures Off(bs, a + m) == Off(cs, b + m)
  {
    if m > 0 { OffShift(bs, a, cs, b, m - 1); }
  }

  lemma SplitOff(bs: seq<Block>, i: nat, n: nat, k: nat)
    requires i < |bs| && n + HEADER <= bs[i].size && k <= |bs|
    ensures k <= i ==> Off(Split(bs, i, n), k) == Off(bs, k)
    ensures k > i ==> Off(Split(bs, i, n), k + 1) == Off(bs, k)
    ensures Off(Split(bs, i, n), i + 1) == Off(bs, i) + HEADER + n
  {
    var cs := Split(bs, i, n);
    OffPrefix(bs, cs, i);
    if k <= i {
      OffPrefix(bs, cs, k);
    } else {
      assert Off(cs, i + 2) == Off(bs, i + 1);
      OffShift(cs, i + 2, bs, i + 1, k - i - 1);
    }
  }

  lemma MergeOff(bs: seq<Block>, i: nat, k: nat)
    requires i + 1 < |bs| && k < |bs|
    ensures k <= i ==> Off(Merge(bs, i), k) == Off(bs, k)
    ensures k > i ==> Off(Merge(bs, i), k) == Off(bs, k + 1)
  {
    var cs := Merge(bs, i);
    OffPrefix(bs, cs, i);
    if k <= i {
      OffPrefix(bs, cs, k);
    } else {
      assert Off(cs, i + 1) == Off(bs, i + 2);
      OffShift(cs, i + 1, bs, i + 2, k - i - 1);
    }
  }

  // ---- sums -------------------------------------------------------------------------------

  lemma {:induction false} BytesConcat(a: seq<Block>, b: seq<Block>, used: bool)
    ensures Bytes(a + b, used) == Bytes(a, used) + Bytes(b, used)
  {
    if b == [] {
      assert a + b == a;
    } else {
      var n := |b| - 1;
      assert (a + b)[..|a + b| - 1] == a + b[..n];
      BytesConcat(a, b[..n], used);
    }
  }

  lemma Bytes1(b: Block, used: bool)
    ensures Bytes([b], used) == if b.used == used then b.size else 0
  {
    assert [b][..0] == [];
  }

  /** The bytes of a list around one place. */
  lemma BytesAt(a: seq<Block>, mid: seq<Block>, c: seq<Block>, used: bool)
    ensures Bytes(a + mid + c, used) == Bytes(a, used) + Bytes(mid, used) + Bytes(c, used)
  {
    BytesConcat(a + mid, c, used);
    BytesConcat(a, mid, used);
  }

  lemma MarkBytes(bs: seq<Block>, i: nat, to: bool, used: bool)
    requires i < |bs|
    ensures Bytes(Mark(bs, i, to), used) == Bytes(bs, used)
              - (if bs[i].used == used then bs[i].size else 0) + (if to == used then bs[i].size else 0)
  {
    assert bs == bs[..i] + [bs[i]] + bs[i + 1..];
    assert Mark(bs, i, to) == bs[..i] + [Block(bs[i].size, to)] + bs[i + 1..];
    BytesAt(bs[..i], [bs[i]], bs[i + 1..], used);
    BytesAt(bs[..i], [Block(bs[i].size, to)], bs[i + 1..], used);
    Bytes1(bs[i], used);
    Bytes1(Block(bs[i].size, to), used);
  }

  lemma SplitBytes(bs: seq<Block>, i: nat, n: nat, used: bool)
    requires i < |bs| && n + HEADER <= bs[i].size && !bs[i].used
    ensures Bytes(Split(bs, i, n), used) == Bytes(bs, used) - (if used then 0 else HEADER)
  {
    var x, y := Block(n, false), Block(bs[i].size - n - HEADER, false);
    assert bs == bs[..i] + [bs[i]] + bs[i + 1..];
    assert Split(bs, i, n) == bs[..i] + [x, y] + bs[i + 1..];
    BytesAt(bs[..i], [bs[i]], bs[i + 1..], used);
    BytesAt(bs[..i], [x, y], bs[i + 1..], used);
    BytesConcat([x], [y], used);
    assert [x] + [y] == [x, y];
    Bytes1(bs[i], used);
    Bytes1(x, used);
    Bytes1(y, used);
  }

  lemma MergeBytes(bs: seq<Block>, i: nat, used: bool)
    requires i + 1 < |bs| && !bs[i].used && !bs[i + 1].used
    ensures Bytes(Merge(bs, i), used) == Bytes(bs, used) + (if used then 0 else HEADER)
  {
    var cs := Merge(bs, i);
    MergeSplit(bs, i);
    SplitBytes(cs, i, bs[i].size, used);
  }

  /** Splitting undoes merging. */
  lemma MergeSplit(bs: seq<Block>, i: nat)
    requires i + 1 < |bs| && !bs[i + 1].used
    ensures Split(Merge(bs, i), i, bs[i].size) == bs
  {
    var cs := Merge(bs, i);
    assert cs[..i] == bs[..i] && cs[i + 1..] == bs[i + 2..];
    assert bs == bs[..i] + [bs[i], bs[i + 1]] + bs[i + 2..];
  }

  /** Merging undoes splitting. */
  lemma SplitMerge(bs: seq<Block>, i: nat, n: nat)
    requires i < |bs| && n + HEADER <= bs[i].size
    ensures Merge(Split(bs, i, n), i) == bs
  {
    var cs := Split(bs, i, n);
    assert cs[..i] == bs[..i] && cs[i + 2..] == bs[i + 1..];
    assert bs == bs[..i] + [bs[i]] + bs[i + 1..];
  }

  /** Nothing is lost: payloads and headers always add up to the arena. */
  lemma {:induction false} Conservation(bs: seq<Block>)
    ensures Off(bs, |bs|) == Bytes(bs, true) + Bytes(bs, false) + HEADER * |bs|
  {
    if bs != [] {
      var n := |bs| - 1;
      Conservation(bs[..n]);
      OffPrefix(bs, bs[..n], n);
    }
  }

  // ---- the invariant ----------------------------------------------------------------------

  lemma TakeTiled(bs: seq<Block>, i: nat, n: nat)
    requires Tiled(bs) && i < |bs| && Fits(bs[i], n) && n % ALIGN == 0 && 0 < n
    ensures Tiled(Take(bs, i, n))
  {
    if bs[i].size - n >= HEADER + MIN_SPLIT {
      SplitTiled(bs, i, n, Split(bs, i, n));
      MarkTiled(Split(bs, i, n), i);
    } else {
      MarkTiled(bs, i);
    }
  }

  /** The entries of a split list. */
  lemma Splits(bs: seq<Block>, i: nat, n: nat, cs: seq<Block>)
    requires i < |bs| && n + HEADER <= bs[i].size && cs == Split(bs, i, n)
    ensures |cs| == |bs| + 1 && cs[i] == Block(n, bs[i].used) && cs[i + 1] == Block(bs[i].size - n - HEADER, false)
    ensures (forall k | 0 <= k < i :: cs[k] == bs[k]) && forall k | i + 1 < k < |cs| :: cs[k] == bs[k - 1]
  {
  }

  /** Tiled, except that free blocks i and i + 1 may touch. */
  ghost predicate Halved(cs: seq<Block>, i: nat) {
    && i < |cs| && Off(cs, |cs|) == ARENA
    && (forall k | 0 <= k < |cs| :: cs[k].size % ALIGN == 0 && 0 < cs[k].size)
    && (forall k | 0 < k < |cs| :: cs[k - 1].used || cs[k].used || k == i + 1)
  }

  lemma SplitTiled(bs: seq<Block>, i: nat, n: nat, cs: seq<Block>)
    requires Tiled(bs) && i < |bs| && n + HEADER < bs[i].size && n % ALIGN == 0 && 0 < n && !bs[i].used && cs == Split(bs, i, n)
    ensures Halved(cs, i)
  {
    Splits(bs, i, n, cs);
    SplitOff(bs, i, n, |bs|);
    SplitSizes(bs, i, n, cs);
    forall k | 0 < k < |cs| ensures cs[k - 1].used || cs[k].used || k == i + 1 {
      if k < i { assert bs[k - 1].used || bs[k].used; }
      if k == i { assert bs[i - 1].used; }
      if k == i + 2 { assert bs[i + 1].used; }
      if k > i + 2 { assert bs[k - 2].used || bs[k - 1].used; }
    }
  }

  lemma SplitSizes(bs: seq<Block>, i: nat, n: nat, cs: seq<Block>)
    requires i < |bs| && n + HEADER < bs[i].size && n % ALIGN == 0 && 0 < n && cs == Split(bs, i, n)
    requires forall k | 0 <= k < |bs| :: bs[k].size % ALIGN == 0 && 0 < bs[k].size
    ensures forall k | 0 <= k < |cs| :: cs[k].size % ALIGN == 0 && 0 < cs[k].size
  {
    Splits(bs, i, n, cs);
    assert (bs[i].size - n - HEADER) % ALIGN == 0;
  }

  lemma MarkTiled(cs: seq<Block>, i: nat)
    requires Halved(cs, i)
    ensures Tiled(Mark(cs, i, true))
  {
    OffPrefix(cs, Mark(cs, i, true), |cs|);
  }

  /** Tiled, except that free block i may touch a free block on the left, or on the right. */
  ghost predicate Loose(bs: seq<Block>, i: nat, left: bool, right: bool) {
    && i < |bs| && !bs[i].used && Off(bs, |bs|) == ARENA
    && (forall k | 0 <= k < |bs| :: bs[k].size % ALIGN == 0 && 0 < bs[k].size)
    && (forall k | 0 < k < |bs| :: bs[k - 1].used || bs[k].used || (left && k == i) || (right && k == i + 1))
  }

  /** The entries of a merged list. */
  lemma Merged(bs: seq<Block>, i: nat, cs: seq<Block>)
    requires i + 1 < |bs| && cs == Merge(bs, i)
    ensures |cs| == |bs| - 1 && cs[i] == Block(bs[i].size + HEADER + bs[i + 1].size, bs[i].used)
    ensures (forall k | 0 <= k < i :: cs[k] == bs[k]) && forall k | i < k < |cs| :: cs[k] == bs[k + 1]
  {
  }

  lemma MergedSizes(bs: seq<Block>, i: nat, cs: seq<Block>)
    requires i + 1 < |bs| && cs == Merge(bs, i) && forall k | 0 <= k < |bs| :: bs[k].size % ALIGN == 0 && 0 < bs[k].size
    ensures forall k | 0 <= k < |cs| :: cs[k].size % ALIGN == 0 && 0 < cs[k].size
  {
    Merged(bs, i, cs);
    assert (bs[i].size + HEADER + bs[i + 1].size) % ALIGN == 0;
  }

  lemma MergeRight(bs: seq<Block>, i: nat)
    requires Loose(bs, i, true, true) && i + 1 < |bs| && !bs[i + 1].used
    ensures Loose(Merge(bs, i), i, true, false)
  {
    var cs := Merge(bs, i);
    Merged(bs, i, cs);
    MergedSizes(bs, i, cs);
    MergeOff(bs, i, |cs|);
    forall k | 0 < k < |cs| ensures cs[k - 1].used || cs[k].used || k == i {
      if k > i + 1 { assert bs[k].used || bs[k + 1].used; }
    }
  }

  lemma MergeLeft(bs: seq<Block>, i: nat)
    requires Loose(bs, i, true, false) && 0 < i && !bs[i - 1].used
    ensures Tiled(Merge(bs, i - 1))
  {
    var cs := Merge(bs, i - 1);
    Merged(bs, i - 1, cs);
    MergedSizes(bs, i - 1, cs);
    MergeOff(bs, i - 1, |cs|);
    forall k | 0 < k < |cs| ensures cs[k - 1].used || cs[k].used {
      if k >= i { assert bs[k].used || bs[k + 1].used; }
    }
  }

  lemma GiveTiled(bs: seq<Block>, i: nat)
    requires Tiled(bs) && i < |bs| && bs[i].used
    ensures Tiled(Give(bs, i))
  {
    var freed := Mark(bs, i, false);
    FreedLoose(bs, i, freed);
    var right := if i + 1 < |freed| && !freed[i + 1].used then Merge(freed, i) else freed;
    if i + 1 < |freed| && !freed[i + 1].used { MergeRight(freed, i); } else { NoRight(freed, i); }
    if i > 0 && !right[i - 1].used { MergeLeft(right, i); } else { NoLeft(right, i); }
  }

  lemma FreedLoose(bs: seq<Block>, i: nat, freed: seq<Block>)
    requires Tiled(bs) && i < |bs| && freed == Mark(bs, i, false)
    ensures Loose(freed, i, true, true)
  {
    OffPrefix(bs, freed, |bs|);
  }

  lemma NoRight(bs: seq<Block>, i: nat)
    requires Loose(bs, i, true, true) && (i + 1 < |bs| ==> bs[i + 1].used)
    ensures Loose(bs, i, true, false)
  {
  }

  lemma NoLeft(bs: seq<Block>, i: nat)
    requires Loose(bs, i, true, false) && (i > 0 ==> bs[i - 1].used)
    ensures Tiled(bs)
  {
  }

  /** Giving a block back right after taking it restores the list. */
  lemma TakeGive(bs: seq<Block>, i: nat, n: nat)
    requires Tiled(bs) && i < |bs| && Fits(bs[i], n)
    ensures Give(Take(bs, i, n), i) == bs
  {
    if bs[i].size - n >= HEADER + MIN_SPLIT {
      var cs := Split(bs, i, n);
      assert Mark(Mark(cs, i, true), i, false) == cs;
      SplitMerge(bs, i, n);
    } else {
      assert Mark(Mark(bs, i, true), i, false) == bs;
    }
  }

  // ---- live allocations -------------------------------------------------------------------

  ghost predicate LiveBlock(bs: seq<Block>, k: int, off: nat, size: nat) {
    0 <= k < |bs| && bs[k].used && Off(bs, k) == off && bs[k].size == size
  }

  /** An allocation whose header is at `off` holds `size` bytes. */
  ghost predicate IsLive(bs: seq<Block>, off: nat, size: nat) {
    exists k :: LiveBlock(bs, k, off, size)
  }

  /** Live allocations do not overlap and stay inside the arena. */
  lemma LiveDisjoint(bs: seq<Block>, o: nat, s: nat, o': nat, s': nat)
    requires Tiled(bs) && IsLive(bs, o, s) && IsLive(bs, o', s')
    ensures o + HEADER + s <= ARENA && o % ALIGN == 0
    ensures o == o' ==> s == s'
    ensures o != o' ==> o + HEADER + s <= o' || o' + HEADER + s' <= o
  {
    var k :| LiveBlock(bs, k, o, s);
    var k' :| LiveBlock(bs, k', o', s');
    OffMono(bs, k, |bs|);
    OffAligned(bs, k);
    if k < k' { OffMono(bs, k, k'); }
    if k' < k { OffMono(bs, k', k); }
  }

  lemma {:induction false} OffAligned(bs: seq<Block>, k: nat)
    requires k <= |bs| && forall j | 0 <= j < |bs| :: bs[j].size % ALIGN == 0
    ensures Off(bs, k) % ALIGN == 0
  {
    if k > 0 { OffAligned(bs, k - 1); }
  }

  lemma MarkOff(bs: seq<Block>, i: nat, to: bool, k: nat)
    requires i < |bs| && k <= |bs|
    ensures Off(Mark(bs, i, to), k) == Off(bs, k)
  {
    OffPrefix(bs, Mark(bs, i, to), k);
  }

  lemma MarkLive(bs: seq<Block>, i: nat, to: bool, off: nat, size: nat)
    requires i < |bs|
    ensures IsLive(Mark(bs, i, to), off, size) <==>
            (IsLive(bs, off, size) && off != Off(bs, i)) || (to && off == Off(bs, i) && size == bs[i].size)
  {
    var cs := Mark(bs, i, to);
    MarkOff(bs, i, to, i);
    if IsLive(cs, off, size) {
      var k :| LiveBlock(cs, k, off, size);
      MarkOff(bs, i, to, k);
      if k != i {
        assert LiveBlock(bs, k, off, size);
        if k < i { OffMono(bs, k, i); } else { OffMono(bs, i, k); }
      }
    }
    if IsLive(bs, off, size) && off != Off(bs, i) {
      var k :| LiveBlock(bs, k, off, size);
      MarkOff(bs, i, to, k);
      assert LiveBlock(cs, k, off, size);
    }
    if to && off == Off(bs, i) && size == bs[i].size {
      assert LiveBlock(cs, i, off, size);
    }
  }

  lemma SplitLive(bs: seq<Block>, i: nat, n: nat, off: nat, size: nat)
    requires i < |bs| && n + HEADER <= bs[i].size && !bs[i].used
    ensures IsLive(Split(bs, i, n), off, size) <==> IsLive(bs, off, size)
  {
    var cs := Split(bs, i, n);
    if IsLive(cs, off, size) {
      var k :| LiveBlock(cs, k, off, size);
      var j := if k < i then k else k - 1;
      SplitOff(bs, i, n, j);
      assert LiveBlock(bs, j, off, size);
    }
    if IsLive(bs, off, size) {
      var j :| LiveBlock(bs, j, off, size);
      SplitOff(bs, i, n, j);
      assert LiveBlock(cs, if j < i then j else j + 1, off, size);
    }
  }

  lemma MergeLive(bs: seq<Block>, i: nat, off: nat, size: nat)
    requires i + 1 < |bs| && !bs[i].used && !bs[i + 1].used
    ensures IsLive(Merge(bs, i), off, size) <==> IsLive(bs, off, size)
  {
    MergeSplit(bs, i);
    SplitLive(Merge(bs, i), i, bs[i].size, off, size);
  }

  /** Taking adds one allocation, at least as large as asked for, and keeps all others. */
  lemma TakeLive(bs: seq<Block>, i: nat, n: nat, off: nat, size: nat)
    requires i < |bs| && Fits(bs[i], n)
    ensures n <= Take(bs, i, n)[i].size
    ensures IsLive(Take(bs, i, n), off, size) <==>
            IsLive(bs, off, size) || (off == Off(bs, i) && size == Take(bs, i, n)[i].size)
  {
    var cs := if bs[i].size - n >= HEADER + MIN_SPLIT then Split(bs, i, n) else bs;
    if bs[i].size - n >= HEADER + MIN_SPLIT {
      SplitLive(bs, i, n, off, size);
      SplitOff(bs, i, n, i);
    }
    MarkLive(cs, i, true, off, size);
    if IsLive(bs, off, size) { LiveElsewhere(bs, i, off, size); }
  }

  /** A free block's offset is not that of an allocation. */
  lemma LiveElsewhere(bs: seq<Block>, i: nat, off: nat, size: nat)
    requires i < |bs| && !bs[i].used && IsLive(bs, off, size)
    ensures off != Off(bs, i)
  {
    var k :| LiveBlock(bs, k, off, size);
    if k < i { OffMono(bs, k, i); } else { OffMono(bs, i, k); }
  }

  /** Giving removes exactly that allocation. */
  lemma GiveLive(bs: seq<Block>, i: nat, off: nat, size: nat)
    requires i < |bs| && bs[i].used
    ensures IsLive(Give(bs, i), off, size) <==> IsLive(bs, off, size) && off != Off(bs, i)
  {
    var freed := Mark(bs, i, false);
    MarkLive(bs, i, false, off, size);
    var right := if i + 1 < |freed| && !freed[i + 1].used then Merge(freed, i) else freed;
    if i + 1 < |freed| && !freed[i + 1].used { MergeLive(freed, i, off, size); }
    if i > 0 && !right[i - 1].used { MergeLive(right, i - 1, off, size); }
  }

  // ---- the list is determined by what is allocated ----------------------------------------

  /** The same allocations, at the same places. */
  ghost predicate SameLive(bs: seq<Block>, cs: seq<Block>) {
    forall o, s :: IsLive(bs, o, s) <==> IsLive(cs, o, s)
  }

  lemma UsedAlike(bs: seq<Block>, cs: seq<Block>, k: nat)
    requires SameLive(bs, cs) && k < |bs| && k < |cs| && Off(bs, k) == Off(cs, k) && bs[k].used
    ensures cs[k] == bs[k]
  {
    assert LiveBlock(bs, k, Off(bs, k), bs[k].size);
    assert IsLive(cs, Off(bs, k), bs[k].size);
    var j :| LiveBlock(cs, j, Off(bs, k), bs[k].size);
    if j < k { OffMono(cs, j, k); }
    if k < j { OffMono(cs, k, j); }
  }

  /** A gap ends where the next allocation begins, in both lists. */
  lemma GapsAlike(bs: seq<Block>, cs: seq<Block>, k: nat)
    requires Tiled(bs) && Tiled(cs) && SameLive(bs, cs) && k < |bs| && k < |cs| && Off(bs, k) == Off(cs, k)
    requires !bs[k].used && !cs[k].used
    ensures cs[k].size <= bs[k].size
  {
    if bs[k].size < cs[k].size {
      OffMono(cs, k, |cs|);
      assert k + 1 < |bs| && bs[k + 1].used;
      assert LiveBlock(bs, k + 1, Off(bs, k + 1), bs[k + 1].size);
      assert IsLive(cs, Off(bs, k + 1), bs[k + 1].size);
      var j :| LiveBlock(cs, j, Off(bs, k + 1), bs[k + 1].size);
      if j < k { OffMono(cs, j, k); }
      if k < j { OffMono(cs, k, j); }
    }
  }

  lemma {:induction false} PrefixAlike(bs: seq<Block>, cs: seq<Block>, n: nat)
    requires Tiled(bs) && Tiled(cs) && SameLive(bs, cs) && n <= |bs| && n <= |cs|
    ensures bs[..n] == cs[..n] && Off(bs, n) == Off(cs, n)
  {
    if n > 0 {
      var k := n - 1;
      PrefixAlike(bs, cs, k);
      if bs[k].used {
        UsedAlike(bs, cs, k);
      } else if cs[k].used {
        UsedAlike(cs, bs, k);
      } else {
        GapsAlike(bs, cs, k);
        GapsAlike(cs, bs, k);
      }
      assert bs[..n] == bs[..k] + [bs[k]] && cs[..n] == cs[..k] + [cs[k]];
    }
  }

  /** A heap with given allocations has only one block list. */
  lemma LiveDetermines(bs: seq<Block>, cs: seq<Block>)
    requires Tiled(bs) && Tiled(cs) && SameLive(bs, cs)
    ensures bs == cs
  {
    var n := if |bs| <= |cs| then |bs| else |cs|;
    PrefixAlike(bs, cs, n);
    if n < |cs| { OffMono(cs, n, |cs|); }
    if n < |bs| { OffMono(bs, n, |bs|); }
  }

  // ---- freeing everything -----------------------------------------------------------------

  /** The index of the used block with header offset `off`, or |bs|. */
  function FindUsed(bs: seq<Block>, off: nat, from: nat): (i: nat)
    requires from <= |bs|
    ensures i <= |bs| && (i < |bs| ==> bs[i].used && Off(bs, i) == off)
    ensures i == |bs| ==> forall j | from <= j < |bs| :: !(bs[j].used && Off(bs, j) == off)
    decreases |bs| - from
  {
    if from == |bs| then from
    else if bs[from].used && Off(bs, from) == off then from
    else FindUsed(bs, off, from + 1)
  }

  /** What freeing the allocation at `off` does; anything that is not an allocation is ignored. */
  function FreeAt(bs: seq<Block>, off: nat): seq<Block> {
    var i := FindUsed(bs, off, 0);
    if i < |bs| then Give(bs, i) else bs
  }

  function FreeAll(bs: seq<Block>, offs: seq<nat>): seq<Block>
    decreases |offs|
  {
    if offs == [] then bs else FreeAll(FreeAt(bs, offs[0]), offs[1..])
  }

  lemma FreeAtLive(bs: seq<Block>, off: nat, o: nat, s: nat)
    ensures IsLive(FreeAt(bs, off), o, s) <==> IsLive(bs, o, s) && o != off
  {
    var i := FindUsed(bs, off, 0);
    if i < |bs| {
      GiveLive(bs, i, o, s);
    } else if IsLive(bs, o, s) {
      var k :| LiveBlock(bs, k, o, s);
    }
  }

  /** Freeing all live allocations, in any order and whatever else is asked to be freed in between,
      gives back the single initial block. */
  lemma {:induction false} FreeAllInitial(bs: seq<Block>, offs: seq<nat>)
    requires Tiled(bs) && forall o, s | IsLive(bs, o, s) :: o in offs
    ensures FreeAll(bs, offs) == INITIAL
    decreases |offs|
  {
    if offs == [] {
      NothingLive(bs);
    } else {
      var i := FindUsed(bs, offs[0], 0);
      if i < |bs| { GiveTiled(bs, i); }
      var cs := FreeAt(bs, offs[0]);
      forall o, s | IsLive(cs, o, s) ensures o in offs[1..] {
        FreeAtLive(bs, offs[0], o, s);
      }
      FreeAllInitial(cs, offs[1..]);
    }
  }

  lemma NothingLive(bs: seq<Block>)
    requires Tiled(bs) && forall o, s :: !IsLive(bs, o, s)
    ensures bs == INITIAL
  {
    assert |bs| == 1 || bs[0].used || bs[1].used;
    forall k | 0 <= k < |bs| ensures !bs[k].used {
      assert !IsLive(bs, Off(bs, k), bs[k].size);
      assert !LiveBlock(bs, k, Off(bs, k), bs[k].size);
    }
    assert Off(bs, 1) == HEADER + bs[0].size;
  }

  // ---- runs -------------------------------------------------------------------------------

  /** Rounding up to a multiple of 16. */
  function Rounded(size: nat): (n: nat)
    ensures n % ALIGN == 0 && size <= n < size + ALIGN
  {
    (size + ALIGN - 1) / ALIGN * ALIGN
  }

  datatype Call = Malloc(size: nat) | Free(off: nat)

  function Step(bs: seq<Block>, call: Call): seq<Block> {
    match call
    case Malloc(size) =>
      var i := FirstFit(bs, Rounded(size));
      if size == 0 || i == |bs| then bs else Take(bs, i, Rounded(size))
    case Free(off) => FreeAt(bs, off)
  }

  function Run(calls: seq<Call>): seq<Block> {
    if calls == [] then INITIAL else Step(Run(calls[..|calls| - 1]), calls[|calls| - 1])
  }

  lemma StepTiled(bs: seq<Block>, call: Call)
    requires Tiled(bs)
    ensures Tiled(Step(bs, call))
  {
    match call {
      case Malloc(size) =>
        var i := FirstFit(bs, Rounded(size));
        if size != 0 && i < |bs| { TakeTiled(bs, i, Rounded(size)); }
      case Free(off) =>
        var i := FindUsed(bs, off, 0);
        if i < |bs| { GiveTiled(bs, i); }
    }
  }

  lemma {:induction false} RunTiled(calls: seq<Call>)
    ensures Tiled(Run(calls))
  {
    if calls == [] {
      assert Off(INITIAL, 1) == ARENA;
    } else {
      var n := |calls| - 1;
      RunTiled(calls[..n]);
      StepTiled(Run(calls[..n]), calls[n]);
    }
  }

  /** Whatever calls were made, freeing what is then allocated gives the initial heap back. */
  lemma RunFreed(calls: seq<Call>, offs: seq<nat>)
    requires forall o, s | IsLive(Run(calls), o, s) :: o in offs
    ensures FreeAll(Run(calls), offs) == INITIAL
  {
    RunTiled(calls);
    FreeAllInitial(Run(calls), offs);
  }
}
