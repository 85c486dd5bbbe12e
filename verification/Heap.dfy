/** The kernel heap: kmalloc and kfree over a doubly linked list of block headers in memory
    (kernel/mm/heap/heap.c). */
module KernelHeap {
  import opened Blocks

  const LIMIT: nat := 0x1_0000_0000_0000_0000

  /** A block header; addresses, with 0 for NULL. */
  datatype Header = Header(size: nat, used: bool, previous: nat, next: nat)

  /** The address of block k of the list; 0 before the first and after the last block. */
  function At(base: nat, bs: seq<Block>, k: int): nat {
    if 0 <= k < |bs| then base + Off(bs, k) else 0
  }

  function HeaderOf(base: nat, bs: seq<Block>, k: nat): Header
    requires k < |bs|
  {
    Header(bs[k].size, bs[k].used, At(base, bs, k - 1), At(base, bs, k + 1))
  }

  ghost predicate Placed(m: map<nat, Header>, base: nat, bs: seq<Block>, k: nat)
    requires k < |bs|
  {
    At(base, bs, k) in m && m[At(base, bs, k)] == HeaderOf(base, bs, k)
  }

  /** Memory holds the list `bs`: every block's header, correctly linked both ways. */
  ghost predicate Rep(m: map<nat, Header>, base: nat, bs: seq<Block>) {
    forall k: nat | k < |bs| :: Placed(m, base, bs, k)
  }

  lemma Apart(base: nat, bs: seq<Block>, j: nat, k: nat)
    requires j < k < |bs|
    ensures At(base, bs, j) + HEADER + bs[j].size <= At(base, bs, k)
  {
    OffMono(bs, j, k);
  }

  /** Memory `m'` is `m` but for the headers at `at` and `near`. */
  ghost predicate Rest(m: map<nat, Header>, m': map<nat, Header>, at: nat, near: nat, other: nat) {
    forall a | a in m && a != at && a != near && a != other :: a in m' && m'[a] == m[a]
  }

  lemma MarkRep(m: map<nat, Header>, m': map<nat, Header>, base: nat, bs: seq<Block>, i: nat, to: bool)
    requires Rep(m, base, bs) && i < |bs|
    requires m' == m[At(base, bs, i) := HeaderOf(base, bs, i).(used := to)]
    ensures Rep(m', base, Mark(bs, i, to))
  {
    var cs := Mark(bs, i, to);
    forall k: nat | k < |cs| ensures Placed(m', base, cs, k) {
      assert Placed(m, base, bs, k);
      MarkOff(bs, i, to, k);
      if k > 0 { MarkOff(bs, i, to, k - 1); }
      if k + 1 < |bs| { MarkOff(bs, i, to, k + 1); }
      if k < i { Apart(base, bs, k, i); }
      if i < k { Apart(base, bs, i, k); }
    }
  }

  lemma SplitHeader(base: nat, bs: seq<Block>, i: nat, n: nat, k: nat)
    requires i < |bs| && n + HEADER < bs[i].size && !bs[i].used && k <= |bs|
    ensures
      var rest := At(base, bs, i) + HEADER + n;
      HeaderOf(base, Split(bs, i, n), k) ==
      if k < i then HeaderOf(base, bs, k)
      else if k == i then Header(n, false, At(base, bs, i - 1), rest)
      else if k == i + 1 then Header(bs[i].size - n - HEADER, false, At(base, bs, i), At(base, bs, i + 1))
      else if k == i + 2 then HeaderOf(base, bs, i + 1).(previous := rest)
      else HeaderOf(base, bs, k - 1)
  {
    SplitAt(base, bs, i, n, k + 1);
    if k > 0 { SplitAt(base, bs, i, n, k - 1); }
  }

  /** Linking in a new header after block i splits the block. */
  lemma SplitRep(m: map<nat, Header>, m': map<nat, Header>, base: nat, bs: seq<Block>, i: nat, n: nat)
    requires Rep(m, base, bs) && 0 < base && i < |bs| && n + HEADER < bs[i].size && !bs[i].used
    requires
      var at, fresh', after := At(base, bs, i), At(base, bs, i) + HEADER + n, At(base, bs, i + 1);
      && Rest(m, m', at, fresh', after)
      && at in m' && m'[at] == Header(n, false, At(base, bs, i - 1), fresh')
      && fresh' in m' && m'[fresh'] == Header(bs[i].size - n - HEADER, false, at, after)
      && (i + 1 < |bs| ==> after in m' && m'[after] == HeaderOf(base, bs, i + 1).(previous := fresh'))
    ensures Rep(m', base, Split(bs, i, n))
  {
    var cs := Split(bs, i, n);
    forall k: nat | k < |cs| ensures Placed(m', base, cs, k) {
      SplitAt(base, bs, i, n, k);
      SplitHeader(base, bs, i, n, k);
      var j := if k <= i then k else k - 1;
      assert Placed(m, base, bs, j);
      if k < i { Apart(base, bs, k, i); if i + 1 < |bs| { Apart(base, bs, k, i + 1); } }
      if k > i + 1 { Apart(base, bs, i, j); if k > i + 2 { Apart(base, bs, i + 1, j); } }
    }
  }

  lemma SplitAt(base: nat, bs: seq<Block>, i: nat, n: nat, k: nat)
    requires i < |bs| && n + HEADER < bs[i].size
    ensures k <= i ==> At(base, Split(bs, i, n), k) == At(base, bs, k)
    ensures k == i + 1 ==> At(base, Split(bs, i, n), k) == At(base, bs, i) + HEADER + n
    ensures k > i + 1 ==> At(base, Split(bs, i, n), k) == At(base, bs, k - 1)
  {
    if k <= |bs| {
      SplitOff(bs, i, n, if k <= i + 1 then i else k - 1);
      if k <= i { SplitOff(bs, i, n, k); }
    }
  }

  lemma MergeHeader(base: nat, bs: seq<Block>, i: nat, k: nat)
    requires i + 1 < |bs| && k + 1 < |bs|
    ensures
      var at, after := At(base, bs, i), At(base, bs, i + 2);
      HeaderOf(base, Merge(bs, i), k) ==
      if k < i then HeaderOf(base, bs, k)
      else if k == i then Header(bs[i].size + HEADER + bs[i + 1].size, bs[i].used, At(base, bs, i - 1), after)
      else if k == i + 1 then HeaderOf(base, bs, i + 2).(previous := at)
      else HeaderOf(base, bs, k + 1)
  {
    MergeAt(base, bs, i, k + 1);
    if k > 0 { MergeAt(base, bs, i, k - 1); }
  }

  /** Unlinking block i + 1 joins it to block i. */
  lemma MergeRep(m: map<nat, Header>, m': map<nat, Header>, base: nat, bs: seq<Block>, i: nat)
    requires Rep(m, base, bs) && 0 < base && i + 1 < |bs|
    requires
      var at, after := At(base, bs, i), At(base, bs, i + 2);
      && Rest(m, m', at, after, after)
      && at in m' && m'[at] == Header(bs[i].size + HEADER + bs[i + 1].size, bs[i].used, At(base, bs, i - 1), after)
      && (i + 2 < |bs| ==> after in m' && m'[after] == HeaderOf(base, bs, i + 2).(previous := at))
    ensures Rep(m', base, Merge(bs, i))
  {
    var cs := Merge(bs, i);
    forall k: nat | k < |cs| ensures Placed(m', base, cs, k) {
      var j := if k <= i then k else k + 1;
      assert Placed(m, base, bs, j);
      MergeAt(base, bs, i, k);
      MergeHeader(base, bs, i, k);
      if k < i { Apart(base, bs, k, i); if i + 2 < |bs| { Apart(base, bs, k, i + 2); } }
      if k > i { Apart(base, bs, i, j); if k > i + 1 { Apart(base, bs, i + 2, j); } }
    }
  }

  lemma MergeAt(base: nat, bs: seq<Block>, i: nat, k: nat)
    requires i + 1 < |bs|
    ensures k <= i ==> At(base, Merge(bs, i), k) == At(base, bs, k)
    ensures k > i ==> At(base, Merge(bs, i), k) == At(base, bs, k + 1)
  {
    if k < |bs| { MergeOff(bs, i, k); }
  }

  /** Rounding up to a multiple of 16; 0 when the result would not fit 64 bits. */
  function AlignUp(value: nat): (r: nat)
    requires value < LIMIT
    ensures r == 0 <==> value == 0 || value > LIMIT - ALIGN
    ensures r != 0 ==> r % ALIGN == 0 && value <= r < value + ALIGN && r < LIMIT
  {
    if value > LIMIT - ALIGN then 0 else Rounded(value)
  }

  class Heap {
    const base: nat
    var headers: map<nat, Header>
    var first: nat
    var allocatedBytes: nat
    var freeBytes: nat
    ghost var bs: seq<Block>

    /** Memory holds the list and the two counters are the sizes of its used and free payloads. */
    ghost predicate Listed()
      reads this
    {
      && 0 < base && base % ALIGN == 0 && base + ARENA < LIMIT && first == base
      && bs != [] && Rep(headers, base, bs)
      && allocatedBytes == Bytes(bs, true) && freeBytes == Bytes(bs, false)
    }

    /** Before initialisation there is no list; from then on it tiles the arena. */
    ghost predicate Valid()
      reads this
    {
      && 0 < base && base % ALIGN == 0 && base + ARENA < LIMIT
      && (first != 0 ==> Tiled(bs) && Listed())
    }

    /** The two counters and 32 bytes a block make up the arena, whatever was called before. */
    lemma Counted()
      requires Valid() && first != 0
      ensures allocatedBytes + freeBytes + HEADER * |bs| == ARENA
    {
      Conservation(bs);
    }

    constructor (arena: nat)
      requires 0 < arena && arena % ALIGN == 0 && arena + ARENA < LIMIT
      ensures Valid() && first == 0 && base == arena
    {
      base := arena;
      headers, first, allocatedBytes, freeBytes, bs := map[], 0, 0, 0, [];
    }

    method Init()
      requires Valid()
      modifies this
      ensures Valid() && first == base && bs == INITIAL
    {
      first := base;
      headers := headers[first := Header(ARENA - HEADER, false, 0, 0)];
      allocatedBytes := 0;
      freeBytes := headers[first].size;
      bs := INITIAL;
      assert Off(bs, 1) == ARENA && bs[..0] == [];
      assert Placed(headers, base, bs, 0);
    }

    /** Where the first free block of at least n bytes is; 0 when there is none. */
    method Search(n: nat) returns (block: nat, ghost i: nat)
      requires Listed()
      ensures i == FirstFit(bs, n) && block == At(base, bs, i)
    {
      block, i := first, 0;
      while block != 0
        invariant i <= |bs| && block == At(base, bs, i)
        invariant forall j | 0 <= j < i :: !Fits(bs[j], n)
        decreases |bs| - i
      {
        assert Placed(headers, base, bs, i);
        if !headers[block].used && headers[block].size >= n {
          return;
        }
        block, i := headers[block].next, i + 1;
      }
    }

    /** Splits off the part of a free block that is not asked for. */
    method SplitBlock(block: nat, n: nat, ghost i: nat)
      requires Listed() && i < |bs| && block == At(base, bs, i)
      requires !bs[i].used && n + HEADER < bs[i].size
      modifies `headers, `freeBytes, `bs
      ensures Listed() && bs == old(Split(bs, i, n))
    {
      ghost var m := headers;
      assert Placed(m, base, bs, i);
      var rest := block + HEADER + n;
      var after := headers[block].next;
      headers := headers[rest := Header(headers[block].size - n - HEADER, false, block, after)];
      if after != 0 {
        assert Placed(m, base, bs, i + 1);
        Apart(base, bs, i, i + 1);
        headers := headers[after := headers[after].(previous := rest)];
      }
      headers := headers[block := headers[block].(next := rest, size := n)];
      SplitRep(m, headers, base, bs, i, n);
      SplitBytes(bs, i, n, false);
      SplitBytes(bs, i, n, true);
      freeBytes := freeBytes - HEADER;
      bs := Split(bs, i, n);
    }

    /** Changes a block's state and moves its bytes from one counter to the other. */
    method SetState(block: nat, to: bool, ghost i: nat)
      requires Listed() && i < |bs| && block == At(base, bs, i) && bs[i].used == !to
      modifies `headers, `freeBytes, `allocatedBytes, `bs
      ensures Listed() && bs == old(Mark(bs, i, to))
    {
      ghost var m := headers;
      assert Placed(m, base, bs, i);
      MarkBytes(bs, i, to, true);
      MarkBytes(bs, i, to, false);
      headers := headers[block := headers[block].(used := to)];
      MarkRep(m, headers, base, bs, i, to);
      if to {
        allocatedBytes := allocatedBytes + headers[block].size;
        freeBytes := freeBytes - headers[block].size;
      } else {
        allocatedBytes := allocatedBytes - headers[block].size;
        freeBytes := freeBytes + headers[block].size;
      }
      bs := Mark(bs, i, to);
    }

    /** Joins the block after `block` to it. */
    method MergeNext(block: nat, ghost i: nat)
      requires Listed() && i + 1 < |bs| && block == At(base, bs, i) && !bs[i].used && !bs[i + 1].used
      modifies `headers, `freeBytes, `bs
      ensures Listed() && bs == old(Merge(bs, i))
    {
      ghost var m := headers;
      assert Placed(m, base, bs, i) && Placed(m, base, bs, i + 1);
      var next := headers[block].next;
      headers := headers[block := headers[block].(size := headers[block].size + HEADER + headers[next].size,
                                                   next := headers[next].next)];
      var after := headers[block].next;
      if after != 0 {
        assert Placed(m, base, bs, i + 2);
        Apart(base, bs, i, i + 2);
        headers := headers[after := headers[after].(previous := block)];
      }
      MergeRep(m, headers, base, bs, i);
      MergeBytes(bs, i, true);
      MergeBytes(bs, i, false);
      freeBytes := freeBytes + HEADER;
      bs := Merge(bs, i);
    }

    /** Allocates exactly when the request is not empty, can be rounded up, and some free block is
        large enough; then the first such block is taken. */
    method Kmalloc(size: nat) returns (ptr: nat)
      requires Valid() && size < LIMIT
      modifies `headers, `freeBytes, `allocatedBytes, `bs
      ensures Valid()
      ensures ptr != 0 <==>
              old(first) != 0 && AlignUp(size) != 0 && exists j | 0 <= j < |old(bs)| :: Fits(old(bs)[j], AlignUp(size))
      ensures ptr == 0 ==> unchanged(this)
      ensures ptr != 0 ==> var i := FirstFit(old(bs), AlignUp(size));
                           ptr == At(base, old(bs), i) + HEADER && bs == old(Take(bs, i, AlignUp(size)))
      ensures ptr != 0 ==> exists i: nat {:trigger Off(old(bs), i)} | i < |old(bs)| ::
                && Carved(old(bs), bs, i, AlignUp(size)) && ptr == base + Off(old(bs), i) + 32
                && forall j | 0 <= j < i :: old(bs)[j].used || old(bs)[j].size < AlignUp(size)
    {
      ptr := 0;
      if size == 0 { return; }
      var n := AlignUp(size);
      if n == 0 { return; }
      if first == 0 { return; }
      var block, i := Search(n);
      if block == 0 { return; }
      assert Placed(headers, base, bs, i);
      TakeTiled(bs, i, n);
      TakeCarves(bs, i, n);
      if headers[block].size - n >= HEADER + MIN_SPLIT {
        SplitBlock(block, n, i);
        SplitAt(base, old(bs), i, n, i);
      }
      SetState(block, true, i);
      ptr := block + HEADER;
    }

    /** The block whose payload starts at `ptr`, by an exact match along the list; 0 if none. */
    method Locate(ptr: nat) returns (block: nat, ghost i: nat)
      requires Listed()
      ensures i <= |bs| && block == At(base, bs, i)
      ensures i < |bs| ==> block + HEADER == ptr
      ensures i == |bs| ==> forall j | 0 <= j < |bs| :: At(base, bs, j) + HEADER != ptr
    {
      block, i := first, 0;
      while block != 0
        invariant i <= |bs| && block == At(base, bs, i)
        invariant forall j | 0 <= j < i :: At(base, bs, j) + HEADER != ptr
        decreases |bs| - i
      {
        assert Placed(headers, base, bs, i);
        if block + HEADER == ptr {
          return;
        }
        block, i := headers[block].next, i + 1;
      }
    }

    method FindPayload(ptr: nat) returns (block: nat, ghost i: nat)
      requires Listed()
      ensures i <= |bs| && block == At(base, bs, i)
      ensures IsPayload(base, bs, ptr) <==> i < |bs| && bs[i].used
      ensures Freed(base, bs, ptr) == if i < |bs| && bs[i].used then Give(bs, i) else bs
    {
      block, i := Locate(ptr);
      if i < |bs| { FindsUsed(bs, i); } else { NotLive(base, bs, ptr); }
    }

    /** Frees the allocation with payload address `ptr` and joins the free blocks around it; any
        other pointer changes nothing. The checks against the arena never reject an allocation. */
    method Kfree(ptr: nat)
      requires Valid()
      modifies `headers, `freeBytes, `allocatedBytes, `bs
      ensures Valid()
      ensures first == 0 ==> unchanged(this)
      ensures first != 0 ==> bs == Freed(base, old(bs), ptr)
      ensures !IsPayload(base, old(bs), ptr) ==> unchanged(this)
      ensures first != 0 ==> forall o, n :: IsLive(bs, o, n) <==> IsLive(old(bs), o, n) && ptr != base + o + 32
    {
      FreedLive(base, bs, ptr);
      if ptr == 0 { return; }
      if first == 0 { return; }
      var block, i := FindPayload(ptr);
      if block == 0 { return; }
      assert Placed(headers, base, bs, i);
      if !headers[block].used { return; }
      var inside := InArena(block, i);
      if !inside { return; }
      GiveTiled(bs, i);
      Release(block, i);
    }

    /** The checks of a block against the arena, which every block of the list passes. */
    method InArena(block: nat, ghost i: nat) returns (inside: bool)
      requires Valid() && first != 0 && i < |bs| && block == At(base, bs, i)
      ensures inside
    {
      assert Placed(headers, base, bs, i);
      OffMono(bs, i, |bs|);
      inside := false;
      if base > LIMIT - 1 - ARENA { return; }
      var end := base + ARENA;
      if block < base || block >= end { return; }
      if headers[block].size == 0 { return; }
      if headers[block].size > ARENA - HEADER { return; }
      if block + HEADER > end || headers[block].size > end - (block + HEADER) { return; }
      inside := true;
    }

    method Release(block: nat, ghost i: nat)
      requires Listed() && i < |bs| && block == At(base, bs, i) && bs[i].used
      modifies `headers, `freeBytes, `allocatedBytes, `bs
      ensures Listed() && bs == old(Give(bs, i))
    {
      SetState(block, false, i);
      MarkOff(old(bs), i, false, i);
      assert Placed(headers, base, bs, i);
      if i + 1 < |bs| { assert Placed(headers, base, bs, i + 1); }
      if headers[block].next != 0 && !headers[headers[block].next].used {
        MergeNext(block, i);
        MergeAt(base, old(Mark(bs, i, false)), i, i);
      }
      assert Placed(headers, base, bs, i);
      if i > 0 { assert Placed(headers, base, bs, i - 1); }
      if headers[block].previous != 0 && !headers[headers[block].previous].used {
        MergeNext(headers[block].previous, i - 1);
      }
    }
  }

  /** Address `ptr` is the payload of an allocation. */
  ghost predicate IsPayload(base: nat, bs: seq<Block>, ptr: nat) {
    ptr >= base + HEADER && FindUsed(bs, ptr - base - HEADER, 0) < |bs|
  }

  ghost function Freed(base: nat, bs: seq<Block>, ptr: nat): seq<Block> {
    if ptr >= base + HEADER then FreeAt(bs, ptr - base - HEADER) else bs
  }

  /** Exactly the allocation at ptr goes. */
  lemma FreedLive(base: nat, bs: seq<Block>, ptr: nat)
    ensures forall o, n :: IsLive(Freed(base, bs, ptr), o, n) <==> IsLive(bs, o, n) && ptr != base + o + 32
  {
    if ptr >= base + HEADER {
      forall o, n ensures IsLive(Freed(base, bs, ptr), o, n) <==> IsLive(bs, o, n) && ptr != base + o + 32 {
        FreeAtLive(bs, ptr - base - HEADER, o, n);
      }
    }
  }

  /** An allocation's payload is its header's offset and 32 bytes from the base. */
  lemma PayloadLive(base: nat, bs: seq<Block>, off: nat)
    ensures IsPayload(base, bs, base + HEADER + off) <==> exists size :: IsLive(bs, off, size)
  {
    var i := FindUsed(bs, off, 0);
    if i < |bs| {
      assert LiveBlock(bs, i, off, bs[i].size);
      assert IsLive(bs, off, bs[i].size);
    }
    if size :| IsLive(bs, off, size) {
      var k :| LiveBlock(bs, k, off, size);
    }
  }

  /** A used block is found by its offset, and a free one is not. */
  lemma FindsUsed(bs: seq<Block>, i: nat)
    requires i < |bs|
    ensures FindUsed(bs, Off(bs, i), 0) == if bs[i].used then i else |bs|
  {
    var k := FindUsed(bs, Off(bs, i), 0);
    if k < |bs| { SameOffset(bs, i, k); }
  }

  /** Different blocks have different offsets. */
  lemma SameOffset(bs: seq<Block>, i: nat, k: nat)
    requires i < |bs| && k < |bs|
    ensures Off(bs, i) == Off(bs, k) <==> i == k
  {
    if k < i { OffMono(bs, k, i); }
    if i < k { OffMono(bs, i, k); }
  }

  lemma NotLive(base: nat, bs: seq<Block>, ptr: nat)
    requires forall j | 0 <= j < |bs| :: At(base, bs, j) + HEADER != ptr
    ensures ptr >= base + HEADER ==> FindUsed(bs, ptr - base - HEADER, 0) == |bs| && FreeAt(bs, ptr - base - HEADER) == bs
  {
    if ptr >= base + HEADER {
      var k := FindUsed(bs, ptr - base - HEADER, 0);
      assert k < |bs| ==> At(base, bs, k) + HEADER == ptr;
    }
  }
}
