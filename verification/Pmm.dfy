/** The physical frame allocator (kernel/mm/pmm/pmm.c): one bit per 4 KiB frame, a set bit
    meaning "used", and a running counter of free frames. A page-aligned physical address is
    represented by its frame number, so address 0 is frame 0. */
module Frames {
  import opened Guard

  const PAGE: nat := 4096
  const U64: nat := 0x1_0000_0000_0000_0000

  /** One entry of the boot loader's memory map, in bytes. */
  datatype Region = Region(base: nat, length: nat, usable: bool) {
    /** The bases are rounded up to a frame, and the ends down. */
    function First(): nat { (base + (PAGE - 1)) / PAGE }

    function End(): nat { (base + length) / PAGE }

    /** Every byte of frame f is usable memory of the region. */
    predicate Covers(f: nat) {
      usable && base <= f * PAGE && (f + 1) * PAGE <= base + length
    }

    predicate Fits(frames: nat) {
      usable && First() < End() && frames <= End() - First()
    }

    /** The region holds a run of n whole frames. */
    ghost predicate RoomFor(n: nat) {
      exists f: nat {:trigger Run(f, n)} :: Run(f, n)
    }

    ghost predicate Run(f: nat, n: nat) {
      forall g: nat | f <= g < f + n :: Covers(g)
    }
  }

  /** The rounded bounds delimit exactly the frames that lie wholly inside the region. */
  lemma WholeFrames(r: Region, f: nat)
    ensures r.Covers(f) <==> r.usable && r.First() <= f < r.End()
  {
  }

  /** The test of the code finds exactly the regions with room for a run of whole frames. */
  lemma FitsRoom(r: Region, n: nat)
    requires n > 0
    ensures r.Fits(n) <==> r.RoomFor(n)
    ensures r.Fits(n) ==> r.Run(r.First(), n)
  {
    if r.Fits(n) {
      forall g: nat | r.First() <= g < r.First() + n ensures r.Covers(g) { WholeFrames(r, g); }
      assert r.Run(r.First(), n);
    }
    if r.RoomFor(n) {
      var f: nat :| r.Run(f, n);
      WholeFrames(r, f);
      WholeFrames(r, f + n - 1);
    }
  }

  /** The region's first whole frame, if it has one. */
  lemma FirstWhole(r: Region)
    ensures r.base <= r.First() * PAGE < r.base + PAGE && (r.First() == 0 <==> r.base == 0)
  {
  }

  /** A memory map whose addresses do not wrap around, even after rounding up to a page. */
  predicate NoOverflow(regions: seq<Region>) {
    forall r | r in regions :: r.base + r.length + PAGE < U64
  }

  predicate Usable(regions: seq<Region>, f: nat) {
    exists r | r in regions :: r.Covers(f)
  }

  lemma UsableBounded(regions: seq<Region>)
    ensures forall r, f: nat | r in regions && r.Covers(f) :: f < r.End()
  {
    forall r, f: nat | r in regions && r.Covers(f) ensures f < r.End() { WholeFrames(r, f); }
  }

  /** The end of the map: no region reaches beyond it, and one ends there unless there is none. */
  ghost function Top(regions: seq<Region>): (top: nat)
    ensures forall r | r in regions :: r.base + r.length <= top
    ensures top == 0 || exists r | r in regions :: r.base + r.length == top
  {
    if regions == [] then 0
    else
      var rest, last := Top(regions[..|regions| - 1]), regions[|regions| - 1];
      if last.base + last.length > rest then last.base + last.length else rest
  }

  /** Frames from 0 to the end of the map, and the frames of a bitmap with one bit for each. */
  ghost function MapFrames(regions: seq<Region>): nat { (Top(regions) + 4095) / 4096 }

  ghost function BitmapNeed(regions: seq<Region>): nat { ((MapFrames(regions) + 7) / 8 + 4095) / 4096 }

  /** Region i is the first one with room for n frames. */
  ghost predicate FirstWithRoom(regions: seq<Region>, n: nat, i: nat) {
    i < |regions| && regions[i].RoomFor(n) && forall j | 0 <= j < i :: !regions[j].RoomFor(n)
  }

  /** The first region with room for n frames does not start at address 0. */
  ghost predicate HasPlace(regions: seq<Region>, n: nat) {
    exists i: nat {:trigger FirstWithRoom(regions, n, i)} :: FirstWithRoom(regions, n, i) && regions[i].base != 0
  }

  /** Frame `start` is the first whole frame of the first region with room for n frames. */
  ghost predicate PlacedAt(regions: seq<Region>, n: nat, start: nat) {
    exists i: nat {:trigger FirstWithRoom(regions, n, i)} ::
      FirstWithRoom(regions, n, i) && regions[i].base <= start * PAGE < regions[i].base + PAGE
  }

  /** An empty map has no place for anything. */
  lemma NoPlace(regions: seq<Region>)
    requires Top(regions) == 0
    ensures !HasPlace(regions, BitmapNeed(regions))
  {
    forall i: nat | FirstWithRoom(regions, BitmapNeed(regions), i) ensures regions[i].base == 0 {
      assert regions[i] in regions;
    }
  }

  ghost function UsableFrames(regions: seq<Region>): (frames: set<nat>)
    ensures forall f: nat :: f in frames <==> Usable(regions, f)
  {
    UsableBounded(regions);
    set r: Region, f: nat | r in regions && f < r.End() && r.Covers(f) :: f
  }

  lemma UsableSnoc(regions: seq<Region>, r: Region, f: nat)
    ensures Usable(regions + [r], f) <==> Usable(regions, f) || r.Covers(f)
  {
    assert r in regions + [r];
  }

  lemma CountRemoved(before: set<nat>, after: set<nat>, lo: nat, hi: nat)
    requires lo <= hi
    requires forall f | lo <= f < hi :: f in before
    requires forall f :: f in after <==> f in before && !(lo <= f < hi)
    ensures |after| == |before| - (hi - lo)
    decreases hi - lo
  {
    if lo == hi {
      assert after == before;
    } else {
      CountRemoved(before, after + {hi - 1}, lo, hi - 1);
    }
  }

  const BITS: int := -1

  // ---- bits -----------------------------------------------------------------------------

  function BitMask(k: nat): bv8
    requires k < 8
  {
    if k == 0 then 1 else if k == 1 then 2 else if k == 2 then 4 else if k == 3 then 8
    else if k == 4 then 16 else if k == 5 then 32 else if k == 6 then 64 else 128
  }

  function TestByte(b: bv8, k: nat): bool
    requires k < 8
  {
    b & BitMask(k) != 0
  }

  function Test(bytes: seq<bv8>, f: nat): bool
    requires f / 8 < |bytes|
  {
    TestByte(bytes[f / 8], f % 8)
  }

  method SetInByte(b: bv8, k: nat) returns (r: bv8)
    requires k < 8
    ensures forall j: nat | j < 8 :: TestByte(r, j) <==> j == k || TestByte(b, j)
  {
    r := b | BitMask(k);
  }

  method ClearInByte(b: bv8, k: nat) returns (r: bv8)
    requires k < 8
    ensures forall j: nat | j < 8 :: TestByte(r, j) <==> j != k && TestByte(b, j)
  {
    r := b & !BitMask(k);
  }

  // ---- reading the memory map -------------------------------------------------------------

  method HighestAddress(regions: seq<Region>) returns (highest: nat)
    ensures forall r | r in regions :: r.base + r.length <= highest
    ensures highest == 0 || exists r | r in regions :: r.base + r.length == highest
    ensures highest == Top(regions)
  {
    highest := 0;
    for i := 0 to |regions|
      invariant forall r | r in regions[..i] :: r.base + r.length <= highest
      invariant highest == 0 || exists r | r in regions :: r.base + r.length == highest
    {
      var end := regions[i].base + regions[i].length;
      if end > highest { highest := end; }
    }
  }

  /** The first frame of the first usable region with room for `frames` frames, or 0. */
  method FindBitmapLocation(regions: seq<Region>, frames: nat) returns (start: nat)
    ensures start != 0 ==> exists i | 0 <= i < |regions| ::
              regions[i].Fits(frames) && start == regions[i].First() && forall j | 0 <= j < i :: !regions[j].Fits(frames)
    ensures start != 0 ==> forall f | start <= f < start + frames :: Usable(regions, f)
    ensures start == 0 ==> forall i | 0 <= i < |regions| && regions[i].Fits(frames) ::
              regions[i].First() == 0 || exists j | 0 <= j < i :: regions[j].Fits(frames)
    ensures frames > 0 ==> (start != 0 <==> HasPlace(regions, frames))
    ensures frames > 0 && start != 0 ==> PlacedAt(regions, frames, start)
  {
    if frames > 0 { forall r | r in regions ensures r.Fits(frames) <==> r.RoomFor(frames) { FitsRoom(r, frames); } }
    for i := 0 to |regions|
      invariant forall j | 0 <= j < i :: !regions[j].Fits(frames)
    {
      if !regions[i].usable || regions[i].End() <= regions[i].First() { continue; }
      if regions[i].End() - regions[i].First() >= frames {
        Located(regions, i, frames);
        return regions[i].First();
      }
    }
    return 0;
  }

  lemma Located(regions: seq<Region>, i: nat, frames: nat)
    requires i < |regions| && regions[i].Fits(frames) && forall j | 0 <= j < i :: !regions[j].Fits(frames)
    ensures var start := regions[i].First();
            && (forall f | start <= f < start + frames :: Usable(regions, f))
            && regions[i].base <= start * PAGE < regions[i].base + PAGE && (start == 0 <==> regions[i].base == 0)
    ensures frames > 0 ==> FirstWithRoom(regions, frames, i) && forall i': nat | FirstWithRoom(regions, frames, i') :: i' == i
  {
    var r := regions[i];
    FirstWhole(r);
    forall f | r.First() <= f < r.First() + frames ensures Usable(regions, f) {
      WholeFrames(r, f);
      assert r in regions;
    }
    if frames > 0 {
      forall j: nat | j <= i ensures regions[j].Fits(frames) <==> regions[j].RoomFor(frames) { FitsRoom(regions[j], frames); }
    }
  }

  // ---- the allocator --------------------------------------------------------------------

  class Pmm {
    var bitmap: array<bv8>
    var ready: bool
    var totalFrames: nat
    var freeFrames: nat
    var bitmapFrame: nat
    var bitmapSize: nat
    /** The frames whose bit is clear. */
    ghost var free: set<nat>
    /** The frames that are taken back when given; only those that were free at the start are handed out. */
    ghost var managed: set<nat>

    /** Before initialisation every static variable is zero and the bitmap pointer is null. */
    constructor ()
      ensures Valid() && !ready && fresh(bitmap)
    {
      bitmap := new bv8[0];
      ready, totalFrames, freeFrames, bitmapFrame, bitmapSize := false, 0, 0, 0, 0;
      free, managed := {}, {};
    }

    /** How many frames the bitmap itself occupies. */
    function BitmapFrames(): nat
      reads `bitmapSize
    {
      (bitmapSize + (PAGE - 1)) / PAGE
    }

    /** The bitmap's own frames. */
    predicate Own(f: nat)
      reads `bitmapFrame, `bitmapSize
    {
      bitmapFrame <= f < bitmapFrame + BitmapFrames()
    }

    /** Neither frame 0 nor one of the bitmap's own. */
    predicate Managed(f: nat)
      reads `ready, `totalFrames, `bitmapFrame, `bitmapSize
    {
      ready && 0 < f < totalFrames && !Own(f)
    }

    /** `free` is what the bits say. */
    ghost predicate Reflected()
      reads `bitmap, `totalFrames, `bitmapSize, `free, bitmap
    {
      && bitmap.Length == bitmapSize == (totalFrames + 7) / 8
      && (forall f: nat | f < totalFrames :: Test(bitmap[..], f) <==> f !in free)
      && (forall f | f in free :: f < totalFrames)
    }

    /** The counter runs ahead of the clear bits by exactly the frames the bitmap itself occupies. */
    ghost predicate Sound()
      reads this, bitmap
    {
      && (forall f: nat :: f in managed <==> Managed(f))
      && (ready ==> Reflected() && freeFrames == |free| + BitmapFrames())
    }

    ghost predicate Valid()
      reads this, bitmap
    {
      free <= managed && 0 !in managed && forall n {:trigger Open(n)} :: Open(n) && n == BITS ==> Sound()
    }

    method BitmapTest(frame: nat) returns (used: bool)
      requires Reflected() && frame < totalFrames
      ensures used <==> frame !in free
    {
      used := Test(bitmap[..], frame);
    }

    method BitmapSet(frame: nat)
      requires Reflected() && frame < totalFrames
      modifies bitmap, `free
      ensures Reflected() && free == old(free) - {frame}
    {
      var b := SetInByte(bitmap[frame / 8], frame % 8);
      bitmap[frame / 8] := b;
      free := free - {frame};
    }

    method BitmapClear(frame: nat)
      requires Reflected() && frame < totalFrames
      modifies bitmap, `free
      ensures Reflected() && free == old(free) + {frame}
    {
      var b := ClearInByte(bitmap[frame / 8], frame % 8);
      bitmap[frame / 8] := b;
      free := free + {frame};
    }

    method Take(frame: nat)
      requires Reflected() && frame < totalFrames && frame in free && |free| <= freeFrames
      modifies `freeFrames, `free, bitmap
      ensures Reflected() && free == old(free) - {frame}
      ensures freeFrames - |free| == old(freeFrames - |free|)
    {
      BitmapSet(frame);
      if freeFrames > 0 { freeFrames := freeFrames - 1; }
    }

    method GiveBack(frame: nat)
      requires Reflected() && frame < totalFrames && frame !in free
      modifies `freeFrames, `free, bitmap
      ensures Reflected() && free == old(free) + {frame}
      ensures freeFrames - |free| == old(freeFrames - |free|)
    {
      BitmapClear(frame);
      freeFrames := freeFrames + 1;
    }

    /** Lowest clear frame from 1 up; 0 only when no frame is clear. */
    method Alloc() returns (frame: nat)
      requires Valid()
      modifies `freeFrames, `free, bitmap
      ensures Valid()
      ensures frame == 0 <==> old(free) == {}
      ensures frame != 0 ==> frame in old(free) && forall f | f in old(free) :: frame <= f
      ensures free == old(free) - {frame}
    {
      assert Open(BITS);
      if !ready { return 0; }
      frame := 1;
      while frame < totalFrames
        invariant 1 <= frame
        invariant unchanged(this) && unchanged(bitmap)
        invariant forall f | f in free :: frame <= f
      {
        var used := BitmapTest(frame);
        if !used {
          Take(frame);
          return;
        }
        frame := frame + 1;
      }
      return 0;
    }

    /** Gives a frame back. Frame 0, out-of-range frames, frames that are already free and the
        bitmap's own frames are ignored. */
    method FreeFrame(frame: nat)
      requires Valid()
      modifies `freeFrames, `free, bitmap
      ensures Valid()
      ensures free == if frame in managed then old(free) + {frame} else old(free)
    {
      assert Open(BITS);
      if !ready || frame == 0 || frame >= totalFrames { return; }
      var used := BitmapTest(frame);
      if !used { return; }
      if Own(frame) { return; }
      GiveBack(frame);
    }

    /** The entry point takes a byte address and ignores one that is not page-aligned. */
    method FreeAddress(address: nat)
      requires Valid()
      modifies `freeFrames, `free, bitmap
      ensures Valid()
      ensures free == if address % PAGE == 0 && address / PAGE in managed then old(free) + {address / PAGE} else old(free)
    {
      if address % PAGE != 0 { return; }
      FreeFrame(address / PAGE);
    }

    // ---- initialisation -----------------------------------------------------------------

    /** Frees a run of frames, counting each one that was not free already. */
    method ClearRange(first: nat, count: nat)
      requires Reflected() && first + count <= totalFrames
      modifies bitmap, `free, `freeFrames
      ensures Reflected()
      ensures forall f :: f in free <==> f in old(free) || first <= f < first + count
      ensures freeFrames - |free| == old(freeFrames - |free|)
    {
      for i := 0 to count
        invariant Reflected()
        invariant forall f :: f in free <==> f in old(free) || first <= f < first + i
        invariant freeFrames - |free| == old(freeFrames - |free|)
      {
        var used := BitmapTest(first + i);
        if used { GiveBack(first + i); }
      }
    }

    /** Reserves a run of frames and leaves the counter alone. */
    method SetRange(first: nat, count: nat)
      requires Reflected() && first + count <= totalFrames
      modifies bitmap, `free
      ensures Reflected()
      ensures forall f :: f in free <==> f in old(free) && !(first <= f < first + count)
    {
      for i := 0 to count
        invariant Reflected()
        invariant forall f :: f in free <==> f in old(free) && !(first <= f < first + i)
      {
        BitmapSet(first + i);
      }
    }

    /** Frees the whole frames of every usable region. */
    method FreeUsable(regions: seq<Region>)
      requires Reflected() && free == {} && freeFrames == 0
      requires forall r | r in regions :: r.End() <= totalFrames
      modifies bitmap, `free, `freeFrames
      ensures Reflected() && freeFrames == |free|
      ensures forall f: nat :: f in free <==> Usable(regions, f)
    {
      for i := 0 to |regions|
        invariant Reflected() && freeFrames - |free| == old(freeFrames - |free|)
        invariant forall f: nat :: f in free <==> Usable(regions[..i], f)
      {
        var r := regions[i];
        assert regions[..i + 1] == regions[..i] + [r];
        forall f: nat { UsableSnoc(regions[..i], r, f); }
        if !r.usable || r.End() <= r.First() { continue; }
        ClearRange(r.First(), r.End() - r.First());
      }
      assert regions[..|regions|] == regions;
    }

    /** Every frame starts out used. */
    method MarkAllUsed()
      requires bitmapSize == (totalFrames + 7) / 8
      modifies `bitmap, `free, `freeFrames
      ensures Reflected() && fresh(bitmap) && free == {} && freeFrames == 0
    {
      bitmap := new bv8[bitmapSize](i => 0xFF);
      free := {};
      freeFrames := 0;
    }

    /** Takes the bitmap's own frames and frame 0 out of circulation; only frame 0 is uncounted. */
    method Reserve()
      requires Reflected() && freeFrames == |free|
      requires bitmapFrame != 0 && 0 < totalFrames
      requires bitmapFrame + BitmapFrames() <= totalFrames
      requires forall f | Own(f) :: f in free
      modifies bitmap, `free, `freeFrames
      ensures Reflected() && forall f :: f in free <==> f in old(free) && f != 0 && !Own(f)
      ensures freeFrames == |free| + BitmapFrames()
    {
      SetRange(bitmapFrame, BitmapFrames());
      CountRemoved(old(free), free, bitmapFrame, bitmapFrame + BitmapFrames());
      var used := BitmapTest(0);
      if !used { Take(0); }
    }

    method Publish()
      requires Reflected() && freeFrames == |free| + BitmapFrames()
      requires forall f | f in free :: f != 0 && !Own(f)
      modifies `ready, `managed
      ensures ready && Valid()
    {
      ready := true;
      managed := set f: nat | f < totalFrames && Managed(f);
    }

    /** Sets up the bit array, once its size and place are known. */
    method BuildBitmap(regions: seq<Region>)
      requires bitmapSize == (totalFrames + 7) / 8 && 0 < totalFrames && bitmapFrame != 0
      requires bitmapFrame + BitmapFrames() <= totalFrames
      requires (forall r | r in regions :: r.End() <= totalFrames) && forall f: nat | Own(f) :: Usable(regions, f)
      modifies `bitmap, `free, `freeFrames, `ready, `managed
      ensures ready && Valid() && fresh(bitmap)
      ensures forall f: nat :: f in free <==> Usable(regions, f) && f != 0 && !Own(f)
    {
      MarkAllUsed();
      FreeUsable(regions);
      Reserve();
      Publish();
    }

    /** The bit array covers every address of the map; it lives in the first usable region that
        is large enough, and frame 0 counts as "nowhere". Afterwards exactly the usable frames
        other than frame 0 and the bitmap's own are free. */
    method Init(regions: seq<Region>, responses: bool)
      requires Valid() && !ready
      requires NoOverflow(regions)
      modifies this
      ensures Valid()
      ensures if ready then fresh(bitmap) else bitmap == old(bitmap)
      ensures ready ==> forall f: nat :: f in free <==> Usable(regions, f) && f != 0 && !Own(f)
      ensures ready ==> 0 < BitmapFrames() && !Own(0) && forall f | Own(f) :: Usable(regions, f)
      ensures ready ==> forall r | r in regions :: r.base + r.length <= totalFrames * PAGE
      ensures ready <==> responses && HasPlace(regions, BitmapNeed(regions))
      ensures ready ==> totalFrames == MapFrames(regions) && BitmapFrames() == BitmapNeed(regions)
      ensures ready ==> PlacedAt(regions, BitmapNeed(regions), bitmapFrame)
    {
      if !responses { return; }
      var found := Measure(regions);
      if !found { return; }
      EndsBelow(regions);
      Below(regions, bitmapFrame + BitmapFrames() - 1);
      BuildBitmap(regions);
    }

    /** How many frames there are, how large the bitmap must be, and where it can be. */
    method Measure(regions: seq<Region>) returns (found: bool)
      requires NoOverflow(regions)
      modifies `totalFrames, `bitmapSize, `bitmapFrame
      ensures totalFrames == MapFrames(regions) && (found <==> HasPlace(regions, BitmapNeed(regions)))
      ensures found ==> bitmapSize == (totalFrames + 7) / 8 && 0 < totalFrames && bitmapFrame != 0
      ensures found ==> 0 < BitmapFrames() == BitmapNeed(regions) && PlacedAt(regions, BitmapNeed(regions), bitmapFrame)
      ensures found ==> forall f: nat | Own(f) :: Usable(regions, f)
    {
      var highest := HighestAddress(regions);
      totalFrames := (highest + (PAGE - 1)) / PAGE;
      if totalFrames == 0 {
        NoPlace(regions);
        return false;
      }
      bitmapSize := (totalFrames + 7) / 8;
      bitmapFrame := FindBitmapLocation(regions, BitmapFrames());
      return bitmapFrame != 0;
    }
  }

  /** Usable frames lie below the end of the map. */
  lemma Below(regions: seq<Region>, f: nat)
    requires Usable(regions, f)
    ensures f < MapFrames(regions)
  {
  }

  lemma EndsBelow(regions: seq<Region>)
    ensures forall r | r in regions :: r.End() <= MapFrames(regions) && r.base + r.length <= MapFrames(regions) * PAGE
  {
  }
}
