/** Page-table words: the 64-bit operations of kernel/mm/vmm/vmm.c against the entries of the model. */
module Words {
  import opened Paging
  import opened VirtualMemory
  import opened Cloning
  import opened CloneCheck

  const PRESENT: bv64 := 0x1
  const WRITABLE: bv64 := 0x2
  const USER: bv64 := 0x4
  const ACCESSED: bv64 := 0x20
  const DIRTY: bv64 := 0x40
  const HUGE: bv64 := 0x80
  const ADDRESS_MASK: bv64 := 0x000F_FFFF_FFFF_F000
  const REST: bv64 := !(0xE7 | ADDRESS_MASK)

  /** The fields of a word; `frame` is its address field in pages. */
  datatype Fields = Fields(present: bool, writable: bool, user: bool, accessed: bool, dirty: bool, huge: bool, frame: bv40, rest: bv64) {
    predicate Valid() { rest & !REST == 0 }
  }

  function Bit(b: bool, mask: bv64): bv64 { if b then mask else 0 }

  function Address(frame: bv40): bv64 { (frame as bv64) << 12 }

  function Pack(f: Fields): bv64 {
    Bit(f.present, PRESENT) | Bit(f.writable, WRITABLE) | Bit(f.user, USER) | Bit(f.accessed, ACCESSED)
    | Bit(f.dirty, DIRTY) | Bit(f.huge, HUGE) | Address(f.frame) | f.rest
  }

  function FrameField(w: bv64): bv40 { ((w >> 12) & 0xFF_FFFF_FFFF) as bv40 }

  function Unpack(w: bv64): Fields {
    Fields(w & PRESENT != 0, w & WRITABLE != 0, w & USER != 0, w & ACCESSED != 0, w & DIRTY != 0, w & HUGE != 0,
           FrameField(w), w & REST)
  }

  lemma PackUnpack(w: bv64)
    ensures Pack(Unpack(w)) == w && Unpack(w).Valid()
  {}

  lemma LowBits(f: Fields)
    requires f.Valid()
    ensures var g := Unpack(Pack(f)); g.present == f.present && g.writable == f.writable && g.user == f.user
  {}

  lemma HighBits(f: Fields)
    requires f.Valid()
    ensures var g := Unpack(Pack(f)); g.accessed == f.accessed && g.dirty == f.dirty && g.huge == f.huge
  {}

  lemma FrameBits(f: Fields)
    requires f.Valid()
    ensures FrameField(Pack(f)) == f.frame
  {}

  lemma RestBits(f: Fields)
    requires f.Valid()
    ensures Pack(f) & REST == f.rest
  {}

  lemma UnpackPack(f: Fields)
    requires f.Valid()
    ensures Unpack(Pack(f)) == f
  {
    LowBits(f);
    HighBits(f);
    FrameBits(f);
    RestBits(f);
  }

  // ---- the words the code builds ----------------------------------------------------------

  /** The word stored when a child table is created. */
  function TableWord(child: bv64, flags: bv64): bv64 { child | PRESENT | WRITABLE | (flags & USER) }

  lemma TableFields(frame: bv40, flags: bv64)
    ensures Unpack(TableWord(Address(frame), flags)) == Fields(true, true, flags & USER != 0, false, false, false, frame, 0)
  {}

  /** The word stored by a mapping. */
  function LeafWord(physical: bv64, flags: bv64): bv64 { (physical & ADDRESS_MASK) | PRESENT | (flags & (WRITABLE | USER)) }

  /** A page-aligned address: bits 63..52, which the mask drops, and the frame number. */
  function PhysicalWord(high: bv12, frame: bv40): bv64 { ((high as bv64) << 52) | Address(frame) }

  lemma LeafFields(high: bv12, frame: bv40, flags: bv64)
    ensures Unpack(LeafWord(PhysicalWord(high, frame), flags))
            == Fields(true, flags & WRITABLE != 0, flags & USER != 0, false, false, false, frame, 0)
  {}

  /** A cloned reference keeps everything but the address. */
  function CloneWord(entry: bv64, child: bv64): bv64 { child | (entry & !ADDRESS_MASK) }

  lemma CloneFields(entry: bv64, frame: bv40)
    ensures Unpack(CloneWord(entry, Address(frame))) == Unpack(entry).(frame := frame)
  {}

  function Masked(w: bv64): bv64 { w & !(ACCESSED | DIRTY) }

  function Unused(f: Fields): Fields { f.(accessed := false, dirty := false) }

  lemma MaskedFields(w: bv64)
    ensures Masked(w) == Pack(Unused(Unpack(w)))
  {}

  /** Comparing two words without the accessed and dirty bits compares all other fields. */
  lemma CompareFields(a: bv64, b: bv64)
    ensures Masked(a) == Masked(b) <==> Unused(Unpack(a)) == Unused(Unpack(b))
  {
    MaskedFields(a);
    MaskedFields(b);
    PackUnpack(a);
    PackUnpack(b);
    UnpackPack(Unused(Unpack(a)));
    UnpackPack(Unused(Unpack(b)));
  }

  // ---- words as numbers -------------------------------------------------------------------

  function LowBit(x: bv64): nat { if x & 1 == 1 then 1 else 0 }

  function Half(x: bv64): (y: bv64)
    ensures x == 0 ==> y == 0
    ensures x != 0 ==> y < x
  {
    x >> 1
  }

  function Number(x: bv64): nat
    decreases x
  {
    if x == 0 then 0 else 2 * Number(Half(x)) + LowBit(x)
  }

  lemma NumberStep(x: bv64)
    ensures Number(x) == 2 * Number(Half(x)) + LowBit(x)
  {}

  /** A word is its low bit and its half. */
  lemma Halves(a: bv64, b: bv64)
    ensures a == b <==> Half(a) == Half(b) && LowBit(a) == LowBit(b)
  {}

  lemma {:induction false} NumberZero(x: bv64)
    ensures Number(x) == 0 <==> x == 0
    decreases x
  {
    if x != 0 {
      NumberZero(Half(x));
      Halves(x, 0);
    }
  }

  /** Different words are different numbers. */
  lemma {:induction false} SameNumber(a: bv64, b: bv64)
    ensures Number(a) == Number(b) <==> a == b
    decreases a
  {
    if a == 0 {
      NumberZero(b);
    } else {
      NumberStep(a);
      NumberStep(b);
      SameNumber(Half(a), Half(b));
      Halves(a, b);
    }
  }

  /** Ten bits less are a factor of 1024. */
  lemma TenBits(x: bv64)
    ensures Number(x) <= 1024 * Number(x >> 10) + 1023
  {
    var a := Half(x);
    var b := Half(a);
    var c := Half(b);
    var d := Half(c);
    var e := Half(d);
    var f := Half(e);
    var g := Half(f);
    var h := Half(g);
    var i := Half(h);
    NumberStep(x); NumberStep(a); NumberStep(b); NumberStep(c); NumberStep(d);
    NumberStep(e); NumberStep(f); NumberStep(g); NumberStep(h); NumberStep(i);
    TenHalves(x);
  }

  lemma TenHalves(x: bv64)
    ensures Half(Half(Half(Half(Half(Half(Half(Half(Half(Half(x)))))))))) == x >> 10
  {}

  function FrameNumber(frame: bv40): nat { Number(frame as bv64) }

  lemma FrameBound(frame: bv40)
    ensures FrameNumber(frame) < 0x100_0000_0000
  {
    var x, a, b, c := Shifts(frame);
    FortyBits(x, a, b, c);
  }

  lemma Shifts(frame: bv40) returns (x: bv64, a: bv64, b: bv64, c: bv64)
    ensures x == frame as bv64 && a == x >> 10 && b == a >> 10 && c == b >> 10 && c >> 10 == 0
  {
    x := frame as bv64;
    a := x >> 10;
    b := a >> 10;
    c := b >> 10;
  }

  lemma FortyBits(x: bv64, a: bv64, b: bv64, c: bv64)
    requires a == x >> 10 && b == a >> 10 && c == b >> 10 && c >> 10 == 0
    ensures Number(x) < 0x100_0000_0000
  {
    ThirtyBits(c);
    ShorterBits(b, c, 1024);
    ShorterBits(a, b, 1024 * 1024);
    ShorterBits(x, a, 1024 * 1024 * 1024);
  }

  lemma ThirtyBits(x: bv64)
    requires x >> 10 == 0
    ensures Number(x) < 1024
  {
    TenBits(x);
  }

  lemma ShorterBits(x: bv64, y: bv64, bound: nat)
    requires y == x >> 10 && Number(y) < bound
    ensures Number(x) < 1024 * bound
  {
    TenBits(x);
  }

  lemma SameFrame(a: bv40, b: bv40)
    ensures FrameNumber(a) == FrameNumber(b) <==> a == b
  {
    SameNumber(a as bv64, b as bv64);
    Widened(a, b);
  }

  lemma Widened(a: bv40, b: bv40)
    ensures a as bv64 == b as bv64 <==> a == b
  {}

  // ---- the entries they mean --------------------------------------------------------------

  function ToEntry(f: Fields): Entry {
    Entry(f.present, f.writable, f.user, f.huge, f.accessed, f.dirty, Number(f.rest), FrameNumber(f.frame))
  }

  function EntryOf(w: bv64): Entry { ToEntry(Unpack(w)) }

  /** The flags a mapping may ask for, as a word and as a number. */
  predicate Asks(flags: bv64, n: nat) {
    (flags == 0 && n == 0) || (flags == 2 && n == 2) || (flags == 4 && n == 4) || (flags == 6 && n == 6)
  }

  lemma AskedBits(flags: bv64, n: nat)
    requires Asks(flags, n)
    ensures FlagsOk(n)
    ensures (flags & WRITABLE != 0 <==> n / 2 % 2 == 1) && (flags & USER != 0 <==> n / 4 % 2 == 1)
  {}

  lemma OnlyMiddleBits(flags: bv64)
    ensures flags & !(WRITABLE | USER) == 0 <==> Half(Half(Half(flags))) == 0 && LowBit(flags) == 0
    ensures flags & !(WRITABLE | USER) == 0 ==> flags == 0 || flags == 2 || flags == 4 || flags == 6
  {}

  /** Exactly the flags without any bit but writable and user are accepted. */
  lemma AskedExactly(flags: bv64)
    ensures flags & !(WRITABLE | USER) == 0 <==> FlagsOk(Number(flags))
    ensures FlagsOk(Number(flags)) <==> Asks(flags, Number(flags))
  {
    var a := Half(flags);
    var b := Half(a);
    NumberStep(flags); NumberStep(a); NumberStep(b);
    NumberZero(Half(b));
    OnlyMiddleBits(flags);
    SmallNumbers();
  }

  lemma SmallNumbers()
    ensures Number(0) == 0 && Number(2) == 2 && Number(4) == 4 && Number(6) == 6
  {
    NumberStep(1); NumberStep(2); NumberStep(3); NumberStep(4); NumberStep(6);
    assert Half(1) == 0 && Half(2) == 1 && Half(3) == 1 && Half(4) == 2 && Half(6) == 3;
  }

  lemma TableParts(user: bool, frame: bv40, n: nat)
    requires user <==> n / 4 % 2 == 1
    ensures ToEntry(Fields(true, true, user, false, false, false, frame, 0)) == TableEntry(FrameNumber(frame), n)
  {}

  /** The word of a new table is the model's table entry. */
  lemma TableEntryWord(frame: bv40, flags: bv64, n: nat)
    requires Asks(flags, n)
    ensures EntryOf(TableWord(Address(frame), flags)) == TableEntry(FrameNumber(frame), n)
  {
    TableFields(frame, flags);
    AskedBits(flags, n);
    TableParts(flags & USER != 0, frame, n);
  }

  lemma LeafFrame(high: nat, frame: nat)
    requires frame < 0x100_0000_0000
    ensures (high * 0x100_0000_0000 + frame) * 0x1000 / 0x1000 % 0x100_0000_0000 == frame
  {
    var pages := high * 0x100_0000_0000 + frame;
    assert pages * 0x1000 / 0x1000 == pages;
  }

  lemma LeafParts(writable: bool, user: bool, high: bv12, frame: bv40, n: nat)
    requires (writable <==> n / 2 % 2 == 1) && (user <==> n / 4 % 2 == 1)
    ensures ToEntry(Fields(true, writable, user, false, false, false, frame, 0))
            == LeafEntry((Number(high as bv64) * 0x100_0000_0000 + FrameNumber(frame)) * 0x1000, n)
  {
    FrameBound(frame);
    LeafFrame(Number(high as bv64), FrameNumber(frame));
  }

  /** The word of a mapping is the model's leaf entry, for every page-aligned physical address. */
  lemma LeafEntryWord(high: bv12, frame: bv40, flags: bv64, n: nat)
    requires Asks(flags, n)
    ensures EntryOf(LeafWord(PhysicalWord(high, frame), flags))
            == LeafEntry((Number(high as bv64) * 0x100_0000_0000 + FrameNumber(frame)) * 0x1000, n)
  {
    LeafFields(high, frame, flags);
    AskedBits(flags, n);
    LeafParts(flags & WRITABLE != 0, flags & USER != 0, high, frame, n);
  }

  /** A cloned word is the model's entry with another frame. */
  lemma CloneEntryWord(entry: bv64, frame: bv40)
    ensures EntryOf(CloneWord(entry, Address(frame))) == WithFrame(EntryOf(entry), FrameNumber(frame))
  {
    CloneFields(entry, frame);
  }

  lemma SameFields(f: Fields, g: Fields)
    ensures Unused(f) == Unused(g) <==> SameLeaf(ToEntry(f), ToEntry(g))
  {
    SameNumber(f.rest, g.rest);
    SameFrame(f.frame, g.frame);
  }

  /** The masked comparison of two words is the model's comparison of entries. */
  lemma CompareEntryWords(a: bv64, b: bv64)
    ensures Masked(a) == Masked(b) <==> SameLeaf(EntryOf(a), EntryOf(b))
  {
    CompareFields(a, b);
    SameFields(Unpack(a), Unpack(b));
  }

  /** Words mean the same entry only if they are the same word. */
  lemma EntryInjective(a: bv64, b: bv64)
    ensures EntryOf(a) == EntryOf(b) <==> a == b
  {
    PackUnpack(a);
    PackUnpack(b);
    SameNumber(Unpack(a).rest, Unpack(b).rest);
    SameFrame(Unpack(a).frame, Unpack(b).frame);
  }
}
