/** Process-image addresses: single bits inside an address record, and the layout of all records. */
module IoMap {
  import opened Basics

  class IoAddress {
    const bitlen: byte
    var ioOffset: byte
    var ioBitpos: byte
    var u8: bv8

    constructor (bitlen: byte)
      ensures this.bitlen == bitlen
    {
      this.bitlen := bitlen;
    }

    function Where(): (byte, byte)
      reads this
    {
      (ioOffset, ioBitpos)
    }

    /** The bit the record addresses. */
    function GetIoBit(): byte
      reads this
      requires ioBitpos < 8
    {
      if HasBit(u8, ioBitpos) then 1 else 0
    }

    /** The assertion that follows this in the code, that the bit reads back as the value written, holds
        exactly for the values 0 and 1. */
    method SetIoBit(val: byte)
      requires ioBitpos < 8
      modifies `u8
      ensures u8 == WithBit(old(u8), ioBitpos, val != 0)
      ensures GetIoBit() == val <==> val < 2
    {
      BitReadsBack(u8, ioBitpos, val != 0, ioBitpos);
      if val != 0 {
        u8 := u8 | Mask(ioBitpos);
      } else {
        u8 := u8 & !Mask(ioBitpos);
      }
    }
  }

  predicate HasBit(u: bv8, p: byte)
    requires p < 8
  {
    u & Mask(p) != 0
  }

  /** One shifted left `p` places. */
  function Mask(p: byte): bv8
    requires p < 8
  {
    if p == 0 then 1 else if p == 1 then 2 else if p == 2 then 4 else if p == 3 then 8
    else if p == 4 then 16 else if p == 5 then 32 else if p == 6 then 64 else 128
  }

  function WithBit(u: bv8, p: byte, value: bool): bv8
    requires p < 8
  {
    if value then u | Mask(p) else u & !Mask(p)
  }

  lemma WithBitShifts(u: bv8, p: byte, value: bool)
    requires p < 8
    ensures WithBit(u, p, value) == if value then u | (1 as bv8 << p) else u & !(1 as bv8 << p)
  {
  }

  /** A write sets the addressed bit to the value and leaves every other bit alone. */
  lemma BitReadsBack(u: bv8, p: byte, value: bool, q: byte)
    requires p < 8 && q < 8
    ensures HasBit(WithBit(u, p, value), q) <==> if q == p then value else HasBit(u, q)
  {
  }

  /* ---- layout ---- */

  /** The running totals of the allocator: bits used in the open bit byte, that byte, whole bytes so
      far, and the next unused byte. */
  datatype Totals = Totals(bits: nat, bitOffset: nat, bytes: nat, byteOffset: nat)

  datatype Slot = NoSlot | Slot(offset: nat, bitpos: byte, width: nat)

  function Bytes(bitlen: byte): nat {
    if bitlen == 8 then 1 else if bitlen == 16 then 2 else if bitlen == 32 then 4 else 0
  }

  function SlotAt(t: Totals, bitlen: byte): Slot {
    if bitlen == 1 then Slot(if t.bits == 0 then t.byteOffset else t.bitOffset, t.bits % 8, 1)
    else if Bytes(bitlen) > 0 then Slot(t.byteOffset, 0, 8 * Bytes(bitlen))
    else NoSlot
  }

  function Advance(t: Totals, bitlen: byte): Totals {
    if bitlen == 1 then
      var at := SlotAt(t, 1).offset;
      var next := if t.bits == 0 then t.byteOffset + 1 else t.byteOffset;
      if (t.bits + 1) % 8 == 0 then Totals(0, at + 1, t.bytes, next) else Totals(t.bits + 1, at, t.bytes, next)
    else t.(bytes := t.bytes + Bytes(bitlen), byteOffset := t.byteOffset + Bytes(bitlen))
  }

  function After(lens: seq<byte>, i: nat): Totals
    requires i <= |lens|
  {
    if i == 0 then Totals(0, 0, 0, 0) else Advance(After(lens, i - 1), lens[i - 1])
  }

  /** Where item `i` goes. */
  function Placed(lens: seq<byte>, i: nat): Slot
    requires i < |lens|
  {
    SlotAt(After(lens, i), lens[i])
  }

  /** The number of bytes that are allocated for the map. */
  function MapLength(lens: seq<byte>): nat {
    After(lens, |lens|).bits / 8 + 1 + After(lens, |lens|).bytes
  }

  /** What an address record holds after its item was placed; offsets are stored in eight bits. */
  function Address(slot: Slot, was: (byte, byte)): (byte, byte) {
    if slot.Slot? then (slot.offset % 0x100, slot.bitpos) else was
  }

  /** The record of item `i` is not listed again after it. */
  ghost predicate LastListed(items: seq<IoAddress>, i: nat, n: nat)
    requires i < n <= |items|
  {
    forall j :: i < j < n ==> items[j] != items[i]
  }

  /** A record that is listed more than once gets an address each time, and keeps the last one. */
  method CreateIoMap(items: seq<IoAddress>) returns (len: nat)
    modifies items
    ensures len == MapLength(Lengths(items))
    ensures Values(items) == old(Values(items))
    ensures forall i :: 0 <= i < |items| && LastListed(items, i, |items|) ==>
      var slot := Placed(Lengths(items), i);
      if slot.Slot? then items[i].ioOffset == slot.offset % 0x100 && items[i].ioBitpos == slot.bitpos
      else Wheres(items)[i] == old(Wheres(items))[i]
    ensures StartsFit(Lengths(items)) ==>
      forall i, j, x :: 0 <= i < |items| && 0 <= j < |items| && items[i] != items[j] ==>
        !(HoldsBit(items[i], x) && HoldsBit(items[j], x))
  {
    hide Advance, Placed, SlotAt, Bytes, Addressed, Values, Wheres, StartsFit, HoldsBit;
    ghost var lens := Lengths(items);
    ghost var was := Wheres(items);
    NothingAddressed(items, lens, was);
    var bits, bitOffset, bytes, byteOffset := 0, 0, 0, 0;
    for k := 0 to |items|
      invariant Totals(bits, bitOffset, bytes, byteOffset) == After(lens, k)
      invariant Values(items) == old(Values(items))
      invariant Addressed(items, lens, was, Wheres(items), k)
    {
      ghost var before := Wheres(items);
      bits, bitOffset, bytes, byteOffset := PlaceListed(items, k, bits, bitOffset, bytes, byteOffset);
      AddressedNext(items, lens, was, before, Wheres(items), k);
    }
    len := bits / 8 + 1 + bytes;
    AllAddressed(items, lens, was, Wheres(items));
    Recorded(items, was);
    if StartsFit(lens) {
      forall i, j, x | 0 <= i < |items| && 0 <= j < |items| && items[i] != items[j]
        ensures !(HoldsBit(items[i], x) && HoldsBit(items[j], x))
      {
        RecordsAreDisjoint(items, i, j, x);
      }
    }
  }

  /** Bit `x` of the map is one of those that the record addresses. */
  ghost predicate HoldsBit(item: IoAddress, x: int)
    reads item
  {
    && (item.bitlen == 1 || item.bitlen == 8 || item.bitlen == 16 || item.bitlen == 32)
    && 8 * item.ioOffset + item.ioBitpos <= x < 8 * item.ioOffset + item.ioBitpos + item.bitlen
  }

  /** The records of the items have the addresses of their last listings. */
  ghost predicate AddressesRecorded(items: seq<IoAddress>)
    reads items
  {
    forall i :: 0 <= i < |items| && LastListed(items, i, |items|) && Placed(Lengths(items), i).Slot? ==>
      && items[i].ioOffset == Placed(Lengths(items), i).offset % 0x100
      && items[i].ioBitpos == Placed(Lengths(items), i).bitpos
  }

  lemma Recorded(items: seq<IoAddress>, was: seq<(byte, byte)>)
    requires |was| == |items|
    requires forall i :: 0 <= i < |items| && LastListed(items, i, |items|) ==>
      Wheres(items)[i] == Address(Placed(Lengths(items), i), was[i])
    ensures AddressesRecorded(items)
    ensures forall i :: 0 <= i < |items| && LastListed(items, i, |items|) && !Placed(Lengths(items), i).Slot? ==>
      Wheres(items)[i] == was[i]
  {
    hide Placed;
    forall i | 0 <= i < |items| && LastListed(items, i, |items|)
      ensures items[i].Where() == Address(Placed(Lengths(items), i), was[i])
    {
      assert Wheres(items)[i] == items[i].Where();
    }
  }

  lemma {:induction false} LastListing(items: seq<IoAddress>, i: nat, n: nat) returns (l: nat)
    requires i < n <= |items|
    ensures l < n && items[l] == items[i] && LastListed(items, l, n)
    decreases n
  {
    if items[n - 1] == items[i] {
      l := n - 1;
    } else {
      l := LastListing(items, i, n - 1);
    }
  }

  lemma RecordIsSlot(items: seq<IoAddress>, l: nat, x: int)
    requires AddressesRecorded(items) && StartsFit(Lengths(items)) && l < |items| && LastListed(items, l, |items|)
    ensures HoldsBit(items[l], x) ==> Covers(Placed(Lengths(items), l), x)
  {
    var lens := Lengths(items);
    RecordedAt(items, l);
    SlotWidth(lens, l);
    hide *;
    SmallOffset(lens, l);
    AddressedBits(items[l], Placed(lens, l), x);
  }

  lemma RecordedAt(items: seq<IoAddress>, l: nat)
    requires AddressesRecorded(items) && l < |items| && LastListed(items, l, |items|)
    ensures Lengths(items)[l] == items[l].bitlen
    ensures Placed(Lengths(items), l).Slot? ==>
      && items[l].ioOffset == Placed(Lengths(items), l).offset % 0x100
      && items[l].ioBitpos == Placed(Lengths(items), l).bitpos
  {
    hide Placed;
  }

  lemma SmallOffset(lens: seq<byte>, l: nat)
    requires StartsFit(lens) && l < |lens|
    ensures Placed(lens, l).Slot? ==> Placed(lens, l).offset < 0x100
  {
    hide Placed, StartsFit;
    StartsFitIffOffsetsFit(lens);
  }

  lemma AddressedBits(item: IoAddress, slot: Slot, x: int)
    requires slot.Slot? <==> item.bitlen == 1 || item.bitlen == 8 || item.bitlen == 16 || item.bitlen == 32
    requires slot.Slot? ==> slot.width == item.bitlen && item.ioOffset == slot.offset && item.ioBitpos == slot.bitpos
    ensures HoldsBit(item, x) ==> Covers(slot, x)
  {
  }

  /** While no byte begins at 256 or beyond, two records never address the same bit. */
  lemma RecordsAreDisjoint(items: seq<IoAddress>, i: nat, j: nat, x: int)
    requires AddressesRecorded(items) && StartsFit(Lengths(items))
    requires i < |items| && j < |items| && items[i] != items[j]
    ensures !(HoldsBit(items[i], x) && HoldsBit(items[j], x))
  {
    hide AddressesRecorded, HoldsBit, Covers, Placed, StartsFit;
    var l := LastListing(items, i, |items|);
    var k := LastListing(items, j, |items|);
    RecordIsSlot(items, l, x);
    RecordIsSlot(items, k, x);
    SlotsAreDisjoint(Lengths(items), l, k, x);
  }

  /** Item `k` is placed; its record is the only one that changes, wherever it is listed. */
  method PlaceListed(items: seq<IoAddress>, k: nat, bits: nat, bitOffset: nat, bytes: nat, byteOffset: nat)
    returns (bits': nat, bitOffset': nat, bytes': nat, byteOffset': nat)
    requires k < |items| && Totals(bits, bitOffset, bytes, byteOffset) == After(Lengths(items), k)
    modifies items
    ensures Totals(bits', bitOffset', bytes', byteOffset') == After(Lengths(items), k + 1)
    ensures Values(items) == old(Values(items))
    ensures forall i :: 0 <= i < |items| ==>
      var was := old(Wheres(items))[i];
      Wheres(items)[i] == if items[i] == items[k] then Address(Placed(Lengths(items), k), was) else was
  {
    hide Advance, SlotAt, Address;
    bits', bitOffset', bytes', byteOffset' := PlaceItem(items[k], bits, bitOffset, bytes, byteOffset);
  }

  /** The addresses after the first `k` items were placed. */
  ghost predicate Addressed(items: seq<IoAddress>, lens: seq<byte>, was: seq<(byte, byte)>, now: seq<(byte, byte)>,
                            k: nat)
  {
    && |lens| == |was| == |now| == |items| && k <= |items|
    && (forall i :: 0 <= i < k && LastListed(items, i, k) ==> now[i] == Address(Placed(lens, i), was[i]))
    && (forall i :: 0 <= i < |items| && !HasSlot(lens[i]) ==> now[i] == was[i])
  }

  lemma NothingAddressed(items: seq<IoAddress>, lens: seq<byte>, was: seq<(byte, byte)>)
    requires |lens| == |was| == |items|
    ensures Addressed(items, lens, was, was, 0)
  {
  }

  lemma AllAddressed(items: seq<IoAddress>, lens: seq<byte>, was: seq<(byte, byte)>, now: seq<(byte, byte)>)
    requires Addressed(items, lens, was, now, |items|)
    ensures |lens| == |was| == |now| == |items|
    ensures forall i :: 0 <= i < |items| && LastListed(items, i, |items|) ==> now[i] == Address(Placed(lens, i), was[i])
  {
  }

  /** Placing item `k` gives its record, under whatever other numbers it is listed, the new address. */
  lemma AddressedNext(items: seq<IoAddress>, lens: seq<byte>, was: seq<(byte, byte)>, before: seq<(byte, byte)>,
                      now: seq<(byte, byte)>, k: nat)
    requires Addressed(items, lens, was, before, k) && k < |items| == |now| && lens == Lengths(items)
    requires forall i :: 0 <= i < |items| ==>
      now[i] == if items[i] == items[k] then Address(Placed(lens, k), before[i]) else before[i]
    ensures Addressed(items, lens, was, now, k + 1)
  {
    SlotIffWidth(After(lens, k), lens[k]);
    hide Placed, SlotAt, HasSlot;
    forall i | 0 <= i < |items| && !HasSlot(lens[i])
      ensures now[i] == was[i]
    {
      if items[i] == items[k] {
        assert lens[i] == lens[k];
      }
    }
    forall i | 0 <= i < k + 1 && LastListed(items, i, k + 1)
      ensures now[i] == Address(Placed(lens, i), was[i])
    {
      OneAddressed(items, lens, was, before, k, i);
    }
  }

  lemma OneAddressed(items: seq<IoAddress>, lens: seq<byte>, was: seq<(byte, byte)>, before: seq<(byte, byte)>,
                     k: nat, i: nat)
    requires Addressed(items, lens, was, before, k) && i <= k < |items| && LastListed(items, i, k + 1)
    requires lens == Lengths(items)
    ensures i < k ==> items[i] != items[k] && before[i] == Address(Placed(lens, i), was[i])
    ensures i == k ==> Address(Placed(lens, k), before[k]) == Address(Placed(lens, k), was[k])
  {
    if i < k {
      hide Placed, Address;
      assert items[k] != items[i] && LastListed(items, i, k);
    } else {
      SlotIffWidth(After(lens, k), lens[k]);
      hide SlotAt, HasSlot;
    }
  }

  predicate HasSlot(bitlen: byte) {
    bitlen == 1 || bitlen == 8 || bitlen == 16 || bitlen == 32
  }

  lemma SlotIffWidth(t: Totals, bitlen: byte)
    ensures SlotAt(t, bitlen).Slot? <==> HasSlot(bitlen)
  {
  }

  ghost function Wheres(items: seq<IoAddress>): (w: seq<(byte, byte)>)
    reads items
    ensures |w| == |items|
  {
    seq(|items|, i requires 0 <= i < |items| reads items => items[i].Where())
  }

  ghost function Values(items: seq<IoAddress>): (v: seq<bv8>)
    reads items
    ensures |v| == |items|
  {
    seq(|items|, i requires 0 <= i < |items| reads items => items[i].u8)
  }

  ghost function Lengths(items: seq<IoAddress>): (lens: seq<byte>)
    ensures |lens| == |items|
  {
    seq(|items|, i requires 0 <= i < |items| => items[i].bitlen)
  }

  /** The loop body: one item is given its address and the totals move on. */
  method PlaceItem(item: IoAddress, bits: nat, bitOffset: nat, bytes: nat, byteOffset: nat)
    returns (bits': nat, bitOffset': nat, bytes': nat, byteOffset': nat)
    modifies item`ioOffset, item`ioBitpos
    ensures var t := Totals(bits, bitOffset, bytes, byteOffset);
      && Totals(bits', bitOffset', bytes', byteOffset') == Advance(t, item.bitlen)
      && item.Where() == Address(SlotAt(t, item.bitlen), old(item.Where()))
  {
    bits', bitOffset', bytes', byteOffset' := bits, bitOffset, bytes, byteOffset;
    if item.bitlen == 1 {
      if bits' == 0 {
        bitOffset' := byteOffset';
        byteOffset' := byteOffset' + 1;
      }
      item.ioOffset := bitOffset' % 0x100;
      item.ioBitpos := bits' % 8;
      bits' := bits' + 1;
      if bits' % 8 == 0 {
        bitOffset' := bitOffset' + 1;
        bits' := 0;
      }
    } else if item.bitlen == 8 {
      bytes' := bytes' + 1;
      item.ioOffset := byteOffset' % 0x100;
      item.ioBitpos := 0;
      byteOffset' := byteOffset' + 1;
    } else if item.bitlen == 16 {
      bytes' := bytes' + 2;
      item.ioOffset := byteOffset' % 0x100;
      item.ioBitpos := 0;
      byteOffset' := byteOffset' + 2;
    } else if item.bitlen == 32 {
      bytes' := bytes' + 4;
      item.ioOffset := byteOffset' % 0x100;
      item.ioBitpos := 0;
      byteOffset' := byteOffset' + 4;
    }
  }

  /* ---- what the layout promises ---- */

  /** An item gets as many bits as it has, if it is of a width that gets any. */
  lemma SlotWidth(lens: seq<byte>, i: nat)
    requires i < |lens|
    ensures Placed(lens, i).Slot? <==> lens[i] == 1 || lens[i] == 8 || lens[i] == 16 || lens[i] == 32
    ensures Placed(lens, i).Slot? ==> Placed(lens, i).width == lens[i]
    ensures Placed(lens, i).Slot? && lens[i] != 1 ==> Placed(lens, i).bitpos == 0
  {
  }

  /** Bit `x` of the map belongs to the slot. */
  ghost predicate Covers(slot: Slot, x: int) {
    slot.Slot? && 8 * slot.offset + slot.bitpos <= x < 8 * slot.offset + slot.bitpos + slot.width
  }

  /** Bit `x` can still be given to a later item. */
  ghost predicate Free(t: Totals, x: int) {
    x >= 8 * t.byteOffset || (t.bits > 0 && 8 * t.bitOffset + t.bits <= x < 8 * t.bitOffset + 8)
  }

  ghost predicate Sane(t: Totals) {
    t.bits < 8 && (t.bits > 0 ==> t.bitOffset < t.byteOffset)
  }

  lemma {:induction false} SaneAfter(lens: seq<byte>, i: nat)
    requires i <= |lens|
    ensures Sane(After(lens, i))
  {
    if i > 0 {
      SaneAfter(lens, i - 1);
    }
  }

  /** An item takes free bits, which are then no longer free. */
  lemma TakesFree(t: Totals, bitlen: byte, x: int)
    requires Sane(t)
    ensures Covers(SlotAt(t, bitlen), x) ==> Free(t, x) && !Free(Advance(t, bitlen), x)
    ensures Covers(SlotAt(t, bitlen), x) ==> x < 8 * Advance(t, bitlen).byteOffset
    ensures Free(Advance(t, bitlen), x) ==> Free(t, x)
    ensures t.byteOffset <= Advance(t, bitlen).byteOffset
  {
  }

  lemma {:induction false} FreeShrinks(lens: seq<byte>, i: nat, j: nat, x: int)
    requires i <= j <= |lens|
    ensures Free(After(lens, j), x) ==> Free(After(lens, i), x)
    ensures After(lens, i).byteOffset <= After(lens, j).byteOffset
    decreases j - i
  {
    if i < j {
      SaneAfter(lens, j - 1);
      TakesFree(After(lens, j - 1), lens[j - 1], x);
      FreeShrinks(lens, i, j - 1, x);
    }
  }

  /** No bit of the map is given to two items, and all of them lie below the final byte offset. */
  lemma SlotsAreDisjoint(lens: seq<byte>, i: nat, j: nat, x: int)
    requires i < |lens| && j < |lens| && i != j
    ensures !(Covers(Placed(lens, i), x) && Covers(Placed(lens, j), x))
    ensures Covers(Placed(lens, i), x) ==> 0 <= x < 8 * After(lens, |lens|).byteOffset
  {
    SaneAfter(lens, i);
    SaneAfter(lens, j);
    TakesFree(After(lens, i), lens[i], x);
    TakesFree(After(lens, j), lens[j], x);
    FreeShrinks(lens, i + 1, |lens|, x);
    if i < j {
      FreeShrinks(lens, i + 1, j, x);
    } else {
      FreeShrinks(lens, j + 1, i, x);
    }
  }

  /** In numbers: two items never share a bit when each occupies as many as it has. */
  lemma ItemsShareNoBit(lens: seq<byte>, i: nat, j: nat)
    requires i < |lens| && j < |lens| && i != j
    requires Placed(lens, i).Slot? && Placed(lens, j).Slot?
    ensures var a := 8 * Placed(lens, i).offset + Placed(lens, i).bitpos;
      var b := 8 * Placed(lens, j).offset + Placed(lens, j).bitpos;
      a + lens[i] <= b || b + lens[j] <= a
  {
    SlotWidth(lens, i);
    SlotWidth(lens, j);
    var a := 8 * Placed(lens, i).offset + Placed(lens, i).bitpos;
    var b := 8 * Placed(lens, j).offset + Placed(lens, j).bitpos;
    SlotsAreDisjoint(lens, i, j, a);
    SlotsAreDisjoint(lens, i, j, b);
    hide Placed;
  }

  ghost function Ones(lens: seq<byte>, i: nat): nat
    requires i <= |lens|
  {
    if i == 0 then 0 else Ones(lens, i - 1) + if lens[i - 1] == 1 then 1 else 0
  }

  ghost function WholeBytes(lens: seq<byte>, i: nat): nat
    requires i <= |lens|
  {
    if i == 0 then 0 else WholeBytes(lens, i - 1) + Bytes(lens[i - 1])
  }

  /** The bytes in front of item `i`: those of whole-byte items, and one for every started group of bits. */
  ghost function BytesBefore(lens: seq<byte>, i: nat): nat
    requires i <= |lens|
  {
    WholeBytes(lens, i) + (Ones(lens, i) + 7) / 8
  }

  /** The bits of the whole-byte items. */
  ghost function WholeBits(lens: seq<byte>, i: nat): nat
    requires i <= |lens|
  {
    if i == 0 then 0
    else WholeBits(lens, i - 1) + if lens[i - 1] == 8 || lens[i - 1] == 16 || lens[i - 1] == 32 then lens[i - 1] else 0
  }

  lemma {:induction false} WholeBytesHoldBits(lens: seq<byte>, i: nat)
    requires i <= |lens|
    ensures 8 * WholeBytes(lens, i) == WholeBits(lens, i)
  {
    if i > 0 {
      WholeBytesHoldBits(lens, i - 1);
    }
  }

  lemma NextGroup(n: nat)
    ensures (n + 8) / 8 == (n + 7) / 8 + if n % 8 == 0 then 1 else 0
    ensures (n + 1) % 8 == if n % 8 == 7 then 0 else n % 8 + 1
    ensures (n % 8 + 1) % 8 == (n + 1) % 8
  {
  }

  /** The size of the image: the whole bytes, and one byte for every started group of eight bits. */
  lemma {:induction false} ImageSize(lens: seq<byte>, i: nat)
    requires i <= |lens|
    ensures After(lens, i).bytes == WholeBytes(lens, i)
    ensures After(lens, i).bits == Ones(lens, i) % 8
    ensures After(lens, i).byteOffset == BytesBefore(lens, i)
  {
    if i > 0 {
      ImageSize(lens, i - 1);
      NextGroup(Ones(lens, i - 1));
    }
  }

  /** The same in bits: those of the whole-byte items, and eight for every started group. */
  lemma ImageBits(lens: seq<byte>)
    ensures 8 * After(lens, |lens|).byteOffset == WholeBits(lens, |lens|) + 8 * ((Ones(lens, |lens|) + 7) / 8)
    ensures 8 * MapLength(lens) == WholeBits(lens, |lens|) + 8
  {
    ImageSize(lens, |lens|);
    WholeBytesHoldBits(lens, |lens|);
  }

  /** The allocated length counts one byte for all bits together, so it covers the image exactly when
      there are at most eight of them. */
  lemma LengthCoversIffEightBits(lens: seq<byte>)
    ensures After(lens, |lens|).byteOffset <= MapLength(lens) <==> Ones(lens, |lens|) <= 8
  {
    ImageSize(lens, |lens|);
  }

  /* ---- eight-bit offsets ---- */

  /** What is stored in the address record. */
  ghost function Stored(slot: Slot): Slot {
    if slot.Slot? then slot.(offset := slot.offset % 0x100) else slot
  }

  ghost predicate StoredDisjoint(lens: seq<byte>) {
    forall i, j, x :: 0 <= i < j < |lens| ==>
      !(Covers(Stored(Placed(lens, i)), x) && Covers(Stored(Placed(lens, j)), x))
  }

  /** Item `i` begins a byte of its own: it is a whole-byte item, or the first bit of a group of eight. */
  ghost predicate OpensByte(lens: seq<byte>, i: nat)
    requires i < |lens|
  {
    Bytes(lens[i]) > 0 || (lens[i] == 1 && Ones(lens, i) % 8 == 0)
  }

  /** No byte is begun at 256 or beyond. */
  ghost predicate StartsFit(lens: seq<byte>) {
    forall i :: 0 <= i < |lens| && OpensByte(lens, i) ==> BytesBefore(lens, i) < 0x100
  }

  /** What that means for the allocator: every item's offset fits in eight bits. */
  ghost predicate OffsetsFit(lens: seq<byte>) {
    forall i :: 0 <= i < |lens| && Placed(lens, i).Slot? ==> Placed(lens, i).offset < 0x100
  }

  lemma OpenerOffset(lens: seq<byte>, i: nat)
    requires i < |lens| && OpensByte(lens, i)
    ensures Placed(lens, i).Slot? && Placed(lens, i).offset == BytesBefore(lens, i)
  {
    ImageSize(lens, i);
  }

  /** A bit that joins an open byte has the offset of the bit that opened it. */
  lemma {:induction false} OpenByteFits(lens: seq<byte>, i: nat)
    requires i <= |lens| && StartsFit(lens)
    ensures After(lens, i).bits > 0 ==> After(lens, i).bitOffset < 0x100
  {
    if i > 0 {
      OpenByteFits(lens, i - 1);
      ImageSize(lens, i - 1);
      if OpensByte(lens, i - 1) {
        OpenerOffset(lens, i - 1);
        assert BytesBefore(lens, i - 1) < 0x100;
      }
    }
  }

  lemma StartsFitIffOffsetsFit(lens: seq<byte>)
    ensures StartsFit(lens) <==> OffsetsFit(lens)
  {
    if StartsFit(lens) {
      forall i | 0 <= i < |lens| && Placed(lens, i).Slot?
        ensures Placed(lens, i).offset < 0x100
      {
        if OpensByte(lens, i) {
          OpenerOffset(lens, i);
        } else {
          ImageSize(lens, i);
          OpenByteFits(lens, i);
        }
      }
    }
    if OffsetsFit(lens) {
      forall i | 0 <= i < |lens| && OpensByte(lens, i)
        ensures BytesBefore(lens, i) < 0x100
      {
        OpenerOffset(lens, i);
      }
    }
  }

  /** The first bit of every byte of the image is in use. */
  lemma {:induction false} FirstBitUsed(lens: seq<byte>, i: nat, b: nat) returns (j: nat)
    requires i <= |lens| && b < After(lens, i).byteOffset
    ensures j < i && Covers(Placed(lens, j), 8 * b)
  {
    SaneAfter(lens, i - 1);
    if b < After(lens, i - 1).byteOffset {
      j := FirstBitUsed(lens, i - 1, b);
    } else {
      j := i - 1;
    }
  }

  /** An item that opens at byte 256 or beyond wraps onto an earlier item. */
  lemma {:induction false} WrappedCollides(lens: seq<byte>, i: nat)
    requires i < |lens| && Placed(lens, i).Slot? && Placed(lens, i).offset >= 0x100
    requires forall j :: 0 <= j < i && Placed(lens, j).Slot? ==> Placed(lens, j).offset < 0x100
    ensures !StoredDisjoint(lens)
  {
    var o := Placed(lens, i).offset;
    SaneAfter(lens, i);
    BelowLimit(lens, i);
    var t := o - 0x100;
    var j := FirstBitUsed(lens, i, t);
    assert Covers(Stored(Placed(lens, j)), 8 * t) && Covers(Stored(Placed(lens, i)), 8 * t);
  }

  /** While all offsets fit, the next unused byte is at most four beyond the last start. */
  lemma {:induction false} BelowLimit(lens: seq<byte>, i: nat)
    requires i <= |lens|
    requires forall j :: 0 <= j < i && Placed(lens, j).Slot? ==> Placed(lens, j).offset < 0x100
    ensures After(lens, i).byteOffset < 0x104
    ensures After(lens, i).bits > 0 ==> After(lens, i).bitOffset < 0x100
  {
    if i > 0 {
      BelowLimit(lens, i - 1);
      assert Placed(lens, i - 1).Slot? ==> Placed(lens, i - 1).offset < 0x100;
    }
  }

  lemma {:induction false} SomeWrapCollides(lens: seq<byte>, n: nat)
    requires n <= |lens|
    requires exists i :: 0 <= i < n && Placed(lens, i).Slot? && Placed(lens, i).offset >= 0x100
    ensures !StoredDisjoint(lens)
  {
    if i :| 0 <= i < n - 1 && Placed(lens, i).Slot? && Placed(lens, i).offset >= 0x100 {
      SomeWrapCollides(lens, n - 1);
    } else {
      WrappedCollides(lens, n - 1);
    }
  }

  /** The stored addresses are disjoint exactly when no byte is begun at 256 or beyond. */
  lemma StoredDisjointIffStartsFit(lens: seq<byte>)
    ensures StoredDisjoint(lens) <==> StartsFit(lens)
  {
    StartsFitIffOffsetsFit(lens);
    if OffsetsFit(lens) {
      forall i, j, x | 0 <= i < j < |lens|
        ensures !(Covers(Stored(Placed(lens, i)), x) && Covers(Stored(Placed(lens, j)), x))
      {
        assert Stored(Placed(lens, i)) == Placed(lens, i) && Stored(Placed(lens, j)) == Placed(lens, j);
        SlotsAreDisjoint(lens, i, j, x);
      }
    } else {
      SomeWrapCollides(lens, |lens|);
    }
  }

  lemma {:induction false} BytesBeforeGrows(lens: seq<byte>, i: nat, j: nat)
    requires i <= j <= |lens|
    ensures WholeBytes(lens, i) <= WholeBytes(lens, j) && Ones(lens, i) <= Ones(lens, j)
    decreases j - i
  {
    if i < j {
      BytesBeforeGrows(lens, i, j - 1);
    }
  }

  /** In particular for every image of at most 256 bytes. */
  lemma SmallImagesFit(lens: seq<byte>)
    requires BytesBefore(lens, |lens|) <= 0x100
    ensures StartsFit(lens)
  {
    forall i | 0 <= i < |lens| && OpensByte(lens, i)
      ensures BytesBefore(lens, i) < 0x100
    {
      BytesBeforeGrows(lens, i + 1, |lens|);
      assert BytesBefore(lens, i) < BytesBefore(lens, i + 1);
    }
  }
}
