/** The strand driver: packing pixels and refilling the 64-entry hardware block half by half. */
module RmtStrand {
  import opened Basics
  import opened RmtFrame

  const MAX_PULSES := 32
  const BLOCK := 64

  /** What the driver and the hardware share during one frame: the block, the next byte to expand,
      the half to fill next, and whether a half may still hold pulses. */
  datatype Tx = Tx(mem: seq<Pulse>, pos: nat, half: nat, dirty: bool)

  ghost predicate ValidTx(tx: Tx, data: seq<byte>) {
    |tx.mem| == BLOCK && tx.pos <= |data| && tx.half < 2
  }

  /** `mem` with the half that starts at `offset` holding the 32 frame entries from `first` on. */
  ghost function Blit(params: LedParams, data: seq<byte>, mem: seq<Pulse>, offset: nat, first: nat): (r: seq<Pulse>)
    requires |mem| == BLOCK
    ensures |r| == BLOCK
  {
    seq(BLOCK, i requires 0 <= i < BLOCK =>
      if offset <= i < offset + MAX_PULSES then FrameEntry(params, data, first + (i - offset)) else mem[i])
  }

  /** One refill: the next half receives the next four bytes' worth of the frame.
      Once the data is used up, one half is blanked and later calls only move on. */
  ghost function CopyHalf(params: LedParams, data: seq<byte>, tx: Tx): (r: Tx)
    requires ValidTx(tx, data)
    ensures ValidTx(r, data)
  {
    var offset := tx.half * MAX_PULSES;
    var len := if |data| - tx.pos > MAX_PULSES / 8 then MAX_PULSES / 8 else |data| - tx.pos;
    if len == 0 && !tx.dirty then tx.(half := 1 - tx.half)
    else Tx(Blit(params, data, tx.mem, offset, 8 * tx.pos), tx.pos + len, 1 - tx.half, len != 0)
  }

  /** The fills made before the hardware is started. */
  ghost function FirstFills(params: LedParams, data: seq<byte>, tx: Tx): (r: Tx)
    requires |tx.mem| == BLOCK
    ensures ValidTx(r, data)
  {
    var filled := CopyHalf(params, data, tx.(pos := 0, half := 0));
    if filled.pos < |data| then CopyHalf(params, data, filled) else filled
  }

  /** `now` is `was` with the first `count` entries of the half at `offset` written. */
  ghost predicate Written(params: LedParams, data: seq<byte>, was: seq<Pulse>, offset: nat, first: nat, count: nat,
                          now: seq<Pulse>)
  {
    && |was| == |now| == BLOCK
    && forall k :: 0 <= k < BLOCK ==>
         now[k] == if offset <= k < offset + count then FrameEntry(params, data, first + (k - offset)) else was[k]
  }

  lemma WrittenMore(params: LedParams, data: seq<byte>, was: seq<Pulse>, offset: nat, first: nat, count: nat,
                    before: seq<Pulse>, now: seq<Pulse>)
    requires Written(params, data, was, offset, first, count, before) && |now| == BLOCK
    requires forall k :: 0 <= k < BLOCK ==>
      now[k] == if offset + count <= k < offset + count + 8 then FrameEntry(params, data, first + (k - offset))
                else before[k]
    ensures Written(params, data, was, offset, first, count + 8, now)
  {
    hide FrameEntry;
  }

  /** Written as far as the data goes and zero from there on, the half is as it should be. */
  lemma BlitIs(params: LedParams, data: seq<byte>, was: seq<Pulse>, offset: nat, first: nat, count: nat,
               expanded: seq<Pulse>, now: seq<Pulse>)
    requires Written(params, data, was, offset, first, count, expanded) && |now| == BLOCK
    requires count <= MAX_PULSES && (count == MAX_PULSES || first + count >= 8 * |data|)
    requires forall k :: 0 <= k < BLOCK ==>
      now[k] == if offset + count <= k < offset + MAX_PULSES then ZERO else expanded[k]
    ensures now == Blit(params, data, was, offset, first)
  {
    hide FrameEntry;
    forall k | 0 <= k < BLOCK
      ensures now[k] == Blit(params, data, was, offset, first)[k]
    {
      if offset + count <= k < offset + MAX_PULSES {
        EntryNonZero(params, data, first + (k - offset));
      }
    }
  }

  /* ---- the length of the buffer ---- */

  /** What is allocated for the bytes of `count` pixels: the product, in 16 bits. */
  function BufferLength(bytesPerPixel: int, count: nat): u16 {
    FrameBytes(bytesPerPixel, count) % 0x1_0000
  }

  /** Where the packing loops store channel `c` of pixel `i`. */
  function StoreAt(bytesPerPixel: int, i: nat, c: nat): nat {
    FrameBytes(bytesPerPixel, i) + c
  }

  ghost predicate PacksInBounds(bytesPerPixel: int, count: nat) {
    forall i: nat, c: nat :: i < count && c < bytesPerPixel ==>
      StoreAt(bytesPerPixel, i, c) < BufferLength(bytesPerPixel, count)
  }

  /** Packing stays inside the buffer exactly for frames whose length fits in 16 bits. */
  lemma PacksInBoundsIffShort(bytesPerPixel: int, count: nat)
    requires Supported(bytesPerPixel)
    ensures PacksInBounds(bytesPerPixel, count) <==> FrameBytes(bytesPerPixel, count) < 0x1_0000
  {
    if FrameBytes(bytesPerPixel, count) >= 0x1_0000 {
      assert StoreAt(bytesPerPixel, count - 1, bytesPerPixel - 1) == FrameBytes(bytesPerPixel, count) - 1;
    }
  }

  lemma PixelOf3(i: nat)
    ensures forall k :: 3 * i <= k < 3 * i + 3 ==> k / 3 == i && k % 3 == k - 3 * i
  {
  }

  lemma PixelOf4(i: nat)
    ensures forall k :: 4 * i <= k < 4 * i + 4 ==> k / 4 == i && k % 4 == k - 4 * i
  {
  }

  class Strand {
    const params: LedParams
    const pixels: array<Pixel>
    const bufLen: u16
    const bufData: array<byte>
    const data32: array<Pulse>
    var bufPos: u16
    var bufHalf: u16
    var bufIsDirty: bool

    ghost predicate Valid()
      reads this
    {
      && bufData.Length == bufLen
      && data32.Length == BLOCK
      && bufData != data32 as object
      && pixels != data32 as object
      && pixels != bufData as object
      && bufPos <= bufLen
      && bufHalf < 2
      && (Supported(params.bytesPerPixel) ==> bufLen == BufferLength(params.bytesPerPixel, pixels.Length))
    }

    ghost function State(): Tx
      reads this, data32
    {
      Tx(data32[..], bufPos, bufHalf, bufIsDirty)
    }

    /** The block is shared hardware memory and `dirty` starts out unset, so both are arbitrary here.
        The buffer length is cut to 16 bits before the buffer is allocated. */
    constructor (params: LedParams, pixels: array<Pixel>, block: array<Pulse>, dirty: bool)
      requires block.Length == BLOCK && pixels != block as object
      ensures Valid() && fresh(bufData)
      ensures this.params == params && this.pixels == pixels && this.data32 == block
      ensures State().mem == block[..] && State().dirty == dirty
    {
      this.params := params;
      this.pixels := pixels;
      bufLen := pixels.Length * params.bytesPerPixel % 0x1_0000;
      bufData := new byte[pixels.Length * params.bytesPerPixel % 0x1_0000];
      data32 := block;
      bufPos := 0;
      bufHalf := 0;
      bufIsDirty := dirty;
    }

    /** By PacksInBoundsIffShort, the second precondition says that no store misses the buffer. */
    method UpdatePixels() returns (r: int)
      requires Valid()
      requires Supported(params.bytesPerPixel) ==> FrameBytes(params.bytesPerPixel, pixels.Length) < 0x1_0000
      modifies this, bufData, data32
      ensures Valid()
      ensures !Supported(params.bytesPerPixel) ==>
                r == -1 && State() == old(State()) && bufData[..] == old(bufData[..])
      ensures Supported(params.bytesPerPixel) ==>
                && r == 0
                && bufData[..] == Pack(params.bytesPerPixel, pixels[..])
                && State() == FirstFills(params, bufData[..], old(State()))
    {
      hide Pack, CopyHalf, Blit;
      if params.bytesPerPixel == 3 {
        PackGrb();
      } else if params.bytesPerPixel == 4 {
        PackGrbw();
      } else {
        return -1;
      }

      bufPos := 0;
      bufHalf := 0;
      assert State() == old(State()).(pos := 0, half := 0);
      CopyToRmtBlockHalf();
      if bufPos < bufLen {
        CopyToRmtBlockHalf();
      }
      return 0;
    }

    /** Colour order on the wire is green, red, blue. */
    method PackGrb()
      requires Valid() && params.bytesPerPixel == 3 && FrameBytes(3, pixels.Length) < 0x1_0000
      modifies bufData
      ensures bufData[..] == Pack(3, pixels[..])
    {
      for i := 0 to pixels.Length
        invariant forall k :: 0 <= k < 3 * i ==> bufData[k] == Channel(pixels[k / 3], k % 3)
      {
        ghost var before := bufData[..];
        bufData[0 + i * 3] := pixels[i].g;
        bufData[1 + i * 3] := pixels[i].r;
        bufData[2 + i * 3] := pixels[i].b;
        assert bufData[..3 * i] == before[..3 * i];
        forall k | 0 <= k < 3 * i
          ensures bufData[k] == Channel(pixels[k / 3], k % 3)
        {
          assert bufData[..3 * i][k] == before[..3 * i][k];
        }
        PixelOf3(i);
      }
    }

    /** And then white, for LEDs that have it. */
    method PackGrbw()
      requires Valid() && params.bytesPerPixel == 4 && FrameBytes(4, pixels.Length) < 0x1_0000
      modifies bufData
      ensures bufData[..] == Pack(4, pixels[..])
    {
      for i := 0 to pixels.Length
        invariant forall k :: 0 <= k < 4 * i ==> bufData[k] == Channel(pixels[k / 4], k % 4)
      {
        ghost var before := bufData[..];
        bufData[0 + i * 4] := pixels[i].g;
        bufData[1 + i * 4] := pixels[i].r;
        bufData[2 + i * 4] := pixels[i].b;
        bufData[3 + i * 4] := pixels[i].w;
        assert bufData[..4 * i] == before[..4 * i];
        forall k | 0 <= k < 4 * i
          ensures bufData[k] == Channel(pixels[k / 4], k % 4)
        {
          assert bufData[..4 * i][k] == before[..4 * i][k];
        }
        PixelOf4(i);
      }
    }

    /** Also the body of the threshold branch of the interrupt handler. */
    method CopyToRmtBlockHalf()
      requires Valid()
      modifies this, data32
      ensures Valid()
      ensures State() == CopyHalf(params, bufData[..], old(State()))
    {
      hide Blit, FrameEntry;
      var offset := bufHalf * MAX_PULSES;
      bufHalf := if bufHalf == 0 then 1 else 0;

      var len := bufLen - bufPos;
      if len > MAX_PULSES / 8 {
        len := MAX_PULSES / 8;
      }

      if len == 0 {
        if !bufIsDirty {
          return;
        }
        BlankHalf(offset);
        bufIsDirty := false;
        return;
      }
      bufIsDirty := true;

      FillHalf(offset, len);
      bufPos := bufPos + len;
    }

    /** The data is used up: the half holds what comes after the frame. */
    method BlankHalf(offset: nat)
      requires Valid() && bufPos == bufLen
      requires offset == 0 || offset == MAX_PULSES
      modifies data32
      ensures Valid() && data32[..] == Blit(params, bufData[..], old(data32[..]), offset, 8 * bufPos)
    {
      hide Blit, FrameEntry;
      ghost var was := data32[..];
      Blank(0, offset, was);
      BlitIs(params, bufData[..], was, offset, 8 * bufPos, 0, was, data32[..]);
    }

    /** The next `len` bytes are expanded, and the rest of the half is cleared. */
    method FillHalf(offset: nat, len: nat)
      requires Valid() && 0 < len <= MAX_PULSES / 8 && bufPos + len <= bufLen
      requires len == MAX_PULSES / 8 || bufPos + len == bufLen
      requires offset == 0 || offset == MAX_PULSES
      modifies data32
      ensures Valid() && data32[..] == Blit(params, bufData[..], old(data32[..]), offset, 8 * bufPos)
    {
      hide Blit, FrameEntry;
      ghost var was := data32[..];
      ghost var data := bufData[..];
      var i := 0;
      while i < len
        invariant 0 <= i <= len && Valid() && bufData[..] == data
        invariant Written(params, data, was, offset, 8 * bufPos, 8 * i, data32[..])
      {
        ghost var before := data32[..];
        ExpandByte(i, offset, data);
        assert Written(params, data, was, offset, 8 * bufPos, 8 * (i + 1), data32[..]) by {
          WrittenMore(params, data, was, offset, 8 * bufPos, 8 * i, before, data32[..]);
        }
        i := i + 1;
      }

      ghost var expanded := data32[..];
      Blank(8 * i, offset, expanded);
      BlitIs(params, data, was, offset, 8 * bufPos, 8 * len, expanded, data32[..]);
    }

    /** Clears entries `from..32` of the half that starts at `offset`. */
    method Blank(from: nat, offset: nat, ghost was: seq<Pulse>)
      requires data32.Length == BLOCK && data32[..] == was
      requires offset == 0 || offset == MAX_PULSES
      requires from <= MAX_PULSES
      modifies data32
      ensures forall k :: 0 <= k < BLOCK ==>
        data32[k] == if offset + from <= k < offset + MAX_PULSES then ZERO else was[k]
    {
      for i := from to MAX_PULSES
        invariant forall k :: 0 <= k < BLOCK ==>
          data32[k] == if offset + from <= k < offset + i then ZERO else was[k]
      {
        data32[i + offset] := ZERO;
      }
    }

    /** Expands byte `i + bufPos` into entries of the half at `offset`, stretching the frame's last entry. */
    method ExpandByte(i: nat, offset: nat, ghost data: seq<byte>)
      requires Valid() && data == bufData[..]
      requires i < MAX_PULSES / 8 && i + bufPos < bufLen
      requires offset == 0 || offset == MAX_PULSES
      modifies data32
      ensures forall k :: 0 <= k < BLOCK ==>
        data32[k] == if offset + 8 * i <= k < offset + 8 * i + 8
                     then FrameEntry(params, data, 8 * bufPos + (k - offset)) else old(data32[k])
    {
      hide BitPulse, FrameEntry;
      var b := bufData[i + bufPos];
      var at := i * 8 + offset;
      ShiftOut(b, at);
      if i + bufPos == bufLen - 1 {
        data32[at + 7] := data32[at + 7].(duration1 := Ticks(params.TRS));
      }
      forall k | at <= k < at + 8
        ensures data32[k] == FrameEntry(params, data, 8 * bufPos + (k - offset))
      {
        EntryOfByte(params, data, i + bufPos, 8 * bufPos + (k - offset));
      }
    }

    /** The inner loop: one pulse per bit, most significant first. */
    method ShiftOut(b: byte, at: nat)
      requires data32.Length == BLOCK && at + 8 <= BLOCK
      modifies data32
      ensures forall k :: 0 <= k < BLOCK ==>
        data32[k] == if at <= k < at + 8 then BitPulse(params, b, k - at) else old(data32[k])
      ensures forall k :: at <= k < at + 8 ==>
        var one := b / PowerOfTwo(7 - (k - at)) % 2 == 1;
        && data32[k].level0 && data32[k].duration0 == (if one then params.T1H else params.T0H) / 50 % 0x8000
        && !data32[k].level1 && data32[k].duration1 == (if one then params.T1L else params.T0L) / 50 % 0x8000
    {
      var byteval: u16 := b;
      assert byteval == Shifted(b, 0);
      hide Shifted, BitAt, PulseFor;
      for j := 0 to 8
        invariant forall k :: 0 <= k < BLOCK ==>
          data32[k] == if at <= k < at + j then BitPulse(params, b, k - at) else old(data32[k])
        invariant byteval == Shifted(b, j)
      {
        ShiftedTopBit(b, j);
        ShiftStep(b, j);
        var bitval := byteval / 128 % 2;
        data32[at + j] := PulseFor(params, bitval == 1);
        byteval := byteval * 2 % 0x1_0000;
      }
      forall k | at <= k < at + 8
        ensures var one := b / PowerOfTwo(7 - (k - at)) % 2 == 1;
          && data32[k].level0 && data32[k].duration0 == (if one then params.T1H else params.T0H) / 50 % 0x8000
          && !data32[k].level1 && data32[k].duration1 == (if one then params.T1L else params.T0L) / 50 % 0x8000
      {
        PulseInNumbers(params, b, k - at);
      }
    }
  }

  /** A byte in a 16-bit register, shifted left `j` times; nothing falls off the top. */
  function Shifted(b: byte, j: nat): u16
    requires j <= 8
  {
    if j == 0 then b else if j == 1 then 2 * b else if j == 2 then 4 * b else if j == 3 then 8 * b
    else if j == 4 then 16 * b else if j == 5 then 32 * b else if j == 6 then 64 * b
    else if j == 7 then 128 * b else 256 * b
  }

  lemma ShiftStep(b: byte, j: nat)
    requires j < 8
    ensures Shifted(b, j + 1) == Shifted(b, j) * 2 % 0x1_0000
  {
  }

  lemma ShiftedTopBit(b: byte, j: nat)
    requires j < 8
    ensures Shifted(b, j) / 128 % 2 == 1 <==> BitAt(b, j)
  {
    if j == 0 {
    } else if j == 1 {
      assert 2 * b / 128 == b / 64;
    } else if j == 2 {
      assert 4 * b / 128 == b / 32;
    } else if j == 3 {
      assert 8 * b / 128 == b / 16;
    } else if j == 4 {
      assert 16 * b / 128 == b / 8;
    } else if j == 5 {
      assert 32 * b / 128 == b / 4;
    } else if j == 6 {
      assert 64 * b / 128 == b / 2;
    } else {
      assert 128 * b / 128 == b;
    }
  }
}
