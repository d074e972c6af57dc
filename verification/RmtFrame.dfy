/** The waveform of one LED frame: how pixels become bytes, bytes become pulses, and back.
    Everything here is about values; RmtStrand.dfy has the code that fills the hardware block. */
module RmtFrame {
  import opened Basics

  datatype Pixel = Pixel(r: byte, g: byte, b: byte, w: byte)

  /** Nanosecond timings of one LED type. */
  datatype LedParams = LedParams(bytesPerPixel: int, T0H: u32, T1H: u32, T0L: u32, T1L: u32, TRS: u32)

  /** One entry of the hardware block: a phase at `level0`, then a phase at `level1`. */
  datatype Pulse = Pulse(duration0: nat, level0: bool, duration1: nat, level1: bool)

  /** The all-zero word, at which the hardware stops. */
  const ZERO := Pulse(0, false, 0, false)

  /** Nanoseconds to 50 ns ticks, in a 15-bit field. */
  function Ticks(ns: u32): nat {
    (ns / 50) % 0x8000
  }

  function PulseFor(params: LedParams, bit: bool): Pulse {
    if bit then Pulse(Ticks(params.T1H), true, Ticks(params.T1L), false)
    else Pulse(Ticks(params.T0H), true, Ticks(params.T0L), false)
  }

  /** Bit `j` of a byte, most significant first. */
  predicate BitAt(b: byte, j: nat)
    requires j < 8
  {
    b / Weight(j) % 2 == 1
  }

  function Weight(j: nat): (w: int)
    requires j < 8
    ensures w > 0
  {
    if j == 0 then 128 else if j == 1 then 64 else if j == 2 then 32 else if j == 3 then 16
    else if j == 4 then 8 else if j == 5 then 4 else if j == 6 then 2 else 1
  }

  function BitPulse(params: LedParams, b: byte, j: nat): Pulse
    requires j < 8
  {
    PulseFor(params, BitAt(b, j))
  }

  /** Entry `j` of the frame that carries `data`; beyond the frame everything is zero. */
  function FrameEntry(params: LedParams, data: seq<byte>, j: nat): Pulse {
    if j >= 8 * |data| then ZERO
    else
      var pulse := BitPulse(params, data[j / 8], j % 8);
      if j == 8 * |data| - 1 then pulse.(duration1 := Ticks(params.TRS)) else pulse
  }

  /** The whole waveform: all bits in order, the last low phase stretched to the reset time. */
  function Encode(params: LedParams, data: seq<byte>): seq<Pulse> {
    seq(8 * |data|, j requires 0 <= j => FrameEntry(params, data, j))
  }

  lemma EntryNonZero(params: LedParams, data: seq<byte>, j: nat)
    ensures FrameEntry(params, data, j) == ZERO <==> j >= 8 * |data|
  {
  }

  lemma EntryOfByte(params: LedParams, data: seq<byte>, i: nat, e: nat)
    requires i < |data| && 8 * i <= e < 8 * i + 8
    ensures FrameEntry(params, data, e) ==
            if e == 8 * |data| - 1 then BitPulse(params, data[i], e - 8 * i).(duration1 := Ticks(params.TRS))
            else BitPulse(params, data[i], e - 8 * i)
  {
    assert e / 8 == i && e % 8 == e - 8 * i;
  }

  /* ---- the waveform in numbers ---- */

  function PowerOfTwo(n: nat): (p: nat)
    ensures p > 0
  {
    if n == 0 then 1 else 2 * PowerOfTwo(n - 1)
  }

  /** The digit of weight `2^(7 - j)`, counting from the most significant one. */
  lemma BitIsDigit(b: byte, j: nat)
    requires j < 8
    ensures BitAt(b, j) <==> b / PowerOfTwo(7 - j) % 2 == 1
  {
    assert PowerOfTwo(7 - j) == Weight(j) by {
      assert PowerOfTwo(1) == 2 && PowerOfTwo(2) == 4 && PowerOfTwo(3) == 8 && PowerOfTwo(4) == 16;
      assert PowerOfTwo(5) == 32 && PowerOfTwo(6) == 64 && PowerOfTwo(7) == 128;
    }
  }

  lemma PulseInNumbers(params: LedParams, b: byte, j: nat)
    requires j < 8
    ensures var pulse := BitPulse(params, b, j);
      var one := b / PowerOfTwo(7 - j) % 2 == 1;
      && pulse.level0 && pulse.duration0 == (if one then params.T1H else params.T0H) / 50 % 0x8000
      && !pulse.level1 && pulse.duration1 == (if one then params.T1L else params.T0L) / 50 % 0x8000
  {
    BitIsDigit(b, j);
  }

  /** Entry by entry: the bits of all bytes in order, most significant first, each as a high and a low
      phase of its bit's durations, in ticks of 50 ns; the last low phase has the reset time. */
  lemma WaveformInNumbers(params: LedParams, data: seq<byte>, j: nat)
    requires j < 8 * |data|
    ensures var pulse := Encode(params, data)[j];
      var one := data[j / 8] / PowerOfTwo(7 - j % 8) % 2 == 1;
      && pulse.level0 && !pulse.level1
      && pulse.duration0 == (if one then params.T1H else params.T0H) / 50 % 0x8000
      && pulse.duration1 == (if j == 8 * |data| - 1 then params.TRS
                             else if one then params.T1L else params.T0L) / 50 % 0x8000
  {
    BitIsDigit(data[j / 8], j % 8);
  }

  /* ---- the receiver ---- */

  /** An LED tells a one from a zero by the length of the high phase. */
  predicate ReadsOne(params: LedParams, pulse: Pulse) {
    pulse.duration0 == Ticks(params.T1H)
  }

  function ByteOfBits(bits: seq<bool>): byte
    requires |bits| == 8
  {
    (if bits[0] then 128 else 0) + (if bits[1] then 64 else 0) + (if bits[2] then 32 else 0)
    + (if bits[3] then 16 else 0) + (if bits[4] then 8 else 0) + (if bits[5] then 4 else 0)
    + (if bits[6] then 2 else 0) + (if bits[7] then 1 else 0)
  }

  function Decode(params: LedParams, pulses: seq<Pulse>): (data: seq<byte>)
    requires |pulses| % 8 == 0
    ensures 8 * |data| == |pulses|
  {
    if |pulses| == 0 then []
    else
      [ByteOfBits(seq(8, j requires 0 <= j < 8 => ReadsOne(params, pulses[j])))] + Decode(params, pulses[8..])
  }

  function Bits(b: byte): (bits: seq<bool>)
    ensures |bits| == 8
  {
    seq(8, j requires 0 <= j < 8 => BitAt(b, j))
  }

  lemma Binary(b: byte)
    ensures b == 128 * (b / 128 % 2) + 64 * (b / 64 % 2) + 32 * (b / 32 % 2) + 16 * (b / 16 % 2)
                 + 8 * (b / 8 % 2) + 4 * (b / 4 % 2) + 2 * (b / 2 % 2) + b % 2
  {
    assert b / 4 == b / 2 / 2;
    assert b / 8 == b / 4 / 2;
    assert b / 16 == b / 8 / 2;
    assert b / 32 == b / 16 / 2;
    assert b / 64 == b / 32 / 2;
    assert b / 128 == b / 64 / 2;
    assert b / 128 < 2;
  }

  lemma SumOfBits(bits: seq<bool>, d: seq<int>)
    requires |bits| == |d| == 8
    requires forall j :: 0 <= j < 8 ==> d[j] == (if bits[j] then 1 else 0)
    ensures ByteOfBits(bits) == 128 * d[0] + 64 * d[1] + 32 * d[2] + 16 * d[3] + 8 * d[4] + 4 * d[5] + 2 * d[6] + d[7]
  {
  }

  lemma ByteFromItsBits(b: byte)
    ensures ByteOfBits(Bits(b)) == b
  {
    var d := seq(8, j requires 0 <= j < 8 => b / Weight(j) % 2);
    SumOfBits(Bits(b), d);
    Binary(b);
  }

  lemma {:induction false} DecodeEncode(params: LedParams, data: seq<byte>)
    requires Ticks(params.T0H) != Ticks(params.T1H)
    ensures Decode(params, Encode(params, data)) == data
  {
    if data != [] {
      var pulses := Encode(params, data);
      TailOfFrame(params, data);
      DecodeEncode(params, data[1..]);
      FirstByte(params, data);
    }
  }

  lemma FirstByte(params: LedParams, data: seq<byte>)
    requires Ticks(params.T0H) != Ticks(params.T1H)
    requires data != []
    ensures ByteOfBits(seq(8, j requires 0 <= j < 8 => ReadsOne(params, Encode(params, data)[j]))) == data[0]
  {
    var read := seq(8, j requires 0 <= j < 8 => ReadsOne(params, Encode(params, data)[j]));
    forall j | 0 <= j < 8
      ensures read[j] == BitAt(data[0], j)
    {
    }
    assert read == Bits(data[0]);
    ByteFromItsBits(data[0]);
  }

  lemma TailOfFrame(params: LedParams, data: seq<byte>)
    requires data != []
    ensures Encode(params, data)[8..] == Encode(params, data[1..])
  {
    forall j | 0 <= j < 8 * |data| - 8
      ensures FrameEntry(params, data, j + 8) == FrameEntry(params, data[1..], j)
    {
      assert (j + 8) / 8 == j / 8 + 1 && (j + 8) % 8 == j % 8;
      assert data[1..][j / 8] == data[j / 8 + 1];
    }
  }

  /** Reading by high-phase length recovers every byte string exactly when the two lengths differ. */
  lemma DecodableIff(params: LedParams)
    ensures (forall data: seq<byte> :: Decode(params, Encode(params, data)) == data)
            <==> Ticks(params.T0H) != Ticks(params.T1H)
  {
    if Ticks(params.T0H) != Ticks(params.T1H) {
      forall data: seq<byte> {
        DecodeEncode(params, data);
      }
    } else {
      var pulses := Encode(params, [0]);
      var read := seq(8, j requires 0 <= j < 8 => ReadsOne(params, pulses[j]));
      assert forall j :: 0 <= j < 8 ==> read[j];
      assert ByteOfBits(read) == 255;
      assert Decode(params, pulses)[0] == 255;
      assert Decode(params, pulses) != [0];
    }
  }

  /* ---- pixels and bytes ---- */

  predicate Supported(bytesPerPixel: int) {
    bytesPerPixel == 3 || bytesPerPixel == 4
  }

  /** Transmission order is green, red, blue, and then white for four-byte LEDs. */
  function Channel(pixel: Pixel, c: int): byte
    requires 0 <= c < 4
  {
    if c == 0 then pixel.g else if c == 1 then pixel.r else if c == 2 then pixel.b else pixel.w
  }

  function FrameBytes(bytesPerPixel: int, count: nat): nat {
    if bytesPerPixel == 3 then 3 * count else 4 * count
  }

  predicate WholePixels(bytesPerPixel: int, bytes: nat) {
    if bytesPerPixel == 3 then bytes % 3 == 0 else bytes % 4 == 0
  }

  function Pack3(pixels: seq<Pixel>): seq<byte> {
    seq(3 * |pixels|, i requires 0 <= i < 3 * |pixels| => Channel(pixels[i / 3], i % 3))
  }

  function Pack4(pixels: seq<Pixel>): seq<byte> {
    seq(4 * |pixels|, i requires 0 <= i < 4 * |pixels| => Channel(pixels[i / 4], i % 4))
  }

  function Pack(bytesPerPixel: int, pixels: seq<Pixel>): (data: seq<byte>)
    requires Supported(bytesPerPixel)
    ensures |data| == FrameBytes(bytesPerPixel, |pixels|)
    ensures WholePixels(bytesPerPixel, |data|)
  {
    if bytesPerPixel == 3 then Pack3(pixels) else Pack4(pixels)
  }

  function Unpack3(data: seq<byte>): seq<Pixel>
    requires |data| % 3 == 0
  {
    seq(|data| / 3, i requires 0 <= i < |data| / 3 => Pixel(data[3 * i + 1], data[3 * i], data[3 * i + 2], 0))
  }

  function Unpack4(data: seq<byte>): seq<Pixel>
    requires |data| % 4 == 0
  {
    seq(|data| / 4, i requires 0 <= i < |data| / 4 =>
      Pixel(data[4 * i + 1], data[4 * i], data[4 * i + 2], data[4 * i + 3]))
  }

  function Unpack(bytesPerPixel: int, data: seq<byte>): seq<Pixel>
    requires Supported(bytesPerPixel)
    requires WholePixels(bytesPerPixel, |data|)
  {
    if bytesPerPixel == 3 then Unpack3(data) else Unpack4(data)
  }

  /** What an LED of this kind can show of its pixel: three-byte LEDs have no white channel. */
  function Shown(bytesPerPixel: int, pixel: Pixel): Pixel {
    if bytesPerPixel == 3 then pixel.(w := 0) else pixel
  }

  function ShownAll(bytesPerPixel: int, pixels: seq<Pixel>): seq<Pixel> {
    seq(|pixels|, i requires 0 <= i < |pixels| => Shown(bytesPerPixel, pixels[i]))
  }

  /** Green, red, blue, and then white for LEDs that have it. */
  lemma WireOrder(bytesPerPixel: int, pixels: seq<Pixel>, i: nat)
    requires Supported(bytesPerPixel) && i < |pixels|
    ensures bytesPerPixel == 3 ==>
      Pack(3, pixels)[3 * i..3 * i + 3] == [pixels[i].g, pixels[i].r, pixels[i].b]
    ensures bytesPerPixel == 4 ==>
      Pack(4, pixels)[4 * i..4 * i + 4] == [pixels[i].g, pixels[i].r, pixels[i].b, pixels[i].w]
  {
    if bytesPerPixel == 3 {
      PackedChannel3(pixels, i, 0);
      PackedChannel3(pixels, i, 1);
      PackedChannel3(pixels, i, 2);
    } else {
      PackedChannel4(pixels, i, 0);
      PackedChannel4(pixels, i, 1);
      PackedChannel4(pixels, i, 2);
      PackedChannel4(pixels, i, 3);
    }
  }

  lemma PackedChannel3(pixels: seq<Pixel>, i: nat, c: nat)
    requires i < |pixels| && c < 3
    ensures Pack3(pixels)[3 * i + c] == Channel(pixels[i], c)
  {
    assert (3 * i + c) / 3 == i && (3 * i + c) % 3 == c;
  }

  lemma PackedChannel4(pixels: seq<Pixel>, i: nat, c: nat)
    requires i < |pixels| && c < 4
    ensures Pack4(pixels)[4 * i + c] == Channel(pixels[i], c)
  {
    assert (4 * i + c) / 4 == i && (4 * i + c) % 4 == c;
  }

  lemma UnpackedPixel3(pixels: seq<Pixel>, i: nat)
    requires i < |pixels|
    ensures Unpack3(Pack3(pixels))[i] == Shown(3, pixels[i])
  {
    PackedChannel3(pixels, i, 0);
    PackedChannel3(pixels, i, 1);
    PackedChannel3(pixels, i, 2);
  }

  lemma UnpackedPixel4(pixels: seq<Pixel>, i: nat)
    requires i < |pixels|
    ensures Unpack4(Pack4(pixels))[i] == Shown(4, pixels[i])
  {
    PackedChannel4(pixels, i, 0);
    PackedChannel4(pixels, i, 1);
    PackedChannel4(pixels, i, 2);
    PackedChannel4(pixels, i, 3);
  }

  lemma UnpackPack3(pixels: seq<Pixel>)
    ensures Unpack3(Pack3(pixels)) == ShownAll(3, pixels)
  {
    hide Channel, Shown;
    forall i | 0 <= i < |pixels|
      ensures Unpack3(Pack3(pixels))[i] == ShownAll(3, pixels)[i]
    {
      UnpackedPixel3(pixels, i);
    }
  }

  lemma UnpackPack4(pixels: seq<Pixel>)
    ensures Unpack4(Pack4(pixels)) == ShownAll(4, pixels)
  {
    hide Channel, Shown;
    forall i | 0 <= i < |pixels|
      ensures Unpack4(Pack4(pixels))[i] == ShownAll(4, pixels)[i]
    {
      UnpackedPixel4(pixels, i);
    }
  }

  lemma UnpackPack(bytesPerPixel: int, pixels: seq<Pixel>)
    requires Supported(bytesPerPixel)
    ensures Unpack(bytesPerPixel, Pack(bytesPerPixel, pixels)) == ShownAll(bytesPerPixel, pixels)
  {
    hide Pack3, Pack4, Unpack3, Unpack4, ShownAll;
    if bytesPerPixel == 3 {
      UnpackPack3(pixels);
    } else {
      UnpackPack4(pixels);
    }
  }

  /** What the LEDs read from a waveform. */
  function Receive(params: LedParams, pulses: seq<Pulse>): seq<Pixel>
    requires Supported(params.bytesPerPixel)
    requires |pulses| % 8 == 0 && WholePixels(params.bytesPerPixel, |pulses| / 8)
  {
    Unpack(params.bytesPerPixel, Decode(params, pulses))
  }

  function Waveform(params: LedParams, pixels: seq<Pixel>): (pulses: seq<Pulse>)
    requires Supported(params.bytesPerPixel)
    ensures |pulses| % 8 == 0 && WholePixels(params.bytesPerPixel, |pulses| / 8)
  {
    Encode(params, Pack(params.bytesPerPixel, pixels))
  }

  lemma PixelRoundTrip(params: LedParams, pixels: seq<Pixel>)
    requires Supported(params.bytesPerPixel)
    requires Ticks(params.T0H) != Ticks(params.T1H)
    ensures Receive(params, Waveform(params, pixels)) == ShownAll(params.bytesPerPixel, pixels)
  {
    DecodeEncode(params, Pack(params.bytesPerPixel, pixels));
    UnpackPack(params.bytesPerPixel, pixels);
  }

  /** Two frames look the same on the wire exactly when the LEDs could not show the difference. */
  lemma DistinctFramesDistinctWaveforms(params: LedParams, a: seq<Pixel>, b: seq<Pixel>)
    requires Supported(params.bytesPerPixel)
    requires Ticks(params.T0H) != Ticks(params.T1H)
    ensures Waveform(params, a) == Waveform(params, b)
            <==> ShownAll(params.bytesPerPixel, a) == ShownAll(params.bytesPerPixel, b)
  {
    PixelRoundTrip(params, a);
    PixelRoundTrip(params, b);
    if ShownAll(params.bytesPerPixel, a) == ShownAll(params.bytesPerPixel, b) {
      SameShownSameBytes(params.bytesPerPixel, a, b);
    }
  }

  lemma SameShownSameBytes(bytesPerPixel: int, a: seq<Pixel>, b: seq<Pixel>)
    requires Supported(bytesPerPixel)
    requires ShownAll(bytesPerPixel, a) == ShownAll(bytesPerPixel, b)
    ensures Pack(bytesPerPixel, a) == Pack(bytesPerPixel, b)
  {
    assert |a| == |ShownAll(bytesPerPixel, a)| == |b|;
    forall i | 0 <= i < |a|
      ensures Shown(bytesPerPixel, a[i]) == Shown(bytesPerPixel, b[i])
    {
      assert ShownAll(bytesPerPixel, a)[i] == ShownAll(bytesPerPixel, b)[i];
    }
  }

  /** The timings the library ships, in its own order. */
  const LED_PARAMS_ALL: seq<LedParams> := [
    LedParams(3, 350, 700, 800, 600, 50000),
    LedParams(3, 350, 900, 900, 350, 50000),
    LedParams(3, 400, 850, 850, 400, 50000),
    LedParams(3, 450, 850, 850, 450, 50000),
    LedParams(3, 350, 800, 350, 350, 300000),
    LedParams(3, 270, 800, 800, 270, 300000),
    LedParams(3, 270, 630, 630, 270, 300000),
    LedParams(3, 300, 600, 900, 600, 80000),
    LedParams(4, 300, 600, 900, 600, 80000)
  ]

  /** Every shipped LED type is readable, and no duration loses bits in its 15-bit field. */
  lemma ShippedTypesAreReadable(t: nat)
    requires t < |LED_PARAMS_ALL|
    ensures var p := LED_PARAMS_ALL[t];
      && Supported(p.bytesPerPixel)
      && Ticks(p.T0H) != Ticks(p.T1H)
      && Ticks(p.T0H) == p.T0H / 50 && Ticks(p.T1H) == p.T1H / 50
      && Ticks(p.T0L) == p.T0L / 50 && Ticks(p.T1L) == p.T1L / 50
      && Ticks(p.TRS) == p.TRS / 50
  {
  }
}
