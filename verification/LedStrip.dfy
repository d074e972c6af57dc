/** LEDs registered on a strip at positions, rendered into pixels and sent out. */
module LedStrip {
  import opened Basics
  import opened RmtFrame
  import opened RmtStrand
  import opened RmtTransmission

  /** Colours change at run time; the position is fixed once the LED is on a strip. */
  class DigitalLed {
    const position: int
    var r: int
    var g: int
    var b: int

    constructor (position: int)
      ensures this.position == position && r == g == b == 0
    {
      this.position := position;
      r, g, b := 0, 0, 0;
    }

    /** Colour components are cut to eight bits. */
    function Colour(): Pixel
      reads this
    {
      Pixel(r % 0x100, g % 0x100, b % 0x100, 0)
    }
  }

  const BLACK := Pixel(0, 0, 0, 0)

  ghost predicate Sorted(leds: seq<DigitalLed>) {
    forall i, j :: 0 <= i < j < |leds| ==> leds[i].position <= leds[j].position
  }

  /** Behind everything at the same or a lower position. */
  ghost function Insert(leds: seq<DigitalLed>, led: DigitalLed): (r: seq<DigitalLed>)
    ensures |r| == |leds| + 1
  {
    if leds == [] then [led]
    else if leds[0].position > led.position then [led] + leds
    else [leds[0]] + Insert(leds[1..], led)
  }

  lemma InsertSkips(leds: seq<DigitalLed>, led: DigitalLed, i: nat)
    requires i < |leds| && leds[i].position <= led.position
    ensures leds[..i] + Insert(leds[i..], led) == leds[..i + 1] + Insert(leds[i + 1..], led)
  {
    assert leds[i..][0] == leds[i] && leds[i..][1..] == leds[i + 1..];
    assert leds[..i] + [leds[i]] == leds[..i + 1];
  }

  lemma InsertStops(leds: seq<DigitalLed>, led: DigitalLed)
    requires leds == [] || leds[0].position > led.position
    ensures Insert(leds, led) == [led] + leds
  {
  }

  /** The strip after these LEDs were added, first to last. */
  ghost function Built(added: seq<DigitalLed>): seq<DigitalLed> {
    if added == [] then [] else Insert(Built(added[..|added| - 1]), added[|added| - 1])
  }

  /** The last LED of a sequence at this position. */
  ghost function Latest(leds: seq<DigitalLed>, position: int): Option<DigitalLed> {
    if leds == [] then None
    else if leds[|leds| - 1].position == position then Some(leds[|leds| - 1])
    else Latest(leds[..|leds| - 1], position)
  }

  /** What the strip is to show: in each place the LED added there last, or nothing. */
  ghost function Picture(leds: seq<DigitalLed>, count: nat): (pixels: seq<Pixel>)
    reads leds
    ensures |pixels| == count
  {
    seq(count, p requires 0 <= p < count reads leds => PixelAt(leds, p))
  }

  ghost function PixelAt(leds: seq<DigitalLed>, position: int): Pixel
    reads leds
  {
    LatestIsMember(leds, position);
    if Latest(leds, position) == None then BLACK else Latest(leds, position).value.Colour()
  }

  lemma {:induction false} LatestIsMember(leds: seq<DigitalLed>, position: int)
    ensures Latest(leds, position).Some? ==> Latest(leds, position).value in leds
  {
    if leds != [] && leds[|leds| - 1].position != position {
      LatestIsMember(leds[..|leds| - 1], position);
    }
  }

  ghost function Dark(count: nat): seq<Pixel> {
    seq(count, p => BLACK)
  }

  /** The two transmissions of one round: a black frame, and then the picture on the block that the black
      frame left behind. Both come to their end. */
  ghost predicate IsRound(params: LedParams, tx: Tx, picture: seq<Pixel>, black: seq<Hw>, show: seq<Hw>)
    requires |tx.mem| == BLOCK && Supported(params.bytesPerPixel)
  {
    && IsRun(params, Pack(params.bytesPerPixel, Dark(|picture|)), tx, black)
    && Done(Last(black)) && |Last(black).tx.mem| == BLOCK
    && IsRun(params, Pack(params.bytesPerPixel, picture), Last(black).tx, show)
    && Done(Last(show)) && |Last(show).tx.mem| == BLOCK
  }

  /** Round after round: a block that was ready shows the picture and is ready again. */
  lemma RoundShowsPicture(params: LedParams, tx: Tx, picture: seq<Pixel>, black: seq<Hw>, show: seq<Hw>)
    requires |tx.mem| == BLOCK && Supported(params.bytesPerPixel)
    requires Ready(tx, FrameBytes(params.bytesPerPixel, |picture|)) && IsRound(params, tx, picture, black, show)
    ensures Ready(Last(black).tx, FrameBytes(params.bytesPerPixel, |picture|))
    ensures Ready(Last(show).tx, FrameBytes(params.bytesPerPixel, |picture|))
    ensures Last(show).sent == Waveform(params, picture)
  {
    hide Next, Done, Ready, Encode, Pack;
    RunDeliversFrame(params, Pack(params.bytesPerPixel, Dark(|picture|)), tx, black);
    RunDeliversFrame(params, Pack(params.bytesPerPixel, picture), Last(black).tx, show);
  }

  class LedStrip {
    var leds: seq<DigitalLed>

    constructor ()
      ensures leds == []
    {
      leds := [];
    }

    method AddLed(led: DigitalLed)
      modifies this
      ensures leds == Insert(old(leds), led)
    {
      hide Insert;
      var i := 0;
      while i < |leds| && leds[i].position <= led.position
        invariant 0 <= i <= |leds| && leds == old(leds)
        invariant Insert(leds, led) == leds[..i] + Insert(leds[i..], led)
      {
        InsertSkips(leds, led, i);
        i := i + 1;
      }
      InsertStops(leds[i..], led);
      assert Insert(leds, led) == leds[..i] + ([led] + leds[i..]) == leds[..i] + [led] + leds[i..];
      leds := leds[..i] + [led] + leds[i..];
    }

    /** One round of the LED task. Clearing the pixels sends a black frame, then the strip's picture is
        drawn and sent; each time the handler refills the block as often as the hardware asks. */
    method Render(strand: Strand, ghost black: seq<Hw>, ghost show: seq<Hw>, blackRefills: nat, refills: nat)
      requires strand.Valid() && Supported(strand.params.bytesPerPixel)
      requires FrameBytes(strand.params.bytesPerPixel, strand.pixels.Length) < 0x1_0000
      requires IsRound(strand.params, strand.State(), Picture(leds, strand.pixels.Length), black, show)
      requires blackRefills == Refills(Last(black)) && refills == Refills(Last(show))
      modifies strand, strand.pixels, strand.bufData, strand.data32
      ensures strand.Valid()
      ensures strand.pixels[..] == Picture(leds, strand.pixels.Length)
      ensures strand.State() == Last(show).tx
      ensures var n := FrameBytes(strand.params.bytesPerPixel, strand.pixels.Length);
        Ready(old(strand.State()), n) ==>
          Ready(strand.State(), n) && Last(show).sent == Waveform(strand.params, strand.pixels[..])
    {
      hide IsRun, Done, Ready, Pack, Waveform, Picture;
      ghost var picture := Picture(leds, strand.pixels.Length);
      ghost var tx := strand.State();
      Clear(strand.pixels);
      Send(strand, black, blackRefills);
      Draw(strand.pixels);
      Send(strand, show, refills);
      if Ready(tx, FrameBytes(strand.params.bytesPerPixel, |picture|)) {
        RoundShowsPicture(strand.params, tx, picture, black, show);
      }
    }

    method Clear(pixels: array<Pixel>)
      modifies pixels
      ensures pixels[..] == Dark(pixels.Length)
    {
      for i := 0 to pixels.Length
        invariant forall k :: 0 <= k < i ==> pixels[k] == BLACK
      {
        pixels[i] := BLACK;
      }
    }

    /** `digitalLeds_updatePixels`, which returns when the hardware is done, and the interrupts until then. */
    method Send(strand: Strand, ghost run: seq<Hw>, refills: nat)
      requires strand.Valid() && Supported(strand.params.bytesPerPixel)
      requires FrameBytes(strand.params.bytesPerPixel, strand.pixels.Length) < 0x1_0000
      requires IsRun(strand.params, Pack(strand.params.bytesPerPixel, strand.pixels[..]), strand.State(), run)
      requires refills == Refills(Last(run))
      modifies strand, strand.bufData, strand.data32
      ensures strand.Valid() && strand.State() == Last(run).tx
    {
      hide Next, Pack, CopyHalf, FirstFills;
      ghost var tx := strand.State();
      var sent := strand.UpdatePixels();
      ghost var data := strand.bufData[..];
      BlockAfter(strand.params, data, tx, run, |run| - 1);
      ghost var filled := strand.State();
      for k := 0 to refills
        invariant strand.Valid() && strand.bufData[..] == data
        invariant strand.State() == Refilled(strand.params, data, filled, k)
      {
        strand.CopyToRmtBlockHalf();
      }
    }

    /** Draws the LEDs in list order over black pixels. */
    method Draw(pixels: array<Pixel>)
      requires pixels[..] == Dark(pixels.Length)
      modifies pixels
      ensures pixels[..] == Picture(leds, pixels.Length)
    {
      for i := 0 to |leds|
        invariant forall p :: 0 <= p < pixels.Length ==> pixels[p] == PixelAt(leds[..i], p)
      {
        var led := leds[i];
        assert leds[..i + 1][..i] == leds[..i] && leds[..i + 1][i] == led;
        if 0 <= led.position < pixels.Length {
          pixels[led.position] := led.Colour();
        }
      }
      assert leds[..|leds|] == leds;
    }
  }

  /* ---- the strip keeps its order ---- */

  lemma {:induction false} InsertKeepsAll(leds: seq<DigitalLed>, led: DigitalLed)
    ensures multiset(Insert(leds, led)) == multiset(leds) + multiset{led}
  {
    if leds != [] {
      assert leds == [leds[0]] + leds[1..];
      if leds[0].position <= led.position {
        InsertKeepsAll(leds[1..], led);
      }
    }
  }

  lemma {:induction false} InsertSorts(leds: seq<DigitalLed>, led: DigitalLed)
    requires Sorted(leds)
    ensures Sorted(Insert(leds, led))
  {
    if leds != [] && leds[0].position <= led.position {
      InsertSorts(leds[1..], led);
      InsertBounded(leds[1..], led, leds[0].position);
      hide Insert;
      InFront(leds[0], Insert(leds[1..], led));
    } else if leds != [] {
      InFront(led, leds);
    }
  }

  lemma InFront(led: DigitalLed, leds: seq<DigitalLed>)
    requires Sorted(leds) && forall k :: 0 <= k < |leds| ==> led.position <= leds[k].position
    ensures Sorted([led] + leds)
  {
  }

  lemma {:induction false} InsertBounded(leds: seq<DigitalLed>, led: DigitalLed, low: int)
    requires led.position >= low && forall k :: 0 <= k < |leds| ==> leds[k].position >= low
    ensures forall k :: 0 <= k < |Insert(leds, led)| ==> Insert(leds, led)[k].position >= low
  {
    if leds != [] && leds[0].position <= led.position {
      InsertBounded(leds[1..], led, low);
    }
  }

  /** However LEDs are added, the strip holds exactly them, sorted by position. */
  lemma {:induction false} BuiltIsSortedPermutation(added: seq<DigitalLed>)
    ensures Sorted(Built(added)) && multiset(Built(added)) == multiset(added)
  {
    if added != [] {
      var n := |added| - 1;
      BuiltIsSortedPermutation(added[..n]);
      InsertSorts(Built(added[..n]), added[n]);
      InsertKeepsAll(Built(added[..n]), added[n]);
      assert added == added[..n] + [added[n]];
    }
  }

  lemma {:induction false} LatestOfSplit(a: seq<DigitalLed>, b: seq<DigitalLed>, position: int)
    ensures Latest(a + b, position) == if Latest(b, position).Some? then Latest(b, position) else Latest(a, position)
  {
    if b == [] {
      assert a + b == a;
    } else {
      var n := |b| - 1;
      assert (a + b)[..|a| + n] == a + b[..n];
      LatestOfSplit(a, b[..n], position);
    }
  }

  lemma {:induction false} NoneBeyond(leds: seq<DigitalLed>, position: int)
    requires forall k :: 0 <= k < |leds| ==> leds[k].position != position
    ensures Latest(leds, position) == None
  {
    if leds != [] {
      NoneBeyond(leds[..|leds| - 1], position);
    }
  }

  /** LED `i` is at this position, and none after it is. */
  ghost predicate LastAt(leds: seq<DigitalLed>, i: int, position: int) {
    && 0 <= i < |leds| && leds[i].position == position
    && forall j :: i < j < |leds| ==> leds[j].position != position
  }

  lemma {:induction false} LatestIsLast(leds: seq<DigitalLed>, i: nat, position: int)
    requires LastAt(leds, i, position)
    ensures Latest(leds, position) == Some(leds[i])
  {
    var n := |leds| - 1;
    if i < n {
      assert leds[n].position != position;
      LatestIsLast(leds[..n], i, position);
    }
  }

  /** Insertion makes the new LED the last one at its position and changes no other position. */
  lemma {:induction false} LatestAfterInsert(leds: seq<DigitalLed>, led: DigitalLed, position: int)
    requires Sorted(leds)
    ensures Latest(Insert(leds, led), position) ==
            if led.position == position then Some(led) else Latest(leds, position)
  {
    if leds == [] {
      assert Latest([led], position) == if led.position == position then Some(led) else Latest([], position);
    } else if leds[0].position > led.position {
      LatestOfSplit([led], leds, position);
      if led.position == position {
        NoneBeyond(leds, position);
      }
    } else {
      LatestAfterInsert(leds[1..], led, position);
      LatestOfSplit([leds[0]], Insert(leds[1..], led), position);
      LatestOfSplit([leds[0]], leds[1..], position);
      assert leds == [leds[0]] + leds[1..];
    }
  }

  /** At every position the strip's last LED is the one added there last. */
  lemma {:induction false} LatestOfBuilt(added: seq<DigitalLed>, position: int)
    ensures Latest(Built(added), position) == Latest(added, position)
  {
    if added != [] {
      var n := |added| - 1;
      LatestOfBuilt(added[..n], position);
      BuiltIsSortedPermutation(added[..n]);
      LatestAfterInsert(Built(added[..n]), added[n], position);
    }
  }

  /* ---- from the LED objects to the light ---- */

  /** A pixel in the three colours, in eight bits each, of the LED that was added last at this place, and no
      white; black if there is none. */
  ghost predicate ShowsLatest(added: seq<DigitalLed>, p: int, pixel: Pixel)
    reads added
  {
    && (forall i :: LastAt(added, i, p) ==>
          pixel == Pixel(added[i].r % 0x100, added[i].g % 0x100, added[i].b % 0x100, 0))
    && ((forall i :: 0 <= i < |added| ==> added[i].position != p) ==> pixel == Pixel(0, 0, 0, 0))
  }

  lemma PixelInNumbers(added: seq<DigitalLed>, p: int)
    ensures ShowsLatest(added, p, PixelAt(Built(added), p))
  {
    LatestOfBuilt(added, p);
    hide Built, Latest;
    forall i | LastAt(added, i, p)
      ensures Latest(added, p) == Some(added[i])
    {
      LatestIsLast(added, i, p);
    }
    if forall i :: 0 <= i < |added| ==> added[i].position != p {
      NoneBeyond(added, p);
    }
  }

  /** What a finished transmission of a strip's picture has brought to the LEDs. */
  lemma PictureReceived(params: LedParams, leds: seq<DigitalLed>, count: nat, tx: Tx, run: seq<Hw>, p: nat)
    requires Supported(params.bytesPerPixel) && Ticks(params.T0H) != Ticks(params.T1H)
    requires |tx.mem| == BLOCK && Ready(tx, FrameBytes(params.bytesPerPixel, count))
    requires IsRun(params, Pack(params.bytesPerPixel, Picture(leds, count)), tx, run) && Done(Last(run))
    requires p < count
    ensures Last(run).sent == Waveform(params, Picture(leds, count))
    ensures |Receive(params, Last(run).sent)| == count
    ensures Receive(params, Last(run).sent)[p] == PixelAt(leds, p)
  {
    var picture := Picture(leds, count);
    hide IsRun, Ready, PixelAt, Receive;
    assert |run| > 0 by {
      NotEmpty(params, Pack(params.bytesPerPixel, picture), tx, run);
    }
    RunDeliversFrame(params, Pack(params.bytesPerPixel, picture), tx, run);
    PixelRoundTrip(params, picture);
    assert picture[p] == PixelAt(leds, p) && picture[p].w == 0 by {
      PixelHasNoWhite(leds, p);
    }
    assert ShownAll(params.bytesPerPixel, picture)[p] == picture[p];
  }

  lemma NotEmpty(params: LedParams, data: seq<byte>, tx: Tx, run: seq<Hw>)
    requires |tx.mem| == BLOCK && IsRun(params, data, tx, run)
    ensures |run| > 0
  {
  }

  lemma PixelHasNoWhite(leds: seq<DigitalLed>, p: int)
    ensures PixelAt(leds, p).w == 0
  {
  }

  /** Whatever was added in whatever order, and however the refills are timed: once the hardware has
      stopped, every LED has received the colour last registered for its place, in eight bits a channel. */
  lemma StripShowsLatestLeds(params: LedParams, added: seq<DigitalLed>, count: nat, tx: Tx, run: seq<Hw>, p: nat)
    requires Supported(params.bytesPerPixel) && Ticks(params.T0H) != Ticks(params.T1H)
    requires |tx.mem| == BLOCK && Ready(tx, FrameBytes(params.bytesPerPixel, count))
    requires IsRun(params, Pack(params.bytesPerPixel, Picture(Built(added), count)), tx, run) && Done(Last(run))
    requires p < count
    ensures Last(run).sent == Waveform(params, Picture(Built(added), count))
    ensures |Receive(params, Last(run).sent)| == count
    ensures ShowsLatest(added, p, Receive(params, Last(run).sent)[p])
  {
    hide *;
    PictureReceived(params, Built(added), count, tx, run, p);
    PixelInNumbers(added, p);
  }
}
