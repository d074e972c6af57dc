/** The hardware draining the block while the interrupt handler refills it.
    The read pointer cycles through the 64 entries, every entry that is not zero goes out, each
    completed half raises the threshold event, and the first zero entry ends the transmission.
    The handler may run at any moment, as long as it is done before the next threshold event. */
module RmtTransmission {
  import opened Basics
  import opened RmtFrame
  import opened RmtStrand

  datatype Hw = Hw(tx: Tx, sent: seq<Pulse>, pending: bool, stopped: bool)

  ghost predicate ValidHw(s: Hw, data: seq<byte>) {
    ValidTx(s.tx, data)
  }

  ghost function Cell(s: Hw): Pulse
    requires |s.tx.mem| == BLOCK
  {
    s.tx.mem[|s.sent| % BLOCK]
  }

  ghost predicate CompletesHalf(s: Hw) {
    (|s.sent| + 1) % MAX_PULSES == 0
  }

  ghost predicate EmitStep(data: seq<byte>, s: Hw, s': Hw) {
    && ValidHw(s, data) && !s.stopped && Cell(s) != ZERO
    && (CompletesHalf(s) ==> !s.pending)
    && s' == s.(sent := s.sent + [Cell(s)], pending := s.pending || CompletesHalf(s))
  }

  ghost predicate StopStep(data: seq<byte>, s: Hw, s': Hw) {
    && ValidHw(s, data) && !s.stopped && Cell(s) == ZERO
    && s' == s.(stopped := true)
  }

  ghost predicate RefillStep(params: LedParams, data: seq<byte>, s: Hw, s': Hw) {
    && ValidHw(s, data) && s.pending
    && s' == s.(tx := CopyHalf(params, data, s.tx), pending := false)
  }

  ghost predicate Next(params: LedParams, data: seq<byte>, s: Hw, s': Hw) {
    EmitStep(data, s, s') || StopStep(data, s, s') || RefillStep(params, data, s, s')
  }

  /** The driver has done its first fills and starts the hardware at entry 0. */
  ghost function Start(params: LedParams, data: seq<byte>, tx: Tx): (s: Hw)
    requires |tx.mem| == BLOCK
    ensures ValidHw(s, data)
  {
    Hw(FirstFills(params, data, tx), [], false, false)
  }

  ghost predicate IsRun(params: LedParams, data: seq<byte>, tx: Tx, run: seq<Hw>)
    requires |tx.mem| == BLOCK
  {
    && |run| > 0
    && run[0] == Start(params, data, tx)
    && forall i :: 0 < i < |run| ==> Next(params, data, run[i - 1], run[i])
  }

  ghost function Last(run: seq<Hw>): Hw
    requires |run| > 0
  {
    run[|run| - 1]
  }

  /** The end interrupt is only taken when no threshold event is waiting. */
  ghost predicate Done(s: Hw) {
    s.stopped && !s.pending
  }

  /** Nothing but the frame goes out, and all of it before the hardware stops. */
  ghost predicate Faithful(params: LedParams, data: seq<byte>, s: Hw) {
    && s.sent <= Encode(params, data)
    && (s.stopped ==> s.sent == Encode(params, data))
  }

  /** What a frame of `n` bytes needs of the block beforehand. Four bytes fill the first half exactly,
      so the hardware looks at the second half before anyone has written it; no bytes at all write
      nothing unless the dirty flag is set. Every other length is indifferent to the old contents. */
  ghost predicate Ready(tx: Tx, n: nat)
    requires |tx.mem| == BLOCK
  {
    && (n == 0 ==> tx.dirty || tx.mem[0] == ZERO)
    && (n == 4 ==> tx.mem[32] == ZERO)
  }

  /* ---- the invariant ---- */

  /** Refill number of the first one that finds no data. */
  ghost function LastFill(data: seq<byte>): nat {
    (|data| + 3) / 4
  }

  /** After `fills` refills: which half is next, how far the data has been expanded. */
  ghost predicate Progress(data: seq<byte>, tx: Tx, fills: nat) {
    && ValidTx(tx, data)
    && tx.half == fills % 2
    && tx.pos == (if 4 * fills < |data| then 4 * fills else |data|)
    && tx.dirty == (fills <= LastFill(data))
  }

  ghost function HalfOf(block: nat): nat {
    if block % 2 == 0 then 0 else 32
  }

  /** The half where refill `block` belongs holds entries `32 * block` to `32 * block + 31` of the frame. */
  ghost predicate HalfHolds(params: LedParams, data: seq<byte>, tx: Tx, block: nat)
    requires |tx.mem| == BLOCK
  {
    forall i :: HalfOf(block) <= i < HalfOf(block) + 32 ==>
      tx.mem[i] == FrameEntry(params, data, 32 * block + (i - HalfOf(block)))
  }

  ghost predicate SentSoFar(params: LedParams, data: seq<byte>, s: Hw) {
    && |s.sent| <= 8 * |data|
    && s.sent == Encode(params, data)[..|s.sent|]
    && (s.stopped ==> |s.sent| == 8 * |data|)
  }

  /** Frames of more than four bytes: the half being read holds the right block of the frame, and
      so does the other half as soon as its refill has been done. */
  ghost predicate InvLong(params: LedParams, data: seq<byte>, s: Hw) {
    var block := |s.sent| / 32;
    && SentSoFar(params, data, s)
    && Progress(data, s.tx, 2 + block - (if s.pending then 1 else 0))
    && HalfHolds(params, data, s.tx, block)
    && (!s.pending && block < LastFill(data) ==> HalfHolds(params, data, s.tx, block + 1))
  }

  /** Frames of one to four bytes live in the first half. */
  ghost predicate InvShort(params: LedParams, data: seq<byte>, s: Hw) {
    && SentSoFar(params, data, s)
    && (s.pending ==> |s.sent| == 32)
    && Progress(data, s.tx, 1 + |s.sent| / 32 - (if s.pending then 1 else 0))
    && HalfHolds(params, data, s.tx, 0)
    && (|data| == 4 ==> s.tx.mem[32] == ZERO)
  }

  ghost predicate InvEmpty(s: Hw) {
    && s.sent == [] && !s.pending
    && |s.tx.mem| == BLOCK && s.tx.pos == 0 && s.tx.half == 1 && !s.tx.dirty && s.tx.mem[0] == ZERO
  }

  ghost predicate Inv(params: LedParams, data: seq<byte>, s: Hw) {
    if |data| == 0 then InvEmpty(s)
    else if |data| <= 4 then InvShort(params, data, s)
    else InvLong(params, data, s)
  }

  lemma FillProgress(params: LedParams, data: seq<byte>, tx: Tx, fills: nat)
    requires Progress(data, tx, fills)
    ensures Progress(data, CopyHalf(params, data, tx), fills + 1)
    ensures fills <= LastFill(data) ==> HalfHolds(params, data, CopyHalf(params, data, tx), fills)
  {
    assert (fills + 1) % 2 == 1 - fills % 2;
    if fills <= LastFill(data) {
      FillWrites(params, data, tx, fills);
    }
  }

  lemma FillWrites(params: LedParams, data: seq<byte>, tx: Tx, fills: nat)
    requires ValidTx(tx, data) && HalfOf(fills) == 32 * tx.half
    requires tx.pos == (if 4 * fills < |data| then 4 * fills else |data|)
    requires tx.dirty || tx.pos < |data|
    ensures HalfHolds(params, data, CopyHalf(params, data, tx), fills)
  {
    var after := CopyHalf(params, data, tx);
    forall i | HalfOf(fills) <= i < HalfOf(fills) + 32
      ensures after.mem[i] == FrameEntry(params, data, 32 * fills + (i - HalfOf(fills)))
    {
      EntryNonZero(params, data, 32 * fills + (i - HalfOf(fills)));
      EntryNonZero(params, data, 8 * tx.pos + (i - HalfOf(fills)));
    }
  }

  /** A refill writes only the half it is for. */
  lemma FillKeepsOther(params: LedParams, data: seq<byte>, tx: Tx, fills: nat, block: nat)
    requires Progress(data, tx, fills)
    requires block % 2 != fills % 2
    requires HalfHolds(params, data, tx, block)
    ensures HalfHolds(params, data, CopyHalf(params, data, tx), block)
  {
  }

  lemma StartInv(params: LedParams, data: seq<byte>, tx: Tx)
    requires |tx.mem| == BLOCK
    requires Ready(tx, |data|)
    ensures Inv(params, data, Start(params, data, tx))
  {
    var reset := tx.(pos := 0, half := 0);
    if |data| == 0 {
      EntryNonZero(params, data, 0);
    } else {
      var one := CopyHalf(params, data, reset);
      FirstFillProgress(params, data, reset);
      if |data| > 4 {
        FillProgress(params, data, one, 1);
        FillKeepsOther(params, data, one, 1, 0);
      }
    }
  }

  /** The first fill finds data, so it does not matter what the dirty flag was. */
  lemma FirstFillProgress(params: LedParams, data: seq<byte>, tx: Tx)
    requires |tx.mem| == BLOCK && tx.pos == 0 && tx.half == 0 && |data| > 0
    ensures Progress(data, CopyHalf(params, data, tx), 1)
    ensures HalfHolds(params, data, CopyHalf(params, data, tx), 0)
    ensures CopyHalf(params, data, tx).mem[32] == tx.mem[32]
  {
  }

  lemma CellIsEntry(params: LedParams, data: seq<byte>, s: Hw)
    requires |data| > 0
    requires Inv(params, data, s)
    ensures Cell(s) == FrameEntry(params, data, |s.sent|)
  {
    hide FrameEntry, Encode;
    var c := |s.sent|;
    if |data| > 4 || c < 32 {
      CellInHalf(params, data, s.tx, c);
    } else {
      EntryNonZero(params, data, c);
    }
  }

  lemma CellInHalf(params: LedParams, data: seq<byte>, tx: Tx, c: nat)
    requires |tx.mem| == BLOCK
    requires HalfHolds(params, data, tx, c / 32)
    ensures tx.mem[c % 64] == FrameEntry(params, data, c)
  {
    ReadPointer(c);
    assert tx.mem[c % 64] == FrameEntry(params, data, 32 * (c / 32) + (c % 64 - HalfOf(c / 32)));
  }

  lemma ReadPointer(c: nat)
    ensures HalfOf(c / 32) <= c % 64 < HalfOf(c / 32) + 32
    ensures 32 * (c / 32) + (c % 64 - HalfOf(c / 32)) == c
  {
    assert c == 64 * (c / 64) + c % 64;
    if c % 64 < 32 {
      assert c / 32 == 2 * (c / 64);
    } else {
      assert c / 32 == 2 * (c / 64) + 1;
    }
  }

  lemma NextInv(params: LedParams, data: seq<byte>, s: Hw, s': Hw)
    requires Inv(params, data, s)
    requires Next(params, data, s, s')
    ensures Inv(params, data, s')
  {
    hide FrameEntry, Encode, HalfHolds, Progress;
    if |data| > 0 {
      CellIsEntry(params, data, s);
      EntryNonZero(params, data, |s.sent|);
      if EmitStep(data, s, s') {
        EmitInv(params, data, s, s');
      } else if RefillStep(params, data, s, s') {
        RefillInv(params, data, s, s');
      }
    }
  }

  lemma EmitInv(params: LedParams, data: seq<byte>, s: Hw, s': Hw)
    requires |data| > 0
    requires Inv(params, data, s)
    requires EmitStep(data, s, s')
    requires Cell(s) == FrameEntry(params, data, |s.sent|) && |s.sent| < 8 * |data|
    ensures Inv(params, data, s')
  {
    hide FrameEntry, Encode, HalfHolds;
    var c := |s.sent|;
    EmitSent(params, data, s, s');
    assert (c + 1) / 32 == c / 32 + if CompletesHalf(s) then 1 else 0;
    if |data| > 4 {
      EmitInvLong(params, data, s, s');
    }
  }

  lemma EmitInvLong(params: LedParams, data: seq<byte>, s: Hw, s': Hw)
    requires |data| > 4
    requires InvLong(params, data, s)
    requires EmitStep(data, s, s') && SentSoFar(params, data, s') && |s.sent| < 8 * |data|
    requires |s'.sent| / 32 == |s.sent| / 32 + if CompletesHalf(s) then 1 else 0
    ensures InvLong(params, data, s')
  {
    hide FrameEntry, Encode;
    if CompletesHalf(s) {
      assert |s.sent| / 32 < LastFill(data);
      assert HalfHolds(params, data, s'.tx, |s'.sent| / 32);
    }
  }

  lemma EmitSent(params: LedParams, data: seq<byte>, s: Hw, s': Hw)
    requires SentSoFar(params, data, s)
    requires EmitStep(data, s, s')
    requires Cell(s) == FrameEntry(params, data, |s.sent|) && |s.sent| < 8 * |data|
    ensures SentSoFar(params, data, s')
  {
    var frame := Encode(params, data);
    assert frame[..|s.sent| + 1] == frame[..|s.sent|] + [frame[|s.sent|]];
  }

  lemma RefillInv(params: LedParams, data: seq<byte>, s: Hw, s': Hw)
    requires |data| > 0
    requires Inv(params, data, s)
    requires RefillStep(params, data, s, s')
    ensures Inv(params, data, s')
  {
    hide FrameEntry, Encode;
    if |data| > 4 {
      var block := |s.sent| / 32;
      FillProgress(params, data, s.tx, block + 1);
      FillKeepsOther(params, data, s.tx, block + 1, block);
    } else {
      FillProgress(params, data, s.tx, 1);
      FillKeepsOther(params, data, s.tx, 1, 0);
      EntryNonZero(params, data, 32);
      assert s'.tx.mem[32] == FrameEntry(params, data, 32 * 1 + (32 - HalfOf(1)));
    }
  }

  /* ---- every run of one frame ---- */

  lemma {:induction false} RunInv(params: LedParams, data: seq<byte>, tx: Tx, run: seq<Hw>, i: nat)
    requires |tx.mem| == BLOCK && Ready(tx, |data|)
    requires IsRun(params, data, tx, run) && i < |run|
    ensures Inv(params, data, run[i])
  {
    if i == 0 {
      StartInv(params, data, tx);
    } else {
      RunInv(params, data, tx, run, i - 1);
      NextInv(params, data, run[i - 1], run[i]);
    }
  }

  /** However the handler is timed, the block never shows the wire anything but the frame. */
  lemma RunIsFaithful(params: LedParams, data: seq<byte>, tx: Tx, run: seq<Hw>, i: nat)
    requires |tx.mem| == BLOCK && Ready(tx, |data|)
    requires IsRun(params, data, tx, run) && i < |run|
    ensures Faithful(params, data, run[i])
  {
    RunInv(params, data, tx, run, i);
    assert run[i].sent == Encode(params, data)[..|run[i].sent|];
  }

  /** The position in a run is determined by what has happened: entries sent, refills made, the stop. */
  lemma {:induction false} StepCount(params: LedParams, data: seq<byte>, tx: Tx, run: seq<Hw>, i: nat)
    requires |tx.mem| == BLOCK
    requires IsRun(params, data, tx, run) && i < |run|
    ensures i == |run[i].sent| + |run[i].sent| / 32 - (if run[i].pending then 1 else 0)
                 + (if run[i].stopped then 1 else 0)
  {
    if i > 0 {
      StepCount(params, data, tx, run, i - 1);
      var c := |run[i - 1].sent|;
      assert (c + 1) / 32 == c / 32 + (if (c + 1) % 32 == 0 then 1 else 0);
      assert Next(params, data, run[i - 1], run[i]);
    }
  }

  lemma RunIsShort(params: LedParams, data: seq<byte>, tx: Tx, run: seq<Hw>)
    requires |tx.mem| == BLOCK && Ready(tx, |data|)
    requires IsRun(params, data, tx, run)
    ensures |run| <= 8 * |data| + |data| / 4 + 2
  {
    StepCount(params, data, tx, run, |run| - 1);
    RunIsFaithful(params, data, tx, run, |run| - 1);
    assert |run[|run| - 1].sent| <= 8 * |data|;
  }

  /** Hardware and handler never wait for each other. */
  lemma CanContinue(params: LedParams, data: seq<byte>, s: Hw)
    requires ValidHw(s, data) && !Done(s)
    ensures exists s' :: Next(params, data, s, s')
  {
    var s' := if s.pending then s.(tx := CopyHalf(params, data, s.tx), pending := false)
              else if Cell(s) == ZERO then s.(stopped := true)
              else s.(sent := s.sent + [Cell(s)], pending := s.pending || CompletesHalf(s));
    assert Next(params, data, s, s');
  }

  ghost predicate Maximal(params: LedParams, data: seq<byte>, run: seq<Hw>)
    requires |run| > 0
  {
    forall s' :: !Next(params, data, Last(run), s')
  }

  /** A run that has gone as far as it can has sent the whole frame and is ready for the next one. */
  lemma RunDeliversFrame(params: LedParams, data: seq<byte>, tx: Tx, run: seq<Hw>)
    requires |tx.mem| == BLOCK && Ready(tx, |data|)
    requires IsRun(params, data, tx, run)
    requires Maximal(params, data, run) || Done(Last(run))
    ensures var end := Last(run);
      && Done(end) && end.sent == Encode(params, data)
      && |end.tx.mem| == BLOCK && Ready(end.tx, |data|)
  {
    var end := Last(run);
    RunInv(params, data, tx, run, |run| - 1);
    RunIsFaithful(params, data, tx, run, |run| - 1);
    if !Done(end) {
      CanContinue(params, data, end);
      assert false;
    }
  }

  /** What has been sent when the hardware stops, in numbers: for each bit of the frame a high phase and
      a low phase, and nothing else. */
  lemma SentInNumbers(params: LedParams, data: seq<byte>, tx: Tx, run: seq<Hw>, j: nat)
    requires |tx.mem| == BLOCK && Ready(tx, |data|)
    requires IsRun(params, data, tx, run) && Done(Last(run)) && j < 8 * |data|
    ensures |Last(run).sent| == 8 * |data|
    ensures var pulse := Last(run).sent[j];
      var one := data[j / 8] / PowerOfTwo(7 - j % 8) % 2 == 1;
      && pulse.level0 && !pulse.level1
      && pulse.duration0 == (if one then params.T1H else params.T0H) / 50 % 0x8000
      && pulse.duration1 == (if j == 8 * |data| - 1 then params.TRS
                             else if one then params.T1L else params.T0L) / 50 % 0x8000
  {
    hide IsRun, Ready, FrameEntry;
    RunDeliversFrame(params, data, tx, run);
    WaveformInNumbers(params, data, j);
  }

  /* ---- when it does not work ---- */

  ghost predicate AlwaysFaithful(params: LedParams, data: seq<byte>, tx: Tx)
    requires |tx.mem| == BLOCK
  {
    forall run, i: nat :: IsRun(params, data, tx, run) && i < |run| ==> Faithful(params, data, run[i])
  }

  /** The condition is exact: a block that is not ready has a timing that puts garbage on the wire. */
  lemma FaithfulIffReady(params: LedParams, data: seq<byte>, tx: Tx)
    requires |tx.mem| == BLOCK
    ensures AlwaysFaithful(params, data, tx) <==> Ready(tx, |data|)
  {
    if Ready(tx, |data|) {
      forall run, i: nat | IsRun(params, data, tx, run) && i < |run|
        ensures Faithful(params, data, run[i])
      {
        RunIsFaithful(params, data, tx, run, i);
      }
    } else if |data| == 0 {
      var s := Start(params, data, tx);
      var bad := s.(sent := [Cell(s)]);
      assert EmitStep(data, s, bad);
      assert IsRun(params, data, tx, [s, bad]);
      assert !Faithful(params, data, [s, bad][1]);
    } else {
      var run := StaleSecondHalf(params, data, tx);
    }
  }

  /** Four bytes and a stale second half: the hardware reads on before the handler has cleared it. */
  lemma StaleSecondHalf(params: LedParams, data: seq<byte>, tx: Tx) returns (run: seq<Hw>)
    requires |tx.mem| == BLOCK && |data| == 4 && tx.mem[32] != ZERO
    ensures IsRun(params, data, tx, run) && |run| == 34
    ensures !Faithful(params, data, run[33])
  {
    var s := Start(params, data, tx);
    FirstFillProgress(params, data, tx.(pos := 0, half := 0));
    run := seq(34, i requires 0 <= i < 34 => Overrun(params, data, tx, s, i));
    forall i | 0 < i < 34
      ensures EmitStep(data, run[i - 1], run[i])
    {
      OverrunStep(params, data, tx, s, i - 1);
    }
    assert run[33].sent == Encode(params, data) + [tx.mem[32]];
  }

  ghost function Overrun(params: LedParams, data: seq<byte>, tx: Tx, s: Hw, i: nat): Hw
    requires |tx.mem| == BLOCK && |data| == 4 && i <= 33
  {
    s.(sent := (Encode(params, data) + [tx.mem[32]])[..i], pending := i >= 32)
  }

  lemma OverrunStep(params: LedParams, data: seq<byte>, tx: Tx, s: Hw, i: nat)
    requires |tx.mem| == BLOCK && |data| == 4 && tx.mem[32] != ZERO && i < 33
    requires ValidHw(s, data) && !s.stopped
    requires HalfHolds(params, data, s.tx, 0) && s.tx.mem[32] == tx.mem[32]
    ensures EmitStep(data, Overrun(params, data, tx, s, i), Overrun(params, data, tx, s, i + 1))
  {
    var wire := Encode(params, data) + [tx.mem[32]];
    assert wire[..i + 1] == wire[..i] + [wire[i]];
    EntryNonZero(params, data, i);
    var now := Overrun(params, data, tx, s, i);
    assert |now.sent| == i && i % 64 == i;
    assert Cell(now) == wire[i] by {
      if i < 32 {
        assert s.tx.mem[i] == FrameEntry(params, data, 32 * 0 + (i - HalfOf(0)));
      }
    }
    assert CompletesHalf(now) <==> i == 31;
  }

  /* ---- what the driver has done by then ---- */

  /** `count` refills in a row. */
  ghost function Refilled(params: LedParams, data: seq<byte>, tx: Tx, count: nat): (r: Tx)
    requires ValidTx(tx, data)
    ensures ValidTx(r, data)
  {
    if count == 0 then tx else CopyHalf(params, data, Refilled(params, data, tx, count - 1))
  }

  /** Halves that the hardware has left behind and the handler has refilled. */
  ghost function Refills(s: Hw): int {
    |s.sent| / 32 - if s.pending then 1 else 0
  }

  /** At any point of a run the block is the first fills and one refill for each half left behind. */
  lemma {:induction false} BlockAfter(params: LedParams, data: seq<byte>, tx: Tx, run: seq<Hw>, i: nat)
    requires |tx.mem| == BLOCK
    requires IsRun(params, data, tx, run) && i < |run|
    ensures Refills(run[i]) >= 0
    ensures run[i].tx == Refilled(params, data, Start(params, data, tx).tx, Refills(run[i]))
  {
    hide CopyHalf, FirstFills;
    if i > 0 {
      BlockAfter(params, data, tx, run, i - 1);
      var c := |run[i - 1].sent|;
      assert (c + 1) / 32 == c / 32 + (if (c + 1) % 32 == 0 then 1 else 0);
      assert Next(params, data, run[i - 1], run[i]);
    }
  }

  /* ---- one frame after another ---- */

  /** Frames of one strand, each started on the block the previous one left behind. */
  ghost predicate IsSession(params: LedParams, n: nat, tx: Tx, frames: seq<seq<byte>>, runs: seq<seq<Hw>>)
    requires |tx.mem| == BLOCK
    decreases |frames|
  {
    && |frames| == |runs|
    && (frames != [] ==>
      && |frames[0]| == n
      && IsRun(params, frames[0], tx, runs[0])
      && Done(Last(runs[0])) && |Last(runs[0]).tx.mem| == BLOCK
      && IsSession(params, n, Last(runs[0]).tx, frames[1..], runs[1..]))
  }

  lemma {:induction false} SessionDeliversFrames(params: LedParams, n: nat, tx: Tx, frames: seq<seq<byte>>,
                                                 runs: seq<seq<Hw>>, i: nat)
    requires |tx.mem| == BLOCK && Ready(tx, n)
    requires IsSession(params, n, tx, frames, runs) && i < |frames|
    ensures |runs[i]| > 0
    ensures Last(runs[i]).sent == Encode(params, frames[i])
    decreases i
  {
    hide Next, Start, Ready, Encode;
    RunDeliversFrame(params, frames[0], tx, runs[0]);
    if i > 0 {
      SessionDeliversFrames(params, n, Last(runs[0]).tx, frames[1..], runs[1..], i - 1);
    }
  }
}
