/** A digital output machine inside the runtime: commands arrive as messages, the I/O task moves the
    commanded bit to the pin, and the machine's state rule acknowledges. The I/O task runs between any
    two steps of the processing task. */
module OutputHandshake {
  import opened Basics
  import opened Scheduler
  import opened SchedulerSafety
  import opened SchedulerRuns

  datatype Status = STABLE | PENDING | DONE

  const TURN_OFF := -100
  const TURN_ON := -101
  const STATE_OFF := 2
  const STATE_ON := 3

  /** The runtime, and the address record and pin of output machine `o`. */
  datatype Output = Output(core: State, o: MachineId, status: Status, bit: bool, level: bool)

  datatype IoStep = Core(step: Step) | WriteIO | ReadIO

  predicate IsCommand(code: int) {
    code == TURN_ON || code == TURN_OFF
  }

  function StateFor(bit: bool): int {
    if bit then STATE_ON else STATE_OFF
  }

  /** The code of the message that this step puts into the output's queue, if it does. */
  ghost function Queued(h: Output, step: Step): Option<int> {
    FirstCode(Delivers(h.core, step, h.o))
  }

  /** The code of the message that this step takes out of the output's queue, if it does. */
  ghost function Handled(h: Output, step: Step): Option<int> {
    FirstCode(Drains(h.core, step, h.o))
  }

  ghost function FirstCode(messages: seq<Message>): Option<int> {
    if messages == [] then None else Some(messages[0].code)
  }

  /** What the output's own code does: its handler only writes the address record, its enter actions
      finish at once, and its rule changes the state exactly when the status is DONE. Any task may send
      it messages whose codes `allowed` admits, but none gives it actions or puts it to sleep. */
  ghost predicate CoreAllowed(h: Output, allowed: iset<int>, step: Step) {
    && Enabled(h.core, step)
    && (Current(h.core.pc) == Some(h.o) ==>
          && (step.Return? ==> step.ret && step.left == None)
          && (step.HandlerReturn? ==> h.o < |h.core.machines| && step.left == h.core.machines[h.o].execute)
          && (step.ChangeState? ==> h.status == DONE && step.state == StateFor(h.bit) && step.handler.Some?)
          && (step.CheckReturn? && h.core.pc.Checking? ==>
                step.ret == h.core.pc.changed && (h.core.pc.changed || h.status != DONE)))
    && (Queued(h, step).Some? ==> Queued(h, step).value in allowed)
    && (step.AddAction? ==> step.to != h.o)
    && (step.Sleep? ==> step.x != h.o)
  }

  ghost function ApplyCore(cfg: Config, h: Output, step: Step): Output
    requires Typed(cfg, h.core) && Enabled(h.core, step)
  {
    var core := Apply(cfg, h.core, step);
    var code := Handled(h, step);
    if code == Some(TURN_ON) then h.(core := core, bit := true, status := PENDING)
    else if code == Some(TURN_OFF) then h.(core := core, bit := false, status := PENDING)
    else if step.ChangeState? && Current(h.core.pc) == Some(h.o) then h.(core := core, status := STABLE)
    else h.(core := core)
  }

  ghost predicate IoEnabled(cfg: Config, allowed: iset<int>, h: Output, step: IoStep) {
    && Typed(cfg, h.core)
    && (step.Core? ==> CoreAllowed(h, allowed, step.step))
  }

  /** Writing copies a pending bit to the pin; reading accepts a pin that already agrees. */
  ghost function IoApply(cfg: Config, allowed: iset<int>, h: Output, step: IoStep): Output
    requires IoEnabled(cfg, allowed, h, step)
  {
    match step
    case Core(s) => ApplyCore(cfg, h, s)
    case WriteIO =>
      if h.status == PENDING then h.(level := h.bit, status := DONE, core := Mark1(h.core, h.o)) else h
    case ReadIO =>
      if h.level == h.bit && h.status == PENDING then h.(status := DONE, core := Mark1(h.core, h.o)) else h
  }

  /* ---- the invariant ---- */

  /** The machine will still look at its address record. */
  ghost predicate WillLook(s: State, o: MachineId) {
    o in s.pending || o in s.run || o in s.check || Dispatching(s.pc, o) || s.pc == Checking(o, false)
  }

  ghost predicate Commands(messages: seq<Message>) {
    forall i :: 0 <= i < |messages| ==> IsCommand(messages[i].code)
  }

  ghost predicate CommandsOnly(h: Output) {
    h.o < |h.core.machines| && Commands(h.core.machines[h.o].messages)
  }

  /** The machine is at its messages and has taken one out at least. */
  ghost predicate PastFirst(s: State, o: MachineId) {
    s.pc == InHandler(o) || (s.pc == Draining(o) && o < |s.machines| && s.machines[o].messages == [])
  }

  /** Once a command of this drain has been handled, DONE can only come with a fresh pending mark. */
  ghost predicate DrainKeepsMark(h: Output) {
    PastFirst(h.core, h.o) && h.status == DONE ==> h.o in h.core.pending
  }

  /** DONE: the pin has the commanded bit and the machine will find out. STABLE: pin, bit and machine
      state agree. */
  ghost predicate Agreement(h: Output) {
    && h.o < |h.core.machines|
    && (h.status == DONE ==> h.level == h.bit && WillLook(h.core, h.o))
    && (h.status == STABLE ==> h.level == h.bit && h.core.machines[h.o].state == StateFor(h.bit))
  }

  ghost predicate OutputInv(cfg: Config, h: Output) {
    && Inv(cfg, h.core) && h.o < |h.core.machines|
    && cfg.hasHandler[h.o] && cfg.hasCheck[h.o]
    && Agreement(h) && CommandsOnly(h) && DrainKeepsMark(h)
    && (h.core.pc == Checking(h.o, true) ==> h.status == STABLE)
  }

  /** An output is set up with level and bit 0, state off, and nothing to do. */
  ghost predicate OutputInit(cfg: Config, h: Output) {
    && Init(cfg, h.core) && h.o < |h.core.machines|
    && cfg.hasHandler[h.o] && cfg.hasCheck[h.o]
    && h.status == STABLE && !h.bit && !h.level
    && h.core.machines[h.o] == Machine(None, [], [], false, STATE_OFF)
  }

  lemma PickNextLooks(s: State, o: MachineId)
    requires s.pc.RunLoop? && WillLook(s, o) && s.run != []
    ensures WillLook(s.(pc := Picked(s.run[0]), run := s.run[1..]), o)
  {
    assert s.run == [s.run[0]] + s.run[1..];
  }

  lemma PickCheckLooks(cfg: Config, s: State, o: MachineId)
    requires s.pc.CheckLoop? && WillLook(s, o) && s.check != [] && s.check[0] < |cfg.hasCheck|
    requires o < |cfg.hasCheck| && cfg.hasCheck[o]
    ensures WillLook(s.(check := s.check[1..],
                        pc := if cfg.hasCheck[s.check[0]] then Checking(s.check[0], false) else CheckLoop), o)
  {
    assert s.check == [s.check[0]] + s.check[1..];
  }

  /** A machine that will look keeps being about to look, except when it leaves its drain, its rule,
      or a blocked action. */
  lemma WillLookStays(cfg: Config, s: State, o: MachineId, step: Step)
    requires Typed(cfg, s) && Enabled(s, step) && WillLook(s, o) && o < |s.machines|
    requires !(step.Drain? && s.pc == Draining(o) && s.machines[o].messages == [])
    requires !((step.ChangeState? || step.CheckReturn?) && s.pc == Checking(o, false))
    requires !(step.Return? && s.pc.m == o && step.left.Some?)
    requires cfg.hasCheck[o]
    ensures WillLook(Apply(cfg, s, step), o)
  {
    match step
    case PickNext =>
      if s.run != [] {
        PickNextLooks(s, o);
      }
    case PickCheck =>
      if s.check != [] {
        PickCheckLooks(cfg, s, o);
      }
    case Activate =>
      hide ActivateAll;
      ActivateFacts(s.run, s.pending);
    case _ =>
      hide ActivateAll;
  }

  lemma DeliversCommands(h: Output, allowed: iset<int>, step: Step)
    requires CoreAllowed(h, allowed, step) && forall c :: c in allowed ==> IsCommand(c)
    ensures Commands(Delivers(h.core, step, h.o))
  {
    hide Delivers, Enabled;
  }

  lemma CommandsStay(cfg: Config, h: Output, allowed: iset<int>, step: Step)
    requires Typed(cfg, h.core) && CommandsOnly(h) && CoreAllowed(h, allowed, step)
    requires forall c :: c in allowed ==> IsCommand(c)
    ensures CommandsOnly(ApplyCore(cfg, h, step))
    ensures Handled(h, step).Some? ==> IsCommand(Handled(h, step).value)
  {
    MessageStep(cfg, h.core, step, h.o);
    DeliversCommands(h, allowed, step);
    hide Apply, Enabled, Typed, IsCommand, Delivers, Drains, CoreAllowed;
    CommandsMoveOn(h.core.machines[h.o].messages, Delivers(h.core, step, h.o), Drains(h.core, step, h.o),
                   Apply(cfg, h.core, step).machines[h.o].messages);
  }

  lemma CommandsMoveOn(was: seq<Message>, arrives: seq<Message>, leaves: seq<Message>, now: seq<Message>)
    requires was + arrives == leaves + now && Commands(was) && Commands(arrives)
    ensures Commands(leaves) && Commands(now)
  {
    forall i | 0 <= i < |leaves|
      ensures IsCommand(leaves[i].code)
    {
      assert leaves[i] == (was + arrives)[i];
    }
    forall i | 0 <= i < |now|
      ensures IsCommand(now[i].code)
    {
      assert now[i] == (was + arrives)[|leaves| + i];
    }
  }

  lemma AgreementStays(cfg: Config, h: Output, allowed: iset<int>, step: Step)
    requires OutputInv(cfg, h) && CoreAllowed(h, allowed, step)
    requires Handled(h, step).Some? ==> IsCommand(Handled(h, step).value)
    ensures Agreement(ApplyCore(cfg, h, step))
  {
    hide Apply, Inv, WillLook, CommandsOnly, Delivers;
    InvTyped(cfg, h.core);
    MachineStep(cfg, h.core, step, h.o);
    if h.status == DONE && Handled(h, step).None? && !(step.ChangeState? && Current(h.core.pc) == Some(h.o)) {
      if step.Drain? && h.core.pc == Draining(h.o) {
        PendingStays(cfg, h.core, step, h.o);
        PendingLooks(Apply(cfg, h.core, step), h.o);
      } else {
        WillLookStays(cfg, h.core, h.o, step);
      }
    }
  }

  lemma PendingLooks(s: State, o: MachineId)
    requires o in s.pending
    ensures WillLook(s, o)
  {
  }

  lemma IntoDrain(cfg: Config, s: State, o: MachineId, step: Step)
    requires Typed(cfg, s) && Enabled(s, step) && o < |s.machines| && PastFirst(Apply(cfg, s, step), o)
    ensures Drains(s, step, o) != [] || (PastFirst(s, o) && !step.Activate? && !step.ChangeState?)
  {
  }

  lemma DrainMarkStays(cfg: Config, h: Output, allowed: iset<int>, step: Step)
    requires OutputInv(cfg, h) && CoreAllowed(h, allowed, step)
    requires Handled(h, step).Some? ==> IsCommand(Handled(h, step).value)
    ensures DrainKeepsMark(ApplyCore(cfg, h, step))
  {
    InvTyped(cfg, h.core);
    hide Apply, Typed, Inv, Agreement, CommandsOnly, Delivers, Drains;
    if PastFirst(Apply(cfg, h.core, step), h.o) && Handled(h, step).None? {
      IntoDrain(cfg, h.core, h.o, step);
      if h.o in h.core.pending {
        PendingStays(cfg, h.core, step, h.o);
      }
    }
  }

  lemma CoreStepInv(cfg: Config, h: Output, allowed: iset<int>, step: Step)
    requires OutputInv(cfg, h) && CoreAllowed(h, allowed, step)
    requires forall c :: c in allowed ==> IsCommand(c)
    ensures OutputInv(cfg, ApplyCore(cfg, h, step))
  {
    InvTyped(cfg, h.core);
    hide Apply, Typed, Inv, Enabled, Agreement, DrainKeepsMark, CommandsOnly, CoreAllowed;
    StepInv(cfg, h.core, step);
    CommandsStay(cfg, h, allowed, step);
    AgreementStays(cfg, h, allowed, step);
    DrainMarkStays(cfg, h, allowed, step);
    StepKeepsMachines(cfg, h.core, step);
    CheckingStays(cfg, h, allowed, step);
  }

  /** When a rule has changed the state, either it did so just now or nothing has left that moment. */
  lemma IntoChecked(cfg: Config, s: State, o: MachineId, step: Step)
    requires Typed(cfg, s) && Enabled(s, step) && Apply(cfg, s, step).pc == Checking(o, true)
    ensures (step.ChangeState? && s.pc == Checking(o, false)) || s.pc == Checking(o, true)
  {
  }

  /** Within one evaluation of the rule the status stays STABLE after the state change. */
  lemma CheckingStays(cfg: Config, h: Output, allowed: iset<int>, step: Step)
    requires Typed(cfg, h.core) && CoreAllowed(h, allowed, step)
    requires h.core.pc == Checking(h.o, true) ==> h.status == STABLE
    ensures ApplyCore(cfg, h, step).core.pc == Checking(h.o, true) ==> ApplyCore(cfg, h, step).status == STABLE
  {
    hide Apply, Typed, Delivers;
    if Apply(cfg, h.core, step).pc == Checking(h.o, true) {
      IntoChecked(cfg, h.core, h.o, step);
    }
  }

  lemma IoStepInv(cfg: Config, allowed: iset<int>, h: Output, step: IoStep)
    requires OutputInv(cfg, h) && IoEnabled(cfg, allowed, h, step)
    requires forall c :: c in allowed ==> IsCommand(c)
    ensures OutputInv(cfg, IoApply(cfg, allowed, h, step))
  {
    if step.Core? {
      CoreStepInv(cfg, h, allowed, step.step);
    } else {
      Mark1Inv(cfg, h.core, h.o);
      MarkPendingFacts(h.core.pending, h.o);
    }
  }

  /* ---- runs ---- */

  ghost predicate IoRuns(cfg: Config, allowed: iset<int>, h: Output, steps: seq<IoStep>, end: Output)
    decreases |steps|
  {
    if steps == [] then h == end
    else IoEnabled(cfg, allowed, h, steps[0])
         && IoRuns(cfg, allowed, IoApply(cfg, allowed, h, steps[0]), steps[1..], end)
  }

  lemma {:induction false} IoRunKeepsInv(cfg: Config, allowed: iset<int>, h: Output, steps: seq<IoStep>, end: Output)
    requires OutputInv(cfg, h) && IoRuns(cfg, allowed, h, steps, end)
    requires forall c :: c in allowed ==> IsCommand(c)
    ensures OutputInv(cfg, end)
    decreases |steps|
  {
    if steps != [] {
      IoStepInv(cfg, allowed, h, steps[0]);
      IoRunKeepsInv(cfg, allowed, IoApply(cfg, allowed, h, steps[0]), steps[1..], end);
    }
  }

  ghost predicate Reachable(cfg: Config, allowed: iset<int>, h: Output) {
    exists start, steps :: OutputInit(cfg, start) && IoRuns(cfg, allowed, start, steps, h)
  }

  /** In every interleaving of the processing task and the I/O task: DONE implies that the pin has the
      commanded bit and the machine will look; STABLE implies that pin, bit and machine state agree. */
  lemma HandshakeIsSafe(cfg: Config, allowed: iset<int>, h: Output)
    requires Reachable(cfg, allowed, h)
    requires forall c :: c in allowed ==> IsCommand(c)
    ensures Agreement(h)
  {
    var start, steps :| OutputInit(cfg, start) && IoRuns(cfg, allowed, start, steps, h);
    InitInv(cfg, start.core);
    IoRunKeepsInv(cfg, allowed, start, steps, h);
  }

  /* ---- what was commanded ---- */

  /** The codes of the messages that the output has handled along `steps`, first to last. */
  ghost function HandledCodes(cfg: Config, allowed: iset<int>, h: Output, steps: seq<IoStep>): seq<int>
    decreases |steps|
  {
    if steps == [] || !IoEnabled(cfg, allowed, h, steps[0]) then []
    else
      var drained := if steps[0].Core? then Drains(h.core, steps[0].step, h.o) else [];
      (if drained == [] then [] else [drained[0].code])
      + HandledCodes(cfg, allowed, IoApply(cfg, allowed, h, steps[0]), steps[1..])
  }

  /** Code `k` is a command, and no command comes after it. */
  ghost predicate LastCommand(codes: seq<int>, k: int) {
    && 0 <= k < |codes| && (codes[k] == TURN_ON || codes[k] == TURN_OFF)
    && forall j :: k < j < |codes| ==> codes[j] != TURN_ON && codes[j] != TURN_OFF
  }

  ghost predicate NoCommand(codes: seq<int>) {
    forall j :: 0 <= j < |codes| ==> codes[j] != TURN_ON && codes[j] != TURN_OFF
  }

  /** The bit is what the last command says, and stays what it was as long as there is none. */
  ghost predicate FollowsCommands(before: bool, codes: seq<int>, after: bool) {
    && (NoCommand(codes) ==> after == before)
    && forall k :: LastCommand(codes, k) ==> after == (codes[k] == TURN_ON)
  }

  /** One step sets the bit by the code it handles, if it handles one. */
  lemma BitStep(cfg: Config, allowed: iset<int>, h: Output, step: IoStep)
    requires IoEnabled(cfg, allowed, h, step)
    ensures var drained := if step.Core? then Drains(h.core, step.step, h.o) else [];
      var after := IoApply(cfg, allowed, h, step);
      && after.o == h.o
      && after.bit == (if drained == [] then h.bit
                       else if drained[0].code == TURN_ON then true
                       else if drained[0].code == TURN_OFF then false else h.bit)
  {
    hide Apply, Typed, Enabled, Drains;
  }

  lemma OneCode(before: bool, codes: seq<int>, after: bool)
    requires |codes| <= 1
    requires after == if codes == [] then before
                      else if codes[0] == TURN_ON then true
                      else if codes[0] == TURN_OFF then false else before
    ensures FollowsCommands(before, codes, after)
  {
    if codes != [] && NoCommand(codes) {
      assert codes[0] != TURN_ON && codes[0] != TURN_OFF;
    }
  }

  lemma CommandFirst(before: bool, first: seq<int>, mid: bool, codes: seq<int>, after: bool)
    requires |first| <= 1 && FollowsCommands(before, first, mid) && FollowsCommands(mid, codes, after)
    ensures FollowsCommands(before, first + codes, after)
  {
    var all := first + codes;
    if NoCommand(codes) {
      assert |first| == 1 ==> all[0] == first[0];
      if first != [] && !NoCommand(first) {
        assert LastCommand(first, 0);
      }
    }
    forall k | LastCommand(all, k)
      ensures after == (all[k] == TURN_ON)
    {
      if k >= |first| {
        assert LastCommand(codes, k - |first|) by {
          assert forall j :: 0 <= j < |codes| ==> codes[j] == all[j + |first|];
        }
      } else {
        assert LastCommand(first, k);
        assert NoCommand(codes) by {
          assert forall j :: 0 <= j < |codes| ==> codes[j] == all[j + |first|];
        }
      }
    }
    if NoCommand(all) {
      assert NoCommand(first) by {
        assert |first| == 1 ==> all[0] == first[0];
      }
      assert NoCommand(codes) by {
        assert forall j :: 0 <= j < |codes| ==> codes[j] == all[j + |first|];
      }
    }
  }

  /** Over every run the commanded bit is the one of the last command that was handled. */
  lemma {:induction false} BitFollowsCommands(cfg: Config, allowed: iset<int>, h: Output, steps: seq<IoStep>,
                                              end: Output)
    requires IoRuns(cfg, allowed, h, steps, end)
    ensures FollowsCommands(h.bit, HandledCodes(cfg, allowed, h, steps), end.bit)
    decreases |steps|
  {
    if steps != [] {
      var next := IoApply(cfg, allowed, h, steps[0]);
      var drained := if steps[0].Core? then Drains(h.core, steps[0].step, h.o) else [];
      var first := if drained == [] then [] else [drained[0].code];
      BitStep(cfg, allowed, h, steps[0]);
      hide IoEnabled, IoApply, Drains;
      BitFollowsCommands(cfg, allowed, next, steps[1..], end);
      OneCode(h.bit, first, next.bit);
      hide FollowsCommands;
      CommandFirst(h.bit, first, next.bit, HandledCodes(cfg, allowed, next, steps[1..]), end.bit);
    }
  }

  /** From set-up on, after any interleaving of sends, processing, pin writes and pin reads: an output whose
      last handled command was turnOn has its pin on once it is DONE, and its pin and its state on once it is
      STABLE; after turnOff, and before any command, off. */
  lemma PinObeysLastCommand(cfg: Config, allowed: iset<int>, start: Output, steps: seq<IoStep>, end: Output)
    requires OutputInit(cfg, start) && IoRuns(cfg, allowed, start, steps, end)
    requires forall c :: c in allowed ==> c == TURN_ON || c == TURN_OFF
    ensures var codes := HandledCodes(cfg, allowed, start, steps);
      && (forall k :: 0 <= k < |codes| ==> codes[k] == TURN_ON || codes[k] == TURN_OFF)
      && (end.status == DONE ==> end.level == (codes != [] && codes[|codes| - 1] == TURN_ON))
      && (end.status == STABLE ==>
            && end.level == (codes != [] && codes[|codes| - 1] == TURN_ON)
            && end.o < |end.core.machines|
            && end.core.machines[end.o].state ==
               if codes != [] && codes[|codes| - 1] == TURN_ON then STATE_ON else STATE_OFF)
  {
    var codes := HandledCodes(cfg, allowed, start, steps);
    BitFollowsCommands(cfg, allowed, start, steps, end);
    assert Reachable(cfg, allowed, end);
    HandshakeIsSafe(cfg, allowed, end);
    InitInv(cfg, start.core);
    hide Init, Inv, Typed, IoRuns, HandledCodes, WillLook;
    HandledAreCommands(cfg, allowed, start, steps, end);
    LastDecides(codes, end.bit);
  }

  lemma LastDecides(codes: seq<int>, bit: bool)
    requires FollowsCommands(false, codes, bit)
    requires forall k :: 0 <= k < |codes| ==> IsCommand(codes[k])
    ensures bit == (codes != [] && codes[|codes| - 1] == TURN_ON)
  {
    if codes == [] {
      assert NoCommand(codes);
    } else {
      assert LastCommand(codes, |codes| - 1);
    }
  }

  lemma {:induction false} HandledAreCommands(cfg: Config, allowed: iset<int>, h: Output, steps: seq<IoStep>,
                                              end: Output)
    requires OutputInv(cfg, h) && IoRuns(cfg, allowed, h, steps, end)
    requires forall c :: c in allowed ==> IsCommand(c)
    ensures forall k :: 0 <= k < |HandledCodes(cfg, allowed, h, steps)| ==>
              IsCommand(HandledCodes(cfg, allowed, h, steps)[k])
    decreases |steps|
  {
    if steps != [] {
      IoStepInv(cfg, allowed, h, steps[0]);
      if steps[0].Core? {
        InvTyped(cfg, h.core);
        CommandsStay(cfg, h, allowed, steps[0].step);
      }
      hide OutputInv, IoApply, Drains, CommandsOnly, CoreAllowed, Typed, Apply, IsCommand;
      HandledAreCommands(cfg, allowed, IoApply(cfg, allowed, h, steps[0]), steps[1..], end);
    }
  }

  /** A pin write leaves nothing pending, and a pin read leaves a write pending exactly if the pin differs
      from the bit; either way the machine is told. */
  lemma PendingIsServed(cfg: Config, allowed: iset<int>, h: Output)
    requires Typed(cfg, h.core)
    ensures var w := IoApply(cfg, allowed, h, WriteIO);
      && w.status == (if h.status == PENDING then DONE else h.status) && w.bit == h.bit
      && w.level == (if h.status == PENDING then h.bit else h.level)
      && (h.status == PENDING ==> h.o in w.core.pending)
    ensures var r := IoApply(cfg, allowed, h, ReadIO);
      && r.level == h.level && r.bit == h.bit
      && (r.status == PENDING <==> h.status == PENDING && h.level != h.bit)
      && (h.status == PENDING && h.level == h.bit ==> r.status == DONE && h.o in r.core.pending)
      && (h.status != PENDING ==> r.status == h.status)
  {
  }

  lemma {:induction false} IoRunsAppend(cfg: Config, allowed: iset<int>, h: Output, steps: seq<IoStep>,
                                        mid: Output, step: IoStep)
    requires IoRuns(cfg, allowed, h, steps, mid) && IoEnabled(cfg, allowed, mid, step)
    ensures IoRuns(cfg, allowed, h, steps + [step], IoApply(cfg, allowed, mid, step))
    decreases |steps|
  {
    if steps == [] {
      assert [step][1..] == [];
    } else {
      assert (steps + [step])[1..] == steps[1..] + [step];
      IoRunsAppend(cfg, allowed, IoApply(cfg, allowed, h, steps[0]), steps[1..], mid, step);
    }
  }

  lemma Go(cfg: Config, allowed: iset<int>, h: Output, step: IoStep)
    requires Reachable(cfg, allowed, h) && IoEnabled(cfg, allowed, h, step)
    ensures Reachable(cfg, allowed, IoApply(cfg, allowed, h, step))
  {
    var start, steps :| OutputInit(cfg, start) && IoRuns(cfg, allowed, start, steps, h);
    IoRunsAppend(cfg, allowed, start, steps, h, step);
  }

  /* ---- a message that is not a command swallows the acknowledgement ---- */

  const ALONE := Config([[]], [true], [true])

  /** A world with the output machine only. */
  ghost function World(messages: seq<Message>, pending: seq<MachineId>, run: seq<MachineId>, pc: Pc,
                       status: Status, level: bool, bit: bool): Output
  {
    Output(State([Alone(messages)], pending, run, [], pc), 0, status, bit, level)
  }

  lemma Replaced(x: Machine, y: Machine)
    ensures [x][0 := y] == [y]
  {
  }

  ghost function Alone(messages: seq<Message>): Machine {
    Machine(None, [], messages, false, STATE_OFF)
  }

  /* the single steps of this world */

  lemma DoBegin(allowed: iset<int>, ms: seq<Message>, run: seq<MachineId>, st: Status, level: bool, bit: bool)
    requires Reachable(ALONE, allowed, World(ms, [], run, Idle, st, level, bit)) && (run == [] || run == [0])
    ensures Reachable(ALONE, allowed, World(ms, [], run, if run == [] then CheckLoop else RunLoop, st, level, bit))
  {
    hide Reachable;
    Go(ALONE, allowed, World(ms, [], run, Idle, st, level, bit), Core(Begin));
  }

  lemma DoPickCheck(allowed: iset<int>, st: Status, level: bool, bit: bool)
    requires Reachable(ALONE, allowed, World([], [], [], CheckLoop, st, level, bit))
    ensures Reachable(ALONE, allowed, World([], [], [], External, st, level, bit))
  {
    hide Reachable;
    Go(ALONE, allowed, World([], [], [], CheckLoop, st, level, bit), Core(PickCheck));
  }

  lemma DoSend(allowed: iset<int>, message: Message, pending: seq<MachineId>, st: Status, level: bool, bit: bool)
    requires message.code in allowed && (pending == [] || pending == [0])
    requires Reachable(ALONE, allowed, World([], pending, [], External, st, level, bit))
    ensures Reachable(ALONE, allowed, World([message], [0], [], External, st, level, bit))
  {
    hide Reachable;
    assert [] + [message] == [message] && [0] + [] == [0];
    Replaced(Alone([]), Alone([message]));
    Go(ALONE, allowed, World([], pending, [], External, st, level, bit), Core(Send(0, message)));
  }

  lemma DoActivate(allowed: iset<int>, ms: seq<Message>, st: Status, level: bool, bit: bool)
    requires Reachable(ALONE, allowed, World(ms, [0], [], External, st, level, bit))
    ensures Reachable(ALONE, allowed, World(ms, [], [0], Idle, st, level, bit))
  {
    hide Reachable;
    assert [0][1..] == [] && ActivateAll([], [0]) == [0];
    Go(ALONE, allowed, World(ms, [0], [], External, st, level, bit), Core(Activate));
  }

  lemma DoPickNext(allowed: iset<int>, ms: seq<Message>, run: seq<MachineId>, st: Status, level: bool, bit: bool)
    requires Reachable(ALONE, allowed, World(ms, [], run, RunLoop, st, level, bit)) && (run == [] || run == [0])
    ensures Reachable(ALONE, allowed, World(ms, [], [], if run == [] then CheckLoop else Picked(0), st, level, bit))
  {
    hide Reachable;
    assert [0][1..] == [];
    Go(ALONE, allowed, World(ms, [], run, RunLoop, st, level, bit), Core(PickNext));
  }

  lemma DoSample(allowed: iset<int>, message: Message, st: Status, level: bool, bit: bool)
    requires Reachable(ALONE, allowed, World([message], [], [], Picked(0), st, level, bit))
    ensures Reachable(ALONE, allowed, World([message], [], [], Draining(0), st, level, bit))
  {
    hide Reachable;
    Go(ALONE, allowed, World([message], [], [], Picked(0), st, level, bit), Core(Sample));
  }

  lemma DoDrain(allowed: iset<int>, message: Message, st: Status, level: bool, bit: bool)
    requires Reachable(ALONE, allowed, World([message], [], [], Draining(0), st, level, bit))
    ensures message.code == TURN_ON ==> Reachable(ALONE, allowed, World([], [], [], InHandler(0), PENDING, level, true))
    ensures !IsCommand(message.code) ==> Reachable(ALONE, allowed, World([], [], [], InHandler(0), st, level, bit))
  {
    hide Reachable;
    assert [message][1..] == [];
    Replaced(Alone([message]), Alone([]));
    Go(ALONE, allowed, World([message], [], [], Draining(0), st, level, bit), Core(Drain));
  }

  lemma DoHandlerReturn(allowed: iset<int>, st: Status, level: bool, bit: bool)
    requires Reachable(ALONE, allowed, World([], [], [], InHandler(0), st, level, bit))
    ensures Reachable(ALONE, allowed, World([], [], [], Draining(0), st, level, bit))
  {
    hide Reachable;
    Replaced(Alone([]), Alone([]));
    Go(ALONE, allowed, World([], [], [], InHandler(0), st, level, bit), Core(HandlerReturn(None)));
  }

  lemma DoLeaveDrain(allowed: iset<int>, st: Status, level: bool, bit: bool)
    requires Reachable(ALONE, allowed, World([], [], [], Draining(0), st, level, bit))
    ensures Reachable(ALONE, allowed, World([], [], [], RunLoop, st, level, bit))
  {
    hide Reachable;
    Go(ALONE, allowed, World([], [], [], Draining(0), st, level, bit), Core(Drain));
  }

  lemma DoWrite(allowed: iset<int>, level: bool, bit: bool)
    requires Reachable(ALONE, allowed, World([], [], [], External, PENDING, level, bit))
    ensures Reachable(ALONE, allowed, World([], [0], [], External, DONE, bit, bit))
  {
    hide Reachable;
    assert [0] + [] == [0];
    Go(ALONE, allowed, World([], [], [], External, PENDING, level, bit), WriteIO);
  }

  /** A message comes in from outside and is drained in the next cycle. */
  lemma DrainedNext(allowed: iset<int>, message: Message, pending: seq<MachineId>, st: Status, level: bool, bit: bool)
    requires message.code in allowed && (pending == [] || pending == [0])
    requires Reachable(ALONE, allowed, World([], pending, [], External, st, level, bit))
    ensures message.code == TURN_ON ==> Reachable(ALONE, allowed, World([], [], [], RunLoop, PENDING, level, true))
    ensures !IsCommand(message.code) ==> Reachable(ALONE, allowed, World([], [], [], RunLoop, st, level, bit))
  {
    hide Reachable, World;
    DoSend(allowed, message, pending, st, level, bit);
    DoActivate(allowed, [message], st, level, bit);
    DoBegin(allowed, [message], [0], st, level, bit);
    DoPickNext(allowed, [message], [0], st, level, bit);
    DoSample(allowed, message, st, level, bit);
    DoDrain(allowed, message, st, level, bit);
    if message.code == TURN_ON {
      DoHandlerReturn(allowed, PENDING, level, true);
      DoLeaveDrain(allowed, PENDING, level, true);
    } else if !IsCommand(message.code) {
      DoHandlerReturn(allowed, st, level, bit);
      DoLeaveDrain(allowed, st, level, bit);
    }
  }

  /** Turn on, write the pin, and then any other message: the machine drains it and forgets the pin. */
  lemma Stranded(allowed: iset<int>, code: int)
    requires TURN_ON in allowed && code in allowed && !IsCommand(code)
    ensures Reachable(ALONE, allowed, World([], [], [], RunLoop, DONE, true, true))
  {
    var w := World([], [], [], Idle, STABLE, false, false);
    assert Reachable(ALONE, allowed, w) by {
      assert OutputInit(ALONE, w) && IoRuns(ALONE, allowed, w, [], w);
    }
    DoBegin(allowed, [], [], STABLE, false, false);
    DoPickCheck(allowed, STABLE, false, false);
    DrainedNext(allowed, Message(None, TURN_ON), [], STABLE, false, false);
    DoPickNext(allowed, [], [], PENDING, false, true);
    DoPickCheck(allowed, PENDING, false, true);
    DoWrite(allowed, false, true);
    DrainedNext(allowed, Message(None, code), [0], DONE, true, true);
  }

  ghost predicate AlwaysAgrees(allowed: iset<int>) {
    forall cfg, h :: Reachable(cfg, allowed, h) ==> Agreement(h)
  }

  /** The condition is exact: an output that takes commands keeps its promises in all programs if and
      only if it is never sent anything else. */
  lemma AgreesIffOnlyCommands(allowed: iset<int>)
    requires TURN_ON in allowed && TURN_OFF in allowed
    ensures AlwaysAgrees(allowed) <==> allowed == iset{TURN_ON, TURN_OFF}
  {
    if allowed == iset{TURN_ON, TURN_OFF} {
      forall cfg, h | Reachable(cfg, allowed, h)
        ensures Agreement(h)
      {
        HandshakeIsSafe(cfg, allowed, h);
      }
    } else {
      assert exists code :: code in allowed && !IsCommand(code) by {
        if forall code :: code in allowed ==> IsCommand(code) {
          assert forall code :: code in allowed <==> code in iset{TURN_ON, TURN_OFF};
        }
      }
      var code :| code in allowed && !IsCommand(code);
      Stranded(allowed, code);
      assert !Agreement(World([], [], [], RunLoop, DONE, true, true));
    }
  }
}
