/** The clockwork runtime as a step machine: the work lists, the machines' queues, and the control
    point of the processing task. One step is one operation under the runtime mutex (or a stretch of
    the processing task that touches no shared list); other tasks may mark machines pending and send
    them messages between any two steps. */
module Scheduler {
  import opened Basics

  type MachineId = nat
  type Action = nat

  datatype Message = Message(from: Option<MachineId>, code: int)

  datatype Machine = Machine(
    execute: Option<Action>, actions: seq<Action>, messages: seq<Message>, asleep: bool, state: int)

  /** What never changes while the program runs. */
  datatype Config = Config(depends: seq<seq<MachineId>>, hasHandler: seq<bool>, hasCheck: seq<bool>)

  /** Where the processing task is. `more` says that its last look at the action queue found one. */
  datatype Pc =
    | Idle
    | RunLoop
    | Picked(m: MachineId)
    | Acting(m: MachineId, more: bool)
    | InAction(m: MachineId, more: bool)
    | Notifying(m: MachineId, rest: seq<MachineId>)
    | Draining(m: MachineId)
    | InHandler(m: MachineId)
    | CheckLoop
    | Checking(m: MachineId, changed: bool)
    | Announcing(m: MachineId, rest: seq<MachineId>)
    | External

  datatype State = State(
    machines: seq<Machine>, pending: seq<MachineId>, run: seq<MachineId>, check: seq<MachineId>, pc: Pc)

  datatype Step =
    | Begin
    | PickNext
    | Sample
    | Act
    | Return(ret: bool, left: Option<Action>)
    | Notify
    | Drain
    | HandlerReturn(left: Option<Action>)
    | PickCheck
    | ChangeState(state: int, handler: Option<Action>)
    | CheckReturn(ret: bool)
    | Announce
    | Activate
    | Mark(x: MachineId)
    | Send(to: MachineId, message: Message)
    | AddAction(to: MachineId, action: Action)
    | Sleep(x: MachineId)

  /* ---- the list operations ---- */

  function MarkPending(pending: seq<MachineId>, m: MachineId): seq<MachineId> {
    if m in pending then pending else [m] + pending
  }

  /** Marking one machine after the other. */
  function MarkAll(pending: seq<MachineId>, ms: seq<MachineId>): seq<MachineId>
    decreases |ms|
  {
    if ms == [] then pending else MarkAll(MarkPending(pending, ms[0]), ms[1..])
  }

  function MarkRunnable(run: seq<MachineId>, m: MachineId): seq<MachineId> {
    if m in run then run else run + [m]
  }

  function ActivateAll(run: seq<MachineId>, pending: seq<MachineId>): seq<MachineId>
    decreases |pending|
  {
    if pending == [] then run else ActivateAll(MarkRunnable(run, pending[0]), pending[1..])
  }

  /* ---- steps ---- */

  function Update(s: State, m: MachineId, machine: Machine): State
    requires m < |s.machines|
  {
    s.(machines := s.machines[m := machine])
  }

  function Mark1(s: State, x: MachineId): State {
    s.(pending := MarkPending(s.pending, x))
  }

  function SendTo(s: State, to: MachineId, message: Message): State
    requires to < |s.machines|
  {
    Mark1(Update(s, to, s.machines[to].(messages := s.machines[to].messages + [message])), to)
  }

  /** Generated code runs here: actions, message handlers and state rules. */
  predicate InCallback(pc: Pc) {
    pc.InAction? || pc.InHandler? || pc.Checking?
  }

  predicate Enabled(s: State, step: Step) {
    match step
    case Begin => s.pc.Idle?
    case PickNext => s.pc.RunLoop?
    case Sample => s.pc.Picked?
    case Act => s.pc.Acting?
    case Return(_, _) => s.pc.InAction?
    case Notify => s.pc.Notifying?
    case Drain => s.pc.Draining?
    case HandlerReturn(_) => s.pc.InHandler?
    case PickCheck => s.pc.CheckLoop?
    case ChangeState(_, _) => s.pc.Checking? && !s.pc.changed
    case CheckReturn(_) => s.pc.Checking?
    case Announce => s.pc.Announcing?
    case Activate => s.pc.External?
    case Mark(x) => x < |s.machines|
    case Send(to, _) => to < |s.machines|
    case AddAction(to, _) => to < |s.machines| && InCallback(s.pc)
    case Sleep(x) => x < |s.machines| && InCallback(s.pc)
  }

  predicate Ids(xs: seq<MachineId>, n: nat) {
    forall i :: 0 <= i < |xs| ==> xs[i] < n
  }

  /** Ids name machines, and the configuration covers all of them. */
  predicate Typed(cfg: Config, s: State) {
    var n := |s.machines|;
    && |cfg.depends| == |cfg.hasHandler| == |cfg.hasCheck| == n
    && (forall m :: 0 <= m < n ==> Ids(cfg.depends[m], n))
    && Ids(s.pending, n) && Ids(s.run, n) && Ids(s.check, n)
    && (Current(s.pc).Some? ==> Current(s.pc).value < n)
    && (s.pc.Notifying? || s.pc.Announcing? ==> Ids(s.pc.rest, n))
    && (s.pc.Acting? || s.pc.InAction? ==> s.pc.more ==> s.machines[s.pc.m].actions != [])
  }

  /** The machine the processing task is working on. */
  function Current(pc: Pc): Option<MachineId> {
    match pc
    case Idle => None
    case RunLoop => None
    case CheckLoop => None
    case External => None
    case Picked(m) => Some(m)
    case Acting(m, _) => Some(m)
    case InAction(m, _) => Some(m)
    case Notifying(m, _) => Some(m)
    case Draining(m) => Some(m)
    case InHandler(m) => Some(m)
    case Checking(m, _) => Some(m)
    case Announcing(m, _) => Some(m)
  }

  function Apply(cfg: Config, s: State, step: Step): State
    requires Typed(cfg, s) && Enabled(s, step)
  {
    match step
    case Begin => s.(pc := if s.run != [] then RunLoop else CheckLoop)
    case PickNext =>
      if s.run == [] then s.(pc := CheckLoop) else s.(pc := Picked(s.run[0]), run := s.run[1..])
    case Sample => SampleMachine(cfg, s)
    case Act => ActStep(cfg, s)
    case Return(ret, left) => ReturnStep(s, ret, left)
    case Notify =>
      if s.pc.rest == [] then Mark1(s.(pc := RunLoop), s.pc.m)
      else Mark1(s.(pc := Notifying(s.pc.m, s.pc.rest[1..])), s.pc.rest[0])
    case Drain => DrainStep(cfg, s)
    case HandlerReturn(left) =>
      Update(s.(pc := Draining(s.pc.m)), s.pc.m, s.machines[s.pc.m].(execute := left))
    case PickCheck =>
      if s.check == [] then s.(pc := External)
      else s.(check := s.check[1..], pc := if cfg.hasCheck[s.check[0]] then Checking(s.check[0], false) else CheckLoop)
    case ChangeState(state, handler) =>
      var machine := s.machines[s.pc.m];
      Update(s.(pc := Checking(s.pc.m, true)), s.pc.m,
             if machine.state == state then machine else machine.(state := state, execute := handler))
    case CheckReturn(ret) =>
      s.(pc := if ret then Announcing(s.pc.m, cfg.depends[s.pc.m]) else CheckLoop)
    case Announce =>
      if s.pc.rest == [] then s.(pc := CheckLoop)
      else SendTo(s.(pc := Announcing(s.pc.m, s.pc.rest[1..])), s.pc.rest[0],
                  Message(Some(s.pc.m), s.machines[s.pc.m].state))
    case Activate => s.(run := ActivateAll(s.run, s.pending), pending := [], pc := Idle)
    case Mark(x) => Mark1(s, x)
    case Send(to, message) => SendTo(s, to, message)
    case AddAction(to, action) =>
      Mark1(Update(s, to, s.machines[to].(actions := s.machines[to].actions + [action])), to)
    case Sleep(x) => Update(s, x, s.machines[x].(asleep := true))
  }

  /** A picked machine continues an action or starts one; failing that it takes its messages;
      failing that its state rules are due. */
  function SampleMachine(cfg: Config, s: State): State
    requires Typed(cfg, s) && s.pc.Picked?
  {
    var m := s.pc.m;
    var machine := s.machines[m];
    if machine.execute.Some? || machine.actions != [] then
      Update(s.(pc := Acting(m, machine.actions != [])), m, machine.(asleep := false))
    else if machine.messages != [] then s.(pc := Draining(m))
    else if cfg.hasCheck[m] then s.(pc := RunLoop, check := [m] + s.check)
    else s.(pc := RunLoop)
  }

  function ActStep(cfg: Config, s: State): State
    requires Typed(cfg, s) && s.pc.Acting?
  {
    var m := s.pc.m;
    var machine := s.machines[m];
    if machine.execute.Some? then s.(pc := InAction(m, s.pc.more))
    else if s.pc.more then
      Update(s.(pc := Acting(m, |machine.actions| > 1)), m,
             machine.(execute := Some(machine.actions[0]), actions := machine.actions[1..]))
    else s.(pc := Notifying(m, cfg.depends[m]))
  }

  /** An action returns with `left` still to be executed. If it reports failure with work left, the
      machine is blocked: it is queued again unless it sleeps, and the run phase of this cycle ends. */
  function ReturnStep(s: State, ret: bool, left: Option<Action>): State
    requires s.pc.InAction? && s.pc.m < |s.machines|
  {
    var m := s.pc.m;
    var after := Update(s, m, s.machines[m].(execute := left));
    if !ret && left.Some? then
      var blocked := after.(pc := CheckLoop);
      if s.machines[m].asleep then blocked else Mark1(blocked, m)
    else after.(pc := Acting(m, s.pc.more))
  }

  function DrainStep(cfg: Config, s: State): State
    requires Typed(cfg, s) && s.pc.Draining?
  {
    var m := s.pc.m;
    var machine := s.machines[m];
    if machine.messages == [] then s.(pc := RunLoop)
    else Update(s.(pc := if cfg.hasHandler[m] then InHandler(m) else Draining(m)), m,
                machine.(messages := machine.messages[1..]))
  }
}
