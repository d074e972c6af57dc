/** What every step of the runtime keeps, and what therefore holds in every reachable state. */
module SchedulerSafety {
  import opened Basics
  import opened Scheduler

  ghost predicate Disjoint(xs: seq<MachineId>, ys: seq<MachineId>) {
    forall x :: x in xs ==> x !in ys
  }

  /** The machine being dispatched: it was taken from the run list and has not been let go yet. */
  ghost predicate Dispatching(pc: Pc, m: MachineId) {
    Current(pc) == Some(m) && !pc.Checking? && !pc.Announcing?
  }

  ghost predicate HasWork(machine: Machine) {
    machine.actions != [] || machine.messages != []
  }

  ghost predicate SleepsInAction(machine: Machine) {
    machine.execute.Some? && machine.asleep
  }

  /** Queued work is never forgotten: the machine is queued, or being dispatched, or asleep in the
      middle of an action until somebody wakes it. */
  ghost predicate NoLostWork(s: State) {
    forall m :: 0 <= m < |s.machines| && HasWork(s.machines[m]) ==>
      m in s.pending || m in s.run || Dispatching(s.pc, m) || SleepsInAction(s.machines[m])
  }

  /** No list names a machine twice, and within a cycle the run list, the state-check list and the
      machine being dispatched are all different machines. */
  ghost predicate NoDuplicates(s: State) {
    && Distinct(s.pending) && Distinct(s.run) && Distinct(s.check)
    && Disjoint(s.check, s.run)
    && (forall m :: Dispatching(s.pc, m) ==> m !in s.run && m !in s.check)
    && (s.pc.Checking? ==> s.pc.m !in s.check)
  }

  /** State rules are only due for machines with nothing executing, and only within a cycle. */
  ghost predicate ChecksAreIdle(s: State) {
    && (forall i :: 0 <= i < |s.check| && s.check[i] < |s.machines| ==> s.machines[s.check[i]].execute.None?)
    && (s.pc.Checking? && !s.pc.changed && s.pc.m < |s.machines| ==> s.machines[s.pc.m].execute.None?)
    && (s.pc.Idle? || s.pc.External? ==> s.check == [])
  }

  /** While messages are being handled, an action can only have appeared together with a pending mark. */
  ghost predicate DrainIsClean(s: State) {
    (s.pc.Draining? || s.pc.InHandler?) && s.pc.m < |s.machines| && s.machines[s.pc.m].actions != [] ==>
      s.pc.m in s.pending
  }

  ghost predicate ActionIsExecuting(s: State) {
    s.pc.InAction? && s.pc.m < |s.machines| ==> s.machines[s.pc.m].execute.Some?
  }

  ghost predicate Inv(cfg: Config, s: State) {
    && Typed(cfg, s)
    && ActionIsExecuting(s)
    && NoDuplicates(s)
    && ChecksAreIdle(s)
    && DrainIsClean(s)
    && NoLostWork(s)
  }

  /** Before the first cycle nothing has run yet; whatever set-up queued, it also marked pending. */
  ghost predicate Init(cfg: Config, s: State) {
    && Typed(cfg, s)
    && s.pc == Idle && s.run == [] && s.check == []
    && Distinct(s.pending)
    && forall m :: 0 <= m < |s.machines| && HasWork(s.machines[m]) ==> m in s.pending
  }

  lemma InitInv(cfg: Config, s: State)
    requires Init(cfg, s)
    ensures Inv(cfg, s)
  {
  }

  /* ---- the lists ---- */

  lemma MarkPendingFacts(pending: seq<MachineId>, m: MachineId)
    ensures m in MarkPending(pending, m)
    ensures forall x :: x in MarkPending(pending, m) <==> x == m || x in pending
    ensures Distinct(pending) ==> Distinct(MarkPending(pending, m))
    ensures forall n: nat :: Ids(pending, n) && m < n ==> Ids(MarkPending(pending, m), n)
  {
  }

  lemma {:induction false} MarkAllFacts(pending: seq<MachineId>, ms: seq<MachineId>)
    ensures forall x :: x in MarkAll(pending, ms) <==> x in pending || x in ms
    ensures Distinct(pending) ==> Distinct(MarkAll(pending, ms))
    ensures forall n: nat :: Ids(pending, n) && Ids(ms, n) ==> Ids(MarkAll(pending, ms), n)
    decreases |ms|
  {
    if ms != [] {
      MarkPendingFacts(pending, ms[0]);
      assert ms == [ms[0]] + ms[1..];
      MarkAllFacts(MarkPending(pending, ms[0]), ms[1..]);
    }
  }

  lemma {:induction false} ActivateFacts(run: seq<MachineId>, pending: seq<MachineId>)
    ensures forall x :: x in ActivateAll(run, pending) <==> x in run || x in pending
    ensures Distinct(run) ==> Distinct(ActivateAll(run, pending))
    ensures run <= ActivateAll(run, pending)
    ensures forall n: nat :: Ids(run, n) && Ids(pending, n) ==> Ids(ActivateAll(run, pending), n)
    decreases |pending|
  {
    if pending != [] {
      var run' := MarkRunnable(run, pending[0]);
      assert pending == [pending[0]] + pending[1..];
      assert forall x :: x in run' <==> x in run || x == pending[0];
      ActivateFacts(run', pending[1..]);
    }
  }

  /* ---- each step keeps the invariant ---- */

  lemma Mark1Inv(cfg: Config, s: State, x: MachineId)
    requires Inv(cfg, s) && x < |s.machines|
    ensures Inv(cfg, Mark1(s, x))
  {
    MarkPendingFacts(s.pending, x);
  }

  lemma SendInv(cfg: Config, s: State, to: MachineId, message: Message)
    requires Inv(cfg, s) && to < |s.machines|
    ensures Inv(cfg, SendTo(s, to, message))
  {
    MarkPendingFacts(s.pending, to);
  }

  lemma AddActionInv(cfg: Config, s: State, to: MachineId, action: Action)
    requires Inv(cfg, s) && Enabled(s, AddAction(to, action))
    ensures Inv(cfg, Apply(cfg, s, AddAction(to, action)))
  {
    MarkPendingFacts(s.pending, to);
  }

  lemma PickNextInv(cfg: Config, s: State)
    requires Inv(cfg, s) && s.pc.RunLoop?
    ensures Inv(cfg, Apply(cfg, s, PickNext))
  {
    if s.run != [] {
      assert s.run == [s.run[0]] + s.run[1..];
    }
  }

  /** A machine with nothing to do is put down for a look at its state rules. */
  lemma DueForCheckInv(cfg: Config, s: State)
    requires Inv(cfg, s) && s.pc.Picked?
    requires s.machines[s.pc.m].execute.None? && !HasWork(s.machines[s.pc.m])
    ensures Inv(cfg, s.(pc := RunLoop, check := [s.pc.m] + s.check))
  {
    assert Dispatching(s.pc, s.pc.m);
  }

  lemma SampleInv(cfg: Config, s: State)
    requires Inv(cfg, s) && s.pc.Picked?
    ensures Inv(cfg, SampleMachine(cfg, s))
  {
    assert Dispatching(s.pc, s.pc.m);
    var machine := s.machines[s.pc.m];
    if machine.execute.None? && !HasWork(machine) && cfg.hasCheck[s.pc.m] {
      DueForCheckInv(cfg, s);
    }
  }

  lemma ActInv(cfg: Config, s: State)
    requires Inv(cfg, s) && s.pc.Acting?
    ensures Inv(cfg, ActStep(cfg, s))
  {
    assert Dispatching(s.pc, s.pc.m);
  }

  lemma ReturnInv(cfg: Config, s: State, ret: bool, left: Option<Action>)
    requires Inv(cfg, s) && s.pc.InAction?
    ensures Inv(cfg, ReturnStep(s, ret, left))
  {
    assert Dispatching(s.pc, s.pc.m);
    MarkPendingFacts(s.pending, s.pc.m);
  }

  lemma NotifyInv(cfg: Config, s: State)
    requires Inv(cfg, s) && s.pc.Notifying?
    ensures Inv(cfg, Apply(cfg, s, Notify))
  {
    if s.pc.rest == [] {
      Mark1Inv(cfg, s, s.pc.m);
      MarkPendingFacts(s.pending, s.pc.m);
      assert Apply(cfg, s, Notify) == Mark1(s, s.pc.m).(pc := RunLoop);
    } else {
      Mark1Inv(cfg, s, s.pc.rest[0]);
      assert Apply(cfg, s, Notify) == Mark1(s, s.pc.rest[0]).(pc := Notifying(s.pc.m, s.pc.rest[1..]));
    }
  }

  lemma DrainInv(cfg: Config, s: State)
    requires Inv(cfg, s) && s.pc.Draining?
    ensures Inv(cfg, DrainStep(cfg, s))
  {
  }

  lemma PickCheckInv(cfg: Config, s: State)
    requires Inv(cfg, s) && s.pc.CheckLoop?
    ensures Inv(cfg, Apply(cfg, s, PickCheck))
  {
    if s.check != [] {
      assert s.check == [s.check[0]] + s.check[1..];
    }
  }

  lemma AnnounceInv(cfg: Config, s: State)
    requires Inv(cfg, s) && s.pc.Announcing?
    ensures Inv(cfg, Apply(cfg, s, Announce))
  {
    if s.pc.rest != [] {
      var s1 := s.(pc := Announcing(s.pc.m, s.pc.rest[1..]));
      assert Inv(cfg, s1);
      SendInv(cfg, s1, s.pc.rest[0], Message(Some(s.pc.m), s.machines[s.pc.m].state));
    }
  }

  lemma ActivateInv(cfg: Config, s: State)
    requires Inv(cfg, s) && s.pc.External?
    ensures Inv(cfg, Apply(cfg, s, Activate))
  {
    hide ActivateAll;
    ActivateFacts(s.run, s.pending);
  }

  lemma BeginInv(cfg: Config, s: State)
    requires Inv(cfg, s) && s.pc.Idle?
    ensures Inv(cfg, Apply(cfg, s, Begin))
  {
  }

  lemma HandlerReturnInv(cfg: Config, s: State, left: Option<Action>)
    requires Inv(cfg, s) && s.pc.InHandler?
    ensures Inv(cfg, Apply(cfg, s, HandlerReturn(left)))
  {
    assert Dispatching(s.pc, s.pc.m);
  }

  lemma ChangeStateInv(cfg: Config, s: State, state: int, handler: Option<Action>)
    requires Inv(cfg, s) && Enabled(s, ChangeState(state, handler))
    ensures Inv(cfg, Apply(cfg, s, ChangeState(state, handler)))
  {
  }

  lemma CheckReturnInv(cfg: Config, s: State, ret: bool)
    requires Inv(cfg, s) && s.pc.Checking?
    ensures Inv(cfg, Apply(cfg, s, CheckReturn(ret)))
  {
  }

  lemma SleepInv(cfg: Config, s: State, x: MachineId)
    requires Inv(cfg, s) && Enabled(s, Sleep(x))
    ensures Inv(cfg, Apply(cfg, s, Sleep(x)))
  {
  }

  lemma InvTyped(cfg: Config, s: State)
    requires Inv(cfg, s)
    ensures Typed(cfg, s) && ActionIsExecuting(s)
  {
  }

  lemma StepInv(cfg: Config, s: State, step: Step)
    requires Inv(cfg, s) && Enabled(s, step)
    ensures Inv(cfg, Apply(cfg, s, step))
  {
    InvTyped(cfg, s);
    hide Inv, Typed, SampleMachine, ActStep, ReturnStep, DrainStep, Mark1, SendTo;
    match step
    case Begin => BeginInv(cfg, s);
    case PickNext => PickNextInv(cfg, s);
    case Sample => SampleInv(cfg, s);
    case Act => ActInv(cfg, s);
    case Return(ret, left) => ReturnInv(cfg, s, ret, left);
    case Notify => NotifyInv(cfg, s);
    case Drain => DrainInv(cfg, s);
    case HandlerReturn(left) => HandlerReturnInv(cfg, s, left);
    case PickCheck => PickCheckInv(cfg, s);
    case ChangeState(state, handler) => ChangeStateInv(cfg, s, state, handler);
    case CheckReturn(ret) => CheckReturnInv(cfg, s, ret);
    case Announce => AnnounceInv(cfg, s);
    case Activate => ActivateInv(cfg, s);
    case Mark(x) => Mark1Inv(cfg, s, x);
    case Send(to, message) => SendInv(cfg, s, to, message);
    case AddAction(to, action) => AddActionInv(cfg, s, to, action);
    case Sleep(x) => SleepInv(cfg, s, x);
  }

  /* ---- runs ---- */

  /** `steps` leads from `s` to `end`. */
  ghost predicate Runs(cfg: Config, s: State, steps: seq<Step>, end: State)
    decreases |steps|
  {
    if steps == [] then s == end
    else Typed(cfg, s) && Enabled(s, steps[0]) && Runs(cfg, Apply(cfg, s, steps[0]), steps[1..], end)
  }

  lemma {:induction false} RunKeepsInv(cfg: Config, s: State, steps: seq<Step>, end: State)
    requires Inv(cfg, s) && Runs(cfg, s, steps, end)
    ensures Inv(cfg, end)
    decreases |steps|
  {
    if steps != [] {
      StepInv(cfg, s, steps[0]);
      RunKeepsInv(cfg, Apply(cfg, s, steps[0]), steps[1..], end);
    }
  }

  lemma {:induction false} RunsAppend(cfg: Config, s: State, steps: seq<Step>, mid: State, step: Step)
    requires Runs(cfg, s, steps, mid)
    requires Typed(cfg, mid) && Enabled(mid, step)
    ensures Runs(cfg, s, steps + [step], Apply(cfg, mid, step))
    decreases |steps|
  {
    if steps == [] {
      assert [step][1..] == [];
    } else {
      assert (steps + [step])[1..] == steps[1..] + [step];
      RunsAppend(cfg, Apply(cfg, s, steps[0]), steps[1..], mid, step);
    }
  }

  /** In every reachable state, whatever the callbacks and the other tasks do. */
  lemma ReachableIsSafe(cfg: Config, s: State, steps: seq<Step>, end: State)
    requires Init(cfg, s) && Runs(cfg, s, steps, end)
    ensures Inv(cfg, end)
  {
    InitInv(cfg, s);
    RunKeepsInv(cfg, s, steps, end);
  }

  lemma WorkIsNeverLost(cfg: Config, s: State, steps: seq<Step>, end: State, m: MachineId)
    requires Init(cfg, s) && Runs(cfg, s, steps, end)
    requires m < |end.machines| && HasWork(end.machines[m])
    ensures m in end.pending || m in end.run || Dispatching(end.pc, m) || SleepsInAction(end.machines[m])
  {
    ReachableIsSafe(cfg, s, steps, end);
  }

  /** The assertion in `changeMachineState`: nothing is executing when a state rule changes the state. */
  lemma ChangeStateAssertionHolds(cfg: Config, s: State, steps: seq<Step>, end: State,
                                  state: int, handler: Option<Action>)
    requires Init(cfg, s) && Runs(cfg, s, steps, end)
    requires Enabled(end, ChangeState(state, handler))
    ensures end.pc.m < |end.machines| && end.machines[end.pc.m].execute == None
  {
    ReachableIsSafe(cfg, s, steps, end);
  }
}
