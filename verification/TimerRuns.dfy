/** Whole runs of the timer task among the other tasks: whoever was due gets its turn, and machines that
    are due together run in schedule order exactly if no cycle ends while they are being marked. */
module TimerRuns {
  import opened Basics
  import opened Scheduler
  import opened SchedulerSafety
  import opened SchedulerRuns
  import opened RtScheduler

  /* ---- the timer task as one more user of the runtime ---- */

  /** What a step of the timed machine is for the runtime. */
  ghost function CoreStep(t: Timed, step: TimedStep): seq<Step> {
    match step
    case MarkTop => if t.runnable == [] then [] else [Mark(t.runnable[0])]
    case Core(s) => [s]
    case _ => []
  }

  ghost function CoreSteps(cfg: Config, t: Timed, steps: seq<TimedStep>): seq<Step>
    decreases |steps|
  {
    if steps == [] || !TimedEnabled(cfg, t, steps[0]) then []
    else CoreStep(t, steps[0]) + CoreSteps(cfg, TimedApply(cfg, t, steps[0]), steps[1..])
  }

  lemma CoreStepRuns(cfg: Config, t: Timed, step: TimedStep, rest: seq<Step>, end: State)
    requires TimedEnabled(cfg, t, step) && Runs(cfg, TimedApply(cfg, t, step).core, rest, end)
    ensures Runs(cfg, t.core, CoreStep(t, step) + rest, end)
  {
    if CoreStep(t, step) == [] {
      assert CoreStep(t, step) + rest == rest;
    } else {
      assert (CoreStep(t, step) + rest)[1..] == rest;
    }
  }

  /** To the runtime, a run of the timed machine is a run like any other. */
  lemma {:induction false} CoreRuns(cfg: Config, t: Timed, steps: seq<TimedStep>, end: Timed)
    requires TimedRuns(cfg, t, steps, end)
    ensures Runs(cfg, t.core, CoreSteps(cfg, t, steps), end.core)
    decreases |steps|
  {
    hide Typed, Enabled, Apply;
    if steps != [] {
      var t' := TimedApply(cfg, t, steps[0]);
      CoreRuns(cfg, t', steps[1..], end);
      CoreStepRuns(cfg, t, steps[0], CoreSteps(cfg, t', steps[1..]), end.core);
    }
  }

  lemma TimedStepInv(cfg: Config, t: Timed, step: TimedStep)
    requires Inv(cfg, t.core) && TimedEnabled(cfg, t, step)
    ensures Inv(cfg, TimedApply(cfg, t, step).core)
  {
    match step
    case MarkTop => Mark1Inv(cfg, t.core, t.runnable[0]);
    case Core(s) => StepInv(cfg, t.core, s);
    case _ =>
  }

  lemma CoreStepsFirst(cfg: Config, t: Timed, steps: seq<TimedStep>)
    requires steps != [] && TimedEnabled(cfg, t, steps[0])
    ensures CoreSteps(cfg, t, steps)
            == CoreStep(t, steps[0]) + CoreSteps(cfg, TimedApply(cfg, t, steps[0]), steps[1..])
  {
  }

  lemma TimedRunsFirst(cfg: Config, t: Timed, steps: seq<TimedStep>, end: Timed)
    requires steps != [] && TimedRuns(cfg, t, steps, end)
    ensures TimedEnabled(cfg, t, steps[0]) && TimedRuns(cfg, TimedApply(cfg, t, steps[0]), steps[1..], end)
  {
  }

  lemma {:induction false} CoreStepsSplit(cfg: Config, t: Timed, a: seq<TimedStep>, mid: Timed, b: seq<TimedStep>)
    requires TimedRuns(cfg, t, a, mid)
    ensures CoreSteps(cfg, t, a + b) == CoreSteps(cfg, t, a) + CoreSteps(cfg, mid, b)
    decreases |a|
  {
    if a == [] {
      assert a + b == b;
    } else {
      TimedRunsFirst(cfg, t, a, mid);
      hide TimedEnabled, TimedApply, TimedRuns, CoreSteps, CoreStep;
      var t' := TimedApply(cfg, t, a[0]);
      RestOfConcat(a, b);
      CoreStepsSplit(cfg, t', a[1..], mid, b);
      CoreStepsFirst(cfg, t, a);
      CoreStepsFirst(cfg, t, a + b);
      Associate(CoreStep(t, a[0]), CoreSteps(cfg, t', a[1..]), CoreSteps(cfg, mid, b));
    }
  }

  lemma {:induction false} TimedRunsConcat(cfg: Config, t: Timed, a: seq<TimedStep>, mid: Timed,
                                           b: seq<TimedStep>, end: Timed)
    requires TimedRuns(cfg, t, a, mid) && TimedRuns(cfg, mid, b, end)
    ensures TimedRuns(cfg, t, a + b, end)
    decreases |a|
  {
    hide Typed, Enabled, Apply;
    if a == [] {
      assert a + b == b;
    } else {
      assert (a + b)[1..] == a[1..] + b;
      TimedRunsConcat(cfg, TimedApply(cfg, t, a[0]), a[1..], mid, b, end);
    }
  }

  /* ---- everything that fires is marked ---- */

  /** The machines that the timer task marks along `steps`. */
  ghost function Marked(cfg: Config, t: Timed, steps: seq<TimedStep>): seq<MachineId>
    decreases |steps|
  {
    if steps == [] || !TimedEnabled(cfg, t, steps[0]) then []
    else (if steps[0].MarkTop? then [t.runnable[0]] else [])
         + Marked(cfg, TimedApply(cfg, t, steps[0]), steps[1..])
  }

  /** The machines that fire along `steps`, each pass from its last to its first. */
  ghost function AllFired(cfg: Config, t: Timed, steps: seq<TimedStep>): seq<MachineId>
    decreases |steps|
  {
    if steps == [] || !TimedEnabled(cfg, t, steps[0]) then []
    else (if steps[0].Collect? then Reversed(Fired(t.schedule, steps[0].now)) else [])
         + AllFired(cfg, TimedApply(cfg, t, steps[0]), steps[1..])
  }

  /** Over every run and through any number of passes, what was on the stack and what fired is what was
      marked, in that order, and what is still on the stack. */
  lemma {:induction false} FiredAreMarked(cfg: Config, t: Timed, steps: seq<TimedStep>, end: Timed)
    requires TimedRuns(cfg, t, steps, end)
    ensures t.runnable + AllFired(cfg, t, steps) == Marked(cfg, t, steps) + end.runnable
    decreases |steps|
  {
    hide Typed, Enabled, Apply;
    if steps == [] {
      assert t.runnable + [] == [] + t.runnable;
    } else {
      var t' := TimedApply(cfg, t, steps[0]);
      FiredAreMarked(cfg, t', steps[1..], end);
      var fires := if steps[0].Collect? then Reversed(Fired(t.schedule, steps[0].now)) else [];
      var marks := if steps[0].MarkTop? then [t.runnable[0]] else [];
      assert t.runnable + fires == marks + t'.runnable;
      Regroup(t.runnable, fires, marks, t'.runnable, AllFired(cfg, t', steps[1..]), Marked(cfg, t', steps[1..]),
              end.runnable);
    }
  }

  /* ---- nothing is marked before its time ---- */

  /** Somewhere along `steps`, a pass finds an item for machine `m` that is due. */
  ghost predicate Collected(cfg: Config, t: Timed, steps: seq<TimedStep>, m: MachineId)
    decreases |steps|
  {
    && steps != [] && TimedEnabled(cfg, t, steps[0])
    && ((steps[0].Collect? &&
           exists i :: 0 <= i < |t.schedule| && t.schedule[i].active && t.schedule[i].triggerTime <= steps[0].now
                       && t.schedule[i].machine == Some(m))
        || Collected(cfg, TimedApply(cfg, t, steps[0]), steps[1..], m))
  }

  lemma OnlyCollectStacks(cfg: Config, t: Timed, step: TimedStep, m: MachineId)
    requires TimedEnabled(cfg, t, step) && m !in t.runnable && m in TimedApply(cfg, t, step).runnable
    ensures step.Collect? &&
      exists i :: 0 <= i < |t.schedule| && t.schedule[i].active && t.schedule[i].triggerTime <= step.now
                  && t.schedule[i].machine == Some(m)
  {
    if step.Collect? {
      ReversedMember(Fired(t.schedule, step.now), m);
      FiredIffDue(t.schedule, step.now, m);
    }
  }

  /** When the timer task marks a machine, a pass before has found an item for it whose time had come. */
  lemma {:induction false} MarkedWasDue(cfg: Config, t: Timed, steps: seq<TimedStep>, end: Timed)
    requires TimedRuns(cfg, t, steps, end)
    requires TimedEnabled(cfg, end, MarkTop) && end.runnable[0] !in t.runnable
    ensures Collected(cfg, t, steps, end.runnable[0])
    decreases |steps|
  {
    hide Typed, Enabled, Apply, Fired, Kept;
    var t' := TimedApply(cfg, t, steps[0]);
    if end.runnable[0] in t'.runnable {
      OnlyCollectStacks(cfg, t, steps[0], end.runnable[0]);
    } else {
      MarkedWasDue(cfg, t', steps[1..], end);
    }
  }

  /** Every item for machine `m` that is added along `steps` is for `time` or later, and all passes come
      before that. */
  ghost predicate TooEarly(steps: seq<TimedStep>, m: MachineId, time: int) {
    forall k :: 0 <= k < |steps| ==>
      && (steps[k].Add? && steps[k].item.machine == Some(m) ==> steps[k].item.triggerTime >= time)
      && (steps[k].Collect? ==> steps[k].now < time)
  }

  ghost predicate NoneBefore(schedule: seq<Item>, m: MachineId, time: int) {
    forall i :: 0 <= i < |schedule| && schedule[i].machine == Some(m) ==> schedule[i].triggerTime >= time
  }

  lemma NoneBeforeNext(cfg: Config, t: Timed, step: TimedStep, m: MachineId, time: int)
    requires TimedEnabled(cfg, t, step) && TooEarly([step], m, time)
    requires m !in t.runnable && NoneBefore(t.schedule, m, time)
    ensures var t' := TimedApply(cfg, t, step); m !in t'.runnable && NoneBefore(t'.schedule, m, time)
  {
    assert TooEarly([step], m, time) && [step][0] == step;
    if step.Collect? {
      ReversedMember(Fired(t.schedule, step.now), m);
      FiredIffDue(t.schedule, step.now, m);
      KeptNoneBefore(t.schedule, step.now, m, time);
    }
  }

  lemma {:induction false} KeptNoneBefore(schedule: seq<Item>, now: u32, m: MachineId, time: int)
    requires NoneBefore(schedule, m, time)
    ensures NoneBefore(Kept(schedule, now), m, time)
  {
    if schedule != [] {
      KeptNoneBefore(schedule[1..], now, m, time);
    }
  }

  lemma {:induction false} NotMarkedEarly(cfg: Config, t: Timed, steps: seq<TimedStep>, end: Timed, m: MachineId,
                                          time: int)
    requires TimedRuns(cfg, t, steps, end) && TooEarly(steps, m, time)
    requires m !in t.runnable && NoneBefore(t.schedule, m, time)
    ensures m !in Marked(cfg, t, steps)
    decreases |steps|
  {
    if steps != [] {
      hide Typed, Enabled, Apply, Fired, Kept, NoneBefore;
      assert TooEarly([steps[0]], m, time) && TooEarly(steps[1..], m, time);
      NoneBeforeNext(cfg, t, steps[0], m, time);
      NotMarkedEarly(cfg, TimedApply(cfg, t, steps[0]), steps[1..], end, m, time);
    }
  }

  /** An item made at some uptime with some delay does not wake its machine before that time has passed,
      if its trigger time does not wrap. */
  lemma NoMarkBeforeDelay(cfg: Config, t: Timed, uptime: nat, delay: u32, steps: seq<TimedStep>, end: Timed,
                          m: MachineId)
    requires uptime + delay < 0x1_0000_0000
    requires TimedRuns(cfg, t, [TimedStep.Add(CreateItem(uptime, delay, Some(m)))] + steps, end)
    requires m !in t.runnable && NoneBefore(t.schedule, m, uptime + delay) && TooEarly(steps, m, uptime + delay)
    ensures m !in Marked(cfg, t, [TimedStep.Add(CreateItem(uptime, delay, Some(m)))] + steps)
  {
    var all := [TimedStep.Add(CreateItem(uptime, delay, Some(m)))] + steps;
    forall k | 0 <= k < |all|
      ensures all[k].Add? && all[k].item.machine == Some(m) ==> all[k].item.triggerTime >= uptime + delay
      ensures all[k].Collect? ==> all[k].now < uptime + delay
    {
      assert k > 0 ==> all[k] == steps[k - 1];
    }
    NotMarkedEarly(cfg, t, all, end, m, uptime + delay);
  }

  /* ---- whoever was due gets its turn ---- */

  /** Only a mark takes a machine off the stack. */
  lemma OnStackStays(cfg: Config, t: Timed, step: TimedStep, m: MachineId)
    requires TimedEnabled(cfg, t, step) && m in t.runnable
    requires !(step.MarkTop? && t.runnable[0] == m)
    ensures m in TimedApply(cfg, t, step).runnable
  {
    assert t.runnable == [t.runnable[0]] + t.runnable[1..];
  }

  lemma DispatchesLater(cfg: Config, t: Timed, step: TimedStep, rest: seq<Step>, m: MachineId)
    requires TimedEnabled(cfg, t, step) && Dispatches(cfg, TimedApply(cfg, t, step).core, rest, m)
    ensures Dispatches(cfg, t.core, CoreStep(t, step) + rest, m)
  {
    if CoreStep(t, step) == [] {
      assert CoreStep(t, step) + rest == rest;
    } else {
      assert (CoreStep(t, step) + rest)[1..] == rest;
    }
  }

  lemma MarkedIsDispatched(cfg: Config, t: Timed, a: seq<TimedStep>, mid: Timed,
                           b: seq<TimedStep>, end: Timed, m: MachineId)
    requires Inv(cfg, t.core) && m in t.core.pending
    requires TimedRuns(cfg, t, a, mid) && TimedRuns(cfg, mid, b, end)
    requires Cycles(CoreSteps(cfg, mid, b)) >= |t.core.machines| + 1
    ensures Dispatches(cfg, t.core, CoreSteps(cfg, t, a + b), m)
  {
    TimedRunsConcat(cfg, t, a, mid, b, end);
    CoreRuns(cfg, t, a + b, end);
    CoreStepsSplit(cfg, t, a, mid, b);
    CyclesConcat(CoreSteps(cfg, t, a), CoreSteps(cfg, mid, b));
    PendingIsDispatched(cfg, t.core, CoreSteps(cfg, t, a + b), end.core, m);
  }

  /** Once machine `m` is off the stack and N + 1 more cycles have ended, it has been dispatched. */
  lemma {:induction false} FiredIsDispatched(cfg: Config, t: Timed, a: seq<TimedStep>, mid: Timed,
                                             b: seq<TimedStep>, end: Timed, m: MachineId)
    requires Inv(cfg, t.core) && m in t.runnable
    requires TimedRuns(cfg, t, a, mid) && m !in mid.runnable
    requires TimedRuns(cfg, mid, b, end) && Cycles(CoreSteps(cfg, mid, b)) >= |t.core.machines| + 1
    ensures Dispatches(cfg, t.core, CoreSteps(cfg, t, a + b), m)
    decreases |a|
  {
    hide Inv, Typed, Runs, Dispatches, Apply, Cycles;
    var t' := TimedApply(cfg, t, a[0]);
    assert (a + b)[1..] == a[1..] + b;
    TimedStepInv(cfg, t, a[0]);
    CoreStepKeepsCount(cfg, t, a[0]);
    if a[0].MarkTop? && t.runnable[0] == m {
      MarkPendingFacts(t.core.pending, m);
      MarkedIsDispatched(cfg, t', a[1..], mid, b, end, m);
    } else {
      OnStackStays(cfg, t, a[0], m);
      FiredIsDispatched(cfg, t', a[1..], mid, b, end, m);
    }
    DispatchesLater(cfg, t, a[0], CoreSteps(cfg, t', a[1..] + b), m);
  }

  lemma CoreStepKeepsCount(cfg: Config, t: Timed, step: TimedStep)
    requires TimedEnabled(cfg, t, step)
    ensures |TimedApply(cfg, t, step).core.machines| == |t.core.machines|
  {
    if step.Core? {
      hide Typed, Enabled, Apply;
      StepKeepsMachines(cfg, t.core, step.step);
    }
  }

  /** Every machine with an item that is due when a pass begins is dispatched within N + 1 cycle ends of
      the end of that pass, whatever the other tasks do during and after it. */
  lemma DueIsDispatched(cfg: Config, t: Timed, now: u32, item: Item, a: seq<TimedStep>, mid: Timed,
                        b: seq<TimedStep>, end: Timed)
    requires Inv(cfg, t.core)
    requires item in t.schedule && Due(item, now) && item.machine.Some?
    requires TimedRuns(cfg, t, [TimedStep.Collect(now)] + a, mid) && mid.runnable == []
    requires TimedRuns(cfg, mid, b, end) && Cycles(CoreSteps(cfg, mid, b)) >= |t.core.machines| + 1
    ensures Dispatches(cfg, t.core, CoreSteps(cfg, t, [TimedStep.Collect(now)] + (a + b)), item.machine.value)
  {
    hide Inv, Typed, Runs, Dispatches, Apply, Cycles, TimedRuns, CoreSteps, Fired, Kept, Reversed;
    var collect := TimedStep.Collect(now);
    RestOfConcat([collect], a);
    RestOfConcat([collect], a + b);
    assert [collect][1..] + a == a && [collect][1..] + (a + b) == a + b;
    TimedRunsFirst(cfg, t, [collect] + a, mid);
    var t' := TimedApply(cfg, t, collect);
    var i :| 0 <= i < |t.schedule| && t.schedule[i] == item;
    FiredIffDue(t.schedule, now, item.machine.value);
    ReversedMember(Fired(t.schedule, now), item.machine.value);
    FiredIsDispatched(cfg, t', a, mid, b, end, item.machine.value);
    CoreStepsFirst(cfg, t, [collect] + (a + b));
    DispatchesLater(cfg, t, collect, CoreSteps(cfg, t', a + b), item.machine.value);
  }

  /* ---- who comes first ---- */

  /** `x` occurs in `xs`, and `y` does not occur before it does. */
  ghost predicate Before(xs: seq<MachineId>, x: MachineId, y: MachineId) {
    exists p :: 0 <= p < |xs| && xs[p] == x && y !in xs[..p]
  }

  ghost predicate InOrder(ms: seq<MachineId>, xs: seq<MachineId>) {
    forall i, j :: 0 <= i < j < |ms| ==> Before(xs, ms[i], ms[j])
  }

  lemma BeforeSkips(zs: seq<MachineId>, xs: seq<MachineId>, x: MachineId, y: MachineId)
    requires x !in zs && y !in zs
    ensures Before(zs + xs, x, y) <==> Before(xs, x, y)
  {
    if Before(xs, x, y) {
      var p :| 0 <= p < |xs| && xs[p] == x && y !in xs[..p];
      assert (zs + xs)[|zs| + p] == x && (zs + xs)[..|zs| + p] == zs + xs[..p];
    }
    if Before(zs + xs, x, y) {
      var p :| 0 <= p < |zs + xs| && (zs + xs)[p] == x && y !in (zs + xs)[..p];
      assert p >= |zs| && (zs + xs)[..p] == zs + xs[..p - |zs|];
    }
  }

  lemma BeforeExtends(xs: seq<MachineId>, zs: seq<MachineId>, x: MachineId, y: MachineId)
    requires Before(xs, x, y)
    ensures Before(xs + zs, x, y)
  {
    var p :| 0 <= p < |xs| && xs[p] == x && y !in xs[..p];
    assert (xs + zs)[p] == x && (xs + zs)[..p] == xs[..p];
  }

  lemma NotBefore(xs: seq<MachineId>, zs: seq<MachineId>, x: MachineId, y: MachineId)
    requires y in xs && x !in xs
    ensures !Before(xs + zs, x, y)
  {
    forall p | 0 <= p < |xs + zs| && (xs + zs)[p] == x
      ensures y in (xs + zs)[..p]
    {
      assert (xs + zs)[..p] == xs + zs[..p - |xs|];
    }
  }

  /** What activation puts behind the machines that are on the run list already. */
  ghost function New(run: seq<MachineId>, pending: seq<MachineId>): seq<MachineId> {
    ActivateFacts(run, pending);
    ActivateAll(run, pending)[|run|..]
  }

  lemma NewOneByOne(run: seq<MachineId>, pending: seq<MachineId>)
    requires pending != []
    ensures New(run, pending) ==
            (if pending[0] in run then [] else [pending[0]]) + New(MarkRunnable(run, pending[0]), pending[1..])
  {
    ActivateFacts(run, pending);
    ActivateFacts(MarkRunnable(run, pending[0]), pending[1..]);
  }

  /** The machines that this step puts on the run list, in that order. */
  ghost function Joins(s: State, step: Step): seq<MachineId> {
    if step.Activate? then New(s.run, s.pending) else []
  }

  /** All that join the run list along `steps`, in that order. The list is first in, first out. */
  ghost function Joined(cfg: Config, t: Timed, steps: seq<TimedStep>): seq<MachineId>
    decreases |steps|
  {
    if steps == [] || !TimedEnabled(cfg, t, steps[0]) then []
    else (if steps[0].Core? then Joins(t.core, steps[0].step) else [])
         + Joined(cfg, TimedApply(cfg, t, steps[0]), steps[1..])
  }

  /** Activation takes the pending machines in their order. */
  lemma {:induction false} JoinOrder(run: seq<MachineId>, pending: seq<MachineId>, x: MachineId, y: MachineId)
    requires Before(pending, x, y) && x !in run && x != y
    ensures Before(New(run, pending), x, y)
    decreases |pending|
  {
    hide Before, New;
    FirstIsNeither(pending, x, y);
    NewOneByOne(run, pending);
    var rest := New(MarkRunnable(run, pending[0]), pending[1..]);
    if pending[0] == x {
      IsFirst(x, rest, y);
    } else {
      JoinOrder(MarkRunnable(run, pending[0]), pending[1..], x, y);
      BeforeSkips(if pending[0] in run then [] else [pending[0]], rest, x, y);
    }
  }

  lemma IsFirst(x: MachineId, xs: seq<MachineId>, y: MachineId)
    ensures Before([x] + xs, x, y)
  {
    assert ([x] + xs)[0] == x && y !in ([x] + xs)[..0];
  }

  lemma FirstIsNeither(xs: seq<MachineId>, x: MachineId, y: MachineId)
    requires Before(xs, x, y) && x != y
    ensures xs != [] && xs[0] != y && (xs[0] != x ==> Before(xs[1..], x, y))
  {
    var p :| 0 <= p < |xs| && xs[p] == x && y !in xs[..p];
    assert xs == [xs[0]] + xs[1..];
    if xs[0] != x {
      assert xs[0] == xs[..p][0];
      BeforeSkips([xs[0]], xs[1..], x, y);
    }
  }

  lemma {:induction false} NewAre(run: seq<MachineId>, pending: seq<MachineId>, m: MachineId)
    ensures m in New(run, pending) <==> m in pending && m !in run
    decreases |pending|
  {
    if pending != [] {
      hide New;
      NewOneByOne(run, pending);
      NewAre(MarkRunnable(run, pending[0]), pending[1..], m);
      assert pending == [pending[0]] + pending[1..];
    }
  }

  /* ---- two machines that fired in the same pass, `x` earlier on the schedule than `y` ---- */

  /** Both are still to be marked, `y` first; or `y` has been, and `x` is still to be. */
  ghost predicate Waiting(t: Timed, x: MachineId, y: MachineId) {
    && x != y && x in t.runnable && Distinct(t.runnable)
    && x !in t.core.pending && x !in t.core.run && y !in t.core.run
    && (if y in t.runnable then y !in t.core.pending && Before(t.runnable, y, x) else y in t.core.pending)
  }

  /** Both are marked, in schedule order. */
  ghost predicate Queued(t: Timed, x: MachineId, y: MachineId) {
    x != y && x !in t.core.run && y !in t.core.run && Before(t.core.pending, x, y)
  }

  /** Nobody but the timer task marks a machine that is still on the stack. */
  ghost predicate NobodyElseMarks(cfg: Config, t: Timed, steps: seq<TimedStep>)
    decreases |steps|
  {
    steps != [] && t.runnable != [] && TimedEnabled(cfg, t, steps[0]) ==>
      var t' := TimedApply(cfg, t, steps[0]);
      (steps[0].Core? ==> Disjoint(t'.runnable, t'.core.pending)) && NobodyElseMarks(cfg, t', steps[1..])
  }

  /** A cycle ends when `y` has been marked and `x` has not. */
  ghost predicate Parts(cfg: Config, t: Timed, steps: seq<TimedStep>, x: MachineId, y: MachineId)
    decreases |steps|
  {
    && steps != [] && x in t.runnable && TimedEnabled(cfg, t, steps[0])
    && ((steps[0] == TimedStep.Core(Activate) && y !in t.runnable)
        || Parts(cfg, TimedApply(cfg, t, steps[0]), steps[1..], x, y))
  }

  /** Apart from the end of a cycle, steps only add to the front of the pending list and take from the
      front of the run list. */
  lemma ListsMove(cfg: Config, s: State, step: Step)
    requires Typed(cfg, s) && Enabled(s, step) && !step.Activate?
    ensures var s' := Apply(cfg, s, step);
      && (s'.pending == s.pending || (s'.pending != [] && s'.pending == MarkPending(s.pending, s'.pending[0])))
      && (forall m :: m in s'.run ==> m in s.run)
  {
  }

  lemma MarkKeepsOrder(pending: seq<MachineId>, m: MachineId, x: MachineId, y: MachineId)
    requires Before(pending, x, y) && y in pending
    ensures Before(MarkPending(pending, m), x, y)
  {
    if m !in pending {
      assert x in pending;
      BeforeSkips([m], pending, x, y);
    }
  }

  lemma WaitingStays(cfg: Config, t: Timed, step: TimedStep, x: MachineId, y: MachineId)
    requires TimedEnabled(cfg, t, step) && Waiting(t, x, y)
    requires !(step.MarkTop? && t.runnable[0] == x)
    requires step == TimedStep.Core(Activate) ==> y in t.runnable
    requires step.Core? ==> Disjoint(TimedApply(cfg, t, step).runnable, TimedApply(cfg, t, step).core.pending)
    ensures Waiting(TimedApply(cfg, t, step), x, y)
  {
    match step
    case MarkTop =>
      MarkPendingFacts(t.core.pending, t.runnable[0]);
      TopGoes(t.runnable, x, y);
    case Core(s) =>
      if s.Activate? {
        ActivateFacts(t.core.run, t.core.pending);
      } else {
        ListsMove(cfg, t.core, s);
        MarkPendingStays(t.core, Apply(cfg, t.core, s), y);
      }
    case _ =>
  }

  lemma MarkPendingStays(s: State, s': State, y: MachineId)
    requires s'.pending == s.pending || (s'.pending != [] && s'.pending == MarkPending(s.pending, s'.pending[0]))
    ensures y in s.pending ==> y in s'.pending
  {
  }

  /** What is left of the stack when something other than `x` is taken off its top. */
  lemma TopGoes(stack: seq<MachineId>, x: MachineId, y: MachineId)
    requires x in stack && stack[0] != x && Distinct(stack)
    ensures x in stack[1..] && Distinct(stack[1..])
    ensures y in stack ==> y == stack[0] || y in stack[1..]
    ensures y != stack[0] && Before(stack, y, x) ==> Before(stack[1..], y, x)
    ensures y == stack[0] ==> y !in stack[1..]
  {
    assert stack == [stack[0]] + stack[1..];
    if y != stack[0] {
      BeforeSkips([stack[0]], stack[1..], y, x);
    }
  }

  lemma NothingBeforeTop(stack: seq<MachineId>, x: MachineId, y: MachineId)
    requires stack != [] && stack[0] == x && x != y
    ensures !Before(stack, y, x)
  {
    forall p | 0 <= p < |stack| && stack[p] == y
      ensures x in stack[..p]
    {
      assert stack[..p][0] == x;
    }
  }

  lemma MarkedLast(cfg: Config, t: Timed, x: MachineId, y: MachineId)
    requires TimedEnabled(cfg, t, MarkTop) && Waiting(t, x, y) && t.runnable[0] == x
    ensures y !in t.runnable && Queued(TimedApply(cfg, t, MarkTop), x, y)
    ensures y in TimedApply(cfg, t, MarkTop).core.pending
  {
    NothingBeforeTop(t.runnable, x, y);
    var marked := TimedApply(cfg, t, MarkTop).core.pending;
    assert marked[0] == x && y !in marked[..0];
  }

  /** Once both are marked in order they run in order, whatever happens. */
  lemma {:induction false} QueuedInOrder(cfg: Config, t: Timed, steps: seq<TimedStep>, end: Timed,
                                         x: MachineId, y: MachineId)
    requires TimedRuns(cfg, t, steps, end)
    requires Queued(t, x, y) && y in t.core.pending && x in Joined(cfg, t, steps)
    ensures Before(Joined(cfg, t, steps), x, y)
    decreases |steps|
  {
    hide Apply, Typed, MarkPending;
    var t' := TimedApply(cfg, t, steps[0]);
    var rest := Joined(cfg, t', steps[1..]);
    if steps[0] == TimedStep.Core(Activate) {
      JoinOrder(t.core.run, t.core.pending, x, y);
      BeforeExtends(Joins(t.core, Activate), rest, x, y);
    } else {
      assert Joined(cfg, t, steps) == [] + rest == rest;
      QueuedStays(cfg, t, steps[0], x, y);
      QueuedInOrder(cfg, t', steps[1..], end, x, y);
    }
  }

  lemma QueuedStays(cfg: Config, t: Timed, step: TimedStep, x: MachineId, y: MachineId)
    requires TimedEnabled(cfg, t, step) && step != TimedStep.Core(Activate)
    requires Queued(t, x, y) && y in t.core.pending
    ensures var t' := TimedApply(cfg, t, step); Queued(t', x, y) && y in t'.core.pending
  {
    match step
    case MarkTop => MarkKeepsOrder(t.core.pending, t.runnable[0], x, y);
    case Core(s) =>
      ListsMove(cfg, t.core, s);
      var pending := Apply(cfg, t.core, s).pending;
      if pending != [] {
        MarkKeepsOrder(t.core.pending, pending[0], x, y);
      }
    case _ =>
  }

  /** The exact condition for two machines that fire in the same pass: the one that is earlier on the
      schedule runs first, unless a cycle ends when only the other one has been marked. */
  lemma {:induction false} PairInOrderIffNotParted(cfg: Config, t: Timed, steps: seq<TimedStep>, end: Timed,
                                                   x: MachineId, y: MachineId)
    requires TimedRuns(cfg, t, steps, end) && NobodyElseMarks(cfg, t, steps)
    requires Waiting(t, x, y) && x in Joined(cfg, t, steps)
    ensures Before(Joined(cfg, t, steps), x, y) <==> !Parts(cfg, t, steps, x, y)
    decreases |steps|
  {
    hide Apply, Typed, MarkPending, Waiting, Queued, Before;
    var step := steps[0];
    var t' := TimedApply(cfg, t, step);
    var rest := Joined(cfg, t', steps[1..]);
    WaitingMeans(t, x, y);
    if step == TimedStep.Core(Activate) {
      NewAre(t.core.run, t.core.pending, x);
      NewAre(t.core.run, t.core.pending, y);
      if y in t.runnable {
        WaitingStays(cfg, t, step, x, y);
        PairInOrderIffNotParted(cfg, t', steps[1..], end, x, y);
        BeforeSkips(Joins(t.core, Activate), rest, x, y);
      } else {
        NotBefore(Joins(t.core, Activate), rest, x, y);
      }
    } else {
      assert Joined(cfg, t, steps) == [] + rest == rest;
      if step.MarkTop? && t.runnable[0] == x {
        MarkedLast(cfg, t, x, y);
        QueuedInOrder(cfg, t', steps[1..], end, x, y);
        assert x !in t'.runnable;
      } else {
        WaitingStays(cfg, t, step, x, y);
        PairInOrderIffNotParted(cfg, t', steps[1..], end, x, y);
      }
    }
  }

  lemma WaitingMeans(t: Timed, x: MachineId, y: MachineId)
    requires Waiting(t, x, y)
    ensures x in t.runnable && Distinct(t.runnable) && x !in t.core.pending && y !in t.core.run
    ensures if y in t.runnable then y !in t.core.pending else y in t.core.pending
    ensures x == t.runnable[0] ==> x !in t.runnable[1..]
  {
  }

  /* ---- all machines that fired in the same pass ---- */

  /** A cycle ends between the first and the last mark of a pass that fired `n` machines. */
  ghost predicate Splits(cfg: Config, t: Timed, steps: seq<TimedStep>, n: nat)
    decreases |steps|
  {
    && steps != [] && t.runnable != [] && TimedEnabled(cfg, t, steps[0])
    && ((steps[0] == TimedStep.Core(Activate) && |t.runnable| < n)
        || Splits(cfg, TimedApply(cfg, t, steps[0]), steps[1..], n))
  }

  /** `k` machines of the pass are left on its stack. */
  ghost predicate Left(t: Timed, stack: seq<MachineId>, k: nat) {
    Distinct(stack) && k <= |stack| && t.runnable == stack[|stack| - k..]
  }

  lemma LeftNext(cfg: Config, t: Timed, step: TimedStep, stack: seq<MachineId>, k: nat)
    requires TimedEnabled(cfg, t, step) && Left(t, stack, k) && t.runnable != []
    ensures Left(TimedApply(cfg, t, step), stack, if step.MarkTop? then k - 1 else k)
  {
  }

  lemma {:induction false} SplitParts(cfg: Config, t: Timed, steps: seq<TimedStep>, stack: seq<MachineId>, k: nat)
    requires Left(t, stack, k) && Splits(cfg, t, steps, |stack|)
    ensures Parts(cfg, t, steps, stack[|stack| - 1], stack[0])
    decreases |steps|
  {
    hide Apply, Typed;
    assert t.runnable[|t.runnable| - 1] == stack[|stack| - 1];
    if !(steps[0] == TimedStep.Core(Activate) && k < |stack|) {
      LeftNext(cfg, t, steps[0], stack, k);
      SplitParts(cfg, TimedApply(cfg, t, steps[0]), steps[1..], stack, if steps[0].MarkTop? then k - 1 else k);
    }
  }

  lemma {:induction false} PartsSplit(cfg: Config, t: Timed, steps: seq<TimedStep>, stack: seq<MachineId>, k: nat,
                                      x: MachineId, y: MachineId)
    requires Left(t, stack, k) && Parts(cfg, t, steps, x, y) && y in stack
    ensures Splits(cfg, t, steps, |stack|)
    decreases |steps|
  {
    hide Apply, Typed;
    if !(steps[0] == TimedStep.Core(Activate) && y !in t.runnable) {
      LeftNext(cfg, t, steps[0], stack, k);
      PartsSplit(cfg, TimedApply(cfg, t, steps[0]), steps[1..], stack, if steps[0].MarkTop? then k - 1 else k, x, y);
    }
  }

  lemma {:induction false} ReversedAt(ms: seq<MachineId>, q: nat)
    requires q < |ms|
    ensures |Reversed(ms)| == |ms| && Reversed(ms)[q] == ms[|ms| - 1 - q]
  {
    if |ms| > 1 {
      ReversedAt(ms[1..], if q < |ms| - 1 then q else 0);
    }
  }

  lemma StackOrder(fired: seq<MachineId>, i: nat, j: nat)
    requires Distinct(fired) && i < j < |fired|
    ensures fired[i] in Reversed(fired) && fired[j] in Reversed(fired)
    ensures Before(Reversed(fired), fired[j], fired[i])
  {
    hide Reversed;
    StackOf(fired);
    var p := |fired| - 1 - j;
    var stack := Reversed(fired);
    assert stack[p] == fired[j] && stack[|fired| - 1 - i] == fired[i];
    assert fired[i] !in stack[..p];
  }

  /** Machines that have just fired, an earlier one and a later one, wait to be marked. */
  lemma FiredWait(t: Timed, fired: seq<MachineId>, i: nat, j: nat)
    requires t.runnable == Reversed(fired) && Distinct(fired) && i < j < |fired|
    requires Disjoint(fired, t.core.pending) && Disjoint(fired, t.core.run)
    ensures Waiting(t, fired[i], fired[j])
  {
    hide Reversed, Before;
    StackOf(fired);
    StackOrder(fired, i, j);
    assert fired[i] in fired && fired[j] in fired;
  }

  lemma StackOf(fired: seq<MachineId>)
    requires Distinct(fired)
    ensures |Reversed(fired)| == |fired| && Distinct(Reversed(fired))
    ensures forall q :: 0 <= q < |fired| ==> Reversed(fired)[q] == fired[|fired| - 1 - q]
  {
    assert |Reversed(fired)| == |fired| by {
      if fired != [] {
        ReversedAt(fired, 0);
      }
    }
    forall q | 0 <= q < |fired|
      ensures Reversed(fired)[q] == fired[|fired| - 1 - q]
    {
      ReversedAt(fired, q);
    }
  }

  /** The machines of a pass that has just fired, all of which will have joined the run list. */
  ghost predicate JustFired(cfg: Config, t: Timed, steps: seq<TimedStep>, fired: seq<MachineId>) {
    && t.runnable == Reversed(fired) && Distinct(fired)
    && Disjoint(fired, t.core.pending) && Disjoint(fired, t.core.run)
    && forall m :: m in fired ==> m in Joined(cfg, t, steps)
  }

  lemma FiredPair(cfg: Config, t: Timed, steps: seq<TimedStep>, end: Timed, fired: seq<MachineId>, i: nat, j: nat)
    requires TimedRuns(cfg, t, steps, end) && NobodyElseMarks(cfg, t, steps)
    requires JustFired(cfg, t, steps, fired) && i < j < |fired|
    ensures Before(Joined(cfg, t, steps), fired[i], fired[j]) <==> !Parts(cfg, t, steps, fired[i], fired[j])
  {
    hide TimedRuns, NobodyElseMarks, Joined, Parts, Before, Waiting, Reversed;
    FiredWait(t, fired, i, j);
    PairInOrderIffNotParted(cfg, t, steps, end, fired[i], fired[j]);
  }

  /** Which pairs are parted when a cycle ends in the middle of a pass: the first and the last at least,
      and none if no cycle does. */
  lemma SplitIffSomeParted(cfg: Config, t: Timed, steps: seq<TimedStep>, fired: seq<MachineId>)
    requires t.runnable == Reversed(fired) && Distinct(fired)
    ensures Splits(cfg, t, steps, |fired|) ==> |fired| >= 2 && Parts(cfg, t, steps, fired[0], fired[|fired| - 1])
    ensures forall i, j :: 0 <= i < j < |fired| && Parts(cfg, t, steps, fired[i], fired[j]) ==>
              Splits(cfg, t, steps, |fired|)
  {
    hide Reversed, Parts, Splits;
    StackOf(fired);
    assert Left(t, t.runnable, |fired|);
    if Splits(cfg, t, steps, |fired|) {
      SplitsNeedsTwo(cfg, t, steps, t.runnable, |fired|);
      SplitParts(cfg, t, steps, t.runnable, |fired|);
    }
    forall i, j | 0 <= i < j < |fired| && Parts(cfg, t, steps, fired[i], fired[j])
      ensures Splits(cfg, t, steps, |fired|)
    {
      assert t.runnable[|fired| - 1 - j] == fired[j];
      PartsSplit(cfg, t, steps, t.runnable, |fired|, fired[i], fired[j]);
    }
  }

  /** Different machines that fire together, none of them queued, reach the run list in the order of the
      schedule if and only if no cycle ends between the first mark and the last. */
  lemma RunOrderIffNotSplit(cfg: Config, t: Timed, steps: seq<TimedStep>, end: Timed, fired: seq<MachineId>)
    requires TimedRuns(cfg, t, steps, end) && NobodyElseMarks(cfg, t, steps)
    requires JustFired(cfg, t, steps, fired)
    ensures InOrder(fired, Joined(cfg, t, steps)) <==> !Splits(cfg, t, steps, |fired|)
  {
    hide TimedRuns, NobodyElseMarks, Joined, Parts, Splits, Before;
    SplitIffSomeParted(cfg, t, steps, fired);
    forall i, j | 0 <= i < j < |fired|
      ensures Before(Joined(cfg, t, steps), fired[i], fired[j]) <==> !Parts(cfg, t, steps, fired[i], fired[j])
    {
      FiredPair(cfg, t, steps, end, fired, i, j);
    }
  }

  lemma {:induction false} SplitsNeedsTwo(cfg: Config, t: Timed, steps: seq<TimedStep>, stack: seq<MachineId>, k: nat)
    requires Left(t, stack, k) && Splits(cfg, t, steps, |stack|)
    ensures |stack| >= 2
    decreases |steps|
  {
    if !(steps[0] == TimedStep.Core(Activate) && k < |stack|) {
      LeftNext(cfg, t, steps[0], stack, k);
      SplitsNeedsTwo(cfg, TimedApply(cfg, t, steps[0]), steps[1..], stack, if steps[0].MarkTop? then k - 1 else k);
    }
  }

  /* ---- a pass that is split ---- */

  const PAIR := Config([[], []], [false, false], [false, false])

  /** Two machines with nothing to do, and the timer task. */
  ghost function Two(pending: seq<MachineId>, run: seq<MachineId>, pc: Pc, schedule: seq<Item>,
                     stack: seq<MachineId>): Timed
  {
    var idle := Machine(None, [], [], false, 0);
    Timed(State([idle, idle], pending, run, [], pc), schedule, stack)
  }

  lemma LastStep(cfg: Config, t: Timed, step: TimedStep, rest: seq<TimedStep>, end: Timed)
    requires TimedEnabled(cfg, t, step) && TimedRuns(cfg, TimedApply(cfg, t, step), rest, end)
    ensures TimedRuns(cfg, t, [step] + rest, end)
  {
    assert ([step] + rest)[1..] == rest;
  }

  lemma TwoFire(schedule: seq<Item>, now: u32)
    requires schedule == [Item(true, now, Some(0)), Item(true, now, Some(1))]
    ensures Fired(schedule, now) == [0, 1] && Kept(schedule, now) == [] && Reversed([0, 1]) == [1, 0]
  {
    var last := [Item(true, now, Some(1))];
    assert schedule[1..] == last && last[1..] == [];
    assert Fired(last, now) == [1] + Fired([], now) == [1];
    assert Fired(schedule, now) == [0] + [1] == [0, 1];
    assert Kept(last, now) == [] + Kept([], now) == [];
    assert Kept(schedule, now) == [] + Kept(last, now) == [];
    assert [0, 1][1..] == [1] && [1][1..] == [];
    assert Reversed([1]) == [] + [1] == [1];
    assert Reversed([0, 1]) == [1] + [0] == [1, 0];
  }

  lemma TwoMarks()
    ensures var t := Two([], [], External, [], [1, 0]);
      TimedEnabled(PAIR, t, MarkTop) && TimedApply(PAIR, t, MarkTop) == Two([1], [], External, [], [0])
    ensures var t := Two([], [1], Idle, [], [0]);
      TimedEnabled(PAIR, t, MarkTop) && TimedApply(PAIR, t, MarkTop) == Two([0], [1], Idle, [], [])
  {
    assert [1, 0][1..] == [0] && [0][1..] == [];
    assert [1] + [] == [1] && [0] + [] == [0];
  }

  lemma OneActivated()
    ensures var t := Two([1], [], External, [], [0]);
      && TimedEnabled(PAIR, t, TimedStep.Core(Activate))
      && TimedApply(PAIR, t, TimedStep.Core(Activate)) == Two([], [1], Idle, [], [0])
  {
    assert [1][1..] == [] && [] + [1] == [1] && ActivateAll([1], []) == [1];
  }

  lemma BothFire(schedule: seq<Item>, now: u32)
    requires schedule == [Item(true, now, Some(0)), Item(true, now, Some(1))]
    ensures var t := Two([], [], External, schedule, []);
      && TimedEnabled(PAIR, t, TimedStep.Collect(now))
      && TimedApply(PAIR, t, TimedStep.Collect(now)) == Two([], [], External, [], [1, 0])
  {
    TwoFire(schedule, now);
  }

  lemma NothingToRun(schedule: seq<Item>)
    ensures Init(PAIR, Two([], [], Idle, schedule, []).core)
    ensures var t := Two([], [], Idle, schedule, []);
      && TimedEnabled(PAIR, t, TimedStep.Core(Begin))
      && TimedApply(PAIR, t, TimedStep.Core(Begin)) == Two([], [], CheckLoop, schedule, [])
    ensures var t := Two([], [], CheckLoop, schedule, []);
      && TimedEnabled(PAIR, t, TimedStep.Core(PickCheck))
      && TimedApply(PAIR, t, TimedStep.Core(PickCheck)) == Two([], [], External, schedule, [])
  {
  }

  /** Both are due, and the cycle ends after the first mark: the machine that was later on the schedule
      is on the run list and no longer pending when the pass ends, and the earlier one will run after it. */
  lemma SplitPass(now: u32)
    ensures
      var start := Two([], [], Idle, [Item(true, now, Some(0)), Item(true, now, Some(1))], []);
      var marks := [MarkTop] + ([TimedStep.Core(Activate)] + ([MarkTop] + []));
      var pass := [TimedStep.Collect(now)] + marks;
      && Init(PAIR, start.core)
      && TimedRuns(PAIR, start, [TimedStep.Core(Begin)] + ([TimedStep.Core(PickCheck)] + pass),
                   Two([0], [1], Idle, [], []))
  {
    hide Init, Typed, Apply, TimedApply, TimedEnabled, TimedRuns, Two;
    var schedule := [Item(true, now, Some(0)), Item(true, now, Some(1))];
    var end := Two([0], [1], Idle, [], []);
    var last := [MarkTop] + [];
    var marks := [MarkTop] + ([TimedStep.Core(Activate)] + last);
    NothingToRun(schedule);
    BothFire(schedule, now);
    TwoMarks();
    OneActivated();
    NoSteps(PAIR, end);
    LastStep(PAIR, Two([], [1], Idle, [], [0]), MarkTop, [], end);
    LastStep(PAIR, Two([1], [], External, [], [0]), TimedStep.Core(Activate), last, end);
    LastStep(PAIR, Two([], [], External, [], [1, 0]), MarkTop, [TimedStep.Core(Activate)] + last, end);
    var pass := [TimedStep.Collect(now)] + marks;
    LastStep(PAIR, Two([], [], External, schedule, []), TimedStep.Collect(now), marks, end);
    LastStep(PAIR, Two([], [], CheckLoop, schedule, []), TimedStep.Core(PickCheck), pass, end);
    LastStep(PAIR, Two([], [], Idle, schedule, []), TimedStep.Core(Begin), [TimedStep.Core(PickCheck)] + pass, end);
  }

  lemma NoSteps(cfg: Config, t: Timed)
    ensures TimedRuns(cfg, t, [], t)
  {
  }

  /* ---- a pass that nobody interrupts ---- */

  lemma {:induction false} MarkAllLast(pending: seq<MachineId>, ms: seq<MachineId>, m: MachineId)
    ensures MarkAll(pending, ms + [m]) == MarkPending(MarkAll(pending, ms), m)
    decreases |ms|
  {
    if ms == [] {
      assert [m][1..] == [];
    } else {
      assert (ms + [m])[1..] == ms[1..] + [m];
      MarkAllLast(MarkPending(pending, ms[0]), ms[1..], m);
    }
  }

  lemma NewInFront(pending: seq<MachineId>, fired: seq<MachineId>)
    requires Distinct(fired) && Disjoint(fired, pending) && fired != []
    ensures Distinct(fired[1..]) && Disjoint(fired[1..], pending)
    ensures MarkPending(fired[1..] + pending, fired[0]) == fired + pending
  {
    assert fired[0] in fired;
    assert fired[0] !in fired[1..] + pending;
    assert [fired[0]] + (fired[1..] + pending) == fired + pending;
  }

  /** Two reversals cancel: new machines stand in front of the pending list in schedule order. */
  lemma {:induction false} MarkedTogether(pending: seq<MachineId>, fired: seq<MachineId>)
    requires Distinct(fired) && Disjoint(fired, pending)
    ensures MarkAll(pending, Reversed(fired)) == fired + pending
  {
    if fired == [] {
      assert fired + pending == pending;
    } else {
      NewInFront(pending, fired);
      MarkedTogether(pending, fired[1..]);
      MarkAllLast(pending, Reversed(fired[1..]), fired[0]);
    }
  }

  lemma {:induction false} ActivatedTogether(run: seq<MachineId>, fired: seq<MachineId>, pending: seq<MachineId>)
    requires Distinct(fired) && Disjoint(fired, run)
    ensures ActivateAll(run, fired + pending) == ActivateAll(run + fired, pending)
    decreases |fired|
  {
    if fired == [] {
      assert fired + pending == pending && run + fired == run;
    } else {
      assert fired == [fired[0]] + fired[1..];
      assert (fired + pending)[1..] == fired[1..] + pending;
      assert run + [fired[0]] + fired[1..] == run + fired;
      assert fired[0] !in run;
      ActivatedTogether(run + [fired[0]], fired[1..], pending);
    }
  }

  /** Marked and activated with nothing in between, machines that are due together and are not queued
      yet stand on the run list next to each other, in schedule order. */
  lemma DueTogetherRunInOrder(run: seq<MachineId>, pending: seq<MachineId>, schedule: seq<Item>, now: u32)
    requires var fired := Fired(schedule, now);
      Distinct(fired) && Disjoint(fired, pending) && Disjoint(fired, run)
    ensures run + Fired(schedule, now) <= ActivateAll(run, MarkAll(pending, Reversed(Fired(schedule, now))))
  {
    var fired := Fired(schedule, now);
    MarkedTogether(pending, fired);
    ActivatedTogether(run, fired, pending);
    ActivateFacts(run + fired, pending);
  }

}
