/** Properties of whole runs: how long a machine waits, how often it is served, and in which order
    its actions are taken. */
module SchedulerRuns {
  import opened Basics
  import opened Scheduler
  import opened SchedulerSafety

  /** The number of cycles that `steps` completes. */
  ghost function Cycles(steps: seq<Step>): nat
    decreases |steps|
  {
    if steps == [] then 0 else (if steps[0].Activate? then 1 else 0) + Cycles(steps[1..])
  }

  lemma {:induction false} CyclesConcat(a: seq<Step>, b: seq<Step>)
    ensures Cycles(a + b) == Cycles(a) + Cycles(b)
    decreases |a|
  {
    if a == [] {
      assert a + b == b;
    } else {
      assert (a + b)[1..] == a[1..] + b;
      CyclesConcat(a[1..], b);
    }
  }

  /** Somewhere along `steps`, the run list hands out machine `m`. */
  ghost predicate Dispatches(cfg: Config, s: State, steps: seq<Step>, m: MachineId)
    decreases |steps|
  {
    steps != [] && Typed(cfg, s) && Enabled(s, steps[0]) &&
    ((steps[0].PickNext? && s.run != [] && s.run[0] == m) || Dispatches(cfg, Apply(cfg, s, steps[0]), steps[1..], m))
  }

  /** Somewhere along `steps`, the state-check list hands out machine `m`. */
  ghost predicate Evaluates(cfg: Config, s: State, steps: seq<Step>, m: MachineId)
    decreases |steps|
  {
    steps != [] && Typed(cfg, s) && Enabled(s, steps[0]) &&
    ((steps[0].PickCheck? && s.check != [] && s.check[0] == m)
     || Evaluates(cfg, Apply(cfg, s, steps[0]), steps[1..], m))
  }

  /* ---- bounded waiting ---- */

  /** The cycle has yet to take its first machine, so it will take one before it ends. */
  ghost predicate AboutToPick(pc: Pc) {
    pc.Idle? || pc.RunLoop?
  }

  /** Cycles that may end before the machine at position `i` of the run list has been picked. */
  ghost function Wait(s: State, i: nat): nat {
    i + if AboutToPick(s.pc) then 0 else 1
  }

  /** A waiting machine moves up with every pick; nothing else touches its place. */
  lemma WaitShrinks(cfg: Config, s: State, step: Step, i: nat)
    requires Inv(cfg, s) && Enabled(s, step) && i < |s.run|
    requires !(step.PickNext? && i == 0)
    ensures var s' := Apply(cfg, s, step);
      exists i': nat :: i' < |s'.run| && s'.run[i'] == s.run[i] &&
        Wait(s', i') + (if step.Activate? then 1 else 0) <= Wait(s, i)
  {
    var s' := Apply(cfg, s, step);
    if step.PickNext? {
      assert s'.run[i - 1] == s.run[i] && Wait(s', i - 1) <= Wait(s, i);
    } else {
      if step.Activate? {
        ActivateFacts(s.run, s.pending);
      }
      assert s'.run[i] == s.run[i] && Wait(s', i) + (if step.Activate? then 1 else 0) <= Wait(s, i);
    }
  }

  /** A machine at position `i` is dispatched before more than `Wait` cycles have ended,
      no matter how many cycles are cut short by a blocked machine. */
  lemma {:induction false} QueuedIsDispatched(cfg: Config, s: State, steps: seq<Step>, end: State, i: nat)
    requires Inv(cfg, s) && Runs(cfg, s, steps, end)
    requires i < |s.run| && Cycles(steps) > Wait(s, i)
    ensures Dispatches(cfg, s, steps, s.run[i])
    decreases |steps|
  {
    var step := steps[0];
    if !(step.PickNext? && i == 0) {
      WaitShrinks(cfg, s, step, i);
      StepInv(cfg, s, step);
      var s' := Apply(cfg, s, step);
      var i': nat :| i' < |s'.run| && s'.run[i'] == s.run[i] &&
        Wait(s', i') + (if step.Activate? then 1 else 0) <= Wait(s, i);
      QueuedIsDispatched(cfg, s', steps[1..], end, i');
    }
  }

  /** A list without duplicates is no longer than the number of machines. */
  lemma {:induction false} DistinctBound(xs: seq<MachineId>, n: nat)
    requires Distinct(xs) && Ids(xs, n)
    ensures |xs| <= n
    decreases n
  {
    if xs != [] {
      assert 0 <= xs[0] < n;
      if i :| 0 <= i < |xs| && xs[i] == n - 1 {
        DistinctBound(xs[..i] + xs[i + 1..], n - 1);
      } else {
        DistinctBound(xs, n - 1);
      }
    }
  }

  /** With N machines, whoever is on the run list between two cycles is dispatched within N cycles. */
  lemma BoundedWaiting(cfg: Config, s: State, steps: seq<Step>, end: State, m: MachineId)
    requires Inv(cfg, s) && s.pc.Idle? && m in s.run
    requires Runs(cfg, s, steps, end) && Cycles(steps) >= |s.machines|
    ensures Dispatches(cfg, s, steps, m)
  {
    DistinctBound(s.run, |s.machines|);
    var i :| 0 <= i < |s.run| && s.run[i] == m;
    QueuedIsDispatched(cfg, s, steps, end, i);
  }

  /** From any moment: a machine that is marked pending is dispatched within N + 1 cycle ends. */
  lemma {:induction false} PendingIsDispatched(cfg: Config, s: State, steps: seq<Step>, end: State, m: MachineId)
    requires Inv(cfg, s) && m in s.pending
    requires Runs(cfg, s, steps, end) && Cycles(steps) >= |s.machines| + 1
    ensures Dispatches(cfg, s, steps, m)
    decreases |steps|
  {
    var step := steps[0];
    var s' := Apply(cfg, s, step);
    StepInv(cfg, s, step);
    StepKeepsMachines(cfg, s, step);
    if step.Activate? {
      ActivateFacts(s.run, s.pending);
      BoundedWaiting(cfg, s', steps[1..], end, m);
    } else {
      PendingStays(cfg, s, step, m);
      PendingIsDispatched(cfg, s', steps[1..], end, m);
    }
  }

  lemma StepKeepsMachines(cfg: Config, s: State, step: Step)
    requires Typed(cfg, s) && Enabled(s, step)
    ensures |Apply(cfg, s, step).machines| == |s.machines|
  {
  }

  lemma PendingStays(cfg: Config, s: State, step: Step, m: MachineId)
    requires Typed(cfg, s) && Enabled(s, step) && !step.Activate? && m in s.pending
    ensures m in Apply(cfg, s, step).pending
  {
  }

  /* ---- at most once per cycle ---- */

  /** Until the cycle ends, machines only leave the run list. */
  lemma {:induction false} NotQueuedNotDispatched(cfg: Config, s: State, steps: seq<Step>, end: State, m: MachineId)
    requires Inv(cfg, s) && Runs(cfg, s, steps, end)
    requires m !in s.run && Cycles(steps) == 0
    ensures !Dispatches(cfg, s, steps, m)
    decreases |steps|
  {
    if steps != [] {
      StepInv(cfg, s, steps[0]);
      NotQueuedNotDispatched(cfg, Apply(cfg, s, steps[0]), steps[1..], end, m);
    }
  }

  lemma DispatchedOncePerCycle(cfg: Config, s: State, steps: seq<Step>, end: State)
    requires Inv(cfg, s) && s.pc.RunLoop? && s.run != []
    requires Runs(cfg, s, [PickNext] + steps, end) && Cycles(steps) == 0
    ensures !Dispatches(cfg, Apply(cfg, s, PickNext), steps, s.run[0])
  {
    StepInv(cfg, s, PickNext);
    assert ([PickNext] + steps)[1..] == steps;
    NotQueuedNotDispatched(cfg, Apply(cfg, s, PickNext), steps, end, s.run[0]);
  }

  ghost predicate CheckPhase(pc: Pc) {
    pc.CheckLoop? || pc.Checking? || pc.Announcing? || pc.External?
  }

  lemma {:induction false} NotDueNotEvaluated(cfg: Config, s: State, steps: seq<Step>, end: State, m: MachineId)
    requires Inv(cfg, s) && Runs(cfg, s, steps, end)
    requires CheckPhase(s.pc) && m !in s.check && Cycles(steps) == 0
    ensures !Evaluates(cfg, s, steps, m)
    decreases |steps|
  {
    if steps != [] {
      StepInv(cfg, s, steps[0]);
      NotDueNotEvaluated(cfg, Apply(cfg, s, steps[0]), steps[1..], end, m);
    }
  }

  lemma EvaluatedOncePerCycle(cfg: Config, s: State, steps: seq<Step>, end: State)
    requires Inv(cfg, s) && s.pc.CheckLoop? && s.check != []
    requires Runs(cfg, s, [PickCheck] + steps, end) && Cycles(steps) == 0
    ensures !Evaluates(cfg, Apply(cfg, s, PickCheck), steps, s.check[0])
  {
    StepInv(cfg, s, PickCheck);
    assert ([PickCheck] + steps)[1..] == steps;
    NotDueNotEvaluated(cfg, Apply(cfg, s, PickCheck), steps, end, s.check[0]);
  }

  lemma {:induction false} NoDispatchInCheckPhase(cfg: Config, s: State, steps: seq<Step>, end: State, m: MachineId)
    requires Runs(cfg, s, steps, end) && CheckPhase(s.pc) && Cycles(steps) == 0
    ensures !Dispatches(cfg, s, steps, m)
    decreases |steps|
  {
    if steps != [] {
      NoDispatchInCheckPhase(cfg, Apply(cfg, s, steps[0]), steps[1..], end, m);
    }
  }

  /** A machine that blocks ends the run phase: nobody else gets a turn before the cycle is over. */
  lemma BlockedEndsRunPhase(cfg: Config, s: State, left: Action, steps: seq<Step>, end: State, m: MachineId)
    requires Typed(cfg, s) && s.pc.InAction?
    requires Runs(cfg, s, [Return(false, Some(left))] + steps, end) && Cycles(steps) == 0
    ensures !Dispatches(cfg, Apply(cfg, s, Return(false, Some(left))), steps, m)
  {
    assert ([Return(false, Some(left))] + steps)[1..] == steps;
    NoDispatchInCheckPhase(cfg, Apply(cfg, s, Return(false, Some(left))), steps, end, m);
  }

  /* ---- the order of actions ---- */

  /** The actions that `steps` queues for machine `m`. */
  ghost function Added(steps: seq<Step>, m: MachineId): seq<Action>
    decreases |steps|
  {
    if steps == [] then []
    else (if steps[0].AddAction? && steps[0].to == m then [steps[0].action] else []) + Added(steps[1..], m)
  }

  /** This step makes the front of `m`'s action queue its executing action. */
  ghost predicate Takes(s: State, step: Step, m: MachineId) {
    && step.Act? && s.pc.Acting? && s.pc.m == m && s.pc.more
    && m < |s.machines| && s.machines[m].execute.None? && s.machines[m].actions != []
  }

  /** The actions that `m` starts along `steps`. */
  ghost function Taken(cfg: Config, s: State, steps: seq<Step>, m: MachineId): seq<Action>
    decreases |steps|
  {
    if steps == [] || !Typed(cfg, s) || !Enabled(s, steps[0]) then []
    else (if Takes(s, steps[0], m) then [s.machines[m].actions[0]] else [])
         + Taken(cfg, Apply(cfg, s, steps[0]), steps[1..], m)
  }

  /** A step either leaves a machine's action queue and executing action alone, or does one of these. */
  lemma ActionStep(cfg: Config, s: State, step: Step, m: MachineId)
    requires Typed(cfg, s) && Enabled(s, step) && m < |s.machines|
    ensures var now := s.machines[m]; var next := Apply(cfg, s, step).machines[m];
      if Takes(s, step, m) then next.actions == now.actions[1..] && next.execute == Some(now.actions[0])
      else if step.AddAction? && step.to == m then next == now.(actions := now.actions + [step.action])
      else next.actions == now.actions
  {
  }

  /** Sequence algebra for the lemma below: a taken element moves left, an added one comes in on the right. */
  lemma Shift(later: seq<Action>, added: seq<Action>, taken: seq<Action>, rest: seq<Action>, a: Action)
    requires later + added == taken + rest
    ensures ([a] + later) + added == ([a] + taken) + rest
    ensures [] + added == added && [] + taken == taken
    ensures forall now: seq<Action> :: later == now + [a] ==> now + ([a] + added) == taken + rest
  {
    assert ([a] + later) + added == [a] + (later + added);
    assert ([a] + taken) + rest == [a] + (taken + rest);
    forall now: seq<Action> | later == now + [a]
      ensures now + ([a] + added) == taken + rest
    {
      assert now + ([a] + added) == later + added;
    }
  }

  /** Per machine: what was queued, in the order it was queued, is what was started followed by
      what is still waiting. */
  lemma {:induction false} ActionsInOrder(cfg: Config, s: State, steps: seq<Step>, end: State, m: MachineId)
    requires Runs(cfg, s, steps, end) && m < |s.machines|
    ensures m < |end.machines|
    ensures s.machines[m].actions + Added(steps, m) == Taken(cfg, s, steps, m) + end.machines[m].actions
    decreases |steps|
  {
    if steps != [] {
      var step := steps[0];
      var s' := Apply(cfg, s, step);
      StepKeepsMachines(cfg, s, step);
      ActionsInOrder(cfg, s', steps[1..], end, m);
      OneMoreStep(cfg, s, steps, end, m, s', Added(steps[1..], m), Taken(cfg, s', steps[1..], m));
    }
  }

  lemma OneMoreStep(cfg: Config, s: State, steps: seq<Step>, end: State, m: MachineId,
                    s': State, added: seq<Action>, taken: seq<Action>)
    requires steps != [] && Typed(cfg, s) && Enabled(s, steps[0]) && s' == Apply(cfg, s, steps[0])
    requires m < |s.machines| && m < |s'.machines| && m < |end.machines|
    requires added == Added(steps[1..], m) && taken == Taken(cfg, s', steps[1..], m)
    requires s'.machines[m].actions + added == taken + end.machines[m].actions
    ensures s.machines[m].actions + Added(steps, m) == Taken(cfg, s, steps, m) + end.machines[m].actions
  {
    var step := steps[0];
    var now := s.machines[m].actions;
    var later := s'.machines[m].actions;
    ActionStep(cfg, s, step, m);
    if Takes(s, step, m) {
      Shift(later, added, taken, end.machines[m].actions, now[0]);
      assert now == [now[0]] + later;
    } else if step.AddAction? && step.to == m {
      Shift(later, added, taken, end.machines[m].actions, step.action);
    } else {
      Shift(later, added, taken, end.machines[m].actions, 0);
    }
  }

  ghost predicate InLoop(pc: Pc) {
    pc.Acting? || pc.InAction?
  }

  /* ---- what a step does to a machine ---- */

  /** Everything that can happen to what a machine executes, to its state, and to its sleep. */
  lemma MachineStep(cfg: Config, s: State, step: Step, m: MachineId)
    requires Typed(cfg, s) && Enabled(s, step) && m < |s.machines|
    ensures m < |Apply(cfg, s, step).machines|
    ensures var was := s.machines[m]; var now := Apply(cfg, s, step).machines[m]; var own := Current(s.pc) == Some(m);
      && now.execute == (if own && (step.Return? || step.HandlerReturn?) then step.left
                         else if own && step.ChangeState? && step.state != was.state then step.handler
                         else if Takes(s, step, m) then Some(was.actions[0])
                         else was.execute)
      && now.state == (if own && step.ChangeState? then step.state else was.state)
      && now.asleep == (if step.Sleep? && step.x == m then true
                        else if own && step.Sample? && (was.execute.Some? || was.actions != []) then false
                        else was.asleep)
  {
    hide ActivateAll, MarkPending;
  }

  /* ---- queued actions are started ---- */

  /** Of the actions that machine `m` has queued, `owed` is the front part it is still to start. At its
      action loop it knows that there are any; when it is through, none of them is left. */
  ghost predicate Owes(s: State, m: MachineId, owed: seq<Action>) {
    && m < |s.machines| && owed <= s.machines[m].actions
    && (InLoop(s.pc) && s.pc.m == m && owed != [] ==> s.pc.more)
    && (s.pc.Notifying? && s.pc.m == m ==> owed == [])
  }

  ghost function StillOwed(s: State, step: Step, m: MachineId, owed: seq<Action>): seq<Action> {
    if Takes(s, step, m) && owed != [] then owed[1..] else owed
  }

  lemma OwesNext(cfg: Config, s: State, step: Step, m: MachineId, owed: seq<Action>)
    requires Typed(cfg, s) && Enabled(s, step) && Owes(s, m, owed)
    ensures Owes(Apply(cfg, s, step), m, StillOwed(s, step, m, owed))
  {
    hide ActivateAll, MarkPending;
    ActionStep(cfg, s, step, m);
    OwedIsFront(s.machines[m].actions, owed);
  }

  lemma OwedIsFront(actions: seq<Action>, owed: seq<Action>)
    requires owed <= actions
    ensures owed != [] ==> actions != [] && owed[0] == actions[0] && owed[1..] <= actions[1..]
    ensures forall a :: owed <= actions + [a]
  {
  }

  /** What is taken now and what of the rest is taken later. */
  lemma OwedTaken(cfg: Config, s: State, steps: seq<Step>, m: MachineId, owed: seq<Action>)
    requires steps != [] && Typed(cfg, s) && Enabled(s, steps[0]) && m < |s.machines| && owed <= s.machines[m].actions
    requires StillOwed(s, steps[0], m, owed) <= Taken(cfg, Apply(cfg, s, steps[0]), steps[1..], m)
    ensures owed <= Taken(cfg, s, steps, m)
  {
    TakenFirst(cfg, s, steps, m);
    hide Apply, Typed, Enabled, Takes, Taken;
    var later := Taken(cfg, Apply(cfg, s, steps[0]), steps[1..], m);
    if Takes(s, steps[0], m) {
      PrefixGrows(s.machines[m].actions, owed, later);
    } else {
      assert [] + later == later;
    }
  }

  lemma TakenFirst(cfg: Config, s: State, steps: seq<Step>, m: MachineId)
    requires steps != [] && Typed(cfg, s) && Enabled(s, steps[0])
    ensures Takes(s, steps[0], m) ==> m < |s.machines| && s.machines[m].actions != []
    ensures Taken(cfg, s, steps, m) == (if Takes(s, steps[0], m) then [s.machines[m].actions[0]] else [])
                                       + Taken(cfg, Apply(cfg, s, steps[0]), steps[1..], m)
  {
    hide Apply, Typed, Enabled;
  }

  lemma PrefixGrows(actions: seq<Action>, owed: seq<Action>, later: seq<Action>)
    requires actions != [] && owed <= actions && (owed != [] ==> owed[1..] <= later)
    ensures owed <= [actions[0]] + later
  {
    if owed != [] {
      assert owed == [owed[0]] + owed[1..];
    }
  }

  lemma {:induction false} OwedIsTaken(cfg: Config, s: State, steps: seq<Step>, end: State, m: MachineId,
                                       owed: seq<Action>)
    requires Runs(cfg, s, steps, end) && Owes(s, m, owed)
    requires end.pc.Notifying? && end.pc.m == m
    ensures owed <= Taken(cfg, s, steps, m)
    decreases |steps|
  {
    if steps != [] {
      hide Apply, Typed, Enabled, Takes;
      OwesNext(cfg, s, steps[0], m, owed);
      OwedIsTaken(cfg, Apply(cfg, s, steps[0]), steps[1..], end, m, StillOwed(s, steps[0], m, owed));
      OwedTaken(cfg, s, steps, m, owed);
    }
  }

  /** The machine is past its action loop and has not been dispatched again, or has not noticed what was
      queued since it last looked. */
  ghost predicate Leaving(s: State, m: MachineId) {
    (InLoop(s.pc) && s.pc.m == m && !s.pc.more) || (s.pc.Notifying? && s.pc.m == m)
  }

  /** A machine only gets through its action loop when everything that was queued has been started, in
      order, and the last of it has been completed; however often it blocks on the way. */
  lemma QueuedActionsAreStarted(cfg: Config, s: State, steps: seq<Step>, end: State, m: MachineId)
    requires Runs(cfg, s, steps, end) && m < |s.machines| && !Leaving(s, m)
    requires end.pc.Notifying? && end.pc.m == m
    ensures s.machines[m].actions <= Taken(cfg, s, steps, m)
    ensures m < |end.machines| && end.machines[m].execute == None
  {
    OwedIsTaken(cfg, s, steps, end, m, s.machines[m].actions);
    DoneWhenNotifying(cfg, s, steps, end, m);
  }

  ghost predicate NotifiesWhenDone(s: State, m: MachineId) {
    m < |s.machines| && (s.pc.Notifying? && s.pc.m == m ==> s.machines[m].execute.None?)
  }

  lemma NotifiesWhenDoneNext(cfg: Config, s: State, step: Step, m: MachineId)
    requires Typed(cfg, s) && Enabled(s, step) && NotifiesWhenDone(s, m)
    ensures NotifiesWhenDone(Apply(cfg, s, step), m)
  {
    hide ActivateAll, MarkPending;
  }

  lemma {:induction false} DoneWhenNotifying(cfg: Config, s: State, steps: seq<Step>, end: State, m: MachineId)
    requires Runs(cfg, s, steps, end) && NotifiesWhenDone(s, m)
    ensures NotifiesWhenDone(end, m)
    decreases |steps|
  {
    if steps != [] {
      hide Apply, Typed, Enabled;
      NotifiesWhenDoneNext(cfg, s, steps[0], m);
      DoneWhenNotifying(cfg, Apply(cfg, s, steps[0]), steps[1..], end, m);
    }
  }

  /** No action of machine `m` blocks along `steps`. */
  ghost predicate NeverBlocks(cfg: Config, s: State, steps: seq<Step>, m: MachineId)
    decreases |steps|
  {
    steps != [] && Typed(cfg, s) && Enabled(s, steps[0]) ==>
      && !(steps[0].Return? && s.pc.m == m && !steps[0].ret && steps[0].left.Some?)
      && NeverBlocks(cfg, Apply(cfg, s, steps[0]), steps[1..], m)
  }

  /** The machine has its turn, and has not noticed yet that there is nothing more to start. */
  ghost predicate HasTurn(s: State, m: MachineId) {
    s.pc == Picked(m) || (InLoop(s.pc) && s.pc.m == m)
  }

  lemma TurnGoesOn(cfg: Config, s: State, step: Step, m: MachineId, owed: seq<Action>)
    requires Typed(cfg, s) && Enabled(s, step) && HasTurn(s, m) && Owes(s, m, owed)
    requires !(step.Return? && !step.ret && step.left.Some?)
    ensures !step.Activate?
    ensures HasTurn(Apply(cfg, s, step), m) || StillOwed(s, step, m, owed) == []
  {
    hide ActivateAll, MarkPending;
  }

  lemma {:induction false} TurnStarts(cfg: Config, s: State, steps: seq<Step>, end: State, m: MachineId,
                                      owed: seq<Action>)
    requires Runs(cfg, s, steps, end) && Cycles(steps) >= 1 && NeverBlocks(cfg, s, steps, m)
    requires Owes(s, m, owed) && (HasTurn(s, m) || owed == [])
    ensures owed <= Taken(cfg, s, steps, m)
    decreases |steps|
  {
    if owed != [] {
      hide Apply, Typed, Enabled, Takes, HasTurn;
      assert HasTurn(s, m);
      TurnIsOwn(s, m);
      TurnGoesOn(cfg, s, steps[0], m, owed);
      OwesNext(cfg, s, steps[0], m, owed);
      TurnStarts(cfg, Apply(cfg, s, steps[0]), steps[1..], end, m, StillOwed(s, steps[0], m, owed));
      OwedTaken(cfg, s, steps, m, owed);
    }
  }

  lemma TurnIsOwn(s: State, m: MachineId)
    requires HasTurn(s, m)
    ensures Current(s.pc) == Some(m) && (s.pc.InAction? ==> s.pc.m == m)
  {
  }

  /** Whatever else it starts or is given meanwhile, what a machine has queued now is started later. */
  lemma StartedLater(cfg: Config, s: State, steps: seq<Step>, m: MachineId)
    requires steps != [] && Typed(cfg, s) && Enabled(s, steps[0]) && m < |s.machines|
    requires m < |Apply(cfg, s, steps[0]).machines|
    requires Apply(cfg, s, steps[0]).machines[m].actions <= Taken(cfg, Apply(cfg, s, steps[0]), steps[1..], m)
    ensures s.machines[m].actions <= Taken(cfg, s, steps, m)
  {
    ActionStep(cfg, s, steps[0], m);
    hide Apply, Typed, Enabled;
    OwedTaken(cfg, s, steps, m, s.machines[m].actions);
  }

  /** From place `i` of the run list: started before more than `Wait` cycles have ended. */
  lemma {:induction false} QueuedStarts(cfg: Config, s: State, steps: seq<Step>, end: State, i: nat)
    requires Inv(cfg, s) && Runs(cfg, s, steps, end)
    requires i < |s.run| && Cycles(steps) > Wait(s, i) && NeverBlocks(cfg, s, steps, s.run[i])
    ensures s.run[i] < |s.machines| && s.machines[s.run[i]].actions <= Taken(cfg, s, steps, s.run[i])
    decreases |steps|
  {
    var m, step := s.run[i], steps[0];
    var s' := Apply(cfg, s, step);
    StepInv(cfg, s, step);
    StepKeepsMachines(cfg, s, step);
    if step.PickNext? && i == 0 {
      TurnStarts(cfg, s', steps[1..], end, m, s'.machines[m].actions);
    } else {
      WaitShrinks(cfg, s, step, i);
      var i': nat :| i' < |s'.run| && s'.run[i'] == m &&
        Wait(s', i') + (if step.Activate? then 1 else 0) <= Wait(s, i);
      QueuedStarts(cfg, s', steps[1..], end, i');
    }
    StartedLater(cfg, s, steps, m);
  }

  /** From any moment: whatever a pending machine has queued has been started, in order, when N + 1 cycles
      have ended, as long as none of its actions blocks. */
  lemma {:induction false} PendingStarts(cfg: Config, s: State, steps: seq<Step>, end: State, m: MachineId)
    requires Inv(cfg, s) && m in s.pending
    requires Runs(cfg, s, steps, end) && Cycles(steps) >= |s.machines| + 1 && NeverBlocks(cfg, s, steps, m)
    ensures m < |s.machines| && s.machines[m].actions <= Taken(cfg, s, steps, m)
    decreases |steps|
  {
    var step := steps[0];
    var s' := Apply(cfg, s, step);
    StepInv(cfg, s, step);
    StepKeepsMachines(cfg, s, step);
    if step.Activate? {
      ActivateFacts(s.run, s.pending);
      DistinctBound(s'.run, |s'.machines|);
      var i :| 0 <= i < |s'.run| && s'.run[i] == m;
      QueuedStarts(cfg, s', steps[1..], end, i);
    } else {
      PendingStays(cfg, s, step, m);
      PendingStarts(cfg, s', steps[1..], end, m);
    }
    StartedLater(cfg, s, steps, m);
  }

  /** In particular an action that has just been added: it is started within N + 1 cycle ends. */
  lemma AddedActionStarts(cfg: Config, s: State, action: Action, steps: seq<Step>, end: State, m: MachineId)
    requires Inv(cfg, s) && Enabled(s, AddAction(m, action))
    requires Runs(cfg, s, [AddAction(m, action)] + steps, end)
    requires Cycles(steps) >= |s.machines| + 1
    requires NeverBlocks(cfg, Apply(cfg, s, AddAction(m, action)), steps, m)
    ensures action in Taken(cfg, Apply(cfg, s, AddAction(m, action)), steps, m)
  {
    assert ([AddAction(m, action)] + steps)[1..] == steps;
    var s' := Apply(cfg, s, AddAction(m, action));
    StepInv(cfg, s, AddAction(m, action));
    MarkPendingFacts(s.pending, m);
    PendingStarts(cfg, s', steps, end, m);
    assert s'.machines[m].actions[|s.machines[m].actions|] == action;
  }

  /* ---- a blocked action comes first ---- */

  /** No action of machine `m` returns along `steps`. */
  ghost predicate NeverReturns(cfg: Config, s: State, steps: seq<Step>, m: MachineId)
    decreases |steps|
  {
    steps != [] && Typed(cfg, s) && Enabled(s, steps[0]) ==>
      !(steps[0].Return? && s.pc.m == m) && NeverReturns(cfg, Apply(cfg, s, steps[0]), steps[1..], m)
  }

  /** Machine `m` has an action under way and is not at its messages. */
  ghost predicate MidAction(s: State, m: MachineId) {
    && m < |s.machines| && s.machines[m].execute.Some?
    && s.pc != Draining(m) && s.pc != InHandler(m)
  }

  /** Only its own return ends an action: no other machine, no message and no state rule can. */
  lemma MidActionStays(cfg: Config, s: State, step: Step, m: MachineId)
    requires Inv(cfg, s) && Enabled(s, step) && MidAction(s, m)
    requires !(step.Return? && s.pc.m == m)
    ensures MidAction(Apply(cfg, s, step), m)
    ensures Apply(cfg, s, step).machines[m].execute == s.machines[m].execute
    ensures !Takes(s, step, m)
  {
    hide NoLostWork, NoDuplicates, DrainIsClean;
  }

  /** An action under way stays the executing one, over any run, until it returns; meanwhile the machine
      starts no queued action. */
  lemma {:induction false} ExecutingActionIsKept(cfg: Config, s: State, steps: seq<Step>, end: State, m: MachineId)
    requires Inv(cfg, s) && Runs(cfg, s, steps, end)
    requires MidAction(s, m) && NeverReturns(cfg, s, steps, m)
    ensures m < |end.machines| && end.machines[m].execute == s.machines[m].execute
    ensures Taken(cfg, s, steps, m) == []
    decreases |steps|
  {
    if steps != [] {
      StepInv(cfg, s, steps[0]);
      MidActionStays(cfg, s, steps[0], m);
      ExecutingActionIsKept(cfg, Apply(cfg, s, steps[0]), steps[1..], end, m);
    }
  }

  /** A blocked action is the next one to return: until it does, however many cycles that takes, it is
      what the machine executes, and no later action has been started. */
  lemma BlockedActionResumesFirst(cfg: Config, s: State, left: Action, steps: seq<Step>, end: State, m: MachineId)
    requires Inv(cfg, s) && s.pc.InAction? && s.pc.m == m
    requires Runs(cfg, s, [Return(false, Some(left))] + steps, end)
    requires NeverReturns(cfg, Apply(cfg, s, Return(false, Some(left))), steps, m)
    ensures m < |end.machines| && end.machines[m].execute == Some(left)
    ensures Taken(cfg, Apply(cfg, s, Return(false, Some(left))), steps, m) == []
  {
    assert ([Return(false, Some(left))] + steps)[1..] == steps;
    StepInv(cfg, s, Return(false, Some(left)));
    ExecutingActionIsKept(cfg, Apply(cfg, s, Return(false, Some(left))), steps, end, m);
  }

  /* ---- the order of messages ---- */

  /** The message that this step puts into `m`'s queue, if it does: a send, or the announcement of
      another machine's new state. */
  ghost function Delivers(s: State, step: Step, m: MachineId): (r: seq<Message>)
    ensures |r| <= 1
  {
    if step.Send? && step.to == m then [step.message]
    else if step.Announce? && s.pc.Announcing? && s.pc.rest != [] && s.pc.rest[0] == m && s.pc.m < |s.machines|
    then [Message(Some(s.pc.m), s.machines[s.pc.m].state)]
    else []
  }

  /** The message that this step takes out of `m`'s queue, if it does. */
  ghost function Drains(s: State, step: Step, m: MachineId): (r: seq<Message>)
    ensures |r| <= 1
  {
    if step.Drain? && s.pc == Draining(m) && m < |s.machines| && s.machines[m].messages != []
    then [s.machines[m].messages[0]] else []
  }

  ghost function Delivered(cfg: Config, s: State, steps: seq<Step>, m: MachineId): seq<Message>
    decreases |steps|
  {
    if steps == [] || !Typed(cfg, s) || !Enabled(s, steps[0]) then []
    else Delivers(s, steps[0], m) + Delivered(cfg, Apply(cfg, s, steps[0]), steps[1..], m)
  }

  ghost function Drained(cfg: Config, s: State, steps: seq<Step>, m: MachineId): seq<Message>
    decreases |steps|
  {
    if steps == [] || !Typed(cfg, s) || !Enabled(s, steps[0]) then []
    else Drains(s, steps[0], m) + Drained(cfg, Apply(cfg, s, steps[0]), steps[1..], m)
  }

  lemma MessageStep(cfg: Config, s: State, step: Step, m: MachineId)
    requires Typed(cfg, s) && Enabled(s, step) && m < |s.machines|
    ensures m < |Apply(cfg, s, step).machines|
    ensures s.machines[m].messages + Delivers(s, step, m)
            == Drains(s, step, m) + Apply(cfg, s, step).machines[m].messages
  {
  }

  /** Per machine: no message is lost, repeated or overtaken. What arrives, in the order of arrival, is
      what is taken out followed by what is still waiting. */
  lemma {:induction false} MessagesInOrder(cfg: Config, s: State, steps: seq<Step>, end: State, m: MachineId)
    requires Runs(cfg, s, steps, end) && m < |s.machines|
    ensures m < |end.machines|
    ensures s.machines[m].messages + Delivered(cfg, s, steps, m) == Drained(cfg, s, steps, m) + end.machines[m].messages
    decreases |steps|
  {
    if steps == [] {
      assert s.machines[m].messages + [] == [] + s.machines[m].messages;
    } else {
      var s' := Apply(cfg, s, steps[0]);
      MessageStep(cfg, s, steps[0], m);
      MessagesInOrder(cfg, s', steps[1..], end, m);
      Regroup(s.machines[m].messages, Delivers(s, steps[0], m), Drains(s, steps[0], m), s'.machines[m].messages,
              Delivered(cfg, s', steps[1..], m), Drained(cfg, s', steps[1..], m), end.machines[m].messages);
    }
  }

  /** What came in first and then the rest went round the queue in order. */
  lemma Regroup<T>(now: seq<T>, arrives: seq<T>, leaves: seq<T>, next: seq<T>,
                   later: seq<T>, taken: seq<T>, rest: seq<T>)
    requires now + arrives == leaves + next && next + later == taken + rest
    ensures now + (arrives + later) == (leaves + taken) + rest
  {
    assert now + (arrives + later) == (now + arrives) + later;
    assert (leaves + next) + later == leaves + (next + later);
    assert leaves + (taken + rest) == (leaves + taken) + rest;
  }

  /** No step along `steps` puts `m` to sleep, and `m` stays in its action loop throughout. */
  ghost predicate StaysAwake(cfg: Config, s: State, steps: seq<Step>, m: MachineId)
    decreases |steps|
  {
    && InLoop(s.pc) && s.pc.m == m
    && (steps != [] && Typed(cfg, s) && Enabled(s, steps[0]) ==>
          && !(steps[0].Sleep? && steps[0].x == m)
          && StaysAwake(cfg, Apply(cfg, s, steps[0]), steps[1..], m))
  }

  lemma {:induction false} AwakeAllAlong(cfg: Config, s: State, steps: seq<Step>, end: State, m: MachineId)
    requires Runs(cfg, s, steps, end) && StaysAwake(cfg, s, steps, m)
    requires m < |s.machines| && !s.machines[m].asleep
    ensures m < |end.machines| && !end.machines[m].asleep && InLoop(end.pc) && end.pc.m == m
    decreases |steps|
  {
    if steps != [] {
      StepKeepsMachines(cfg, s, steps[0]);
      AwakeAllAlong(cfg, Apply(cfg, s, steps[0]), steps[1..], end, m);
    }
  }

  /** Being picked wakes a machine up: if it blocks without going to sleep again, it is queued again. */
  lemma BlockedAwakeIsPending(cfg: Config, s: State, steps: seq<Step>, end: State, left: Action)
    requires Typed(cfg, s) && s.pc.Picked?
    requires s.machines[s.pc.m].execute.Some? || s.machines[s.pc.m].actions != []
    requires Runs(cfg, Apply(cfg, s, Sample), steps, end)
    requires StaysAwake(cfg, Apply(cfg, s, Sample), steps, s.pc.m)
    requires Typed(cfg, end) && end.pc.InAction?
    ensures s.pc.m in Apply(cfg, end, Return(false, Some(left))).pending
  {
    AwakeAllAlong(cfg, Apply(cfg, s, Sample), steps, end, s.pc.m);
  }

  /* ---- the action loop ends ---- */

  /** Queued actions, the executing action, and the step from the loop head into the action. */
  ghost function LoopMeasure(machines: seq<Machine>, pc: Pc): nat {
    if InLoop(pc) && pc.m < |machines| then
      4 * |machines[pc.m].actions| + (if machines[pc.m].execute.Some? then 2 else 0) + (if pc.Acting? then 1 else 0) + 1
    else 0
  }

  /** An action that finishes, or reports that it is blocked, and does not extend its own queue. */
  ghost predicate Cooperative(s: State, step: Step) {
    && (step.Return? ==> step.left.None? || !step.ret)
    && (step.AddAction? ==> Current(s.pc) != Some(step.to))
  }

  lemma LoopMakesProgress(cfg: Config, s: State, step: Step)
    requires Inv(cfg, s) && Enabled(s, step) && Cooperative(s, step) && InLoop(s.pc)
    ensures var s' := Apply(cfg, s, step);
      var before := LoopMeasure(s.machines, s.pc); var after := LoopMeasure(s'.machines, s'.pc);
      if step.Act? || step.Return? then after < before else after == before
  {
  }

  ghost predicate AllCooperative(cfg: Config, s: State, steps: seq<Step>)
    decreases |steps|
  {
    steps != [] && Typed(cfg, s) && Enabled(s, steps[0]) ==>
      Cooperative(s, steps[0]) && AllCooperative(cfg, Apply(cfg, s, steps[0]), steps[1..])
  }

  /** How often the loop goes round along `steps` before it is left. */
  ghost function Rounds(cfg: Config, s: State, steps: seq<Step>): nat
    decreases |steps|
  {
    if steps == [] || !InLoop(s.pc) || !Typed(cfg, s) || !Enabled(s, steps[0]) then 0
    else (if steps[0].Act? || steps[0].Return? then 1 else 0) + Rounds(cfg, Apply(cfg, s, steps[0]), steps[1..])
  }

  /** With cooperative actions the loop ends after a number of rounds known when it starts. */
  lemma {:induction false} ActionLoopEnds(cfg: Config, s: State, steps: seq<Step>, end: State)
    requires Inv(cfg, s) && Runs(cfg, s, steps, end) && AllCooperative(cfg, s, steps)
    ensures Rounds(cfg, s, steps) <= LoopMeasure(s.machines, s.pc)
    decreases |steps|
  {
    if steps != [] && InLoop(s.pc) {
      StepInv(cfg, s, steps[0]);
      LoopMakesProgress(cfg, s, steps[0]);
      ActionLoopEnds(cfg, Apply(cfg, s, steps[0]), steps[1..], end);
    }
  }
}
