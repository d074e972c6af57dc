/** One pass of the processing task, as nested loops over the list memory and the machine table.
    Every operation is recorded as a step of the machine in Scheduler.dfy, so whatever holds in the
    runs of that machine holds here. */
module Process {
  import opened Basics
  import opened Scheduler
  import opened SchedulerSafety
  import opened SchedulerRuns
  import opened TaskLists

  /** What generated code and other tasks do, in the order in which they do it: operations on the
      runtime, and returns from a callback. */
  datatype Event =
    | Operation(step: Step)
    | Done(ret: bool, left: Option<Action>)

  lemma {:induction false} CyclesAppend(steps: seq<Step>, step: Step)
    ensures Cycles(steps + [step]) == Cycles(steps) + if step.Activate? then 1 else 0
    decreases |steps|
  {
    if steps == [] {
      assert [step][1..] == [];
    } else {
      assert (steps + [step])[1..] == steps[1..] + [step];
      CyclesAppend(steps[1..], step);
    }
  }

  /** Steps determine the states they lead through. */
  lemma {:induction false} RunsSplit(cfg: Config, s: State, a: seq<Step>, mid: State, b: seq<Step>, end: State)
    requires Runs(cfg, s, a, mid) && Runs(cfg, s, a + b, end)
    ensures Runs(cfg, mid, b, end)
    decreases |a|
  {
    if a == [] {
      assert a + b == b;
    } else {
      assert (a + b)[1..] == a[1..] + b;
      RunsSplit(cfg, Apply(cfg, s, a[0]), a[1..], mid, b, end);
    }
  }

  lemma {:induction false} TakenConcat(cfg: Config, s: State, a: seq<Step>, mid: State, b: seq<Step>, m: MachineId)
    requires Runs(cfg, s, a, mid)
    ensures Taken(cfg, s, a + b, m) == Taken(cfg, s, a, m) + Taken(cfg, mid, b, m)
    decreases |a|
  {
    if a == [] {
      assert a + b == b;
    } else {
      RunsFirst(cfg, s, a, mid);
      hide Apply, Typed, Enabled, Takes, Taken, Runs;
      var s' := Apply(cfg, s, a[0]);
      RestOfConcat(a, b);
      TakenConcat(cfg, s', a[1..], mid, b, m);
      TakenFirst(cfg, s, a, m);
      TakenFirst(cfg, s, a + b, m);
      Associate(if Takes(s, a[0], m) then [s.machines[m].actions[0]] else [],
                Taken(cfg, s', a[1..], m), Taken(cfg, mid, b, m));
    }
  }

  lemma RunsFirst(cfg: Config, s: State, steps: seq<Step>, end: State)
    requires steps != [] && Runs(cfg, s, steps, end)
    ensures Typed(cfg, s) && Enabled(s, steps[0]) && Runs(cfg, Apply(cfg, s, steps[0]), steps[1..], end)
  {
  }

  lemma TakenGrows(cfg: Config, s: State, past: seq<Step>, mid: State, done: seq<Step>, trace: seq<Step>, m: MachineId)
    requires past <= done <= trace && Runs(cfg, s, done[|past|..], mid)
    ensures Taken(cfg, s, done[|past|..], m) <= Taken(cfg, s, trace[|past|..], m)
  {
    hide Runs, Taken;
    assert trace[|past|..] == done[|past|..] + trace[|done|..];
    TakenConcat(cfg, s, done[|past|..], mid, trace[|done|..], m);
  }

  /** More has happened, within the same cycle. */
  ghost predicate Grown(before: seq<Step>, after: seq<Step>) {
    before <= after && Cycles(after) == Cycles(before)
  }

  function WithMessage(machines: seq<Machine>, to: MachineId, message: Message): seq<Machine>
    requires to < |machines|
  {
    machines[to := machines[to].(messages := machines[to].messages + [message])]
  }

  /** The machine is in the middle of an action or has one waiting. */
  predicate HasAction(machine: Machine) {
    machine.execute.Some? || machine.actions != []
  }

  /** The last thing that happened is that an action blocked. */
  ghost predicate EndsBlocked(trace: seq<Step>) {
    trace != [] && trace[|trace| - 1].Return? && !trace[|trace| - 1].ret && trace[|trace| - 1].left.Some?
  }

  /** The lists after set-up has marked these machines. */
  method SetUpLists(marked: seq<MachineId>) returns (lists: Lists)
    ensures fresh(lists) && lists.Valid()
    ensures lists.Pending() == MarkAll([], marked) && lists.Run() == [] && lists.Check() == []
  {
    lists := new Lists();
    var rest := marked;
    while rest != []
      invariant lists.Valid()
      invariant MarkAll(lists.Pending(), rest) == MarkAll([], marked)
      invariant lists.Run() == [] && lists.Check() == []
      decreases |rest|
    {
      lists.MarkPending(rest[0]);
      rest := rest[1..];
    }
  }

  lemma SetUpInit(cfg: Config, machines: seq<Machine>, marked: seq<MachineId>)
    requires |cfg.depends| == |cfg.hasHandler| == |cfg.hasCheck| == |machines|
    requires Ids(marked, |machines|)
    requires forall m :: 0 <= m < |machines| ==>
      Ids(cfg.depends[m], |machines|) && (HasWork(machines[m]) ==> m in marked)
    ensures var start := State(machines, MarkAll([], marked), [], [], Idle);
      Init(cfg, start) && Inv(cfg, start)
  {
    MarkAllFacts([], marked);
    InitInv(cfg, State(machines, MarkAll([], marked), [], [], Idle));
  }

  class Runtime {
    const cfg: Config
    const lists: Lists
    var machines: seq<Machine>
    var script: seq<Event>

    ghost var pc: Pc
    ghost const start: State
    ghost var trace: seq<Step>

    ghost function Abs(): State
      reads this, lists
      requires lists.Linked()
    {
      State(machines, lists.Pending(), lists.Run(), lists.Check(), pc)
    }

    /** The present state is reachable, and `trace` is how it was reached. */
    ghost predicate Valid()
      reads this, lists
    {
      && lists.Valid()
      && Init(cfg, start) && Runs(cfg, start, trace, Abs()) && Inv(cfg, Abs())
    }

    /** Set-up creates the machines and marks some of them pending, among them all it gives actions to. */
    constructor (cfg: Config, machines: seq<Machine>, marked: seq<MachineId>, script: seq<Event>)
      requires |cfg.depends| == |cfg.hasHandler| == |cfg.hasCheck| == |machines|
      requires Ids(marked, |machines|)
      requires forall m :: 0 <= m < |machines| ==>
        Ids(cfg.depends[m], |machines|) && (HasWork(machines[m]) ==> m in marked)
      ensures Valid() && fresh(lists) && pc == Idle && trace == []
      ensures this.cfg == cfg && this.machines == machines && this.script == script
      ensures lists.Pending() == MarkAll([], marked) && lists.Run() == []
    {
      SetUpInit(cfg, machines, marked);
      this.cfg := cfg;
      this.machines := machines;
      this.script := script;
      var newLists := SetUpLists(marked);
      lists := newLists;
      pc, trace := Idle, [];
      start := State(machines, MarkAll([], marked), [], [], Idle);
    }

    /** Writes down that the operation just performed was `step`. */
    ghost method Record(before: State, step: Step)
      requires lists.Valid()
      requires Init(cfg, start) && Runs(cfg, start, trace, before) && Inv(cfg, before)
      requires Enabled(before, step) && Abs() == Apply(cfg, before, step)
      modifies `trace
      ensures Valid() && trace == old(trace) + [step]
      ensures if step.Activate? then Cycles(trace) == Cycles(old(trace)) + 1 else Grown(old(trace), trace)
    {
      InvTyped(cfg, before);
      hide Init, Inv, Runs, Typed, Enabled, Apply, Cycles, Ok;
      RunsAppend(cfg, start, trace, before, step);
      StepInv(cfg, before, step);
      CyclesAppend(trace, step);
      trace := trace + [step];
    }

    lemma Known()
      requires Valid()
      ensures Typed(cfg, Abs()) && ActionIsExecuting(Abs())
    {
      InvTyped(cfg, Abs());
    }

    /** The steps since `past`. */
    lemma Since(past: seq<Step>, before: State)
      requires Valid() && past <= trace && Runs(cfg, start, past, before)
      ensures Runs(cfg, before, trace[|past|..], Abs())
    {
      hide Init, Inv, Ok, Typed, Enabled, Apply;
      assert past + trace[|past|..] == trace;
      RunsSplit(cfg, start, past, before, trace[|past|..], Abs());
    }

    /** Machine `m` is through its action loop: what it had queued when it had not noticed the end yet has
        been started. */
    lemma Started(past: seq<Step>, before: State, m: MachineId)
      requires Valid() && past <= trace && Runs(cfg, start, past, before)
      requires pc.Notifying? && pc.m == m && m < |before.machines| && !Leaving(before, m)
      ensures before.machines[m].actions <= Taken(cfg, before, trace[|past|..], m)
      ensures m < |machines| && machines[m].execute == None
    {
      hide Init, Inv, Ok, Runs, Taken, Leaving;
      Since(past, before);
      QueuedActionsAreStarted(cfg, before, trace[|past|..], Abs(), m);
    }

    lemma NothingExecutes(m: MachineId)
      requires Valid() && pc == Checking(m, false)
      ensures m < |machines| && machines[m].execute == None
    {
    }

    /* ---- operations ---- */

    method MarkPending(x: MachineId)
      requires Valid() && x < |machines|
      modifies this`trace, lists
      ensures Valid() && Grown(old(trace), trace) && trace == old(trace) + [Mark(x)]
      ensures lists.Pending() == Scheduler.MarkPending(old(lists.Pending()), x)
      ensures lists.Run() == old(lists.Run()) && lists.Check() == old(lists.Check())
    {
      hide Init, Inv, Runs, Cycles, Ok;
      Known();
      ghost var before := Abs();
      lists.MarkPending(x);
      Record(before, Mark(x));
    }

    method CwSend(to: MachineId, message: Message)
      requires Valid() && to < |machines|
      modifies this`trace, this`machines, lists
      ensures Valid() && Grown(old(trace), trace) && trace == old(trace) + [Send(to, message)]
      ensures lists.Run() == old(lists.Run()) && lists.Check() == old(lists.Check())
      ensures lists.Pending() == Scheduler.MarkPending(old(lists.Pending()), to)
      ensures |machines| == |old(machines)| && machines[to].messages == old(machines)[to].messages + [message]
    {
      hide Init, Inv, Runs, Cycles, Ok;
      Known();
      ghost var before := Abs();
      machines := WithMessage(machines, to, message);
      lists.MarkPending(to);
      Record(before, Send(to, message));
    }

    method MachineActionsAdd(to: MachineId, action: Action)
      requires Valid() && to < |machines| && InCallback(pc)
      modifies this`trace, this`machines, lists
      ensures Valid() && Grown(old(trace), trace) && trace == old(trace) + [AddAction(to, action)]
      ensures lists.Run() == old(lists.Run()) && lists.Check() == old(lists.Check())
      ensures lists.Pending() == Scheduler.MarkPending(old(lists.Pending()), to)
      ensures |machines| == |old(machines)| && machines[to].actions == old(machines)[to].actions + [action]
    {
      hide Init, Inv, Runs, Cycles, Ok;
      Known();
      ghost var before := Abs();
      machines := machines[to := machines[to].(actions := machines[to].actions + [action])];
      lists.MarkPending(to);
      Record(before, AddAction(to, action));
    }

    method GotoSleep(x: MachineId)
      requires Valid() && x < |machines| && InCallback(pc)
      modifies this`trace, this`machines
      ensures Valid() && Grown(old(trace), trace) && trace == old(trace) + [Sleep(x)]
      ensures machines == old(machines)[x := old(machines)[x].(asleep := true)]
    {
      hide Init, Inv, Runs, Cycles, Ok;
      Known();
      ghost var before := Abs();
      machines := machines[x := machines[x].(asleep := true)];
      Record(before, Sleep(x));
    }

    /** The precondition on `execute` is the assertion in the code. */
    method ChangeMachineState(m: MachineId, state: int, handler: Option<Action>)
      requires Valid() && pc == Checking(m, false)
      requires m < |machines| && machines[m].execute == None
      modifies this`trace, this`machines, this`pc
      ensures Valid() && Grown(old(trace), trace) && trace == old(trace) + [ChangeState(state, handler)]
      ensures pc == Checking(m, true)
      ensures machines == if old(machines)[m].state == state then old(machines)
                          else old(machines)[m := old(machines)[m].(state := state, execute := handler)]
    {
      hide Init, Inv, Runs, Cycles, Ok;
      Known();
      ghost var before := Abs();
      if machines[m].state != state {
        machines := machines[m := machines[m].(state := state, execute := handler)];
      }
      pc := Checking(m, true);
      Record(before, ChangeState(state, handler));
    }

    /* ---- callbacks and other tasks ---- */

    /** Other tasks get a chance to send messages and to mark machines pending. */
    method OtherTasks()
      requires Valid()
      modifies this`trace, this`script, this`machines, lists
      ensures Valid() && Grown(old(trace), trace)
      ensures lists.Run() == old(lists.Run()) && lists.Check() == old(lists.Check())
      ensures |script| <= |old(script)| && |machines| == |old(machines)|
    {
      hide Init, Inv, Runs, Cycles, Ok;
      while script != [] && script[0].Operation? && (script[0].step.Send? || script[0].step.Mark?)
        invariant Valid() && Grown(old(trace), trace)
        invariant lists.Run() == old(lists.Run()) && lists.Check() == old(lists.Check())
        invariant |script| <= |old(script)| && |machines| == |old(machines)|
        decreases |script|
      {
        var step := script[0].step;
        script := script[1..];
        if step.Send? && step.to < |machines| {
          CwSend(step.to, step.message);
        } else if step.Mark? && step.x < |machines| {
          MarkPending(step.x);
        }
      }
    }

    /** One operation of generated code. A script entry that is out of place is skipped. */
    method Perform(step: Step)
      requires Valid() && InCallback(pc)
      modifies this`trace, this`machines, lists
      ensures Valid() && Grown(old(trace), trace)
      ensures lists.Run() == old(lists.Run()) && lists.Check() == old(lists.Check())
      ensures |machines| == |old(machines)|
    {
      hide Init, Inv, Runs, Cycles, Ok;
      match step {
        case Mark(x) =>
          if x < |machines| {
            MarkPending(x);
          }
        case Send(to, message) =>
          if to < |machines| {
            CwSend(to, message);
          }
        case AddAction(to, action) =>
          if to < |machines| {
            MachineActionsAdd(to, action);
          }
        case Sleep(x) =>
          if x < |machines| {
            GotoSleep(x);
          }
        case _ =>
      }
    }

    /** An action or a message handler runs until it returns. Code whose script has ended returns at
        once with nothing left to execute. */
    method Callback() returns (ret: bool, left: Option<Action>)
      requires Valid() && (pc.InAction? || pc.InHandler?)
      modifies this`trace, this`script, this`machines, lists
      ensures Valid() && Grown(old(trace), trace)
      ensures lists.Run() == old(lists.Run()) && lists.Check() == old(lists.Check())
      ensures |machines| == |old(machines)|
      ensures old(script) != [] ==> |script| < |old(script)|
      ensures old(script) == [] ==> ret && left == None && script == [] && machines == old(machines)
    {
      hide Init, Inv, Runs, Cycles, Ok;
      while script != [] && script[0].Operation?
        invariant Valid() && Grown(old(trace), trace)
        invariant lists.Run() == old(lists.Run()) && lists.Check() == old(lists.Check())
        invariant |machines| == |old(machines)|
        invariant |script| < |old(script)| || (script == old(script) && machines == old(machines))
        decreases |script|
      {
        var step := script[0].step;
        script := script[1..];
        Perform(step);
      }
      if script == [] {
        return true, None;
      }
      ret, left := script[0].ret, script[0].left;
      script := script[1..];
    }

    /** A state rule runs until it returns, changing the state at most once. */
    method CheckState(m: MachineId) returns (ret: bool)
      requires Valid() && pc == Checking(m, false)
      modifies this`trace, this`script, this`machines, this`pc, lists
      ensures Valid() && Grown(old(trace), trace)
      ensures lists.Run() == old(lists.Run()) && lists.Check() == old(lists.Check())
      ensures |machines| == |old(machines)|
      ensures pc.Checking? && pc.m == m
    {
      hide Init, Inv, Runs, Cycles, Ok;
      var changed := false;
      while script != [] && script[0].Operation?
        invariant Valid() && Grown(old(trace), trace)
        invariant lists.Run() == old(lists.Run()) && lists.Check() == old(lists.Check())
        invariant |machines| == |old(machines)|
        invariant pc == Checking(m, changed)
        decreases |script|
      {
        var step := script[0].step;
        script := script[1..];
        if step.ChangeState? && !changed {
          NothingExecutes(m);
          ChangeMachineState(m, step.state, step.handler);
          changed := true;
        } else {
          Perform(step);
        }
      }
      if script == [] {
        return true;
      }
      ret := script[0].ret;
      script := script[1..];
    }

    /* ---- the processing task, one step at a time ---- */

    method BeginCycle() returns (runnable: bool)
      requires Valid() && pc.Idle?
      modifies this`trace, this`pc
      ensures Valid() && Grown(old(trace), trace)
      ensures pc == if runnable then RunLoop else CheckLoop
    {
      hide Init, Inv, Runs, Cycles, Ok;
      Known();
      ghost var before := Abs();
      runnable := lists.runList != NULL;
      lists.RunHead();
      pc := if runnable then RunLoop else CheckLoop;
      Record(before, Begin);
    }

    method PickNextMachine() returns (next: Option<MachineId>)
      requires Valid() && pc.RunLoop?
      modifies this`trace, this`pc, lists
      ensures Valid() && Grown(old(trace), trace)
      ensures pc == if next == None then CheckLoop else Picked(next.value)
      ensures if next == None then lists.Run() == old(lists.Run()) == []
              else old(lists.Run()) != [] && next.value == old(lists.Run())[0] && lists.Run() == old(lists.Run())[1..]
    {
      hide Init, Inv, Runs, Cycles, Ok;
      Known();
      ghost var before := Abs();
      next := lists.NextRunnable();
      pc := if next == None then CheckLoop else Picked(next.value);
      Record(before, PickNext);
    }

    /** Decides what a picked machine is to do, and wakes it up if it has an action. */
    method SamplePicked(m: MachineId) returns (act: bool, more: bool, drain: bool)
      requires Valid() && pc == Picked(m)
      modifies this`trace, this`pc, this`machines, lists
      ensures Valid() && Grown(old(trace), trace)
      ensures trace == old(trace) + [Sample] && m < |machines| == |old(machines)| && m < |cfg.hasCheck|
      ensures act == (old(machines)[m].execute.Some? || old(machines)[m].actions != [])
      ensures more == (old(machines)[m].actions != [])
      ensures machines == if act then old(machines)[m := old(machines)[m].(asleep := false)] else old(machines)
      ensures drain == (!act && old(machines)[m].messages != [])
      ensures pc == if act then Acting(m, more) else if drain then Draining(m) else RunLoop
      ensures lists.Run() == old(lists.Run())
      ensures lists.Check() == (if !act && !drain && cfg.hasCheck[m] then [m] else []) + old(lists.Check())
    {
      hide Init, Inv, Runs, Cycles, Ok;
      Known();
      ghost var before := Abs();
      more := machines[m].actions != [];
      act := HasAction(machines[m]);
      drain := !act && machines[m].messages != [];
      if act {
        machines := machines[m := machines[m].(asleep := false)];
        pc := Acting(m, more);
      } else if drain {
        pc := Draining(m);
      } else {
        if cfg.hasCheck[m] {
          lists.MarkStateCheck(m);
        }
        pc := RunLoop;
      }
      Record(before, Sample);
    }

    method EnterAction(m: MachineId, more: bool)
      requires Valid() && pc == Acting(m, more) && m < |machines| && machines[m].execute.Some?
      modifies this`trace, this`pc
      ensures Valid() && Grown(old(trace), trace) && pc == InAction(m, more)
      ensures LoopMeasure(machines, pc) < LoopMeasure(old(machines), old(pc))
    {
      hide Init, Inv, Runs, Cycles, Ok;
      Known();
      ghost var before := Abs();
      pc := InAction(m, more);
      Record(before, Act);
    }

    method TakeAction(m: MachineId) returns (more: bool)
      requires Valid() && pc == Acting(m, true) && m < |machines| && machines[m].execute.None?
      modifies this`trace, this`pc, this`machines
      ensures Valid() && Grown(old(trace), trace) && pc == Acting(m, more)
      ensures |machines| == |old(machines)| && old(machines)[m].actions != []
      ensures machines[m].execute == Some(old(machines)[m].actions[0])
      ensures machines[m].actions == old(machines)[m].actions[1..] && more == (machines[m].actions != [])
      ensures LoopMeasure(machines, pc) < LoopMeasure(old(machines), old(pc))
    {
      hide Init, Inv, Runs, Cycles, Ok;
      Known();
      ghost var before := Abs();
      var actions := machines[m].actions;
      machines := machines[m := machines[m].(execute := Some(actions[0]), actions := actions[1..])];
      more := |actions| > 1;
      pc := Acting(m, more);
      Record(before, Act);
    }

    method LeaveActions(m: MachineId)
      requires Valid() && pc == Acting(m, false) && m < |machines| && machines[m].execute.None?
      modifies this`trace, this`pc
      ensures Valid() && Grown(old(trace), trace)
      ensures m < |cfg.depends| && pc == Notifying(m, cfg.depends[m])
    {
      hide Init, Inv, Runs, Cycles, Ok;
      Known();
      ghost var before := Abs();
      pc := Notifying(m, cfg.depends[m]);
      Record(before, Act);
    }

    method ReturnFromAction(m: MachineId, more: bool, ret: bool, left: Option<Action>) returns (blocked: bool)
      requires Valid() && pc == InAction(m, more)
      modifies this`trace, this`pc, this`machines, lists
      ensures Valid() && Grown(old(trace), trace)
      ensures trace == old(trace) + [Return(ret, left)] && blocked == (!ret && left.Some?)
      ensures pc == if blocked then CheckLoop else Acting(m, more)
      ensures lists.Run() == old(lists.Run()) && |machines| == |old(machines)|
      ensures m < |machines| && machines == old(machines)[m := old(machines)[m].(execute := left)]
      ensures left == None && m < |machines| ==> LoopMeasure(machines, pc) < LoopMeasure(old(machines), old(pc))
    {
      hide Init, Inv, Runs, Cycles, Ok;
      blocked := !ret && left.Some?;
      if blocked {
        BlockMachine(m, more, left);
      } else {
        ResumeLoop(m, more, ret, left);
      }
    }

    method ResumeLoop(m: MachineId, more: bool, ret: bool, left: Option<Action>)
      requires Valid() && pc == InAction(m, more) && (ret || left.None?)
      modifies this`trace, this`pc, this`machines
      ensures Valid() && Grown(old(trace), trace) && trace == old(trace) + [Return(ret, left)]
      ensures pc == Acting(m, more) && |machines| == |old(machines)|
      ensures m < |machines| && machines == old(machines)[m := old(machines)[m].(execute := left)]
      ensures left == None && m < |machines| ==> LoopMeasure(machines, pc) < LoopMeasure(old(machines), old(pc))
    {
      hide Init, Inv, Runs, Cycles, Ok;
      Known();
      ghost var before := Abs();
      machines := machines[m := machines[m].(execute := left)];
      pc := Acting(m, more);
      Record(before, Return(ret, left));
    }

    /** The action is not done: the machine gets another turn unless it sleeps. */
    method BlockMachine(m: MachineId, more: bool, left: Option<Action>)
      requires Valid() && pc == InAction(m, more) && left.Some?
      modifies this`trace, this`pc, this`machines, lists
      ensures Valid() && Grown(old(trace), trace) && trace == old(trace) + [Return(false, left)] && pc == CheckLoop
      ensures lists.Run() == old(lists.Run()) && |machines| == |old(machines)|
      ensures m < |machines| && machines == old(machines)[m := old(machines)[m].(execute := left)]
      ensures lists.Pending() ==
              if old(machines)[m].asleep then old(lists.Pending()) else Scheduler.MarkPending(old(lists.Pending()), m)
    {
      hide Init, Inv, Runs, Cycles, Ok;
      Known();
      ghost var before := Abs();
      machines := machines[m := machines[m].(execute := left)];
      if !machines[m].asleep {
        lists.MarkPending(m);
      }
      pc := CheckLoop;
      Record(before, Return(false, left));
    }

    method NotifyNext(m: MachineId, rest: seq<MachineId>)
      requires Valid() && pc == Notifying(m, rest)
      modifies this`trace, this`pc, lists
      ensures Valid() && Grown(old(trace), trace)
      ensures trace == old(trace) + [Notify]
      ensures pc == if rest == [] then RunLoop else Notifying(m, rest[1..])
      ensures lists.Pending() == Scheduler.MarkPending(old(lists.Pending()), if rest == [] then m else rest[0])
      ensures lists.Run() == old(lists.Run()) && lists.Check() == old(lists.Check()) && machines == old(machines)
    {
      hide Init, Inv, Runs, Cycles, Ok;
      Known();
      ghost var before := Abs();
      lists.MarkPending(if rest == [] then m else rest[0]);
      pc := if rest == [] then RunLoop else Notifying(m, rest[1..]);
      Record(before, Notify);
    }

    /** Takes the next message out of the queue, and enters the handler if there is one. */
    method DrainNext(m: MachineId)
      requires Valid() && pc == Draining(m) && m < |machines|
      modifies this`trace, this`pc, this`machines
      ensures Valid() && Grown(old(trace), trace) && |machines| == |old(machines)| && m < |cfg.hasHandler|
      ensures trace == old(trace) + [Drain]
      ensures old(machines[m].messages) == [] ==> pc == RunLoop && machines == old(machines)
      ensures old(machines[m].messages) != [] ==>
                && pc == (if cfg.hasHandler[m] then InHandler(m) else Draining(m))
                && machines[m].messages == old(machines[m].messages)[1..]
    {
      hide Init, Inv, Runs, Cycles, Ok;
      Known();
      ghost var before := Abs();
      if machines[m].messages == [] {
        pc := RunLoop;
      } else {
        machines := machines[m := machines[m].(messages := machines[m].messages[1..])];
        pc := if cfg.hasHandler[m] then InHandler(m) else Draining(m);
      }
      Record(before, Drain);
    }

    method ReturnFromHandler(m: MachineId, left: Option<Action>)
      requires Valid() && pc == InHandler(m) && m < |machines|
      modifies this`trace, this`pc, this`machines
      ensures Valid() && Grown(old(trace), trace) && pc == Draining(m)
      ensures machines == old(machines)[m := old(machines)[m].(execute := left)]
    {
      hide Init, Inv, Runs, Cycles, Ok;
      Known();
      ghost var before := Abs();
      machines := machines[m := machines[m].(execute := left)];
      pc := Draining(m);
      Record(before, HandlerReturn(left));
    }

    method PickNextCheck() returns (next: Option<MachineId>)
      requires Valid() && pc.CheckLoop?
      modifies this`trace, this`pc, lists
      ensures Valid() && Grown(old(trace), trace)
      ensures next == None ==> pc == External && lists.Check() == old(lists.Check()) == []
      ensures next != None ==>
                && |lists.Check()| < |old(lists.Check())| && next.value < |cfg.hasCheck|
                && pc == if cfg.hasCheck[next.value] then Checking(next.value, false) else CheckLoop
    {
      hide Init, Inv, Runs, Cycles, Ok;
      Known();
      ghost var before := Abs();
      next := lists.NextStateCheck();
      pc := if next == None then External
            else if cfg.hasCheck[next.value] then Checking(next.value, false) else CheckLoop;
      Record(before, PickCheck);
    }

    method ReturnFromCheck(m: MachineId, ret: bool)
      requires Valid() && pc.Checking? && pc.m == m
      modifies this`trace, this`pc
      ensures Valid() && Grown(old(trace), trace) && m < |cfg.depends|
      ensures pc == if ret then Announcing(m, cfg.depends[m]) else CheckLoop
    {
      hide Init, Inv, Runs, Cycles, Ok;
      Known();
      ghost var before := Abs();
      pc := if ret then Announcing(m, cfg.depends[m]) else CheckLoop;
      Record(before, CheckReturn(ret));
    }

    method AnnounceNext(m: MachineId, rest: seq<MachineId>)
      requires Valid() && pc == Announcing(m, rest)
      modifies this`trace, this`pc, this`machines, lists
      ensures Valid() && Grown(old(trace), trace)
      ensures trace == old(trace) + [Announce]
      ensures pc == if rest == [] then CheckLoop else Announcing(m, rest[1..])
      ensures lists.Check() == old(lists.Check())
      ensures rest == [] ==> machines == old(machines) && lists.Pending() == old(lists.Pending())
      ensures m < |old(machines)| && (rest != [] ==> rest[0] < |old(machines)|)
      ensures rest != [] ==>
                && lists.Pending() == Scheduler.MarkPending(old(lists.Pending()), rest[0])
                && machines == WithMessage(old(machines), rest[0], Message(Some(m), old(machines)[m].state))
    {
      hide Init, Inv, Runs, Cycles, Ok;
      Known();
      ghost var before := Abs();
      if rest == [] {
        pc := CheckLoop;
      } else {
        var to := rest[0];
        var message := Message(Some(m), machines[m].state);
        machines := WithMessage(machines, to, message);
        lists.MarkPending(to);
        pc := Announcing(m, rest[1..]);
      }
      Record(before, Announce);
    }

    method EndCycle()
      requires Valid() && pc.External?
      modifies this`trace, this`pc, lists
      ensures Valid() && pc.Idle?
      ensures trace == old(trace) + [Activate] && Cycles(trace) == Cycles(old(trace)) + 1
      ensures lists.Pending() == [] && lists.Run() == ActivateAll(old(lists.Run()), old(lists.Pending()))
    {
      hide Init, Inv, Runs, Cycles, Ok;
      Known();
      ghost var before := Abs();
      lists.ActivatePending();
      pc := Idle;
      Record(before, Activate);
    }

    /* ---- the loops ---- */

    method CwrtProcess()
      requires Valid() && pc.Idle?
      modifies this, lists
      ensures Valid() && pc.Idle? && lists.Pending() == []
      ensures old(trace) <= trace && Cycles(trace) == Cycles(old(trace)) + 1
    {
      hide Init, Inv, Runs, Cycles, Ok;
      RunAndCheck();
      OtherTasks();
      EndCycle();
    }

    /** The processing task's endless loop, seen for one cycle more than there are machines: whoever was
        pending at the start has had its turn, whatever the callbacks and the other tasks did. */
    method ServePending(n: nat, ghost m: MachineId)
      requires Valid() && pc.Idle? && m in lists.Pending() && n > |machines|
      modifies this, lists
      ensures Valid() && pc.Idle?
      ensures old(trace) <= trace && Dispatches(cfg, old(Abs()), trace[|old(trace)|..], m)
    {
      hide Init, Inv, Runs, Cycles, Ok;
      ghost var before, past := Abs(), trace;
      for i := 0 to n
        invariant Valid() && pc.Idle?
        invariant past <= trace && Cycles(trace) == Cycles(past) + i
      {
        CwrtProcess();
      }
      ghost var since := trace[|past|..];
      assert past + since == trace;
      CyclesConcat(past, since);
      RunsSplit(cfg, start, past, before, since, Abs());
      PendingIsDispatched(cfg, before, since, Abs(), m);
    }

    method RunAndCheck()
      requires Valid() && pc.Idle?
      modifies this, lists
      ensures Valid() && pc.External? && Grown(old(trace), trace)
    {
      hide Init, Inv, Runs, Cycles, Ok;
      var runnable := BeginCycle();
      if runnable {
        RunPhase();
      }
      CheckPass();
    }

    /** Runs machines until the list is empty or one of them blocks. */
    method RunPhase()
      requires Valid() && pc.RunLoop?
      modifies this, lists
      ensures Valid() && pc.CheckLoop? && Grown(old(trace), trace)
      ensures lists.Run() == [] || EndsBlocked(trace)
    {
      hide Init, Inv, Runs, Cycles, Ok;
      var done := false;
      while !done
        invariant Valid() && Grown(old(trace), trace)
        invariant pc == if done then CheckLoop else RunLoop
        invariant done ==> lists.Run() == [] || EndsBlocked(trace)
        decreases |lists.Run()|, !done
      {
        done := RunNext();
      }
    }

    method RunNext() returns (done: bool)
      requires Valid() && pc.RunLoop?
      modifies this, lists
      ensures Valid() && Grown(old(trace), trace)
      ensures pc == if done then CheckLoop else RunLoop
      ensures if done then |lists.Run()| <= |old(lists.Run())| else |lists.Run()| < |old(lists.Run())|
      ensures done ==> lists.Run() == [] || EndsBlocked(trace)
    {
      hide Init, Inv, Runs, Cycles, Ok;
      OtherTasks();
      var next := PickNextMachine();
      if next == None {
        return true;
      }
      done := RunMachine(next.value);
    }

    /** One machine's turn: its actions if it has any, and then the dependents are marked unless it blocks;
        else its messages, until there are none; else its state rules are due. */
    method RunMachine(m: MachineId) returns (blocked: bool)
      requires Valid() && pc == Picked(m)
      modifies this, lists
      ensures Valid() && Grown(old(trace), trace)
      ensures pc == if blocked then CheckLoop else RunLoop
      ensures lists.Run() == old(lists.Run())
      ensures m < |old(machines)| == |machines| && m < |cfg.hasCheck| && old(trace) + [Sample] <= trace
      ensures blocked ==> HasAction(old(machines)[m]) && EndsBlocked(trace)
      ensures HasAction(old(machines)[m]) && !blocked ==>
                && trace[|trace| - 1] == Notify && m in lists.Pending() && machines[m].execute == None
                && old(machines)[m].actions <= Taken(cfg, old(Abs()), trace[|old(trace)|..], m)
      ensures !HasAction(old(machines)[m]) && old(machines)[m].messages != [] ==> machines[m].messages == []
      ensures !HasAction(old(machines)[m]) && old(machines)[m].messages == [] ==>
                && trace == old(trace) + [Sample] && machines == old(machines)
                && lists.Check() == (if cfg.hasCheck[m] then [m] else []) + old(lists.Check())
    {
      hide Init, Inv, Runs, Cycles, Ok, Taken;
      blocked := false;
      var act, more, drain := SamplePicked(m);
      if act {
        blocked := RunActions(m, more, old(trace), old(Abs()));
      } else if drain {
        DrainMessages(m);
      }
    }

    /** The action loop and, unless it blocks, the notifications. `past` and `before` are from when the
        machine was picked. */
    method RunActions(m: MachineId, more: bool, ghost past: seq<Step>, ghost before: State) returns (blocked: bool)
      requires Valid() && pc == Acting(m, more)
      requires past <= trace && Runs(cfg, start, past, before) && before.pc == Picked(m) && m < |before.machines|
      modifies this, lists
      ensures Valid() && Grown(old(trace), trace) && lists.Run() == old(lists.Run())
      ensures pc == (if blocked then CheckLoop else RunLoop) && m < |machines| == |old(machines)|
      ensures blocked ==> EndsBlocked(trace)
      ensures !blocked ==>
                && trace != [] && trace[|trace| - 1] == Notify && m in lists.Pending() && machines[m].execute == None
                && past <= trace && before.machines[m].actions <= Taken(cfg, before, trace[|past|..], m)
    {
      hide Init, Inv, Runs, Cycles, Ok, Taken;
      blocked := ActionLoop(m, more);
      if !blocked {
        Started(past, before, m);
        Since(past, before);
        ghost var mid, done := Abs(), trace;
        NotifyDependents(m);
        TakenGrows(cfg, before, past, mid, done, trace, m);
      }
    }

    /** Continues the executing action, then takes queued ones, until none is left or one blocks. */
    method ActionLoop(m: MachineId, more0: bool) returns (blocked: bool)
      requires Valid() && pc == Acting(m, more0)
      modifies this, lists
      ensures Valid() && Grown(old(trace), trace)
      ensures m < |cfg.depends| && pc == if blocked then CheckLoop else Notifying(m, cfg.depends[m])
      ensures lists.Run() == old(lists.Run()) && m < |machines| == |old(machines)|
      ensures blocked ==> EndsBlocked(trace)
      ensures !blocked ==> m < |machines| && machines[m].execute == None
      ensures !blocked && more0 ==>
                m < |old(machines)| && old(machines)[m].actions <= Taken(cfg, old(Abs()), trace[|old(trace)|..], m)
    {
      hide Init, Inv, Runs, Cycles, Ok, Taken;
      Known();
      var more := more0;
      blocked := false;
      while !blocked && (machines[m].execute.Some? || more)
        invariant Valid() && Grown(old(trace), trace)
        invariant pc == if blocked then CheckLoop else Acting(m, more)
        invariant m < |machines| == |old(machines)| && m < |cfg.depends|
        invariant lists.Run() == old(lists.Run())
        invariant blocked ==> EndsBlocked(trace)
        decreases |script|, if blocked then 0 else LoopMeasure(machines, pc), !blocked
      {
        blocked, more := ActionRound(m, more);
      }
      if !blocked {
        LeaveActions(m);
        if more0 {
          Started(old(trace), old(Abs()), m);
        }
      }
    }

    /** Calls the executing action once, or takes the next one out of the queue. */
    method ActionRound(m: MachineId, more: bool) returns (blocked: bool, more': bool)
      requires Valid() && pc == Acting(m, more) && m < |machines| && (machines[m].execute.Some? || more)
      modifies this, lists
      ensures Valid() && Grown(old(trace), trace) && |machines| == |old(machines)|
      ensures pc == if blocked then CheckLoop else Acting(m, more')
      ensures lists.Run() == old(lists.Run())
      ensures blocked ==> EndsBlocked(trace)
      ensures |script| < |old(script)|
              || (script == old(script) && !blocked && LoopMeasure(machines, pc) < LoopMeasure(old(machines), old(pc)))
    {
      hide Init, Inv, Runs, Cycles, Ok;
      more' := more;
      blocked := false;
      if machines[m].execute.Some? {
        blocked := ContinueAction(m, more);
      } else {
        more' := TakeAction(m);
      }
    }

    method ContinueAction(m: MachineId, more: bool) returns (blocked: bool)
      requires Valid() && pc == Acting(m, more) && m < |machines| && machines[m].execute.Some?
      modifies this, lists
      ensures Valid() && Grown(old(trace), trace) && |machines| == |old(machines)|
      ensures pc == if blocked then CheckLoop else Acting(m, more)
      ensures lists.Run() == old(lists.Run())
      ensures blocked ==> EndsBlocked(trace)
      ensures |script| < |old(script)|
              || (script == old(script) && !blocked && LoopMeasure(machines, pc) < LoopMeasure(old(machines), old(pc)))
    {
      hide Init, Inv, Runs, Cycles, Ok;
      EnterAction(m, more);
      var ret, left := Callback();
      blocked := ReturnFromAction(m, more, ret, left);
    }

    /** Marks the dependents and then the machine itself pending. */
    method NotifyDependents(m: MachineId)
      requires Valid() && m < |cfg.depends| && pc == Notifying(m, cfg.depends[m])
      modifies this, lists
      ensures Valid() && Grown(old(trace), trace) && pc == RunLoop
      ensures lists.Run() == old(lists.Run()) && machines == old(machines)
      ensures lists.Pending() == Scheduler.MarkPending(MarkAll(old(lists.Pending()), cfg.depends[m]), m)
      ensures m in lists.Pending() && |trace| > |old(trace)| && trace[|trace| - 1] == Notify
    {
      hide Init, Inv, Runs, Cycles, Ok;
      var rest := cfg.depends[m];
      while rest != []
        invariant Valid() && Grown(old(trace), trace) && pc == Notifying(m, rest)
        invariant lists.Run() == old(lists.Run()) && machines == old(machines)
        invariant MarkAll(lists.Pending(), rest) == MarkAll(old(lists.Pending()), cfg.depends[m])
        decreases |rest|
      {
        NotifyNext(m, rest);
        rest := rest[1..];
      }
      NotifyNext(m, rest);
    }

    /** Takes messages out of the queue until there are none. */
    method DrainMessages(m: MachineId)
      requires Valid() && pc == Draining(m)
      modifies this, lists
      ensures Valid() && Grown(old(trace), trace) && pc == RunLoop
      ensures lists.Run() == old(lists.Run()) && |machines| == |old(machines)|
      ensures m < |machines| && machines[m].messages == []
    {
      hide Init, Inv, Runs, Cycles, Ok;
      Known();
      while machines[m].messages != []
        invariant Valid() && Grown(old(trace), trace) && pc == Draining(m) && m < |machines| == |old(machines)|
        invariant lists.Run() == old(lists.Run())
        decreases |script|, |machines[m].messages|
      {
        DrainOne(m);
      }
      DrainNext(m);
    }

    method DrainOne(m: MachineId)
      requires Valid() && pc == Draining(m) && m < |machines| && machines[m].messages != []
      modifies this, lists
      ensures Valid() && Grown(old(trace), trace) && pc == Draining(m) && |machines| == |old(machines)|
      ensures lists.Run() == old(lists.Run())
      ensures |script| < |old(script)|
              || (script == old(script) && |machines[m].messages| < |old(machines[m].messages)|)
    {
      hide Init, Inv, Runs, Cycles, Ok;
      DrainNext(m);
      if cfg.hasHandler[m] {
        var ret, left := Callback();
        ReturnFromHandler(m, left);
      }
    }

    /** Evaluates the state rules that are due. */
    method CheckPass()
      requires Valid() && pc.CheckLoop?
      modifies this, lists
      ensures Valid() && Grown(old(trace), trace) && pc == External && lists.Check() == []
    {
      hide Init, Inv, Runs, Cycles, Ok;
      var done := false;
      while !done
        invariant Valid() && Grown(old(trace), trace)
        invariant pc == if done then External else CheckLoop
        invariant done ==> lists.Check() == []
        decreases |lists.Check()|, !done
      {
        done := CheckNext();
      }
    }

    method CheckNext() returns (done: bool)
      requires Valid() && pc.CheckLoop?
      modifies this, lists
      ensures Valid() && Grown(old(trace), trace)
      ensures pc == if done then External else CheckLoop
      ensures if done then lists.Check() == [] else |lists.Check()| < |old(lists.Check())|
    {
      hide Init, Inv, Runs, Cycles, Ok;
      OtherTasks();
      var next := PickNextCheck();
      if next == None {
        return true;
      }
      if cfg.hasCheck[next.value] {
        EvaluateRules(next.value);
      }
      return false;
    }

    method EvaluateRules(m: MachineId)
      requires Valid() && pc == Checking(m, false)
      modifies this, lists
      ensures Valid() && Grown(old(trace), trace) && pc == CheckLoop
      ensures lists.Check() == old(lists.Check())
    {
      hide Init, Inv, Runs, Cycles, Ok;
      var ret := CheckState(m);
      ReturnFromCheck(m, ret);
      if ret {
        NotifyStateChange(m);
      }
    }

    /** Sends the new state to every dependent. */
    method NotifyStateChange(m: MachineId)
      requires Valid() && m < |cfg.depends| && pc == Announcing(m, cfg.depends[m])
      modifies this, lists
      ensures Valid() && Grown(old(trace), trace) && pc == CheckLoop
      ensures lists.Check() == old(lists.Check())
      ensures lists.Pending() == MarkAll(old(lists.Pending()), cfg.depends[m])
    {
      hide Init, Inv, Runs, Cycles, Ok;
      var rest := cfg.depends[m];
      while rest != []
        invariant Valid() && Grown(old(trace), trace) && pc == Announcing(m, rest)
        invariant lists.Check() == old(lists.Check())
        invariant MarkAll(lists.Pending(), rest) == MarkAll(old(lists.Pending()), cfg.depends[m])
        decreases |rest|
      {
        AnnounceNext(m, rest);
        rest := rest[1..];
      }
      AnnounceNext(m, rest);
    }
  }
}
