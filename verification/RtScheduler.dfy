/** Timers: items that mark a machine pending once their time has come. The timer task holds its own
    mutex while it goes through the schedule, and the runtime's mutex only for one mark at a time; the
    other tasks go on between any two of its operations. */
module RtScheduler {
  import opened Basics
  import opened Scheduler
  import opened SchedulerSafety
  import opened SchedulerRuns

  datatype Item = Item(active: bool, triggerTime: u32, machine: Option<MachineId>)

  /** The uptime is counted in 64 bits; the trigger time keeps the low 32 of the sum. */
  function CreateItem(uptime: nat, delay: u32, machine: Option<MachineId>): Item {
    Item(true, (uptime + delay) % 0x1_0000_0000, machine)
  }

  predicate Due(item: Item, now: u32) {
    item.active && item.triggerTime <= now
  }

  /** What a pass leaves on the schedule. */
  function Kept(schedule: seq<Item>, now: u32): seq<Item> {
    if schedule == [] then []
    else (if Due(schedule[0], now) then [] else [schedule[0]]) + Kept(schedule[1..], now)
  }

  /** The machines of the items that are due, in schedule order. */
  function Fired(schedule: seq<Item>, now: u32): seq<MachineId> {
    if schedule == [] then []
    else FiredBy(schedule[0], now) + Fired(schedule[1..], now)
  }

  function FiredBy(item: Item, now: u32): seq<MachineId> {
    if Due(item, now) && item.machine.Some? then [item.machine.value] else []
  }

  function Reversed(ms: seq<MachineId>): seq<MachineId> {
    if ms == [] then [] else Reversed(ms[1..]) + [ms[0]]
  }

  /* ---- the timer task and everybody else ---- */

  /** The runtime, the schedule, and the stack of machines that have fired and are yet to be marked. */
  datatype Timed = Timed(core: State, schedule: seq<Item>, runnable: seq<MachineId>)

  /** The timer task goes through the schedule or marks the machine on top of the stack; other tasks add
      items and use the runtime. */
  datatype TimedStep = Collect(now: u32) | MarkTop | Add(item: Item) | Core(step: Step)

  predicate TimedEnabled(cfg: Config, t: Timed, step: TimedStep) {
    && Typed(cfg, t.core)
    && match step
       case Collect(_) => t.runnable == []
       case MarkTop => t.runnable != [] && t.runnable[0] < |t.core.machines|
       case Add(item) => ItemOk(item, |t.core.machines|)
       case Core(s) => Enabled(t.core, s)
  }

  function TimedApply(cfg: Config, t: Timed, step: TimedStep): Timed
    requires TimedEnabled(cfg, t, step)
  {
    match step
    case Collect(now) => t.(schedule := Kept(t.schedule, now), runnable := Reversed(Fired(t.schedule, now)))
    case MarkTop => t.(core := Mark1(t.core, t.runnable[0]), runnable := t.runnable[1..])
    case Add(item) => t.(schedule := [item] + t.schedule)
    case Core(s) => t.(core := Apply(cfg, t.core, s))
  }

  ghost predicate TimedRuns(cfg: Config, t: Timed, steps: seq<TimedStep>, end: Timed)
    decreases |steps|
  {
    if steps == [] then t == end
    else TimedEnabled(cfg, t, steps[0]) && TimedRuns(cfg, TimedApply(cfg, t, steps[0]), steps[1..], end)
  }

  lemma {:induction false} TimedRunsAppend(cfg: Config, t: Timed, steps: seq<TimedStep>, mid: Timed, step: TimedStep)
    requires TimedRuns(cfg, t, steps, mid) && TimedEnabled(cfg, mid, step)
    ensures TimedRuns(cfg, t, steps + [step], TimedApply(cfg, mid, step))
    decreases |steps|
  {
    if steps == [] {
      assert [step][1..] == [];
    } else {
      assert (steps + [step])[1..] == steps[1..] + [step];
      TimedRunsAppend(cfg, TimedApply(cfg, t, steps[0]), steps[1..], mid, step);
    }
  }

  predicate ItemOk(item: Item, n: nat) {
    item.machine.Some? ==> item.machine.value < n
  }

  /** Every machine that is scheduled or on the stack exists. */
  ghost predicate TimedTyped(cfg: Config, t: Timed) {
    && Typed(cfg, t.core) && Ids(t.runnable, |t.core.machines|)
    && forall i :: 0 <= i < |t.schedule| ==> ItemOk(t.schedule[i], |t.core.machines|)
  }

  class RtScheduler {
    const cfg: Config
    var schedule: seq<Item>
    var runnable: seq<MachineId>
    /** The runtime, which the other tasks share. */
    var core: State

    ghost function Abs(): Timed
      reads this
    {
      Timed(core, schedule, runnable)
    }

    ghost predicate Valid()
      reads this
    {
      Inv(cfg, core) && TimedTyped(cfg, Abs())
    }

    constructor (cfg: Config, core: State)
      requires Inv(cfg, core)
      ensures Valid() && this.cfg == cfg && Abs() == Timed(core, [], [])
    {
      this.cfg := cfg;
      this.core := core;
      schedule, runnable := [], [];
    }

    method Add(item: Item)
      requires Valid() && ItemOk(item, |core.machines|)
      modifies this`schedule
      ensures Valid() && schedule == [item] + old(schedule)
    {
      schedule := [item] + schedule;
    }

    method PushRunnable(m: MachineId)
      modifies this`runnable
      ensures runnable == [m] + old(runnable)
    {
      runnable := [m] + runnable;
    }

    /** One round of the timer task at time `now`: due items leave the schedule and push their machines
        on a stack, under the scheduler's mutex. Then the machines are marked one by one, and before each
        mark the other tasks may do what `others` says. */
    method Pass(now: u32, others: seq<seq<TimedStep>>) returns (ghost steps: seq<TimedStep>)
      requires Valid() && runnable == []
      modifies this
      ensures Valid() && runnable == []
      ensures [TimedStep.Collect(now)] <= steps && TimedRuns(cfg, old(Abs()), steps, Abs())
    {
      ghost var before := Abs();
      CollectDue(now);
      steps := [TimedStep.Collect(now)];
      TimedRunsAppend(cfg, before, [], before, TimedStep.Collect(now));
      var rest := others;
      while runnable != []
        invariant Valid() && [TimedStep.Collect(now)] <= steps && TimedRuns(cfg, before, steps, Abs())
        decreases |runnable|
      {
        if rest != [] {
          steps := OtherTasks(rest[0], before, steps);
          rest := rest[1..];
        }
        TimedRunsAppend(cfg, before, steps, Abs(), MarkTop);
        steps := steps + [MarkTop];
        MarkOne();
      }
    }

    /** `markPending` of the machine on top, which is then taken off the stack. */
    method MarkOne()
      requires Valid() && runnable != []
      modifies this`core, this`runnable
      ensures Valid() && Abs() == TimedApply(cfg, old(Abs()), MarkTop)
    {
      Mark1Inv(cfg, core, runnable[0]);
      core := core.(pending := MarkPending(core.pending, runnable[0]));
      runnable := runnable[1..];
    }

    /** Other tasks perform these steps; what is out of place is skipped. */
    method OtherTasks(script: seq<TimedStep>, ghost from: Timed, ghost past: seq<TimedStep>)
      returns (ghost steps: seq<TimedStep>)
      requires Valid() && TimedRuns(cfg, from, past, Abs())
      modifies this`core, this`schedule
      ensures Valid() && past <= steps && TimedRuns(cfg, from, steps, Abs())
    {
      steps := past;
      for i := 0 to |script|
        invariant Valid() && past <= steps && TimedRuns(cfg, from, steps, Abs())
      {
        if (script[i].Add? || script[i].Core?) && TimedEnabled(cfg, Timed(core, schedule, runnable), script[i]) {
          TimedRunsAppend(cfg, from, steps, Abs(), script[i]);
          steps := steps + [script[i]];
          OneStep(script[i]);
        }
      }
    }

    method OneStep(step: TimedStep)
      requires Valid() && (step.Add? || step.Core?) && TimedEnabled(cfg, Abs(), step)
      modifies this`core, this`schedule
      ensures Valid() && Abs() == TimedApply(cfg, old(Abs()), step)
    {
      match step {
        case Add(item) => Add(item);
        case Core(s) =>
          StepInv(cfg, core, s);
          StepKeepsMachines(cfg, core, s);
          core := Apply(cfg, core, s);
      }
    }

    method CollectDue(now: u32)
      requires Valid() && runnable == []
      modifies this`schedule, this`runnable
      ensures Valid() && Abs() == TimedApply(cfg, old(Abs()), TimedStep.Collect(now))
      ensures forall m :: m in runnable <==>
        exists i :: 0 <= i < |old(schedule)| && old(schedule)[i].active && old(schedule)[i].triggerTime <= now
                    && old(schedule)[i].machine == Some(m)
    {
      var i := 0;
      ghost var all := schedule;
      ghost var seen := 0;
      while i < |schedule|
        invariant 0 <= seen <= |all| && 0 <= i <= |schedule|
        invariant schedule[..i] == Kept(all[..seen], now) && schedule[i..] == all[seen..]
        invariant runnable == Reversed(Fired(all[..seen], now))
        decreases |schedule| - i
      {
        KeptOne(all, seen, now);
        FiredOne(all, seen, now);
        i := Visit(i, now, all[seen..]);
        assert all[seen..][1..] == all[seen + 1..] && all[seen..][0] == all[seen];
        seen := seen + 1;
      }
      assert all[..seen] == all && schedule[..i] == schedule;
      CollectTyped(all, now, |core.machines|);
      forall m
        ensures m in runnable <==>
          exists i :: 0 <= i < |all| && all[i].active && all[i].triggerTime <= now && all[i].machine == Some(m)
      {
        ReversedMember(Fired(all, now), m);
        FiredIffDue(all, now, m);
      }
    }

    /** The loop body: the item at `i` is taken off the schedule if it is due, else stepped over. */
    method Visit(i: nat, now: u32, ghost rest: seq<Item>) returns (i': nat)
      requires i < |schedule| && schedule[i..] == rest
      modifies this`schedule, this`runnable
      ensures rest != [] && i' <= |schedule| && schedule[i'..] == rest[1..]
      ensures schedule[..i'] == old(schedule)[..i] + if Due(rest[0], now) then [] else [rest[0]]
      ensures runnable == FiredBy(rest[0], now) + old(runnable)
      ensures |schedule| - i' < |old(schedule)| - i
    {
      var item := schedule[i];
      assert item == rest[0] && schedule[i + 1..] == rest[1..];
      if item.active && item.triggerTime <= now {
        if item.machine.Some? {
          PushRunnable(item.machine.value);
        }
        schedule := schedule[..i] + schedule[i + 1..];
        return i;
      }
      return i + 1;
    }
  }

  lemma {:induction false} KeptSplits(a: seq<Item>, b: seq<Item>, now: u32)
    ensures Kept(a + b, now) == Kept(a, now) + Kept(b, now)
  {
    if a == [] {
      assert a + b == b;
    } else {
      assert (a + b)[1..] == a[1..] + b;
      KeptSplits(a[1..], b, now);
    }
  }

  lemma {:induction false} FiredSplits(a: seq<Item>, b: seq<Item>, now: u32)
    ensures Fired(a + b, now) == Fired(a, now) + Fired(b, now)
  {
    if a == [] {
      assert a + b == b;
    } else {
      assert (a + b)[1..] == a[1..] + b;
      FiredSplits(a[1..], b, now);
    }
  }

  lemma {:induction false} ReversedSplits(a: seq<MachineId>, b: seq<MachineId>)
    ensures Reversed(a + b) == Reversed(b) + Reversed(a)
  {
    if a == [] {
      assert a + b == b;
    } else {
      assert (a + b)[1..] == a[1..] + b;
      ReversedSplits(a[1..], b);
    }
  }

  lemma KeptOne(all: seq<Item>, seen: nat, now: u32)
    requires seen < |all|
    ensures Kept(all[..seen + 1], now) == Kept(all[..seen], now) + (if Due(all[seen], now) then [] else [all[seen]])
  {
    assert all[..seen + 1] == all[..seen] + [all[seen]];
    KeptSplits(all[..seen], [all[seen]], now);
  }

  lemma FiredOne(all: seq<Item>, seen: nat, now: u32)
    requires seen < |all|
    ensures Reversed(Fired(all[..seen + 1], now)) == FiredBy(all[seen], now) + Reversed(Fired(all[..seen], now))
  {
    assert all[..seen + 1] == all[..seen] + [all[seen]];
    FiredSplits(all[..seen], [all[seen]], now);
    ReversedSplits(Fired(all[..seen], now), FiredBy(all[seen], now));
    FiredSingle(all[seen], now);
    assert Reversed(FiredBy(all[seen], now)) == FiredBy(all[seen], now);
  }

  lemma {:induction false} CollectTyped(schedule: seq<Item>, now: u32, n: nat)
    requires forall i :: 0 <= i < |schedule| ==> ItemOk(schedule[i], n)
    ensures Ids(Reversed(Fired(schedule, now)), n)
    ensures forall i :: 0 <= i < |Kept(schedule, now)| ==> ItemOk(Kept(schedule, now)[i], n)
  {
    if schedule != [] {
      assert ItemOk(schedule[0], n);
      CollectTyped(schedule[1..], now, n);
      ReversedSplits(FiredBy(schedule[0], now), Fired(schedule[1..], now));
    }
  }

  /* ---- what a pass does ---- */

  /** A pass leaves exactly the items that are not due, in their order. */
  lemma {:induction false} KeptAreNotDue(schedule: seq<Item>, now: u32)
    ensures IsSelection(Kept(schedule, now), schedule,
                        seq(|schedule|, i requires 0 <= i < |schedule| =>
                          !(schedule[i].active && schedule[i].triggerTime <= now)))
  {
    var kept := seq(|schedule|, i requires 0 <= i < |schedule| =>
      !(schedule[i].active && schedule[i].triggerTime <= now));
    if schedule == [] {
      NothingSelected<Item>();
      assert kept == [];
    } else {
      var rest := schedule[1..];
      var keptRest := seq(|rest|, i requires 0 <= i < |rest| => !(rest[i].active && rest[i].triggerTime <= now));
      KeptAreNotDue(rest, now);
      assert [schedule[0]] + rest == schedule && [kept[0]] + keptRest == kept;
      hide IsSelection;
      if kept[0] {
        SelectionTakes(Kept(rest, now), rest, keptRest, schedule[0]);
      } else {
        SelectionSkips(Kept(rest, now), rest, keptRest, schedule[0]);
        assert [] + Kept(rest, now) == Kept(rest, now);
      }
    }
  }

  /** The machine of every item that is due fires, in the order of the items, and no other: an item that
      is not due, or has no machine, fires nothing. */
  lemma {:induction false} OnlyDueFire(schedule: seq<Item>, now: u32)
    ensures IsSelection(Somes(Fired(schedule, now)),
                        seq(|schedule|, i requires 0 <= i < |schedule| => schedule[i].machine),
                        seq(|schedule|, i requires 0 <= i < |schedule| =>
                          schedule[i].active && schedule[i].triggerTime <= now && schedule[i].machine.Some?))
  {
    var machines := seq(|schedule|, i requires 0 <= i < |schedule| => schedule[i].machine);
    var fires := seq(|schedule|, i requires 0 <= i < |schedule| =>
      schedule[i].active && schedule[i].triggerTime <= now && schedule[i].machine.Some?);
    if schedule == [] {
      NothingSelected<Option<MachineId>>();
      assert machines == [] && fires == [] && Somes(Fired(schedule, now)) == [];
    } else {
      var rest := schedule[1..];
      var machinesRest := seq(|rest|, i requires 0 <= i < |rest| => rest[i].machine);
      var firesRest := seq(|rest|, i requires 0 <= i < |rest| =>
        rest[i].active && rest[i].triggerTime <= now && rest[i].machine.Some?);
      assert [machines[0]] + machinesRest == machines && [fires[0]] + firesRest == fires;
      FiredFirst(schedule, now);
      hide IsSelection, Somes, Fired;
      OnlyDueFire(rest, now);
      if fires[0] {
        SelectionTakes(Somes(Fired(rest, now)), machinesRest, firesRest, machines[0]);
      } else {
        SelectionSkips(Somes(Fired(rest, now)), machinesRest, firesRest, machines[0]);
      }
    }
  }

  lemma FiredFirst(schedule: seq<Item>, now: u32)
    requires schedule != []
    ensures var fires := schedule[0].active && schedule[0].triggerTime <= now && schedule[0].machine.Some?;
      var rest := Somes(Fired(schedule[1..], now));
      Somes(Fired(schedule, now)) == if fires then [schedule[0].machine] + rest else rest
  {
    var rest := Fired(schedule[1..], now);
    if schedule[0].active && schedule[0].triggerTime <= now && schedule[0].machine.Some? {
      assert Fired(schedule, now) == [schedule[0].machine.value] + rest;
      hide Fired;
      SomesFront(schedule[0].machine.value, rest);
    } else {
      assert Fired(schedule, now) == [] + rest == rest;
    }
  }

  lemma SomesFront(m: MachineId, rest: seq<MachineId>)
    ensures Somes([m] + rest) == [Some(m)] + Somes(rest)
  {
  }

  ghost function Somes(ms: seq<MachineId>): seq<Option<MachineId>> {
    seq(|ms|, i requires 0 <= i < |ms| => Some(ms[i]))
  }

  /** The items for machine `m` that are due, by position. */
  ghost function ItemsDue(schedule: seq<Item>, now: u32, m: MachineId): set<nat> {
    set i | 0 <= i < |schedule|
            && schedule[i].active && schedule[i].triggerTime <= now && schedule[i].machine == Some(m)
  }

  lemma ItemsDueLast(front: seq<Item>, last: Item, now: u32, m: MachineId)
    ensures |ItemsDue(front + [last], now, m)| == |ItemsDue(front, now, m)|
            + if last.active && last.triggerTime <= now && last.machine == Some(m) then 1 else 0
  {
    var due := last.active && last.triggerTime <= now && last.machine == Some(m);
    assert ItemsDue(front + [last], now, m) == ItemsDue(front, now, m) + if due then {|front|} else {};
  }

  lemma FiredLast(front: seq<Item>, last: Item, now: u32, m: MachineId)
    ensures multiset(Fired(front + [last], now))[m] == multiset(Fired(front, now))[m]
            + if last.active && last.triggerTime <= now && last.machine == Some(m) then 1 else 0
  {
    FiredSplits(front, [last], now);
    FiredSingle(last, now);
    hide Fired;
    MultisetOfConcat(Fired(front, now), FiredBy(last, now), m);
  }

  lemma MultisetOfConcat(a: seq<MachineId>, b: seq<MachineId>, m: MachineId)
    ensures multiset(a + b)[m] == multiset(a)[m] + multiset(b)[m]
  {
  }

  lemma FiredSingle(item: Item, now: u32)
    ensures Fired([item], now) == FiredBy(item, now)
  {
    assert [item][1..] == [];
    assert Fired([item], now) == FiredBy(item, now) + Fired([], now) == FiredBy(item, now);
  }

  /** As often as there are items due for it, so often a machine fires. */
  lemma {:induction false} FiredAsOftenAsDue(schedule: seq<Item>, now: u32, m: MachineId)
    ensures multiset(Fired(schedule, now))[m] == |ItemsDue(schedule, now, m)|
    decreases |schedule|
  {
    if schedule == [] {
      assert ItemsDue(schedule, now, m) == {};
    } else {
      hide Fired, ItemsDue;
      var n := |schedule| - 1;
      FiredAsOftenAsDue(schedule[..n], now, m);
      assert schedule == schedule[..n] + [schedule[n]];
      FiredLast(schedule[..n], schedule[n], now, m);
      ItemsDueLast(schedule[..n], schedule[n], now, m);
    }
  }

  lemma FiredIffDue(schedule: seq<Item>, now: u32, m: MachineId)
    ensures m in Fired(schedule, now) <==>
      exists i :: 0 <= i < |schedule|
             && schedule[i].active && schedule[i].triggerTime <= now && schedule[i].machine == Some(m)
  {
    FiredAsOftenAsDue(schedule, now, m);
    hide Fired;
    var due := ItemsDue(schedule, now, m);
    if m in Fired(schedule, now) {
      assert multiset(Fired(schedule, now))[m] > 0;
      assert due != {};
      var i :| i in due;
    }
    if i :| 0 <= i < |schedule|
            && schedule[i].active && schedule[i].triggerTime <= now && schedule[i].machine == Some(m) {
      assert i in due;
      assert multiset(Fired(schedule, now))[m] > 0;
    }
  }

  lemma {:induction false} ReversedMember(ms: seq<MachineId>, m: MachineId)
    ensures m in Reversed(ms) <==> m in ms
  {
    if ms != [] {
      ReversedMember(ms[1..], m);
      assert ms == [ms[0]] + ms[1..];
    }
  }

  /* ---- time ---- */

  /** At uptime `t` the clock reads `t` in 32 bits; the item is due from its delay on and not before. */
  ghost predicate Punctual(uptime: nat, delay: u32, machine: Option<MachineId>) {
    forall t: u32 :: t >= uptime ==> (Due(CreateItem(uptime, delay, machine), t) <==> t >= uptime + delay)
  }

  /** Within the first 2^32 milliseconds, an item keeps its time exactly when its trigger time does too. */
  lemma PunctualIffNoWrap(uptime: u32, delay: u32, machine: Option<MachineId>)
    ensures Punctual(uptime, delay, machine) <==> uptime + delay < 0x1_0000_0000
  {
    if uptime + delay >= 0x1_0000_0000 {
      var t: u32 := uptime;
      assert CreateItem(uptime, delay, machine).triggerTime == uptime + delay - 0x1_0000_0000;
      assert Due(CreateItem(uptime, delay, machine), t) && !(t >= uptime + delay);
    }
  }
}
