/** The work lists of the runtime as they are in memory: singly linked cells that are allocated when a
    machine is queued and freed one pop late. Memory is explicit, so every access below is proved to
    hit a cell that is allocated and not yet freed. */
module TaskLists {
  import opened Basics
  import opened Scheduler

  type Address = nat

  const NULL: Address := 0

  datatype Cell = Cell(next: Address, machine: MachineId)

  type Memory = map<Address, Cell>

  /** Following `next` from `head` visits exactly `nodes`, no cell twice, and then `end`. */
  ghost predicate Chain(memory: Memory, head: Address, nodes: seq<Address>, end: Address)
    decreases |nodes|
  {
    if nodes == [] then head == end
    else head == nodes[0] && head != NULL && head in memory && head !in nodes[1..]
         && Chain(memory, memory[head].next, nodes[1..], end)
  }

  lemma {:induction false} ChainFrame(memory: Memory, after: Memory, head: Address, nodes: seq<Address>, end: Address)
    requires Chain(memory, head, nodes, end)
    requires forall a :: a in nodes && a in memory ==> a in after && after[a] == memory[a]
    ensures Chain(after, head, nodes, end)
    decreases |nodes|
  {
    if nodes != [] {
      ChainFrame(memory, after, memory[head].next, nodes[1..], end);
    }
  }

  lemma {:induction false} ChainGrows(memory: Memory, head: Address, nodes: seq<Address>, end: Address)
    requires Chain(memory, head, nodes, end)
    requires end != NULL && end in memory && end !in nodes
    ensures Chain(memory, head, nodes + [end], memory[end].next)
    decreases |nodes|
  {
    if nodes == [] {
      assert [end][1..] == [];
    } else {
      assert (nodes + [end])[1..] == nodes[1..] + [end];
      ChainGrows(memory, memory[head].next, nodes[1..], end);
    }
  }

  ghost predicate Live(memory: Memory, nodes: seq<Address>) {
    forall i :: 0 <= i < |nodes| ==> nodes[i] in memory
  }

  /** The machines a list names, head first. */
  ghost function Machines(memory: Memory, nodes: seq<Address>): (ms: seq<MachineId>)
    requires Live(memory, nodes)
    ensures |ms| == |nodes|
  {
    seq(|nodes|, i requires 0 <= i < |nodes| => memory[nodes[i]].machine)
  }

  /** What a cell is for. Being a function, it puts every allocated cell in exactly one place. */
  datatype Place = InPending | InRun | InCheck | InClear | Popped

  ghost predicate Holds(nodes: seq<Address>, place: map<Address, Place>, p: Place) {
    && (forall a :: a in nodes ==> a in place && place[a] == p)
    && (forall a :: a in place && place[a] == p ==> a in nodes)
  }

  /** A list as its head pointer and the cells on it. */
  datatype List = List(head: Address, nodes: seq<Address>)

  /** The whole of the runtime's list memory at one moment. */
  datatype Snapshot = Snapshot(
    memory: Memory, place: map<Address, Place>, pending: List, run: List, check: List, clear: List)

  ghost function Get(s: Snapshot, p: Place): List {
    match p
    case InPending => s.pending
    case InRun => s.run
    case InCheck => s.check
    case InClear => s.clear
    case Popped => List(NULL, [])
  }

  ghost function Put(s: Snapshot, p: Place, list: List): Snapshot
    requires p != Popped
  {
    match p
    case InPending => s.(pending := list)
    case InRun => s.(run := list)
    case InCheck => s.(check := list)
    case InClear => s.(clear := list)
  }

  ghost predicate ListOk(memory: Memory, place: map<Address, Place>, list: List, p: Place) {
    Holds(list.nodes, place, p) && Live(memory, list.nodes) && Chain(memory, list.head, list.nodes, NULL)
  }

  /** Each list is acyclic, every allocated cell is where its place says, and nothing else is allocated. */
  ghost predicate Ok(s: Snapshot) {
    && s.place.Keys == s.memory.Keys && NULL !in s.memory
    && (forall p :: p != Popped ==> ListOk(s.memory, s.place, Get(s, p), p))
  }

  ghost function On(s: Snapshot, p: Place): seq<MachineId>
    requires Ok(s) && p != Popped
  {
    assert ListOk(s.memory, s.place, Get(s, p), p);
    Machines(s.memory, Get(s, p).nodes)
  }

  /** Nothing outside `p` (and the cells in transit) differs. */
  ghost predicate OnlyChanged(s: Snapshot, p: Place, memory: Memory, place: map<Address, Place>) {
    && (forall a :: a in s.place && s.place[a] != p && s.place[a] != Popped ==>
          a in place && place[a] == s.place[a] && a in memory && a in s.memory && memory[a] == s.memory[a])
    && (forall a :: a in place && place[a] != p && place[a] != Popped ==> a in s.place && s.place[a] == place[a])
  }

  lemma ListFrame(s: Snapshot, p: Place, memory: Memory, place: map<Address, Place>, q: Place)
    requires Ok(s) && OnlyChanged(s, p, memory, place)
    requires q != p && q != Popped
    ensures ListOk(memory, place, Get(s, q), q)
    ensures Machines(memory, Get(s, q).nodes) == On(s, q)
  {
    var list := Get(s, q);
    assert ListOk(s.memory, s.place, list, q);
    ChainFrame(s.memory, memory, list.head, list.nodes, NULL);
    forall i | 0 <= i < |list.nodes|
      ensures list.nodes[i] in memory && memory[list.nodes[i]] == s.memory[list.nodes[i]]
    {
      assert list.nodes[i] in list.nodes;
    }
  }

  /** An operation that leaves list `p` in order and writes no cell of another list leaves all in order. */
  lemma OneListChanged(s: Snapshot, p: Place, memory: Memory, place: map<Address, Place>, list: List)
    requires Ok(s) && p != Popped
    requires OnlyChanged(s, p, memory, place)
    requires ListOk(memory, place, list, p) && place.Keys == memory.Keys && NULL !in memory
    ensures var s' := Put(s.(memory := memory, place := place), p, list);
      && Ok(s')
      && On(s', p) == Machines(memory, list.nodes)
      && forall q :: q != p && q != Popped ==> On(s', q) == On(s, q)
  {
    hide OnlyChanged, Holds, Chain;
    var s' := Put(s.(memory := memory, place := place), p, list);
    forall q | q != Popped
      ensures ListOk(s'.memory, s'.place, Get(s', q), q)
      ensures q != p ==> Machines(memory, Get(s, q).nodes) == On(s, q)
    {
      if q != p {
        ListFrame(s, p, memory, place, q);
      }
    }
  }

  /** Only `t` may be in transit. */
  ghost predicate OnlyInTransit(s: Snapshot, t: Address) {
    forall a :: a in s.place && s.place[a] == Popped ==> a == t
  }

  /** With no cell in transit, the allocated cells are those on the four lists, each on one list only. */
  lemma CellsAreConserved(s: Snapshot, a: Address)
    requires Ok(s) && forall b :: b in s.place ==> s.place[b] != Popped
    ensures a in s.memory <==> exists p :: p != Popped && a in Get(s, p).nodes
    ensures forall p, q :: p != Popped && q != Popped && a in Get(s, p).nodes && a in Get(s, q).nodes ==> p == q
  {
    forall p | p != Popped
      ensures a in Get(s, p).nodes <==> a in s.place && s.place[a] == p
    {
      assert ListOk(s.memory, s.place, Get(s, p), p);
    }
    if a in s.memory {
      assert a in Get(s, s.place[a]).nodes;
    }
  }

  /* ---- the list operations ---- */

  ghost function Push(s: Snapshot, p: Place, a: Address, m: MachineId): Snapshot
    requires p != Popped
  {
    Put(s.(memory := s.memory[a := Cell(Get(s, p).head, m)], place := s.place[a := p]), p,
        List(a, [a] + Get(s, p).nodes))
  }

  /** Moving one cell to list `p`, or from it into transit, concerns no other list. */
  lemma CellMoves(s: Snapshot, p: Place, a: Address, to: Place, memory: Memory)
    requires to == p || to == Popped
    requires a in s.place ==> s.place[a] == p || s.place[a] == Popped
    requires forall b :: b in s.place && s.place[b] != p && s.place[b] != Popped ==>
      b in s.memory && b in memory && memory[b] == s.memory[b]
    ensures OnlyChanged(s, p, memory, s.place[a := to])
  {
  }

  lemma FrontHolds(nodes: seq<Address>, place: map<Address, Place>, p: Place, a: Address)
    requires Holds(nodes, place, p)
    ensures Holds([a] + nodes, place[a := p], p)
    ensures Holds(nodes + [a], place[a := p], p)
  {
  }

  lemma HeadLeaves(nodes: seq<Address>, place: map<Address, Place>, p: Place)
    requires Holds(nodes, place, p) && p != Popped && nodes != [] && nodes[0] !in nodes[1..]
    ensures Holds(nodes[1..], place[nodes[0] := Popped], p)
  {
    assert nodes == [nodes[0]] + nodes[1..];
  }

  lemma HeadIsFirst(memory: Memory, list: List)
    requires Live(memory, list.nodes) && Chain(memory, list.head, list.nodes, NULL) && list.nodes != []
    ensures list.head == list.nodes[0] && list.head in memory && list.head !in list.nodes[1..]
    ensures Live(memory, list.nodes[1..]) && Chain(memory, memory[list.head].next, list.nodes[1..], NULL)
    ensures Machines(memory, list.nodes[1..]) == Machines(memory, list.nodes)[1..]
    ensures memory[list.head].machine == Machines(memory, list.nodes)[0]
  {
  }

  lemma Elsewhere(s: Snapshot, p: Place)
    requires Ok(s)
    ensures forall b :: b in s.place && s.place[b] != p && s.place[b] != Popped ==> b in s.memory
  {
  }

  lemma FrontChain(memory: Memory, list: List, a: Address, cell: Cell)
    requires Live(memory, list.nodes) && Chain(memory, list.head, list.nodes, NULL)
    requires a != NULL && a !in list.nodes && cell.next == list.head
    ensures Chain(memory[a := cell], a, [a] + list.nodes, NULL) && Live(memory[a := cell], [a] + list.nodes)
    ensures Machines(memory[a := cell], [a] + list.nodes) == [cell.machine] + Machines(memory, list.nodes)
  {
    ChainFrame(memory, memory[a := cell], list.head, list.nodes, NULL);
    assert ([a] + list.nodes)[1..] == list.nodes;
    forall i | 0 <= i < |list.nodes|
      ensures list.nodes[i] != a
    {
      assert list.nodes[i] in list.nodes;
    }
  }

  /** A cell that is new or in transit is on no list. */
  lemma NotOn(s: Snapshot, p: Place, a: Address)
    requires Ok(s) && p != Popped && (a in s.place ==> s.place[a] == Popped)
    ensures a !in Get(s, p).nodes
  {
    assert ListOk(s.memory, s.place, Get(s, p), p);
  }

  lemma PushOk(s: Snapshot, p: Place, a: Address, m: MachineId)
    requires Ok(s) && p != Popped && a != NULL && a !in s.memory
    ensures Ok(Push(s, p, a, m)) && On(Push(s, p, a, m), p) == [m] + On(s, p)
    ensures forall q :: q != p && q != Popped ==> On(Push(s, p, a, m), q) == On(s, q)
  {
    var list := Get(s, p);
    assert ListOk(s.memory, s.place, list, p);
    var memory := s.memory[a := Cell(list.head, m)];
    hide Holds, Chain, Machines, OnlyChanged, Live;
    NotOn(s, p, a);
    FrontChain(s.memory, list, a, Cell(list.head, m));
    FrontHolds(list.nodes, s.place, p, a);
    Elsewhere(s, p);
    CellMoves(s, p, a, p, memory);
    OneListChanged(s, p, memory, s.place[a := p], List(a, [a] + list.nodes));
  }

  ghost function Unlink(s: Snapshot, p: Place): Snapshot
    requires Ok(s) && p != Popped && Get(s, p).nodes != []
  {
    assert ListOk(s.memory, s.place, Get(s, p), p);
    var list := Get(s, p);
    Put(s.(place := s.place[list.head := Popped]), p, List(s.memory[list.head].next, list.nodes[1..]))
  }

  lemma UnlinkOk(s: Snapshot, p: Place)
    requires Ok(s) && p != Popped && Get(s, p).nodes != []
    ensures Get(s, p).head in s.memory
    ensures Ok(Unlink(s, p)) && On(Unlink(s, p), p) == On(s, p)[1..]
    ensures s.memory[Get(s, p).head].machine == On(s, p)[0]
    ensures forall q :: q != p && q != Popped ==> On(Unlink(s, p), q) == On(s, q)
  {
    var list := Get(s, p);
    assert ListOk(s.memory, s.place, list, p);
    HeadIsFirst(s.memory, list);
    assert list.head in list.nodes;
    assert s.place[list.head] == p;
    hide Holds, Chain, Machines, OnlyChanged, Live;
    HeadLeaves(list.nodes, s.place, p);
    Elsewhere(s, p);
    CellMoves(s, p, list.head, Popped, s.memory);
    OneListChanged(s, p, s.memory, s.place[list.head := Popped], List(s.memory[list.head].next, list.nodes[1..]));
  }

  ghost function FreePopped(s: Snapshot, a: Address): Snapshot {
    s.(memory := s.memory - {a}, place := s.place - {a})
  }

  lemma FreeOk(s: Snapshot, a: Address)
    requires Ok(s) && a in s.place && s.place[a] == Popped
    ensures Ok(FreePopped(s, a))
    ensures forall q :: q != Popped ==> On(FreePopped(s, a), q) == On(s, q)
  {
    var s' := FreePopped(s, a);
    forall q | q != Popped
      ensures ListOk(s'.memory, s'.place, Get(s', q), q)
      ensures Machines(s'.memory, Get(s', q).nodes) == On(s, q)
    {
      ListFrame(s, Popped, s.memory - {a}, s.place - {a}, q);
    }
  }

  ghost function FreeHead(s: Snapshot, p: Place): Snapshot
    requires Ok(s) && p != Popped && Get(s, p).nodes != []
  {
    FreePopped(Unlink(s, p), Get(s, p).head)
  }

  lemma FreeHeadOk(s: Snapshot, p: Place)
    requires Ok(s) && p != Popped && Get(s, p).nodes != []
    ensures Get(s, p).head in s.memory
    ensures Ok(FreeHead(s, p)) && On(FreeHead(s, p), p) == On(s, p)[1..]
    ensures forall q :: q != p && q != Popped ==> On(FreeHead(s, p), q) == On(s, q)
    ensures FreeHead(s, p).memory == s.memory - {Get(s, p).head}
    ensures FreeHead(s, p).place == s.place - {Get(s, p).head}
    ensures s.place[Get(s, p).head] == p
  {
    assert ListOk(s.memory, s.place, Get(s, p), p);
    assert Get(s, p).head in s.place && s.place[Get(s, p).head] == p;
    hide Ok, ListOk, On;
    UnlinkOk(s, p);
    FreeOk(Unlink(s, p), Get(s, p).head);
  }

  ghost function Relink(s: Snapshot, p: Place, a: Address): Snapshot
    requires p != Popped && a in s.memory
  {
    Put(s.(memory := s.memory[a := s.memory[a].(next := Get(s, p).head)], place := s.place[a := p]), p,
        List(a, [a] + Get(s, p).nodes))
  }

  /** A popped cell joins another list. */
  lemma RelinkOk(s: Snapshot, p: Place, a: Address)
    requires Ok(s) && p != Popped && a in s.place && s.place[a] == Popped
    ensures a in s.memory && Ok(Relink(s, p, a))
    ensures forall q :: q != p && q != Popped ==> On(Relink(s, p, a), q) == On(s, q)
  {
    var list := Get(s, p);
    assert ListOk(s.memory, s.place, list, p);
    var memory := s.memory[a := s.memory[a].(next := list.head)];
    hide Holds, Chain, Machines, OnlyChanged, Live;
    NotOn(s, p, a);
    FrontChain(s.memory, list, a, s.memory[a].(next := list.head));
    FrontHolds(list.nodes, s.place, p, a);
    Elsewhere(s, p);
    CellMoves(s, p, a, p, memory);
    OneListChanged(s, p, memory, s.place[a := p], List(a, [a] + list.nodes));
  }

  ghost function Append(s: Snapshot, p: Place, last: Address, a: Address, m: MachineId): Snapshot
    requires p != Popped && last in s.memory
  {
    Put(s.(memory := s.memory[a := Cell(NULL, m)][last := s.memory[last].(next := a)], place := s.place[a := p]), p,
        List(Get(s, p).head, Get(s, p).nodes + [a]))
  }

  ghost predicate IsLast(s: Snapshot, list: List, last: Address) {
    && list.nodes != [] && last == list.nodes[|list.nodes| - 1] && last !in list.nodes[..|list.nodes| - 1]
    && Chain(s.memory, list.head, list.nodes[..|list.nodes| - 1], last)
  }

  lemma AppendOk(s: Snapshot, p: Place, last: Address, a: Address, m: MachineId)
    requires Ok(s) && p != Popped && a != NULL && a !in s.memory
    requires IsLast(s, Get(s, p), last)
    ensures last in s.memory && Ok(Append(s, p, last, a, m))
    ensures On(Append(s, p, last, a, m), p) == On(s, p) + [m]
    ensures forall q :: q != p && q != Popped ==> On(Append(s, p, last, a, m), q) == On(s, q)
  {
    var list := Get(s, p);
    assert ListOk(s.memory, s.place, list, p);
    assert last in list.nodes && s.place[last] == p;
    var memory := s.memory[a := Cell(NULL, m)][last := s.memory[last].(next := a)];
    hide Holds, Chain, Machines, Live;
    AppendChain(s, list, last, a, m, memory);
    NewAtEnd(s, p, last, a, memory);
  }

  /** A new cell `a` at the end of the list, reached from `last`. */
  lemma NewAtEnd(s: Snapshot, p: Place, last: Address, a: Address, memory: Memory)
    requires Ok(s) && p != Popped && a != NULL && a !in s.memory && last in s.place && s.place[last] == p
    requires memory.Keys == s.memory.Keys + {a}
    requires forall b :: b in s.memory && b != last ==> b in memory && memory[b] == s.memory[b]
    requires Live(memory, Get(s, p).nodes + [a]) && Chain(memory, Get(s, p).head, Get(s, p).nodes + [a], NULL)
    ensures var s' := Put(s.(memory := memory, place := s.place[a := p]), p,
                          List(Get(s, p).head, Get(s, p).nodes + [a]));
      && Ok(s')
      && On(s', p) == Machines(memory, Get(s, p).nodes + [a])
      && forall q :: q != p && q != Popped ==> On(s', q) == On(s, q)
  {
    hide Holds, Chain, Machines, OnlyChanged, Live;
    var list := Get(s, p);
    assert ListOk(s.memory, s.place, list, p);
    NotOn(s, p, a);
    FrontHolds(list.nodes, s.place, p, a);
    Elsewhere(s, p);
    CellMoves(s, p, a, p, memory);
    OneListChanged(s, p, memory, s.place[a := p], List(list.head, list.nodes + [a]));
  }

  lemma AppendChain(s: Snapshot, list: List, last: Address, a: Address, m: MachineId, memory: Memory)
    requires IsLast(s, list, last) && Live(s.memory, list.nodes) && last in s.memory && NULL !in s.memory
    requires a != NULL && a !in s.memory
    requires memory == s.memory[a := Cell(NULL, m)][last := s.memory[last].(next := a)]
    ensures Chain(memory, list.head, list.nodes + [a], NULL) && Live(memory, list.nodes + [a])
    ensures Machines(memory, list.nodes + [a]) == Machines(s.memory, list.nodes) + [m]
  {
    var front := list.nodes[..|list.nodes| - 1];
    ChainFrame(s.memory, memory, list.head, front, last);
    ChainGrows(memory, list.head, front, last);
    assert front + [last] == list.nodes;
    ChainGrows(memory, list.head, list.nodes, a);
  }

  ghost function Largest(keys: set<Address>): (m: Address)
    ensures forall a :: a in keys ==> a <= m
  {
    if keys == {} then 0
    else
      var a :| a in keys;
      var rest := Largest(keys - {a});
      assert forall b :: b in keys ==> b == a || b in keys - {a};
      if a > rest then a else rest
  }

  class Lists {
    var memory: Memory
    var pendingTasks: Address
    var runList: Address
    var stateCheckList: Address
    var toClear: Address
    var currentTask: Address

    ghost var snapshot: Snapshot

    /** The ghost snapshot is what is really there. */
    ghost predicate Linked()
      reads this
    {
      && Ok(snapshot)
      && snapshot.memory == memory
      && snapshot.pending.head == pendingTasks && snapshot.run.head == runList
      && snapshot.check.head == stateCheckList && snapshot.clear.head == toClear
    }

    /** Between operations no cell is in transit, and at most one waits to be freed. */
    ghost predicate Valid()
      reads this
    {
      && Linked() && |snapshot.clear.nodes| <= 1
      && forall a :: a in snapshot.place ==> snapshot.place[a] != Popped
    }

    ghost function Pending(): seq<MachineId>
      reads this
      requires Linked()
    {
      On(snapshot, InPending)
    }

    ghost function Run(): seq<MachineId>
      reads this
      requires Linked()
    {
      On(snapshot, InRun)
    }

    ghost function Check(): seq<MachineId>
      reads this
      requires Linked()
    {
      On(snapshot, InCheck)
    }

    constructor ()
      ensures Valid() && Pending() == Run() == Check() == [] && memory == map[]
    {
      memory := map[];
      pendingTasks, runList, stateCheckList, toClear, currentTask := NULL, NULL, NULL, NULL, NULL;
      snapshot := Snapshot(map[], map[], List(NULL, []), List(NULL, []), List(NULL, []), List(NULL, []));
    }

    method Malloc(cell: Cell) returns (a: Address)
      modifies `memory
      ensures a != NULL && a !in old(memory) && memory == old(memory)[a := cell]
    {
      assert Largest(memory.Keys) + 1 !in memory.Keys;
      a :| a != NULL && a !in memory;
      memory := memory[a := cell];
    }

    method Free(a: Address)
      requires a in memory
      modifies `memory
      ensures memory == old(memory) - {a}
    {
      memory := memory - {a};
    }

    /** Searches a list for a machine; `last` is its last cell when the machine is not there. */
    method Find(head: Address, m: MachineId, ghost list: seq<Address>) returns (found: bool, last: Address)
      requires Live(memory, list) && Chain(memory, head, list, NULL) && NULL !in memory
      ensures found <==> m in Machines(memory, list)
      ensures !found ==> (list == [] <==> last == NULL)
      ensures !found && list != [] ==>
                && last == list[|list| - 1] && last !in list[..|list| - 1]
                && Chain(memory, head, list[..|list| - 1], last)
    {
      var t := head;
      last := NULL;
      ghost var i := 0;
      while t != NULL
        invariant 0 <= i <= |list| && Chain(memory, head, list[..i], t) && Chain(memory, t, list[i..], NULL)
        invariant forall k :: 0 <= k < i ==> memory[list[k]].machine != m
        invariant forall k :: 0 <= k < i ==> list[k] !in list[i..]
        invariant i == 0 <==> last == NULL
        invariant i > 0 ==> last == list[i - 1] && last !in list[..i - 1] && Chain(memory, head, list[..i - 1], last)
        decreases |list| - i
      {
        assert t == list[i..][0] == list[i] && list[i..][1..] == list[i + 1..];
        if memory[t].machine == m {
          assert Machines(memory, list)[i] == m;
          return true, last;
        }
        ChainGrows(memory, head, list[..i], t);
        assert list[..i] + [t] == list[..i + 1];
        last := t;
        t := memory[t].next;
        i := i + 1;
      }
      assert list[..i] == list;
      return false, last;
    }

    method MarkPending(m: MachineId)
      requires Valid()
      modifies this
      ensures Valid()
      ensures Pending() == Scheduler.MarkPending(old(Pending()), m)
      ensures Run() == old(Run()) && Check() == old(Check()) && snapshot.clear == old(snapshot.clear)
    {
      hide Holds;
      assert ListOk(memory, snapshot.place, Get(snapshot, InPending), InPending);
      var found, last := Find(pendingTasks, m, snapshot.pending.nodes);
      if !found {
        var t := Malloc(Cell(pendingTasks, m));
        PushOk(snapshot, InPending, t, m);
        pendingTasks := t;
        snapshot := Push(snapshot, InPending, t, m);
      }
    }

    method MarkRunnable(m: MachineId)
      requires Valid()
      modifies this
      ensures Valid()
      ensures Run() == Scheduler.MarkRunnable(old(Run()), m)
      ensures Pending() == old(Pending()) && Check() == old(Check())
      ensures pendingTasks == old(pendingTasks) && snapshot.pending == old(snapshot.pending)
      ensures snapshot.clear == old(snapshot.clear)
    {
      hide Holds;
      assert ListOk(memory, snapshot.place, Get(snapshot, InRun), InRun);
      var found, last := Find(runList, m, snapshot.run.nodes);
      if !found {
        if last != NULL {
          LinkAtEnd(last, m);
        } else {
          var t := Malloc(Cell(runList, m));
          PushOk(snapshot, InRun, t, m);
          runList := t;
          snapshot := Push(snapshot, InRun, t, m);
        }
      }
    }

    lemma RunHead()
      requires Linked()
      ensures runList == NULL <==> Run() == []
    {
      assert ListOk(memory, snapshot.place, Get(snapshot, InRun), InRun);
    }

    method LinkAtEnd(last: Address, m: MachineId)
      requires Valid() && IsLast(snapshot, snapshot.run, last)
      modifies this
      ensures Valid()
      ensures Run() == old(Run()) + [m]
      ensures Pending() == old(Pending()) && Check() == old(Check())
      ensures pendingTasks == old(pendingTasks) && snapshot.pending == old(snapshot.pending)
      ensures snapshot.clear == old(snapshot.clear)
    {
      hide Holds, Live;
      var t := Malloc(Cell(NULL, m));
      AppendOk(snapshot, InRun, last, t, m);
      memory := memory[last := memory[last].(next := t)];
      snapshot := Append(snapshot, InRun, last, t, m);
    }

    method ActivatePending()
      requires Valid()
      modifies this
      ensures Valid()
      ensures Pending() == [] && Run() == ActivateAll(old(Run()), old(Pending()))
      ensures Check() == old(Check()) && snapshot.clear == old(snapshot.clear)
    {
      while pendingTasks != NULL
        invariant Valid()
        invariant Check() == old(Check()) && snapshot.clear == old(snapshot.clear)
        invariant ActivateAll(Run(), Pending()) == ActivateAll(old(Run()), old(Pending()))
        decreases |Pending()|
      {
        PendingHead();
        MarkRunnable(memory[pendingTasks].machine);
        FreeFirstPending();
      }
      PendingHead();
    }

    lemma PendingHead()
      requires Linked()
      ensures pendingTasks == NULL <==> Pending() == []
      ensures pendingTasks != NULL ==> pendingTasks in memory && memory[pendingTasks].machine == Pending()[0]
    {
      assert ListOk(memory, snapshot.place, Get(snapshot, InPending), InPending);
    }

    method FreeFirstPending()
      requires Valid() && pendingTasks != NULL
      modifies this
      ensures Valid()
      ensures old(Pending()) != [] && Pending() == old(Pending())[1..]
      ensures Run() == old(Run()) && Check() == old(Check()) && snapshot.clear == old(snapshot.clear)
    {
      PendingHead();
      FreeHeadOk(snapshot, InPending);
      var t := pendingTasks;
      pendingTasks := memory[pendingTasks].next;
      Free(t);
      snapshot := FreeHead(snapshot, InPending);
    }

    /** Frees what the previous pop left behind; `popped` is the cell in transit, if any. */
    method ClearTaskList(ghost popped: Address)
      requires Linked() && OnlyInTransit(snapshot, popped)
      modifies this
      ensures Linked() && OnlyInTransit(snapshot, popped) && snapshot.clear.nodes == []
      ensures Pending() == old(Pending()) && Run() == old(Run()) && Check() == old(Check())
      ensures popped in old(snapshot.place) && old(snapshot.place)[popped] == Popped ==>
        popped in snapshot.place && snapshot.place[popped] == Popped && memory[popped] == old(memory)[popped]
    {
      while toClear != NULL
        invariant Linked() && OnlyInTransit(snapshot, popped)
        invariant Pending() == old(Pending()) && Run() == old(Run()) && Check() == old(Check())
        invariant popped in old(snapshot.place) && old(snapshot.place)[popped] == Popped ==>
          popped in snapshot.place && snapshot.place[popped] == Popped && memory[popped] == old(memory)[popped]
        decreases |snapshot.clear.nodes|
      {
        FreeFirstCleared(popped);
      }
      assert ListOk(memory, snapshot.place, Get(snapshot, InClear), InClear);
    }

    method FreeFirstCleared(ghost popped: Address)
      requires Linked() && OnlyInTransit(snapshot, popped) && toClear != NULL
      modifies this
      ensures Linked() && OnlyInTransit(snapshot, popped)
      ensures |snapshot.clear.nodes| < |old(snapshot.clear.nodes)|
      ensures Pending() == old(Pending()) && Run() == old(Run()) && Check() == old(Check())
      ensures popped in old(snapshot.place) && old(snapshot.place)[popped] == Popped ==>
        popped in snapshot.place && snapshot.place[popped] == Popped && memory[popped] == old(memory)[popped]
    {
      hide Holds;
      assert ListOk(memory, snapshot.place, Get(snapshot, InClear), InClear);
      FreeHeadOk(snapshot, InClear);
      var t := toClear;
      toClear := memory[toClear].next;
      Free(t);
      snapshot := FreeHead(snapshot, InClear);
    }

    method PopTask() returns (t: Address)
      requires Valid()
      modifies this
      ensures Linked() && OnlyInTransit(snapshot, t)
      ensures Pending() == old(Pending()) && Check() == old(Check())
      ensures t == NULL <==> old(Run()) == []
      ensures t == NULL ==> Run() == []
      ensures t != NULL ==> t in snapshot.place && snapshot.place[t] == Popped && t in memory
      ensures t != NULL ==> memory[t].machine == old(Run())[0] && Run() == old(Run())[1..]
    {
      hide Holds;
      assert ListOk(memory, snapshot.place, Get(snapshot, InRun), InRun);
      currentTask := runList;
      if runList != NULL {
        UnlinkOk(snapshot, InRun);
        runList := memory[runList].next;
        snapshot := Unlink(snapshot, InRun);
      }
      return currentTask;
    }

    method Retire(t: Address)
      requires Linked() && OnlyInTransit(snapshot, t) && snapshot.clear.nodes == []
      requires t in snapshot.place && snapshot.place[t] == Popped
      modifies this
      ensures Valid() && snapshot.clear.nodes == [t]
      ensures Pending() == old(Pending()) && Run() == old(Run()) && Check() == old(Check())
      ensures t in memory && t in old(memory) && memory[t].machine == old(memory)[t].machine
    {
      hide Holds, Live;
      RelinkOk(snapshot, InClear, t);
      memory := memory[t := memory[t].(next := toClear)];
      toClear := t;
      snapshot := Relink(snapshot, InClear, t);
    }

    /** Takes the head of the run list; its cell is kept until the next pop. */
    method NextRunnable() returns (m: Option<MachineId>)
      requires Valid()
      modifies this
      ensures Valid()
      ensures Pending() == old(Pending()) && Check() == old(Check())
      ensures old(Run()) == [] ==> m == None && Run() == [] && snapshot.clear.nodes == []
      ensures old(Run()) != [] ==>
                m == Some(old(Run())[0]) && Run() == old(Run())[1..] && |snapshot.clear.nodes| == 1
    {
      var t := PopTask();
      ClearTaskList(t);
      if t == NULL {
        return None;
      }
      Retire(t);
      return Some(memory[t].machine);
    }

    method MarkStateCheck(m: MachineId)
      requires Valid()
      modifies this
      ensures Valid()
      ensures Check() == [m] + old(Check())
      ensures Pending() == old(Pending()) && Run() == old(Run()) && snapshot.clear == old(snapshot.clear)
    {
      var t := Malloc(Cell(stateCheckList, m));
      PushOk(snapshot, InCheck, t, m);
      stateCheckList := t;
      snapshot := Push(snapshot, InCheck, t, m);
    }

    method PopStateCheck() returns (t: Address)
      requires Valid()
      modifies this
      ensures Linked() && OnlyInTransit(snapshot, t)
      ensures Pending() == old(Pending()) && Run() == old(Run())
      ensures t == NULL <==> old(Check()) == []
      ensures t == NULL ==> Check() == []
      ensures t != NULL ==> t in snapshot.place && snapshot.place[t] == Popped && t in memory
      ensures t != NULL ==> memory[t].machine == old(Check())[0] && Check() == old(Check())[1..]
    {
      hide Holds;
      assert ListOk(memory, snapshot.place, Get(snapshot, InCheck), InCheck);
      currentTask := stateCheckList;
      if stateCheckList != NULL {
        UnlinkOk(snapshot, InCheck);
        stateCheckList := memory[stateCheckList].next;
        snapshot := Unlink(snapshot, InCheck);
      }
      return currentTask;
    }

    method NextStateCheck() returns (m: Option<MachineId>)
      requires Valid()
      modifies this
      ensures Valid()
      ensures Pending() == old(Pending()) && Run() == old(Run())
      ensures old(Check()) == [] ==> m == None && Check() == [] && snapshot.clear.nodes == []
      ensures old(Check()) != [] ==>
                m == Some(old(Check())[0]) && Check() == old(Check())[1..] && |snapshot.clear.nodes| == 1
    {
      var t := PopStateCheck();
      ClearTaskList(t);
      if t == NULL {
        return None;
      }
      Retire(t);
      return Some(memory[t].machine);
    }
  }
}
