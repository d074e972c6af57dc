/** Circular doubly linked lists whose links live inside the nodes. A list is a ring: its head node and
    then its elements. Every operation names, as a ghost parameter, the ring it works on. */
module CcanList {
  import opened Basics

  class Node {
    var next: Node
    var prev: Node

    /** A node linked to itself; as a head, an empty list. */
    constructor ()
      ensures next == this && prev == this
    {
      next := this;
      prev := this;
    }
  }

  ghost predicate Linked(a: Node, b: Node)
    reads a, b
  {
    a.next == b && b.prev == a
  }

  /** Neighbours along `path` are linked in both directions. */
  ghost predicate Links(path: seq<Node>)
    reads path
  {
    forall i, j :: 0 <= i && j == i + 1 && j < |path| ==> Linked(path[i], path[j])
  }

  /** The nodes of `s`, in this order and back to the start, and no node twice. */
  ghost predicate Ring(s: seq<Node>)
    reads s
  {
    |s| > 0 && Distinct(s) && Links(s + [s[0]])
  }

  /** The list with this head has these elements. */
  ghost predicate IsList(head: Node, elements: seq<Node>)
    reads head, elements
  {
    Ring([head] + elements)
  }

  lemma LinksConcat(p: seq<Node>, q: seq<Node>)
    requires Links(p) && Links(q)
    requires p != [] && q != [] ==> Linked(p[|p| - 1], q[0])
    ensures Links(p + q)
  {
    forall i, j | 0 <= i && j == i + 1 && j < |p + q|
      ensures Linked((p + q)[i], (p + q)[j])
    {
      if j < |p| {
        assert Linked(p[i], p[j]);
      } else if i >= |p| {
        assert Linked(q[i - |p|], q[j - |p|]);
      }
    }
  }

  lemma LinksPart(p: seq<Node>, lo: nat, hi: nat)
    requires Links(p) && lo <= hi <= |p|
    ensures Links(p[lo..hi])
  {
    forall i, j | 0 <= i && j == i + 1 && j < hi - lo
      ensures Linked(p[lo..hi][i], p[lo..hi][j])
    {
      assert Linked(p[lo + i], p[lo + j]);
    }
  }

  /** Where node `s[i]` leads: the next one, or around to the start. */
  ghost function After(s: seq<Node>, i: nat): Node
    requires i < |s|
  {
    if i + 1 < |s| then s[i + 1] else s[0]
  }

  lemma RingLink(s: seq<Node>, i: nat)
    requires Ring(s) && i < |s|
    ensures Linked(s[i], After(s, i))
  {
    var closed := s + [s[0]];
    assert Linked(closed[i], closed[i + 1]);
  }

  /** Two linked stretches joined through `n` close to a ring with `n` at position `k`. */
  lemma Spliced(s: seq<Node>, k: nat, n: Node)
    requires 0 < k <= |s| && Distinct(s) && n !in s
    requires Links((s + [s[0]])[..k]) && Links((s + [s[0]])[k..])
    requires Linked(s[k - 1], n) && Linked(n, (s + [s[0]])[k])
    ensures Ring(s[..k] + [n] + s[k..])
  {
    var closed := s + [s[0]];
    var t := s[..k] + [n] + s[k..];
    assert Links([n]);
    LinksConcat(closed[..k], [n]);
    LinksConcat(closed[..k] + [n], closed[k..]);
    assert t + [t[0]] == closed[..k] + [n] + closed[k..];
  }

  /** Inserts `n` after the node at position `i`. */
  method AddAfter(p: Node, n: Node, ghost s: seq<Node>, ghost i: nat)
    requires Ring(s) && i < |s| && s[i] == p && n !in s
    modifies n, p`next, p.next`prev
    ensures Ring(s[..i + 1] + [n] + s[i + 1..])
  {
    RingLink(s, i);
    n.next := p.next;
    n.prev := p;
    p.next.prev := n;
    p.next := n;
    Spliced(s, i + 1, n);
  }

  /** Inserts `n` before the node at position `i`; before the head means at the end. */
  method AddBefore(p: Node, n: Node, ghost s: seq<Node>, ghost i: nat)
    requires Ring(s) && i < |s| && s[i] == p && n !in s
    modifies n, p`prev, p.prev`next
    ensures Ring(if i == 0 then s + [n] else s[..i] + [n] + s[i..])
  {
    ghost var k := if i == 0 then |s| else i;
    RingLink(s, k - 1);
    n.next := p;
    n.prev := p.prev;
    p.prev.next := n;
    p.prev := n;
    Spliced(s, k, n);
    assert i == 0 ==> s[..k] + [n] + s[k..] == s + [n];
  }

  method Add(h: Node, n: Node, ghost elements: seq<Node>)
    requires IsList(h, elements) && n != h && n !in elements
    modifies n, h`next, h.next`prev
    ensures IsList(h, [n] + elements)
  {
    ghost var s := [h] + elements;
    AddAfter(h, n, s, 0);
    assert s[..1] + [n] + s[1..] == [h] + ([n] + elements);
  }

  method AddTail(h: Node, n: Node, ghost elements: seq<Node>)
    requires IsList(h, elements) && n != h && n !in elements
    modifies n, h`prev, h.prev`next
    ensures IsList(h, elements + [n])
  {
    ghost var s := [h] + elements;
    AddBefore(h, n, s, 0);
    assert s + [n] == [h] + (elements + [n]);
  }

  /** Takes the node at position `i` out; its own links stay as they were. */
  method Del(n: Node, ghost s: seq<Node>, ghost i: nat)
    requires Ring(s) && 0 < i < |s| && s[i] == n
    modifies n.next`prev, n.prev`next
    ensures Ring(s[..i] + s[i + 1..])
    ensures n.next == old(n.next) && n.prev == old(n.prev)
  {
    RingLink(s, i - 1);
    RingLink(s, i);
    n.next.prev := n.prev;
    n.prev.next := n.next;
    ghost var closed := s + [s[0]];
    ghost var t := s[..i] + s[i + 1..];
    assert Links(closed[..i]) && Links(closed[i + 1..]);
    LinksConcat(closed[..i], closed[i + 1..]);
    assert t + [t[0]] == closed[..i] + closed[i + 1..];
  }

  /** Puts `n` where `o` was. */
  method Swap(o: Node, n: Node, ghost s: seq<Node>, ghost i: nat)
    requires Ring(s) && 0 < i < |s| && s[i] == o && n !in s
    modifies n, o.next`prev, o.prev`next
    ensures Ring(s[i := n])
  {
    RingLink(s, i - 1);
    RingLink(s, i);
    n.next, n.prev := o.next, o.prev;
    n.next.prev := n;
    n.prev.next := n;
    ghost var closed := s + [s[0]];
    ghost var t := s[i := n];
    assert Links(closed[..i]) && Links([n]) && Links(closed[i + 1..]);
    LinksConcat(closed[..i], [n]);
    LinksConcat(closed[..i] + [n], closed[i + 1..]);
    assert t + [t[0]] == closed[..i] + [n] + closed[i + 1..];
  }

  method Empty(h: Node, ghost elements: seq<Node>) returns (r: bool)
    requires IsList(h, elements)
    ensures r <==> elements == []
  {
    ghost var s := [h] + elements;
    RingLink(s, 0);
    r := h.next == h;
  }

  method Top(h: Node, ghost elements: seq<Node>) returns (n: Node?)
    requires IsList(h, elements)
    ensures n == if elements == [] then null else elements[0]
  {
    RingLink([h] + elements, 0);
    var empty := Empty(h, elements);
    n := if empty then null else h.next;
  }

  method Tail(h: Node, ghost elements: seq<Node>) returns (n: Node?)
    requires IsList(h, elements)
    ensures n == if elements == [] then null else elements[|elements| - 1]
  {
    RingLink([h] + elements, |elements|);
    var empty := Empty(h, elements);
    n := if empty then null else h.prev;
  }

  method Pop(h: Node, ghost elements: seq<Node>) returns (n: Node?)
    requires IsList(h, elements)
    modifies h`next, h.next.next`prev
    ensures elements == [] ==> n == null && IsList(h, [])
    ensures elements != [] ==> n == elements[0] && IsList(h, elements[1..])
  {
    ghost var s := [h] + elements;
    RingLink(s, 0);
    var empty := Empty(h, elements);
    if empty {
      return null;
    }
    n := h.next;
    RingLink(s, 1);
    Del(n, s, 1);
    assert s[..1] + s[2..] == [h] + elements[1..];
  }

  /** Makes a node the head of an empty list. */
  method HeadInit(h: Node)
    modifies h
    ensures IsList(h, [])
  {
    h.next, h.prev := h, h;
  }

  /** Moves all elements of `source` to the end of `to`. */
  method AppendList(to: Node, source: Node, ghost te: seq<Node>, ghost fe: seq<Node>)
    requires IsList(to, te) && IsList(source, fe)
    requires forall x :: x in [to] + te ==> x !in [source] + fe
    modifies to, to.prev, source, source.prev, source.next
    ensures IsList(to, te + fe) && IsList(source, [])
  {
    hide Links;
    ghost var s, t := [to] + te, [source] + fe;
    RingLink(t, 0);
    RingLink(t, |fe|);
    SewAtEnd(to, source, s, t);
    ghost var all := s + t;
    RingLink(all, |s|);
    RingLink(all, |s| - 1);
    Del(source, all, |s|);
    assert all[..|s|] + all[|s| + 1..] == [to] + (te + fe);
    HeadInit(source);
  }

  /** Sews in the head and entire list. */
  method SewAtEnd(to: Node, source: Node, ghost s: seq<Node>, ghost t: seq<Node>)
    requires Ring(s) && Ring(t) && s[0] == to && t[0] == source
    requires forall x :: x in s ==> x !in t
    modifies to`prev, to.prev`next, source`prev, source.prev`next
    ensures Ring(s + t)
    ensures source.prev == old(to.prev) && source.next == if |t| == 1 then to else old(source.next)
  {
    RingLink(s, |s| - 1);
    RingLink(t, |t| - 1);
    RingLink(t, 0);
    OpenRing(s);
    OpenRing(t);
    var sourceTail := source.prev;
    var toTail := to.prev;

    to.prev := sourceTail;
    sourceTail.next := to;
    toTail.next := source;
    source.prev := toTail;

    forall i, j | 0 <= i && j == i + 1 && j < |s|
      ensures Linked(s[i], s[j])
    {
      assert s[i] in s && s[j] in s;
    }
    forall i, j | 0 <= i && j == i + 1 && j < |t|
      ensures Linked(t[i], t[j])
    {
      assert t[i] in t && t[j] in t;
    }
    Sewn(s, t);
  }

  lemma OpenRing(s: seq<Node>)
    requires Ring(s)
    ensures Links(s)
  {
    LinksPart(s + [s[0]], 0, |s|);
    assert (s + [s[0]])[0..|s|] == s;
  }

  /** Two rings cut open and sewn together. */
  lemma Sewn(s: seq<Node>, t: seq<Node>)
    requires s != [] && t != [] && Distinct(s) && Distinct(t)
    requires forall x :: x in s ==> x !in t
    requires Links(s) && Links(t) && Linked(s[|s| - 1], t[0]) && Linked(t[|t| - 1], s[0])
    ensures Ring(s + t)
  {
    LinksConcat(s, t);
    assert Links([s[0]]);
    LinksConcat(s + t, [s[0]]);
    assert (s + t) + [(s + t)[0]] == s + t + [s[0]];
    forall i, j | 0 <= i < j < |s + t|
      ensures (s + t)[i] != (s + t)[j]
    {
      if i < |s| <= j {
        assert s[i] in s && t[j - |s|] in t;
      }
    }
  }

  /** Moves all elements of `source` to the start of `to`. */
  method PrependList(to: Node, source: Node, ghost te: seq<Node>, ghost fe: seq<Node>)
    requires IsList(to, te) && IsList(source, fe)
    requires forall x :: x in [to] + te ==> x !in [source] + fe
    modifies to, to.next, source, source.prev, source.next
    ensures IsList(to, fe + te) && IsList(source, [])
  {
    hide Links;
    ghost var t := [source] + fe;
    RingLink([to] + te, 0);
    RingLink(t, 0);
    RingLink(t, |fe|);
    SewAtStart(to, source, te, t);
    ghost var all := [to] + t + te;
    RingLink(all, 0);
    RingLink(all, 1);
    Del(source, all, 1);
    assert all[..1] + all[2..] == [to] + (fe + te);
    HeadInit(source);
  }

  /** Sews in the head and entire list. */
  method SewAtStart(to: Node, source: Node, ghost te: seq<Node>, ghost t: seq<Node>)
    requires IsList(to, te) && Ring(t) && t[0] == source
    requires forall x :: x in [to] + te ==> x !in t
    modifies to`next, to.next`prev, source`prev, source.prev`next
    ensures Ring([to] + t + te)
    ensures source.prev == to && source.next == if |t| == 1 then old(to.next) else old(source.next)
  {
    ghost var s := [to] + te;
    RingLink(s, 0);
    RingLink(t, |t| - 1);
    RingLink(t, 0);
    OpenRing(t);
    ghost var closed := s + [to];
    LinksPart(closed, 1, |closed|);
    assert closed[1..|closed|] == te + [to];
    var sourceTail := source.prev;
    var toHead := to.next;

    to.next := source;
    source.prev := to;
    toHead.prev := sourceTail;
    sourceTail.next := toHead;

    forall i, j | 0 <= i && j == i + 1 && j < |te + [to]|
      ensures Linked((te + [to])[i], (te + [to])[j])
    {
      assert (te + [to])[i] == s[i + 1] && s[i + 1] in s;
      assert (te + [to])[j] == (if j < |te| then s[j + 1] else s[0]) && (te + [to])[j] in s;
    }
    forall i, j | 0 <= i && j == i + 1 && j < |t|
      ensures Linked(t[i], t[j])
    {
      assert t[i] in t && t[j] in t;
    }
    SewnIn(to, te, t);
  }

  lemma SewnIn(to: Node, te: seq<Node>, t: seq<Node>)
    requires t != [] && Distinct([to] + te) && Distinct(t)
    requires forall x :: x in [to] + te ==> x !in t
    requires Links(t) && Links(te + [to]) && Linked(to, t[0]) && Linked(t[|t| - 1], (te + [to])[0])
    ensures Ring([to] + t + te)
  {
    assert Links([to]);
    LinksConcat([to], t);
    LinksConcat([to] + t, te + [to]);
    var all := [to] + t + te;
    assert all + [all[0]] == [to] + t + (te + [to]);
    forall i, j | 0 <= i < j < |all|
      ensures all[i] != all[j]
    {
      var s := [to] + te;
      var a := if i == 0 then 0 else if i <= |t| then -1 else i - |t|;
      var b := if j <= |t| then -1 else j - |t|;
      assert a >= 0 ==> all[i] == s[a] && s[a] in s;
      assert b >= 0 ==> all[j] == s[b] && s[b] in s;
      assert a < 0 ==> all[i] == t[i - 1] && t[i - 1] in t;
      assert b < 0 ==> all[j] == t[j - 1] && t[j - 1] in t;
    }
  }

  /* ---- deleting during iteration ---- */

  ghost function Without(elements: seq<Node>, doomed: set<Node>): seq<Node> {
    if elements == [] then []
    else (if elements[0] in doomed then [] else [elements[0]]) + Without(elements[1..], doomed)
  }

  /** What is left is every element that is not doomed, in the old order, and nothing else. */
  lemma {:induction false} WithoutKeepsRest(elements: seq<Node>, doomed: set<Node>)
    ensures IsSelection(Without(elements, doomed), elements,
                        seq(|elements|, i requires 0 <= i < |elements| => elements[i] !in doomed))
  {
    var stays := seq(|elements|, i requires 0 <= i < |elements| => elements[i] !in doomed);
    if elements == [] {
      NothingSelected<Node>();
      assert stays == [];
    } else {
      var rest := elements[1..];
      var restStays := seq(|rest|, i requires 0 <= i < |rest| => rest[i] !in doomed);
      WithoutKeepsRest(rest, doomed);
      assert [elements[0]] + rest == elements && [stays[0]] + restStays == stays;
      hide IsSelection;
      if stays[0] {
        SelectionTakes(Without(rest, doomed), rest, restStays, elements[0]);
      } else {
        SelectionSkips(Without(rest, doomed), rest, restStays, elements[0]);
        assert [] + Without(rest, doomed) == Without(rest, doomed);
      }
    }
  }

  /** Where an element of a list is linked to. */
  lemma Neighbours(h: Node, before: seq<Node>, item: Node, after: seq<Node>)
    requires IsList(h, before + [item] + after)
    ensures item != h
    ensures item.next == if after == [] then h else after[0]
    ensures item.prev == if before == [] then h else before[|before| - 1]
    ensures after == [] || after[0] != h
  {
    var s := [h] + (before + [item] + after);
    var i := 1 + |before|;
    assert s[i] == item;
    RingLink(s, i);
    RingLink(s, i - 1);
  }

  method DelElement(h: Node, item: Node, ghost before: seq<Node>, ghost after: seq<Node>)
    requires IsList(h, before + [item] + after)
    modifies item.next`prev, item.prev`next
    ensures IsList(h, before + after)
  {
    ghost var s := [h] + (before + [item] + after);
    ghost var i := 1 + |before|;
    assert s[i] == item;
    Del(item, s, i);
    assert s[..i] + s[i + 1..] == [h] + (before + after);
  }

  /** The safe iteration: the next node is remembered before the present one may be deleted. */
  method DelWhere(h: Node, doomed: set<Node>, ghost elements: seq<Node>)
    requires IsList(h, elements)
    modifies h, elements
    ensures IsList(h, Without(elements, doomed))
  {
    hide Links;
    ghost var kept: seq<Node> := [];
    ghost var rest := elements;
    RingLink([h] + elements, 0);
    assert kept + rest == elements;
    var item := h.next;
    while item != h
      invariant IsList(h, kept + rest)
      invariant (forall x :: x in kept ==> x in elements) && (forall x :: x in rest ==> x in elements)
      invariant item == if rest == [] then h else rest[0]
      invariant item == h <==> rest == []
      invariant kept + Without(rest, doomed) == Without(elements, doomed)
      decreases |rest|
    {
      assert kept + rest == kept + [item] + rest[1..];
      Neighbours(h, kept, item, rest[1..]);
      var next := item.next;
      assert item.next == h || item.next in rest;
      assert item.prev == h || item.prev in kept;
      if item in doomed {
        DelElement(h, item, kept, rest[1..]);
      } else {
        kept := kept + [item];
      }
      rest := rest[1..];
      item := next;
    }
    assert kept + rest == kept;
  }

  /* ---- checking a list ---- */

  /** The node `k` steps ahead. */
  ghost function Ahead(heap: set<Node>, n: Node, k: nat): (r: Node)
    requires n in heap && forall x :: x in heap ==> x.next in heap
    reads heap
    ensures r in heap
  {
    if k == 0 then n else Ahead(heap, n, k - 1).next
  }

  datatype CheckResult = Fine | Corrupt(node: Node, count: nat)

  /** Walks forward from `node` and checks that each step can be undone. Memory may be corrupt in any
      way: `heap` is just some finite set of nodes whose links stay inside it. */
  method CheckNode(node: Node, ghost heap: set<Node>) returns (result: CheckResult, ghost ring: seq<Node>)
    requires node in heap && forall x :: x in heap ==> x.next in heap && x.prev in heap
    ensures result.Fine? ==> Ring(ring) && ring[0] == node
    ensures result.Corrupt? && result.count == 0 ==> result.node == node
    ensures result.Corrupt? && result.count > 0 ==>
      && result.node == Ahead(heap, node, result.count)
      && result.node.prev != Ahead(heap, node, result.count - 1)
      && forall k: nat :: k + 1 < result.count ==> Ahead(heap, node, k).next.prev == Ahead(heap, node, k)
    ensures result.Fine? <==> forall k: nat :: Ahead(heap, node, k).next.prev == Ahead(heap, node, k)
  {
    var p := node;
    var n := node.next;
    var count := 0;
    ring := [node];
    ghost var ahead := heap - {node};
    while n != node
      invariant |ring| == count + 1 && ring[0] == node && Distinct(ring) && Links(ring)
      invariant forall i :: 0 <= i < |ring| ==> ring[i] in heap && ring[i] == Ahead(heap, node, i)
      invariant p == ring[count] && n == p.next
      invariant forall x :: x in heap ==> x in ring || x in ahead
      decreases ahead
    {
      count := count + 1;
      if n.prev != p {
        result := Corrupt(n, count);
        assert Ahead(heap, node, count - 1) == p;
        forall k: nat | k + 1 < count
          ensures Ahead(heap, node, k).next.prev == Ahead(heap, node, k)
        {
          assert Linked(ring[k], ring[k + 1]);
        }
        return;
      }
      StepIsNew(ring, n);
      p := n;
      ahead := ahead - {n};
      ring := ring + [n];
      n := n.next;
    }
    if node.prev != p {
      result := Corrupt(node, 0);
      assert Ahead(heap, node, count) == p;
      return;
    }
    result := Fine;
    LinksConcat(ring, [node]);
    RingRepeats(heap, node, ring);
  }

  /** A walk whose backward checks have all passed can only close at its start. */
  lemma StepIsNew(path: seq<Node>, n: Node)
    requires path != [] && Distinct(path) && Links(path)
    requires n == path[|path| - 1].next && n.prev == path[|path| - 1] && n != path[0]
    ensures n !in path
  {
    forall j | 0 <= j < |path|
      ensures path[j] != n
    {
      if j > 0 {
        assert Linked(path[j - 1], path[j]);
      }
    }
  }

  /** Around a ring, every step can be undone, for ever. */
  lemma RingRepeats(heap: set<Node>, node: Node, ring: seq<Node>)
    requires node in heap && forall x :: x in heap ==> x.next in heap
    requires Ring(ring) && ring[0] == node
    ensures forall k: nat :: Ahead(heap, node, k).next.prev == Ahead(heap, node, k)
  {
    forall k: nat
      ensures Ahead(heap, node, k).next.prev == Ahead(heap, node, k)
    {
      RingPosition(heap, node, ring, k);
      RingLink(ring, Position(|ring|, k));
    }
  }

  /** Where `k` steps around a ring of `n` nodes lead. */
  ghost function Position(n: nat, k: nat): (i: nat)
    requires n > 0
    ensures i < n
  {
    if k == 0 || Position(n, k - 1) + 1 == n then 0 else Position(n, k - 1) + 1
  }

  lemma {:induction false} RingPosition(heap: set<Node>, node: Node, ring: seq<Node>, k: nat)
    requires node in heap && forall x :: x in heap ==> x.next in heap
    requires Ring(ring) && ring[0] == node
    ensures Ahead(heap, node, k) == ring[Position(|ring|, k)]
  {
    if k > 0 {
      RingPosition(heap, node, ring, k - 1);
      RingLink(ring, Position(|ring|, k - 1));
    }
  }
}
