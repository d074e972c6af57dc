/** Counting a substring from left to right, skipping each match. */
module StrCount {
  import opened Basics

  ghost predicate OccursAt(haystack: string, needle: string, i: int) {
    0 <= i && i + |needle| <= |haystack| && haystack[i..i + |needle|] == needle
  }

  /** The library search: the first occurrence at or after `from`. */
  method StrStr(haystack: string, needle: string, from: nat) returns (found: Option<nat>)
    requires from <= |haystack|
    ensures found == FirstAt(haystack, needle, from)
  {
    var i := from;
    while i + |needle| <= |haystack|
      invariant from <= i <= |haystack| + 1
      invariant FirstAt(haystack, needle, from) == FirstAt(haystack, needle, i)
      decreases |haystack| - i
    {
      if haystack[i..i + |needle|] == needle {
        return Some(i);
      }
      i := i + 1;
    }
    return None;
  }

  function FirstAt(haystack: string, needle: string, from: nat): (found: Option<nat>)
    ensures found.Some? ==> from <= found.value && found.value + |needle| <= |haystack|
    decreases |haystack| - from
  {
    if from + |needle| > |haystack| then None
    else if haystack[from..from + |needle|] == needle then Some(from)
    else FirstAt(haystack, needle, from + 1)
  }

  /** The search finds an occurrence if there is one, and the earliest. */
  lemma {:induction false} SearchFindsFirst(haystack: string, needle: string, from: nat, i: nat)
    ensures var found := FirstAt(haystack, needle, from);
      && (found.Some? ==> OccursAt(haystack, needle, found.value))
      && (from <= i && OccursAt(haystack, needle, i) ==> found.Some? && found.value <= i)
    decreases |haystack| - from
  {
    if from + |needle| <= |haystack| && haystack[from..from + |needle|] != needle {
      SearchFindsFirst(haystack, needle, from + 1, i);
    }
  }

  ghost function Occurrences(haystack: string, needle: string): iset<nat> {
    iset i | 0 <= i <= |haystack| && OccursAt(haystack, needle, i)
  }

  /** A choice of occurrences at or after `from`, no two of which share a character. */
  ghost predicate Packing(occurrences: iset<nat>, width: nat, from: nat, s: set<nat>) {
    && (forall i :: i in s ==> i >= from && i in occurrences)
    && (forall i, j :: i in s && j in s && i < j ==> i + width <= j)
  }

  /** `n` is the largest possible size of such a choice. */
  ghost predicate IsMaximum(occurrences: iset<nat>, width: nat, from: nat, n: nat) {
    && (exists s :: Packing(occurrences, width, from, s) && |s| == n)
    && (forall s :: Packing(occurrences, width, from, s) ==> |s| <= n)
  }

  method StrCount(haystack: string, needle: string) returns (count: nat)
    requires needle != ""
    ensures IsMaximum(Occurrences(haystack, needle), |needle|, 0, count)
    ensures Position(haystack, needle, count) != None && Position(haystack, needle, count + 1) == None
  {
    hide FirstAt, IsMaximum, Searches, Position;
    count := 0;
    var at := 0;
    PositionNext(haystack, needle, 0);
    var found := StrStr(haystack, needle, at);
    while found != None
      invariant at <= |haystack| && found == FirstAt(haystack, needle, at)
      invariant Position(haystack, needle, count) == Some(at)
      invariant Position(haystack, needle, count + 1) ==
                if found == None then None else Some(found.value + |needle|)
      invariant count + Greedy(haystack, needle, at) == Greedy(haystack, needle, 0)
      decreases |haystack| - at
    {
      count := count + 1;
      at := found.value + |needle|;
      found := StrStr(haystack, needle, at);
      PositionNext(haystack, needle, count);
    }
    SearchIsCorrect(haystack, needle);
    GreedyIsMaximum(haystack, needle, 0, Occurrences(haystack, needle));
  }

  /** Where the search stands after `rounds` rounds of the loop, for any needle; none once it has ended. */
  ghost function Position(haystack: string, needle: string, rounds: nat): (at: Option<nat>)
    ensures at.Some? ==> at.value <= |haystack|
  {
    if rounds == 0 then Some(0)
    else
      var before := Position(haystack, needle, rounds - 1);
      if before == None then None
      else
        var found := FirstAt(haystack, needle, before.value);
        if found == None then None else Some(found.value + |needle|)
  }

  lemma PositionNext(haystack: string, needle: string, rounds: nat)
    ensures Position(haystack, needle, 0) == Some(0)
    ensures var before := Position(haystack, needle, rounds);
      before.Some? ==>
        var found := FirstAt(haystack, needle, before.value);
        Position(haystack, needle, rounds + 1) == if found == None then None else Some(found.value + |needle|)
  {
  }

  /** Each round moves on by at least the needle. */
  lemma {:induction false} RoundsMoveOn(haystack: string, needle: string, rounds: nat)
    ensures var at := Position(haystack, needle, rounds); at.Some? ==> rounds * |needle| <= at.value
  {
    if rounds > 0 {
      RoundsMoveOn(haystack, needle, rounds - 1);
      assert rounds * |needle| == (rounds - 1) * |needle| + |needle|;
    }
  }

  /** An empty needle is found where the search stands, time and again. */
  lemma {:induction false} EmptyNeedleStandsStill(haystack: string, rounds: nat)
    ensures Position(haystack, "", rounds) == Some(0)
  {
    if rounds > 0 {
      EmptyNeedleStandsStill(haystack, rounds - 1);
      assert haystack[0..0 + 0] == "";
    }
  }

  /** The loop comes to an end if and only if the needle is not empty. */
  lemma EndsIffNeedle(haystack: string, needle: string)
    ensures (exists rounds :: Position(haystack, needle, rounds) == None) <==> needle != ""
  {
    if needle == "" {
      forall rounds
        ensures Position(haystack, needle, rounds) != None
      {
        EmptyNeedleStandsStill(haystack, rounds);
      }
    } else {
      var rounds := |haystack| + 1;
      RoundsMoveOn(haystack, needle, rounds);
      assert rounds * |needle| >= rounds;
      assert Position(haystack, needle, rounds) == None;
    }
  }

  ghost function Greedy(haystack: string, needle: string, from: nat): nat
    requires needle != ""
    decreases |haystack| - from
  {
    var found := FirstAt(haystack, needle, from);
    if found == None then 0 else 1 + Greedy(haystack, needle, found.value + |needle|)
  }

  ghost predicate IsFirst(occurrences: iset<nat>, from: nat, first: nat) {
    first in occurrences && first >= from && forall i :: i in occurrences && i >= from ==> first <= i
  }

  /** From everywhere, the search finds the first of these occurrences. */
  ghost predicate Searches(haystack: string, needle: string, occurrences: iset<nat>) {
    forall from: nat :: SearchOk(FirstAt(haystack, needle, from), from, occurrences)
  }

  ghost predicate SearchOk(found: Option<nat>, from: nat, occurrences: iset<nat>) {
    if found == None then forall i :: i in occurrences ==> i < from else IsFirst(occurrences, from, found.value)
  }

  lemma SearchIsCorrect(haystack: string, needle: string)
    ensures Searches(haystack, needle, Occurrences(haystack, needle))
  {
    forall from: nat
      ensures SearchOk(FirstAt(haystack, needle, from), from, Occurrences(haystack, needle))
    {
      SearchFindsFirst(haystack, needle, from, 0);
      forall i | i in Occurrences(haystack, needle) && i >= from
        ensures FirstAt(haystack, needle, from).Some? && FirstAt(haystack, needle, from).value <= i
      {
        SearchFindsFirst(haystack, needle, from, i);
      }
    }
  }

  /** Taking the first match costs any other choice at most one of its members. */
  lemma {:induction false} GreedyIsMaximum(haystack: string, needle: string, from: nat, occurrences: iset<nat>)
    requires needle != "" && Searches(haystack, needle, occurrences)
    ensures IsMaximum(occurrences, |needle|, from, Greedy(haystack, needle, from))
    decreases |haystack| - from
  {
    var found := FirstAt(haystack, needle, from);
    assert SearchOk(found, from, occurrences);
    if found == None {
      NothingToPack(occurrences, |needle|, from);
    } else {
      var next := found.value + |needle|;
      GreedyIsMaximum(haystack, needle, next, occurrences);
      OneMore(occurrences, |needle|, from, found.value, Greedy(haystack, needle, next));
    }
  }

  lemma NothingToPack(occurrences: iset<nat>, width: nat, from: nat)
    requires forall i :: i in occurrences ==> i < from
    ensures IsMaximum(occurrences, width, from, 0)
  {
    var none: set<nat> := {};
    assert Packing(occurrences, width, from, none) && |none| == 0;
    forall s | Packing(occurrences, width, from, s)
      ensures |s| <= 0
    {
      NoMember(occurrences, width, from, s);
    }
  }

  lemma NoMember(occurrences: iset<nat>, width: nat, from: nat, s: set<nat>)
    requires forall i :: i in occurrences ==> i < from
    requires Packing(occurrences, width, from, s)
    ensures s == {}
  {
    if i :| i in s {
      assert false;
    }
  }

  /** The maximum from the end of the first occurrence on, and that occurrence. */
  lemma OneMore(occurrences: iset<nat>, width: nat, from: nat, first: nat, n: nat)
    requires width > 0 && IsFirst(occurrences, from, first)
    requires IsMaximum(occurrences, width, first + width, n)
    ensures IsMaximum(occurrences, width, from, n + 1)
  {
    var best :| Packing(occurrences, width, first + width, best) && |best| == n;
    assert Packing(occurrences, width, from, best + {first}) && |best + {first}| == n + 1;
    forall s | Packing(occurrences, width, from, s)
      ensures |s| <= n + 1
    {
      FirstCostsOne(occurrences, width, from, first, n, s);
    }
  }

  lemma FirstCostsOne(occurrences: iset<nat>, width: nat, from: nat, first: nat, n: nat, s: set<nat>)
    requires width > 0 && IsFirst(occurrences, from, first)
    requires IsMaximum(occurrences, width, first + width, n)
    requires Packing(occurrences, width, from, s)
    ensures |s| <= n + 1
  {
    if i :| i in s && i < first + width {
      assert Packing(occurrences, width, first + width, s - {i});
      assert |s| == |s - {i}| + 1;
    } else {
      assert Packing(occurrences, width, first + width, s);
    }
  }
}
