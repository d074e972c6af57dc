/** Small things used everywhere. */
module Basics {

  datatype Option<+T> = None | Some(value: T)

  type byte = x: int | 0 <= x < 0x100
  type u16 = x: int | 0 <= x < 0x1_0000
  type u32 = x: int | 0 <= x < 0x1_0000_0000

  ghost predicate Distinct<T>(xs: seq<T>) {
    forall i, j :: 0 <= i < j < |xs| ==> xs[i] != xs[j]
  }

  /** `idx` lists the positions where `wanted` holds, from the lowest to the highest. */
  ghost predicate Selects(idx: seq<nat>, wanted: seq<bool>) {
    && (forall a, b :: 0 <= a < b < |idx| ==> idx[a] < idx[b])
    && (forall k :: 0 <= k < |idx| ==> idx[k] < |wanted| && wanted[idx[k]])
    && (forall i :: 0 <= i < |wanted| && wanted[i] ==> i in idx)
  }

  ghost predicate TakenAt<T>(r: seq<T>, all: seq<T>, idx: seq<nat>) {
    |idx| == |r| && forall k :: 0 <= k < |r| ==> idx[k] < |all| && r[k] == all[idx[k]]
  }

  /** `r` consists of the wanted elements of `all`, in the same order, and of nothing else. */
  ghost predicate IsSelection<T>(r: seq<T>, all: seq<T>, wanted: seq<bool>) {
    |wanted| == |all| && exists idx :: Selects(idx, wanted) && TakenAt(r, all, idx)
  }

  lemma NothingSelected<T>()
    ensures IsSelection<T>([], [], [])
  {
    var none: seq<nat> := [];
    assert Selects(none, []) && TakenAt<T>([], [], none);
  }

  ghost function Shift(idx: seq<nat>): (r: seq<nat>)
    ensures |r| == |idx| && forall k :: 0 <= k < |r| ==> r[k] == idx[k] + 1
  {
    seq(|idx|, k requires 0 <= k < |idx| => idx[k] + 1)
  }

  lemma SelectsShifted(idx: seq<nat>, wanted: seq<bool>)
    requires Selects(idx, wanted)
    ensures Selects(Shift(idx), [false] + wanted)
  {
    hide Shift;
    forall i | 0 <= i < |[false] + wanted| && ([false] + wanted)[i]
      ensures i in Shift(idx)
    {
      assert wanted[i - 1];
      var k :| 0 <= k < |idx| && idx[k] == i - 1;
      assert Shift(idx)[k] == i;
    }
  }

  lemma SelectsFirst(idx: seq<nat>, wanted: seq<bool>)
    requires Selects(idx, [false] + wanted)
    ensures Selects([0] + idx, [true] + wanted)
  {
    var all := [true] + wanted;
    forall k | 0 <= k < |idx|
      ensures 0 < idx[k] < |all| && all[idx[k]]
    {
      assert ([false] + wanted)[idx[k]];
    }
    forall i | 0 <= i < |all| && all[i]
      ensures i in [0] + idx
    {
      if i > 0 {
        assert ([false] + wanted)[i];
      }
    }
  }

  lemma TakenInFront<T>(r: seq<T>, all: seq<T>, idx: seq<nat>, x: T)
    requires TakenAt(r, all, idx)
    ensures TakenAt(r, [x] + all, Shift(idx))
    ensures TakenAt([x] + r, [x] + all, [0] + Shift(idx))
  {
    hide Shift;
    var found := Shift(idx);
    forall k | 0 <= k < |r|
      ensures found[k] < |[x] + all| && r[k] == ([x] + all)[found[k]]
    {
    }
    forall k | 0 <= k < |[x] + r|
      ensures ([0] + found)[k] < |[x] + all| && ([x] + r)[k] == ([x] + all)[([0] + found)[k]]
    {
      if k > 0 {
        assert ([x] + r)[k] == r[k - 1] && ([0] + found)[k] == found[k - 1];
      }
    }
  }

  lemma SelectionBy<T>(r: seq<T>, all: seq<T>, wanted: seq<bool>, idx: seq<nat>)
    requires |wanted| == |all| && Selects(idx, wanted) && TakenAt(r, all, idx)
    ensures IsSelection(r, all, wanted)
  {
    hide Selects, TakenAt;
  }

  /** One more element in front that is not wanted. */
  lemma SelectionSkips<T>(r: seq<T>, all: seq<T>, wanted: seq<bool>, x: T)
    requires IsSelection(r, all, wanted)
    ensures IsSelection(r, [x] + all, [false] + wanted)
  {
    var idx :| Selects(idx, wanted) && TakenAt(r, all, idx);
    SelectsShifted(idx, wanted);
    TakenInFront(r, all, idx, x);
    hide *;
    SelectionBy(r, [x] + all, [false] + wanted, Shift(idx));
  }

  /** One more that is. */
  lemma SelectionTakes<T>(r: seq<T>, all: seq<T>, wanted: seq<bool>, x: T)
    requires IsSelection(r, all, wanted)
    ensures IsSelection([x] + r, [x] + all, [true] + wanted)
  {
    var idx :| Selects(idx, wanted) && TakenAt(r, all, idx);
    SelectsShifted(idx, wanted);
    TakenInFront(r, all, idx, x);
    SelectsFirst(Shift(idx), wanted);
    hide *;
    SelectionBy([x] + r, [x] + all, [true] + wanted, [0] + Shift(idx));
  }

  /* ---- sequences ---- */

  lemma RestOfConcat<T>(a: seq<T>, b: seq<T>)
    requires a != []
    ensures (a + b)[0] == a[0] && (a + b)[1..] == a[1..] + b
  {
  }

  lemma Associate<T>(a: seq<T>, b: seq<T>, c: seq<T>)
    ensures a + (b + c) == (a + b) + c
  {
  }
}
