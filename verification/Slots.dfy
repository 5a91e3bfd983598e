/** Rows of slots that may hold an item, and the items they hold. */
module Slots {
  import opened Octets

  predicate Complete<T>(slots: seq<Option<T>>) { forall i :: 0 <= i < |slots| ==> slots[i].Some? }

  function Filled<T>(slots: seq<Option<T>>): nat {
    if slots == [] then 0 else (if slots[0].Some? then 1 else 0) + Filled(slots[1..])
  }

  /** How many slots hold this very item. */
  function Copies<T(==)>(slots: seq<Option<T>>, x: T): nat {
    if slots == [] then 0 else (if slots[0] == Some(x) then 1 else 0) + Copies(slots[1..], x)
  }

  function Vacant<T>(n: nat): (slots: seq<Option<T>>)
    ensures |slots| == n && forall i :: 0 <= i < n ==> slots[i].None?
  {
    seq(n, _ => None)
  }

  lemma {:induction false} VacantFilled<T>(slots: seq<Option<T>>)
    requires forall i :: 0 <= i < |slots| ==> slots[i].None?
    ensures Filled(slots) == 0
  {
    if slots != [] { VacantFilled(slots[1..]); }
  }

  lemma {:induction false} VacantCopies<T>(slots: seq<Option<T>>, x: T)
    requires forall i :: 0 <= i < |slots| ==> slots[i].None?
    ensures Copies(slots, x) == 0
  {
    if slots != [] { VacantCopies(slots[1..], x); }
  }

  lemma {:induction false} FilledUpdate<T>(slots: seq<Option<T>>, i: nat, slot: Option<T>)
    requires i < |slots|
    ensures Filled(slots[i := slot]) + (if slots[i].Some? then 1 else 0)
         == Filled(slots) + (if slot.Some? then 1 else 0)
  {
    if i == 0 {
      assert slots[i := slot][1..] == slots[1..];
    } else {
      FilledUpdate(slots[1..], i - 1, slot);
      assert slots[i := slot][1..] == slots[1..][i - 1 := slot];
    }
  }

  lemma {:induction false} CopiesUpdate<T>(slots: seq<Option<T>>, i: nat, slot: Option<T>, x: T)
    requires i < |slots|
    ensures Copies(slots[i := slot], x) + (if slots[i] == Some(x) then 1 else 0)
         == Copies(slots, x) + (if slot == Some(x) then 1 else 0)
  {
    if i == 0 {
      assert slots[i := slot][1..] == slots[1..];
    } else {
      CopiesUpdate(slots[1..], i - 1, slot, x);
      assert slots[i := slot][1..] == slots[1..][i - 1 := slot];
    }
  }

  lemma {:induction false} FilledBound<T>(slots: seq<Option<T>>)
    ensures Filled(slots) <= |slots|
    ensures Filled(slots) == |slots| <==> Complete(slots)
  {
    if slots != [] {
      FilledBound(slots[1..]);
      assert forall i :: 1 <= i < |slots| ==> slots[i] == slots[1..][i - 1];
      assert Complete(slots) <==> slots[0].Some? && Complete(slots[1..]);
    }
  }

  /** Empty slots of `into` take the item of `from`. */
  function MergedInto<T>(into: seq<Option<T>>, from: seq<Option<T>>): (r: seq<Option<T>>)
    requires |into| == |from|
    ensures |r| == |into|
    ensures forall i :: 0 <= i < |r| ==> r[i] == if into[i].None? then from[i] else into[i]
  {
    seq(|into|, i requires 0 <= i < |into| => if into[i].None? then from[i] else into[i])
  }

  /** The items of `from` that found their slot taken. */
  function Leftover<T>(into: seq<Option<T>>, from: seq<Option<T>>): (r: seq<Option<T>>)
    requires |into| == |from|
    ensures |r| == |into|
    ensures forall i :: 0 <= i < |r| ==> r[i] == if into[i].None? then None else from[i]
  {
    seq(|into|, i requires 0 <= i < |into| => if into[i].None? then None else from[i])
  }

  /** A merge neither loses nor copies an item. */
  lemma {:induction false} MergeConserves<T>(into: seq<Option<T>>, from: seq<Option<T>>, x: T)
    requires |into| == |from|
    ensures Copies(MergedInto(into, from), x) + Copies(Leftover(into, from), x) == Copies(into, x) + Copies(from, x)
  {
    if into != [] {
      MergeConserves(into[1..], from[1..], x);
      assert MergedInto(into, from)[1..] == MergedInto(into[1..], from[1..]);
      assert Leftover(into, from)[1..] == Leftover(into[1..], from[1..]);
    }
  }

  lemma {:induction false} MergeCounts<T>(into: seq<Option<T>>, from: seq<Option<T>>)
    requires |into| == |from|
    ensures Filled(MergedInto(into, from)) + Filled(Leftover(into, from)) == Filled(into) + Filled(from)
    ensures Filled(Leftover(into, from)) <= Filled(from)
  {
    if into != [] {
      MergeCounts(into[1..], from[1..]);
      assert MergedInto(into, from)[1..] == MergedInto(into[1..], from[1..]);
      assert Leftover(into, from)[1..] == Leftover(into[1..], from[1..]);
    }
  }

  /** The loop that merges one row into another. */
  method Merge<T>(into: seq<Option<T>>, from: seq<Option<T>>) returns (theirs: seq<Option<T>>, mine: seq<Option<T>>)
    requires |into| == |from|
    ensures theirs == MergedInto(into, from) && mine == Leftover(into, from)
  {
    theirs, mine := into, from;
    for i := 0 to |from|
      invariant |theirs| == |mine| == |from|
      invariant forall j :: 0 <= j < i ==> theirs[j] == if into[j].None? then from[j] else into[j]
      invariant forall j :: 0 <= j < i ==> mine[j] == if into[j].None? then None else from[j]
      invariant forall j :: i <= j < |mine| ==> theirs[j] == into[j] && mine[j] == from[j]
    {
      if mine[i].Some? && theirs[i].None? {
        theirs := theirs[i := mine[i]];
        mine := mine[i := None];
      }
    }
  }
}
