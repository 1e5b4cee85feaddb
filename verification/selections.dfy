/**
 A selection: what is read, in order, at exactly the positions of a sequence whose items pass a test. It says
 what a filter keeps, how often and in which order, without saying how it goes about it.
 */
module Selections {

  ghost predicate Picked<T, U>(r: seq<U>, items: seq<T>, at: seq<nat>, test: T -> bool, value: T -> U) {
    && |at| == |r| && (forall k :: 0 <= k < |at| ==> at[k] < |items| && r[k] == value(items[at[k]]))
    && (forall j, k :: 0 <= j < k < |at| ==> at[j] < at[k])
    && (forall i: nat :: i in at <==> i < |items| && test(items[i]))
  }

  ghost predicate Selected<T, U>(r: seq<U>, items: seq<T>, test: T -> bool, value: T -> U) {
    exists at :: Picked(r, items, at, test, value)
  }

  lemma SelectedNone<T, U>(test: T -> bool, value: T -> U)
    ensures Selected([], [], test, value)
  {
    var none: seq<nat> := [];
    assert Picked([], [], none, test, value);
  }

  lemma SelectedOne<T, U>(x: T, test: T -> bool, value: T -> U)
    ensures Selected(if test(x) then [value(x)] else [], [x], test, value)
  {
    var none: seq<nat> := [];
    if test(x) {
      assert Picked([value(x)], [x], [0], test, value);
    } else {
      assert Picked([], [x], none, test, value);
    }
  }

  lemma Shifted(at: seq<nat>, n: nat) returns (moved: seq<nat>)
    ensures |moved| == |at| && forall k :: 0 <= k < |at| ==> moved[k] == at[k] + n
    ensures forall i: nat :: i in moved <==> i >= n && i - n in at
  {
    moved := seq(|at|, k requires 0 <= k < |at| => at[k] + n);
    forall i: nat | i >= n && i - n in at ensures i in moved {
      var k :| 0 <= k < |at| && at[k] == i - n;
      assert moved[k] == i;
    }
  }

  lemma PickedConcat<T, U>(r: seq<U>, a: seq<T>, here: seq<nat>, q: seq<U>, b: seq<T>, there: seq<nat>,
                           test: T -> bool, value: T -> U)
    requires Picked(r, a, here, test, value) && Picked(q, b, there, test, value)
    ensures Selected(r + q, a + b, test, value)
  {
    var moved := Shifted(there, |a|);
    var at := here + moved;
    forall i: nat ensures i in at <==> i < |a + b| && test((a + b)[i]) {
      PickedAround(r, a, here, q, b, there, moved, test, value, i);
    }
    forall j, k | 0 <= j < k < |at| ensures at[j] < at[k] {
      if j < |here| <= k {
        assert at[j] == here[j] < |a|;
      }
    }
    forall k | 0 <= k < |at| ensures at[k] < |a + b| && (r + q)[k] == value((a + b)[at[k]]) {
      if k >= |here| {
        assert at[k] == there[k - |here|] + |a|;
      }
    }
    assert Picked(r + q, a + b, at, test, value);
  }

  lemma PickedAround<T, U>(r: seq<U>, a: seq<T>, here: seq<nat>, q: seq<U>, b: seq<T>, there: seq<nat>, moved: seq<nat>,
                           test: T -> bool, value: T -> U, i: nat)
    requires Picked(r, a, here, test, value) && Picked(q, b, there, test, value)
    requires i in moved <==> i >= |a| && i - |a| in there
    ensures i in here + moved <==> i < |a + b| && test((a + b)[i])
  {
    if i < |a| {
      assert (a + b)[i] == a[i];
    } else if i < |a + b| {
      assert (a + b)[i] == b[i - |a|];
    }
  }

  lemma SelectedConcat<T, U>(r: seq<U>, a: seq<T>, q: seq<U>, b: seq<T>, test: T -> bool, value: T -> U)
    requires Selected(r, a, test, value) && Selected(q, b, test, value)
    ensures Selected(r + q, a + b, test, value)
  {
    var here :| Picked(r, a, here, test, value);
    var there :| Picked(q, b, there, test, value);
    PickedConcat(r, a, here, q, b, there, test, value);
  }

  lemma SelectedCons<T, U>(x: T, r: seq<U>, items: seq<T>, test: T -> bool, value: T -> U)
    requires Selected(r, items, test, value)
    ensures Selected((if test(x) then [value(x)] else []) + r, [x] + items, test, value)
  {
    SelectedOne(x, test, value);
    SelectedConcat(if test(x) then [value(x)] else [], [x], r, items, test, value);
  }

  lemma SelectedSnoc<T, U>(r: seq<U>, items: seq<T>, x: T, test: T -> bool, value: T -> U)
    requires Selected(r, items, test, value)
    ensures Selected(r + (if test(x) then [value(x)] else []), items + [x], test, value)
  {
    SelectedOne(x, test, value);
    SelectedConcat(r, items, if test(x) then [value(x)] else [], [x], test, value);
  }

  function Positions(at: seq<nat>): set<nat> {
    set i | i in at
  }

  // As many as there are positions that pass.
  lemma SelectedCount<T, U>(r: seq<U>, items: seq<T>, test: T -> bool, value: T -> U)
    requires Selected(r, items, test, value)
    ensures |r| == |set i: nat | i < |items| && test(items[i])|
  {
    var at :| Picked(r, items, at, test, value);
    var passing := set i: nat | i < |items| && test(items[i]);
    forall i: nat ensures i in passing <==> i in Positions(at) {
    }
    assert passing == Positions(at);
    Ascending(at);
  }

  lemma {:induction false} Ascending(at: seq<nat>)
    requires forall j, k :: 0 <= j < k < |at| ==> at[j] < at[k]
    ensures |Positions(at)| == |at|
  {
    if at != [] {
      var n := |at| - 1;
      Ascending(at[..n]);
      assert Positions(at) == Positions(at[..n]) + {at[n]};
      assert at[n] !in at[..n];
    }
  }
}
