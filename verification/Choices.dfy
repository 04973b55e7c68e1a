/** caculate_all_choices of server/server/gamesvr/Combination.h: every way to choose n of the elements,
    found by moving one mark at a time. */
module Choices {
  /** Which elements are chosen. */
  type Mask = seq<bool>

  function Off(n: nat): (v: Mask)
    ensures |v| == n
  {
    seq(n, _ => false)
  }

  function On(n: nat): (v: Mask)
    ensures |v| == n
  {
    seq(n, _ => true)
  }

  function Count(v: Mask): (n: nat)
    ensures n <= |v|
  {
    if v == [] then 0 else Count(v[..|v| - 1]) + (if v[|v| - 1] then 1 else 0)
  }

  /** The chosen elements, in order. */
  function Select<T>(arr: seq<T>, v: Mask): (r: seq<T>)
    requires |arr| == |v|
    ensures |r| == Count(v)
  {
    if v == [] then []
    else
      var last := |v| - 1;
      Select(arr[..last], v[..last]) + (if v[last] then [arr[last]] else [])
  }

  function Extended(vs: seq<Mask>, b: bool): (r: seq<Mask>)
    ensures |r| == |vs| && forall k :: 0 <= k < |vs| ==> r[k] == vs[k] + [b]
  {
    seq(|vs|, k requires 0 <= k < |vs| => vs[k] + [b])
  }

  /** All masks of the given size with n marks: those without the last element, then those with it. */
  function Masks(size: nat, n: nat): (vs: seq<Mask>)
    requires n <= size
    ensures |vs| > 0
  {
    if n == 0 then [Off(size)]
    else if n == size then [On(size)]
    else Extended(Masks(size - 1, n), false) + Extended(Masks(size - 1, n - 1), true)
  }

  lemma MasksUnfolded(size: nat, n: nat)
    requires n <= size
    ensures Masks(size, n) == if n == 0 then [Off(size)]
                              else if n == size then [On(size)]
                              else Extended(Masks(size - 1, n), false) + Extended(Masks(size - 1, n - 1), true)
  {
    hide Off, On, Extended;
  }

  lemma MasksAt(size: nat, n: nat)
    requires n <= size
    ensures n == 0 ==> Masks(size, n) == [Off(size)]
    ensures n == size ==> Masks(size, n) == [On(size)]
    ensures 0 < n < size ==>
              var out, into := Masks(size - 1, n), Masks(size - 1, n - 1);
              && |Masks(size, n)| == |out| + |into|
              && (forall k :: 0 <= k < |out| ==> Masks(size, n)[k] == out[k] + [false])
              && (forall k :: |out| <= k < |Masks(size, n)| ==> Masks(size, n)[k] == into[k - |out|] + [true])
  {
    hide Masks, Extended;
    MasksUnfolded(size, n);
    assert Off(0) == On(0);
  }

  // ----- every mask once

  lemma CountOff(n: nat)
    ensures Count(Off(n)) == 0
  {
    if n > 0 {
      assert Off(n)[..n - 1] == Off(n - 1);
      CountOff(n - 1);
    }
  }

  lemma CountOn(n: nat)
    ensures Count(On(n)) == n
  {
    if n > 0 {
      assert On(n)[..n - 1] == On(n - 1);
      CountOn(n - 1);
    }
  }

  lemma CountAppend(v: Mask, b: bool)
    ensures Count(v + [b]) == Count(v) + (if b then 1 else 0)
  {
    assert (v + [b])[..|v|] == v;
  }

  lemma {:induction false} CountExtremes(v: Mask)
    ensures Count(v) == 0 ==> v == Off(|v|)
    ensures Count(v) == |v| ==> v == On(|v|)
  {
    if v != [] {
      CountExtremes(v[..|v| - 1]);
      assert v == v[..|v| - 1] + [v[|v| - 1]];
    }
  }

  lemma {:induction false} MasksSound(size: nat, n: nat, k: nat)
    requires n <= size && k < |Masks(size, n)|
    ensures |Masks(size, n)[k]| == size && Count(Masks(size, n)[k]) == n
  {
    hide Masks;
    MasksAt(size, n);
    if n == 0 {
      CountOff(size);
    } else if n == size {
      CountOn(size);
    } else {
      var m := |Masks(size - 1, n)|;
      if k < m {
        MasksSound(size - 1, n, k);
        CountAppend(Masks(size - 1, n)[k], false);
      } else {
        MasksSound(size - 1, n - 1, k - m);
        CountAppend(Masks(size - 1, n - 1)[k - m], true);
      }
    }
  }

  lemma {:induction false} MasksComplete(v: Mask) returns (k: nat)
    ensures k < |Masks(|v|, Count(v))| && Masks(|v|, Count(v))[k] == v
  {
    hide Masks;
    MasksAt(|v|, Count(v));
    CountExtremes(v);
    k := 0;
    if 0 < Count(v) < |v| {
      var w := v[..|v| - 1];
      assert v == w + [v[|v| - 1]];
      k := MasksComplete(w);
      if v[|v| - 1] {
        k := |Masks(|v| - 1, Count(v))| + k;
        assert Count(v) == Count(w) + 1;
      }
    }
  }

  lemma {:induction false} MasksDistinct(size: nat, n: nat, j: nat, k: nat)
    requires n <= size && j < k < |Masks(size, n)|
    ensures Masks(size, n)[j] != Masks(size, n)[k]
  {
    hide Masks;
    MasksAt(size, n);
    if 0 < n < size {
      var out, into := Masks(size - 1, n), Masks(size - 1, n - 1);
      var v, w := Masks(size, n)[j], Masks(size, n)[k];
      if k < |out| {
        MasksDistinct(size - 1, n, j, k);
        assert v[..|v| - 1] == out[j] && w[..|w| - 1] == out[k];
      } else if j >= |out| {
        MasksDistinct(size - 1, n - 1, j - |out|, k - |out|);
        assert v[..|v| - 1] == into[j - |out|] && w[..|w| - 1] == into[k - |out|];
      } else {
        assert !v[|v| - 1] && w[|w| - 1];
      }
    }
  }

  /** Every way to choose n of the elements is among the masks, and none twice. */
  lemma EveryChoiceOnce(size: nat, n: nat, v: Mask)
    requires n <= size
    ensures v in Masks(size, n) <==> |v| == size && Count(v) == n
    ensures forall j, k :: 0 <= j < k < |Masks(size, n)| ==> Masks(size, n)[j] != Masks(size, n)[k]
  {
    hide Masks;
    if v in Masks(size, n) {
      var k :| 0 <= k < |Masks(size, n)| && Masks(size, n)[k] == v;
      MasksSound(size, n, k);
    }
    if |v| == size && Count(v) == n {
      var k := MasksComplete(v);
    }
    forall j, k | 0 <= j < k < |Masks(size, n)|
      ensures Masks(size, n)[j] != Masks(size, n)[k]
    {
      MasksDistinct(size, n, j, k);
    }
  }

  // ----- one move

  /** The element at i is chosen and the one after it is not. */
  predicate StepAt(v: Mask, i: int) { 0 <= i && i + 1 < |v| && v[i] && !v[i + 1] }

  /** All marks to the front: what sorting in descending order does. */
  function MarksFirst(v: Mask): (r: Mask)
    ensures |r| == |v|
  {
    On(Count(v)) + Off(|v| - Count(v))
  }

  /** The move: the mark at i goes one place on and those before it go back to the front. */
  function Moved(v: Mask, i: nat): (r: Mask)
    requires i + 1 < |v|
    ensures |r| == |v|
  {
    MarksFirst(v[..i]) + [false, true] + v[i + 2..]
  }

  predicate FirstStep(v: Mask, i: int) { StepAt(v, i) && forall j :: 0 <= j < i ==> !StepAt(v, j) }

  lemma MovedAppend(v: Mask, i: nat, b: bool)
    requires FirstStep(v, i)
    ensures FirstStep(v + [b], i) && Moved(v + [b], i) == Moved(v, i) + [b]
  {
    assert (v + [b])[..i] == v[..i] && (v + [b])[i + 2..] == v[i + 2..] + [b];
    assert forall j :: 0 <= j < i ==> StepAt(v + [b], j) == StepAt(v, j);
  }

  lemma {:induction false} FirstAndLast(size: nat, n: nat)
    requires n <= size
    ensures Masks(size, n)[0] == On(n) + Off(size - n)
    ensures Masks(size, n)[|Masks(size, n)| - 1] == Off(size - n) + On(n)
  {
    hide Masks;
    MasksAt(size, n);
    if 0 < n < size {
      FirstAndLast(size - 1, n);
      FirstAndLast(size - 1, n - 1);
      assert Off(size - 1 - n) + [false] == Off(size - n);
      assert On(n - 1) + [true] == On(n);
    }
  }

  /** From the last mask without the new element to the first with it. */
  lemma MoveAcross(size: nat, n: nat)
    requires 0 < n < size
    ensures var v := Off(size - 1 - n) + On(n) + [false];
            FirstStep(v, size - 2) && Moved(v, size - 2) == On(n - 1) + Off(size - n) + [true]
  {
    var v := Off(size - 1 - n) + On(n) + [false];
    var head := Off(size - 1 - n) + On(n - 1);
    assert v[..size - 2] == head;
    CountOffOn(size - 1 - n, n - 1);
    assert MarksFirst(head) == On(n - 1) + Off(size - 1 - n);
    assert v[size..] == [] && Off(size - 1 - n) + [false] == Off(size - n);
  }

  lemma {:induction false} CountOffOn(off: nat, on: nat)
    ensures Count(Off(off) + On(on)) == on
  {
    if on == 0 {
      assert Off(off) + On(0) == Off(off);
      CountOff(off);
    } else {
      CountOffOn(off, on - 1);
      assert Off(off) + On(on) == (Off(off) + On(on - 1)) + [true];
      CountAppend(Off(off) + On(on - 1), true);
    }
  }

  lemma NoStepInLast(off: nat, on: nat)
    ensures forall i :: !StepAt(Off(off) + On(on), i)
  {
  }

  /** The move leads from each mask to the next, and the last one allows none. */
  lemma {:induction false} MoveIsNext(size: nat, n: nat, k: nat)
    requires n <= size && k < |Masks(size, n)|
    ensures var v := Masks(size, n)[k];
            if k + 1 < |Masks(size, n)| then
              exists i: nat :: FirstStep(v, i) && Moved(v, i) == Masks(size, n)[k + 1]
            else
              forall i :: !StepAt(v, i)
  {
    hide Masks, Moved;
    MasksAt(size, n);
    if k + 1 == |Masks(size, n)| {
      FirstAndLast(size, n);
      NoStepInLast(size - n, n);
    } else {
      var out, into := Masks(size - 1, n), Masks(size - 1, n - 1);
      if k + 1 < |out| {
        MoveIsNext(size - 1, n, k);
        var i: nat :| FirstStep(out[k], i) && Moved(out[k], i) == out[k + 1];
        MovedAppend(out[k], i, false);
        assert FirstStep(Masks(size, n)[k], i) && Moved(Masks(size, n)[k], i) == Masks(size, n)[k + 1];
      } else if k >= |out| {
        MoveIsNext(size - 1, n - 1, k - |out|);
        var w, next := into[k - |out|], into[k - |out| + 1];
        var i: nat :| FirstStep(w, i) && Moved(w, i) == next;
        MovedAppend(w, i, true);
        assert Masks(size, n)[k] == w + [true] && Masks(size, n)[k + 1] == next + [true];
      } else {
        FirstAndLast(size - 1, n);
        FirstAndLast(size - 1, n - 1);
        MoveAcross(size, n);
        assert FirstStep(Masks(size, n)[k], size - 2);
      }
    }
  }

  lemma FirstStepUnique(v: Mask, i: int, j: int)
    requires FirstStep(v, i) && FirstStep(v, j)
    ensures i == j
  {
  }

  // ----- the loop

  /** index_to_elem. */
  method IndexToElem<T>(arr: seq<T>, v: Mask) returns (r: seq<T>)
    requires |arr| == |v|
    ensures r == Select(arr, v)
  {
    r := [];
    for i := 0 to |v|
      invariant r == Select(arr[..i], v[..i])
    {
      assert arr[..i + 1][..i] == arr[..i] && v[..i + 1][..i] == v[..i];
      if v[i] { r := r + [arr[i]]; }
    }
    assert arr[..|v|] == arr && v[..|v|] == v;
  }

  function SelectEach<T>(arr: seq<T>, vs: seq<Mask>): (r: seq<seq<T>>)
    requires forall k :: 0 <= k < |vs| ==> |vs[k]| == |arr|
    ensures |r| == |vs| && forall k :: 0 <= k < |vs| ==> r[k] == Select(arr, vs[k])
  {
    seq(|vs|, k requires 0 <= k < |vs| => Select(arr, vs[k]))
  }

  lemma MasksSize(size: nat, n: nat)
    requires n <= size
    ensures forall k :: 0 <= k < |Masks(size, n)| ==> |Masks(size, n)[k]| == size && Count(Masks(size, n)[k]) == n
  {
    forall k | 0 <= k < |Masks(size, n)|
      ensures |Masks(size, n)[k]| == size && Count(Masks(size, n)[k]) == n
    {
      MasksSound(size, n, k);
    }
  }

  /** Every choice of n elements, none when there are fewer. */
  function Choose<T>(arr: seq<T>, n: nat): (r: seq<seq<T>>)
  {
    if |arr| < n then []
    else
      MasksSize(|arr|, n);
      SelectEach(arr, Masks(|arr|, n))
  }

  /** caculate_all_choices: from the first mask, move until no mark can. */
  method AllChoices<T>(arr: seq<T>, n: nat) returns (all: seq<seq<T>>)
    ensures all == Choose(arr, n)
  {
    hide Select, Moved, Masks;
    if |arr| < n { return []; }
    ghost var masks := Masks(|arr|, n);
    MasksSize(|arr|, n);
    FirstAndLast(|arr|, n);
    var v := On(n) + Off(|arr| - n);
    var choice := IndexToElem(arr, v);
    all := [choice];
    var i := 0;
    ghost var k := 0;
    while i < |arr| - 1
      invariant 0 <= i && 0 <= k < |masks| && |all| == k + 1
      invariant |v| == |arr| && v == masks[k] && forall j :: 0 <= j < i ==> !StepAt(v, j)
      invariant forall j :: 0 <= j <= k ==> all[j] == Select(arr, masks[j])
      invariant |arr| > 0 ==> i <= |arr| - 1
      decreases |masks| - k, |arr| - i
    {
      if v[i] && !v[i + 1] {
        MoveIsNext(|arr|, n, k);
        assert StepAt(v, i) && FirstStep(v, i);
        forall j | FirstStep(v, j) ensures j == i { FirstStepUnique(v, i, j); }
        v := Moved(v, i);
        k := k + 1;
        choice := IndexToElem(arr, v);
        all := all + [choice];
        i := -1;
      }
      i := i + 1;
    }
    MoveIsNext(|arr|, n, k);
    assert forall j :: !StepAt(v, j);
    assert all == SelectEach(arr, masks);
  }
}
