/** Python slicing on lists, as the program applies it to beat arrays and
    sample buffers. */
module Slicing {

  /** Python's `s[offset::step]` for `step >= 1` and `offset >= 0`: the
      elements at indices offset, offset + step, offset + 2*step, ... */
  function Stride<T>(s: seq<T>, offset: nat, step: nat): seq<T>
    requires step >= 1
    decreases |s| - offset
  {
    if offset >= |s| then [] else [s[offset]] + Stride(s, offset + step, step)
  }

  /** Index `k` of the stride selection exists exactly when element
      `offset + k*step` of the input exists, and then it is that element. */
  lemma {:induction false} StrideIndex<T>(s: seq<T>, offset: nat, step: nat, k: nat)
    requires step >= 1
    ensures k < |Stride(s, offset, step)| <==> offset + k * step < |s|
    ensures k < |Stride(s, offset, step)| ==> Stride(s, offset, step)[k] == s[offset + k * step]
    decreases |s| - offset
  {
    if offset < |s| && k > 0 {
      StrideIndex(s, offset + step, step, k - 1);
      assert offset + k * step == (offset + step) + (k - 1) * step;
    }
  }

  /** The whole selection, index by index. */
  lemma StrideAt<T>(s: seq<T>, offset: nat, step: nat)
    requires step >= 1
    ensures forall k: nat :: k < |Stride(s, offset, step)| <==> offset + k * step < |s|
    ensures forall k: nat :: k < |Stride(s, offset, step)| ==>
              Stride(s, offset, step)[k] == s[offset + k * step]
  {
    forall k: nat
      ensures k < |Stride(s, offset, step)| <==> offset + k * step < |s|
      ensures k < |Stride(s, offset, step)| ==> Stride(s, offset, step)[k] == s[offset + k * step]
    {
      StrideIndex(s, offset, step, k);
    }
  }

  /** A selection starting past the end is empty rather than an error. */
  lemma StrideOutOfRange<T>(s: seq<T>, offset: nat, step: nat)
    requires step >= 1 && offset >= |s|
    ensures Stride(s, offset, step) == []
  {
  }

  /** `s[0::1]` is the whole list. */
  lemma {:induction false} StrideIdentity<T>(s: seq<T>)
    ensures Stride(s, 0, 1) == s
  {
    var r := Stride(s, 0, 1);
    StrideIndex(s, 0, 1, |r|);
    StrideIndex(s, 0, 1, |s|);
    forall k | 0 <= k < |r| ensures r[k] == s[k] {
      StrideIndex(s, 0, 1, k);
    }
  }

  /** One index of a slice of a slice. */
  lemma {:induction false} StrideOfStrideIndex<T>(s: seq<T>, o1: nat, e1: nat, o2: nat, e2: nat, k: nat)
    requires e1 >= 1 && e2 >= 1
    ensures k < |Stride(Stride(s, o1, e1), o2, e2)| <==> k < |Stride(s, o1 + Product(o2, e1), Product(e1, e2))|
    ensures k < |Stride(Stride(s, o1, e1), o2, e2)| ==>
              Stride(Stride(s, o1, e1), o2, e2)[k] == Stride(s, o1 + Product(o2, e1), Product(e1, e2))[k]
  {
    var t := Stride(s, o1, e1);
    var j: nat := o2 + Product(k, e2);
    StrideIndex(t, o2, e2, k);
    StrideIndex(s, o1, e1, j);
    StrideIndex(s, o1 + Product(o2, e1), Product(e1, e2), k);
    ComposedIndex(o2, e1, e2, k);
  }

  /** Slicing a slice: `s[o1::e1][o2::e2] == s[o1 + o2*e1 :: e1*e2]`. */
  lemma StrideOfStride<T>(s: seq<T>, o1: nat, e1: nat, o2: nat, e2: nat)
    requires e1 >= 1 && e2 >= 1
    ensures Stride(Stride(s, o1, e1), o2, e2) == Stride(s, o1 + Product(o2, e1), Product(e1, e2))
  {
    var lhs := Stride(Stride(s, o1, e1), o2, e2);
    var rhs := Stride(s, o1 + Product(o2, e1), Product(e1, e2));
    StrideOfStrideIndex(s, o1, e1, o2, e2, |lhs|);
    StrideOfStrideIndex(s, o1, e1, o2, e2, |rhs|);
    SameElements(lhs, rhs, s, o1, e1, o2, e2);
  }

  lemma SameElements<T>(lhs: seq<T>, rhs: seq<T>, s: seq<T>, o1: nat, e1: nat, o2: nat, e2: nat)
    requires e1 >= 1 && e2 >= 1
    requires lhs == Stride(Stride(s, o1, e1), o2, e2)
    requires rhs == Stride(s, o1 + Product(o2, e1), Product(e1, e2))
    requires |lhs| == |rhs|
    ensures lhs == rhs
  {
    forall k | 0 <= k < |lhs| ensures lhs[k] == rhs[k] {
      StrideOfStrideIndex(s, o1, e1, o2, e2, k);
    }
  }

  lemma ComposedIndex(o2: nat, e1: nat, e2: nat, k: nat)
    ensures (o2 + k * e2) * e1 == o2 * e1 + k * (e1 * e2)
  {
    calc {
      (o2 + k * e2) * e1;
      o2 * e1 + (k * e2) * e1;
      { assert (k * e2) * e1 == k * (e2 * e1) == k * (e1 * e2); }
      o2 * e1 + k * (e1 * e2);
    }
  }

  /** The product of two counts, as a count: the step and the offset of a
      slice of a slice. */
  function Product(a: nat, b: nat): (r: nat)
    ensures a >= 1 && b >= 1 ==> r >= 1
  {
    a * b
  }

  /** Every selected element comes from the input. */
  lemma StrideElementsFromInput<T>(s: seq<T>, offset: nat, step: nat)
    requires step >= 1
    ensures forall x :: x in Stride(s, offset, step) ==> x in s
  {
    forall x | x in Stride(s, offset, step) ensures x in s {
      var k :| 0 <= k < |Stride(s, offset, step)| && Stride(s, offset, step)[k] == x;
      StrideIndex(s, offset, step, k);
    }
  }

  /** With a step of one the selection is everything from the offset on:
      `s[offset::1] == s[offset:]`. */
  lemma {:induction false} StrideStepOne<T>(s: seq<T>, offset: nat)
    ensures Stride(s, offset, 1) == Slice(s, offset, |s|)
    decreases |s| - offset
  {
    if offset < |s| {
      StrideStepOne(s, offset + 1);
      assert Slice(s, offset, |s|) == [s[offset]] + Slice(s, offset + 1, |s|);
    }
  }

  ghost predicate StrictlyIncreasing(s: seq<real>) {
    forall i, j :: 0 <= i < j < |s| ==> s[i] < s[j]
  }

  /** A stride selection of strictly increasing beat times is strictly
      increasing. */
  lemma {:induction false} StrideKeepsIncreasing(s: seq<real>, offset: nat, step: nat)
    requires step >= 1 && StrictlyIncreasing(s)
    ensures StrictlyIncreasing(Stride(s, offset, step))
    decreases |s| - offset
  {
    if offset < |s| {
      var t := Stride(s, offset + step, step);
      StrideKeepsIncreasing(s, offset + step, step);
      StrideIndex(s, offset + step, step, 0);
      assert Stride(s, offset, step) == [s[offset]] + t;
    }
  }

  /** Python's `s[i:j]` for non-negative bounds: both are clamped to the
      length, and an inverted range is empty. */
  function Slice<T>(s: seq<T>, i: nat, j: nat): (r: seq<T>)
    ensures |r| == if i < j && i < |s| then Min(j, |s|) - i else 0
    ensures forall k :: 0 <= k < |r| ==> r[k] == s[i + k]
  {
    if i < j && i < |s| then s[i..Min(j, |s|)] else []
  }

  function Min(a: nat, b: nat): nat {
    if a <= b then a else b
  }
}
