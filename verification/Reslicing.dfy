/** Taking a part of a strided region by an index of slices (prototype/hdf/hdf_array_iterator.py, __getitem__). */
module Reslicing {
  import opened Wrappers
  import opened Regions

  /** A slice object with any of its parts missing. */
  datatype Slice = Slice(start: Option<nat>, stop: Option<nat>, step: Option<nat>)

  datatype Item = Ellipsis | At(k: nat) | Part(s: Slice)

  const Everything := Slice(None, None, None)

  /** Some full slices; none when there is no room. */
  function Full(n: int): (s: seq<Slice>)
    ensures |s| == if n > 0 then n else 0
  {
    if n > 0 then seq(n, _ => Everything) else []
  }

  function Expand(index: seq<Item>, i: nat, fixed: seq<Slice>, length: int, dims: nat): seq<Slice>
    requires i <= |index|
    decreases |index| - i
  {
    if i == |index| then fixed
    else match index[i]
      case Ellipsis =>
        var more := fixed + Full(dims - length + 1);
        Expand(index, i + 1, more, |more|, dims)
      case At(k) => Expand(index, i + 1, fixed + [Slice(Some(k), Some(k + 1), Some(1))], length, dims)
      case Part(s) => Expand(index, i + 1, fixed + [s], length, dims)
  }

  /** One slice per dimension, from an index with an ellipsis or with too few items. */
  function FixedIndex(index: seq<Item>, dims: nat): (s: seq<Slice>)
    ensures |s| >= dims
  {
    var fixed := Expand(index, 0, [], |index|, dims);
    fixed + Full(dims - |fixed|)
  }

  predicate Plain(items: seq<Item>) { forall i | 0 <= i < |items| :: !items[i].Ellipsis? }

  function SliceOf(item: Item): Slice
    requires !item.Ellipsis?
  {
    if item.At? then Slice(Some(item.k), Some(item.k + 1), Some(1)) else item.s
  }

  function Slices(items: seq<Item>): (s: seq<Slice>)
    requires Plain(items)
    ensures |s| == |items|
  {
    seq(|items|, i requires 0 <= i < |items| && !items[i].Ellipsis? => SliceOf(items[i]))
  }

  lemma {:induction false} ExpandPlain(index: seq<Item>, i: nat, fixed: seq<Slice>, length: int, dims: nat)
    requires i <= |index| && Plain(index[i..])
    ensures Expand(index, i, fixed, length, dims) == fixed + Slices(index[i..])
    decreases |index| - i
  {
    if i < |index| {
      assert index[i..] == [index[i]] + index[i + 1..];
      assert index[i] == index[i..][0];
      assert Plain(index[i + 1..]);
      ExpandPlain(index, i + 1, fixed + [SliceOf(index[i])], length, dims);
      assert Slices(index[i..]) == [SliceOf(index[i])] + Slices(index[i + 1..]);
    } else {
      assert Slices(index[i..]) == [];
    }
  }

  lemma {:induction false} ExpandPrefix(index: seq<Item>, i: nat, k: nat, fixed: seq<Slice>, length: int, dims: nat)
    requires i <= k <= |index| && Plain(index[i..k])
    ensures Expand(index, i, fixed, length, dims) == Expand(index, k, fixed + Slices(index[i..k]), length, dims)
    decreases k - i
  {
    if i < k {
      assert index[i] == index[i..k][0];
      assert index[i..k] == [index[i]] + index[i + 1..k];
      assert Plain(index[i + 1..k]);
      ExpandPrefix(index, i + 1, k, fixed + [SliceOf(index[i])], length, dims);
      assert fixed + Slices(index[i..k]) == fixed + [SliceOf(index[i])] + Slices(index[i + 1..k]);
    } else {
      assert fixed + Slices(index[i..k]) == fixed;
    }
  }

  /** An ellipsis stands for as many full slices as there are dimensions left. */
  lemma EllipsisFills(before: seq<Item>, after: seq<Item>, dims: nat)
    requires Plain(before) && Plain(after) && |before| + |after| <= dims
    ensures FixedIndex(before + [Ellipsis] + after, dims)
      == Slices(before) + Full(dims - |before| - |after|) + Slices(after)
  {
    var index, k := before + [Ellipsis] + after, |before|;
    assert index[0..k] == before && index[k + 1..] == after;
    ExpandPrefix(index, 0, k, [], |index|, dims);
    assert [] + Slices(before) == Slices(before);
    var more := Slices(before) + Full(dims - |index| + 1);
    ExpandPlain(index, k + 1, more, |more|, dims);
  }

  /** An index with too few items is filled up at the end. */
  lemma ShortIndexFills(items: seq<Item>, dims: nat)
    requires Plain(items) && |items| <= dims
    ensures FixedIndex(items, dims) == Slices(items) + Full(dims - |items|)
  {
    assert items[0..] == items;
    ExpandPlain(items, 0, [], |items|, dims);
  }

  // ------------------------------------------------- one axis

  function Or(x: Option<nat>, other: int): int { if x.Some? && x.value != 0 then x.value else other }

  function NewStart(start: int, s: Slice): int { start + Or(s.start, 0) }

  function NewStop(start: int, stop: int, s: Slice): int {
    var bound := start + Or(s.stop, stop - start);
    if stop <= bound then stop else bound
  }

  function NewStep(step: int, s: Slice): (r: int)
    ensures step >= 1 ==> r >= 1
  {
    MulPositive(step, Or(s.step, 1));
    step * Or(s.step, 1)
  }

  lemma MulPositive(a: int, b: int)
    ensures a >= 1 && b >= 1 ==> a * b >= 1
  {
  }

  /** Slicing a list: its elements at start, start + step, and so on below stop and the end. */
  function SlicedList(xs: seq<int>, s: Slice): seq<int>
    requires s.step != Some(0)
  {
    Picked(xs, Axis(Or(s.start, 0), SliceStop(|xs|, s), Or(s.step, 1)))
  }

  /** Where the slice of a list of some length stops. */
  function SliceStop(length: nat, s: Slice): nat {
    if s.stop.Some? && s.stop.value < length then s.stop.value else length
  }

  /** The elements of a list at some positions. */
  function Picked(xs: seq<int>, at: seq<int>): seq<int> {
    seq(|at|, i requires 0 <= i < |at| => if 0 <= at[i] < |xs| then xs[at[i]] else 0)
  }

  lemma {:induction false} UnitAxis(start: int, stop: int)
    ensures |Axis(start, stop, 1)| == if start < stop then stop - start else 0
    ensures forall i | 0 <= i < |Axis(start, stop, 1)| :: Axis(start, stop, 1)[i] == start + i
    decreases if start < stop then stop - start else 0
  {
    if start < stop { UnitAxis(start + 1, stop); }
  }

  lemma {:induction false} ShiftedAxis(d: int, start: int, stop: int, step: int)
    requires step >= 1
    ensures var a, b := Axis(start, stop, step), Axis(d + start, d + stop, step);
      |a| == |b| && forall i | 0 <= i < |a| :: b[i] == d + a[i] && start <= a[i] < stop
    decreases if start < stop then stop - start else 0
  {
    if start < stop { ShiftedAxis(d, start + step, stop, step); }
  }

  /**
   * A part of an axis with unit step is the slice of its positions, exactly unless the slice stops at 0
   * with positions left to take: a stop of 0 counts as none.
   */
  lemma PartOfAxis(start: int, stop: int, s: Slice)
    requires s.step != Some(0)
    ensures Axis(NewStart(start, s), NewStop(start, stop, s), NewStep(1, s)) == SlicedList(Axis(start, stop, 1), s)
      <==> !(s.stop == Some(0) && NewStart(start, s) < stop)
  {
    if s.stop == Some(0) { PartIfZero(start, stop, s); } else { PartUnlessZero(start, stop, s); }
  }

  lemma PartIfZero(start: int, stop: int, s: Slice)
    requires s.stop == Some(0) && s.step != Some(0)
    ensures NewStop(start, stop, s) == stop && SlicedList(Axis(start, stop, 1), s) == []
  {
    assert Axis(Or(s.start, 0), 0, Or(s.step, 1)) == [];
  }

  lemma PartUnlessZero(start: int, stop: int, s: Slice)
    requires s.stop != Some(0) && s.step != Some(0)
    ensures SlicedList(Axis(start, stop, 1), s) == Axis(NewStart(start, s), NewStop(start, stop, s), NewStep(1, s))
  {
    var a, c := Or(s.start, 0), Or(s.step, 1);
    var b := SliceStop(|Axis(start, stop, 1)|, s);
    assert NewStart(start, s) == start + a && NewStep(1, s) == c;
    calc {
      SlicedList(Axis(start, stop, 1), s);
      Picked(Axis(start, stop, 1), Axis(a, b, c));
      { PickedIsShifted(start, stop, a, b, c); }
      Axis(start + a, start + b, c);
      { UnitLength(start, stop); PartStops(start, stop, s, b); SameAxis(start + a, start
          + b, NewStop(start, stop, s), c); }
      Axis(start + a, NewStop(start, stop, s), c);
    }
  }

  lemma UnitLength(start: int, stop: int)
    ensures |Axis(start, stop, 1)| == if start < stop then stop - start else 0
  {
    UnitAxis(start, stop);
  }

  /** An axis that stops where it starts, or before, is empty. */
  lemma SameAxis(start: int, stop: int, stop': int, step: int)
    requires step >= 1 && (stop == stop' || (stop <= start && stop' <= start))
    ensures Axis(start, stop, step) == Axis(start, stop', step)
  {
  }

  /** A part stops where its slice does, or is empty. */
  lemma PartStops(start: int, stop: int, s: Slice, b: nat)
    requires s.stop != Some(0)
    requires var n := if start < stop then stop - start else 0;
      b == SliceStop(n, s)
    ensures NewStop(start, stop, s) == start + b || (NewStop(start, stop, s) <= start && b == 0)
  {
  }

  lemma PickedIsShifted(start: int, stop: int, a: nat, b: nat, c: int)
    requires c >= 1 && b <= |Axis(start, stop, 1)|
    ensures Picked(Axis(start, stop, 1), Axis(a, b, c)) == Axis(start + a, start + b, c)
  {
    UnitAxis(start, stop);
    ShiftedAxis(start, a, b, c);
  }

  // ------------------------------------------------- all dimensions

  /** The index tuples with an element of each list in turn, the first varying slowest. */
  function Product(axes: seq<seq<int>>, d: nat): seq<seq<int>>
    requires d <= |axes|
    decreases |axes| - d
  {
    if d == |axes| then [[]] else Prefixed(axes[d], Product(axes, d + 1))
  }

  lemma {:induction false} TuplesAreProduct(reg: Region, axes: seq<seq<int>>, d: nat)
    requires reg.Valid() && |axes| == |reg.start| && d <= |axes|
    requires forall i | d <= i < |axes| :: reg.AxisAt(i) == axes[i]
    ensures reg.TuplesFrom(d) == Product(axes, d)
    decreases |axes| - d
  {
    if d < |axes| { TuplesAreProduct(reg, axes, d + 1); }
  }

  /** The positions of each dimension of a region, sliced as lists are. */
  function SlicedAxes(reg: Region, slices: seq<Slice>): seq<seq<int>>
    requires reg.Valid() && |slices| >= |reg.start| && forall i | 0 <= i < |slices| :: slices[i].step != Some(0)
  {
    seq(|reg.start|, i requires 0 <= i < |reg.start| => SlicedList(reg.AxisAt(i), slices[i]))
  }

  /** A region with unit steps and slices that PartOfAxis takes as they are. */
  ghost predicate Sliceable(reg: Region, slices: seq<Slice>) {
    && reg.Valid() && |slices| >= |reg.start|
    && (forall i | 0 <= i < |slices| :: slices[i].step != Some(0))
    && forall i | 0 <= i < |reg.start| ::
         reg.step[i] == 1 && !(slices[i].stop == Some(0) && NewStart(reg.start[i], slices[i]) < reg.stop[i])
  }

  /** The part of a region that an index selects. */
  ghost predicate IsPart(part: Region, reg: Region, slices: seq<Slice>) {
    && reg.Valid() && part.Valid() && |part.start| == |reg.start| <= |slices|
    && forall i | 0 <= i < |reg.start| ::
         && part.start[i] == NewStart(reg.start[i], slices[i])
         && part.stop[i] == NewStop(reg.start[i], reg.stop[i], slices[i])
         && part.step[i] == NewStep(reg.step[i], slices[i])
  }

  /** Its index tuples are those of the region with every dimension sliced. */
  lemma PartOfRegion(part: Region, reg: Region, slices: seq<Slice>)
    requires IsPart(part, reg, slices) && Sliceable(reg, slices)
    ensures part.Tuples() == Product(SlicedAxes(reg, slices), 0)
  {
    forall i | 0 <= i < |reg.start| ensures part.AxisAt(i) == SlicedAxes(reg, slices)[i] {
      PartOfAxis(reg.start[i], reg.stop[i], slices[i]);
    }
    TuplesAreProduct(part, SlicedAxes(reg, slices), 0);
  }
}
