/** Strided n-dimensional regions and their index tuples in row-major order. */
module Regions {
  import opened Arithmetic

  /** The positions start, start+step, ... below stop of one axis. */
  function Axis(start: int, stop: int, step: int): (r: seq<int>)
    requires step >= 1
    decreases if start < stop then stop - start else 0
  {
    if start >= stop then [] else [start] + Axis(start + step, stop, step)
  }

  /** The number of positions as the source computes it: max(0, (stop-start-1)//step + 1). */
  function AxisLength(start: int, stop: int, step: int): nat
    requires step >= 1
  {
    var n := (stop - start - 1) / step + 1;
    if n > 0 then n else 0
  }

  function Cons(x: int, ts: seq<seq<int>>): (r: seq<seq<int>>)
    ensures |r| == |ts|
  {
    seq(|ts|, i requires 0 <= i < |ts| => [x] + ts[i])
  }

  /** Every element of xs in front of every tuple of ts, the elements of xs varying slowest. */
  function Prefixed(xs: seq<int>, ts: seq<seq<int>>): seq<seq<int>> {
    if xs == [] then [] else Cons(xs[0], ts) + Prefixed(xs[1..], ts)
  }

  /** A tuple of slice objects, one per dimension. */
  datatype Region = Region(start: seq<int>, stop: seq<int>, step: seq<int>) {
    ghost predicate Valid() {
      && |start| == |stop| == |step|
      && forall i | 0 <= i < |step| :: step[i] >= 1
    }

    function AxisAt(d: nat): seq<int>
      requires Valid() && d < |start|
    {
      Axis(start[d], stop[d], step[d])
    }

    /** The index tuples of dimensions d and above in row-major order. */
    function TuplesFrom(d: nat): seq<seq<int>>
      requires Valid() && d <= |start|
      decreases |start| - d
    {
      if d == |start| then [[]] else Prefixed(AxisAt(d), TuplesFrom(d + 1))
    }

    /** All index tuples of the region in row-major order. */
    function Tuples(): seq<seq<int>>
      requires Valid()
    {
      TuplesFrom(0)
    }

    function Shape(): (r: seq<int>)
      requires Valid()
      ensures |r| == |start|
    {
      seq(|start|, i requires 0 <= i < |start| => AxisLength(start[i], stop[i], step[i]))
    }

    /** shape holds the number of positions of each axis. */
    ghost predicate HasShape(shape: seq<int>)
      requires Valid()
    {
      |shape| == |start| && forall d | 0 <= d < |start| :: shape[d] == |AxisAt(d)|
    }

    ghost predicate Has(t: seq<int>, d: nat)
      requires Valid() && d <= |start|
    {
      && |t| == |start| - d
      && forall k | 0 <= k < |t| :: start[d + k] <= t[k] < stop[d + k] && (t[k] - start[d + k]) % step[d + k] == 0
    }
  }

  /** The product of the entries from index d on. */
  function ProductFrom(xs: seq<int>, d: nat): int
    requires d <= |xs|
    decreases |xs| - d
  {
    if d == |xs| then 1 else xs[d] * ProductFrom(xs, d + 1)
  }

  ghost predicate LexLess(a: seq<int>, b: seq<int>) {
    |a| == |b| > 0 && (a[0] < b[0] || (a[0] == b[0] && LexLess(a[1..], b[1..])))
  }

  /** Lexicographic: the first position where two tuples differ decides. */
  lemma {:induction false} LexLessIs(a: seq<int>, b: seq<int>)
    requires |a| == |b|
    ensures LexLess(a, b) <==> exists k :: 0 <= k < |a| && a[..k] == b[..k] && a[k] < b[k]
    decreases |a|
  {
    if a != [] {
      LexLessIs(a[1..], b[1..]);
      if a[0] < b[0] { assert a[..0] == b[..0]; }
      if k :| a[0] == b[0] && 0 <= k < |a| - 1 && a[1..][..k] == b[1..][..k] && a[1..][k] < b[1..][k] {
        assert a[..k + 1] == [a[0]] + a[1..][..k] && b[..k + 1] == [b[0]] + b[1..][..k];
      }
      if k :| 0 < k < |a| && a[..k] == b[..k] && a[k] < b[k] {
        assert a[0] == a[..k][0] == b[..k][0] == b[0];
        assert a[1..][..k - 1] == a[..k][1..] && b[1..][..k - 1] == b[..k][1..];
      }
    }
  }

  // ---------------------------------------------------------------- one axis

  lemma {:induction false} AxisHas(x: int, start: int, stop: int, step: int)
    requires step >= 1
    ensures x in Axis(start, stop, step) <==> start <= x < stop && (x - start) % step == 0
    decreases if start < stop then stop - start else 0
  {
    if start < stop {
      AxisHas(x, start + step, stop, step);
      assert x in Axis(start, stop, step) <==> x == start || x in Axis(start + step, stop, step);
      if x >= start + step {
        ModShift(x - start, step);
      } else if x > start {
        SmallMod(x - start, step);
      }
    }
  }

  lemma {:induction false} AxisSorted(start: int, stop: int, step: int)
    requires step >= 1
    ensures forall i, j | 0 <= i < j < |Axis(start, stop, step)| ::
      Axis(start, stop, step)[i] < Axis(start, stop, step)[j]
    decreases if start < stop then stop - start else 0
  {
    if start < stop {
      AxisSorted(start + step, stop, step);
      var rest := Axis(start + step, stop, step);
      forall j | 0 <= j < |rest| ensures start < rest[j] {
        AxisHas(rest[j], start + step, stop, step);
      }
    }
  }

  lemma {:induction false} AxisCount(start: int, stop: int, step: int)
    requires step >= 1
    ensures |Axis(start, stop, step)| == AxisLength(start, stop, step)
    decreases if start < stop then stop - start else 0
  {
    var d := stop - start - 1;
    assert d == (d / step) * step + d % step;
    if start < stop {
      AxisCount(start + step, stop, step);
      ModUnique(d - step, step, d / step - 1, d % step);
      assert d / step >= 0;
    } else {
      assert d / step < 0;
    }
  }

  /** An axis read up to a later position of the same progression, and then from there. */
  lemma {:induction false} AxisSplit(start: int, mid: int, stop: int, step: int, n: nat)
    requires step >= 1
    requires mid == start + n * step
    requires mid <= stop
    ensures Axis(start, stop, step) == Axis(start, mid, step) + Axis(mid, stop, step)
    decreases n
  {
    if n > 0 {
      assert n * step == (n - 1) * step + step;
      assert (n - 1) * step >= 0;
      AxisSplit(start + step, mid, stop, step, n - 1);
      assert start < mid;
    } else {
      assert Axis(start, mid, step) == [];
    }
  }

  lemma {:induction false} AxisAtMost(start: int, stop: int, step: int, n: nat)
    requires step >= 1 && stop <= start + n * step
    ensures |Axis(start, stop, step)| <= n
    decreases n
  {
    if start < stop {
      assert n > 0;
      assert n * step == (n - 1) * step + step;
      AxisAtMost(start + step, stop, step, n - 1);
    }
  }

  lemma {:induction false} AxisExact(start: int, step: int, n: nat)
    requires step >= 1
    ensures |Axis(start, start + n * step, step)| == n
    decreases n
  {
    if n > 0 {
      assert n * step == (n - 1) * step + step;
      MulLe(1, n, step);
      AxisExact(start + step, step, n - 1);
    }
  }

  /** As many steps as there are positions lead past the end of an axis. */
  lemma {:induction false} WholeAxis(start: int, stop: int, step: int)
    requires step >= 1
    ensures start + |Axis(start, stop, step)| * step >= stop
    decreases if start < stop then stop - start else 0
  {
    if start < stop {
      WholeAxis(start + step, stop, step);
      var n := |Axis(start + step, stop, step)|;
      assert (n + 1) * step == n * step + step;
    }
  }

  // ---------------------------------------------------------------- products

  lemma {:induction false} PrefixedAppend(xs: seq<int>, ys: seq<int>, ts: seq<seq<int>>)
    ensures Prefixed(xs + ys, ts) == Prefixed(xs, ts) + Prefixed(ys, ts)
  {
    if xs == [] {
      assert xs + ys == ys;
    } else {
      PrefixedAppend(xs[1..], ys, ts);
      var all := xs + ys;
      assert all[0] == xs[0] && all[1..] == xs[1..] + ys;
      AppendAssociative(Cons(xs[0], ts), Prefixed(xs[1..], ts), Prefixed(ys, ts));
    }
  }

  lemma AppendAssociative<T>(a: seq<T>, b: seq<T>, c: seq<T>)
    ensures (a + b) + c == a + (b + c)
  {
  }

  lemma {:induction false} PrefixedLength(xs: seq<int>, ts: seq<seq<int>>)
    ensures |Prefixed(xs, ts)| == |xs| * |ts|
  {
    if xs != [] {
      PrefixedLength(xs[1..], ts);
      assert |xs| * |ts| == |ts| + (|xs| - 1) * |ts|;
    }
  }

  lemma {:induction false} PrefixedHas(t: seq<int>, xs: seq<int>, ts: seq<seq<int>>)
    ensures t in Prefixed(xs, ts) <==> |t| > 0 && t[0] in xs && t[1..] in ts
  {
    if xs != [] {
      PrefixedHas(t, xs[1..], ts);
      var c := Cons(xs[0], ts);
      if |t| > 0 && t[0] == xs[0] && t[1..] in ts {
        var i :| 0 <= i < |ts| && ts[i] == t[1..];
        assert c[i] == t;
      }
      if t in c {
        var i :| 0 <= i < |c| && c[i] == t;
        assert t == [xs[0]] + ts[i];
        assert t[1..] == ts[i];
      }
      assert xs == [xs[0]] + xs[1..];
    }
  }

  lemma {:induction false} PrefixedSorted(xs: seq<int>, ts: seq<seq<int>>, n: nat)
    requires forall i, j | 0 <= i < j < |xs| :: xs[i] < xs[j]
    requires forall t | t in ts :: |t| == n
    requires forall i, j | 0 <= i < j < |ts| :: LexLess(ts[i], ts[j])
    ensures forall i, j | 0 <= i < j < |Prefixed(xs, ts)| :: LexLess(Prefixed(xs, ts)[i], Prefixed(xs, ts)[j])
    ensures forall t | t in Prefixed(xs, ts) :: |t| == n + 1
  {
    if xs != [] {
      var c, rest := Cons(xs[0], ts), Prefixed(xs[1..], ts);
      PrefixedSorted(xs[1..], ts, n);
      forall i, j | 0 <= i < j < |c| ensures LexLess(c[i], c[j]) {
        assert c[i][1..] == ts[i] && c[j][1..] == ts[j];
      }
      forall i, j | 0 <= i < |c| && 0 <= j < |rest| ensures LexLess(c[i], rest[j]) {
        PrefixedHas(rest[j], xs[1..], ts);
        assert rest[j] in rest;
        assert |rest[j]| == n + 1 && |c[i]| == n + 1;
      }
    }
  }

  lemma HasHead(t: seq<int>, reg: Region, d: nat)
    requires reg.Valid() && d < |reg.start|
    ensures reg.Has(t, d) <==>
      && |t| > 0 && reg.start[d] <= t[0] < reg.stop[d] && (t[0] - reg.start[d]) % reg.step[d] == 0
      && reg.Has(t[1..], d + 1)
  {
    if |t| > 0 {
      assert forall k | 0 <= k < |t| - 1 :: t[1..][k] == t[k + 1];
      if reg.Has(t, d) {
        forall k | 0 <= k < |t| - 1
          ensures reg.start[d + 1 + k] <= t[1..][k] < reg.stop[d + 1 + k]
          ensures (t[1..][k] - reg.start[d + 1 + k]) % reg.step[d + 1 + k] == 0
        {
          assert reg.start[d + (k + 1)] <= t[k + 1];
        }
      }
      if reg.Has(t[1..], d + 1) && reg.start[d] <= t[0] < reg.stop[d] && (t[0] - reg.start[d]) % reg.step[d] == 0 {
        forall k | 0 <= k < |t|
          ensures reg.start[d + k] <= t[k] < reg.stop[d + k]
          ensures (t[k] - reg.start[d + k]) % reg.step[d + k] == 0
        {
          if k > 0 { assert t[1..][k - 1] == t[k] && d + k == d + 1 + (k - 1); }
        }
      }
    }
  }

  /** The tuples of a region are exactly the index tuples inside it ... */
  lemma {:induction false} TuplesHas(t: seq<int>, reg: Region, d: nat)
    requires reg.Valid() && d <= |reg.start|
    ensures t in reg.TuplesFrom(d) <==> reg.Has(t, d)
    decreases |reg.start| - d
  {
    if d < |reg.start| {
      PrefixedHas(t, reg.AxisAt(d), reg.TuplesFrom(d + 1));
      HasHead(t, reg, d);
      if |t| > 0 {
        AxisHas(t[0], reg.start[d], reg.stop[d], reg.step[d]);
        TuplesHas(t[1..], reg, d + 1);
      }
    }
  }

  /** ... each once, in increasing lexicographic (row-major) order. */
  lemma {:induction false} TuplesSorted(reg: Region, d: nat)
    requires reg.Valid() && d <= |reg.start|
    ensures var ts := reg.TuplesFrom(d);
      && (forall t | t in ts :: |t| == |reg.start| - d)
      && (forall i, j | 0 <= i < j < |ts| :: LexLess(ts[i], ts[j]))
    decreases |reg.start| - d
  {
    if d < |reg.start| {
      TuplesSorted(reg, d + 1);
      AxisSorted(reg.start[d], reg.stop[d], reg.step[d]);
      PrefixedSorted(reg.AxisAt(d), reg.TuplesFrom(d + 1), |reg.start| - d - 1);
    }
  }

  lemma ShapeCounts(reg: Region)
    requires reg.Valid()
    ensures reg.HasShape(reg.Shape())
  {
    forall d | 0 <= d < |reg.start| ensures reg.Shape()[d] == |reg.AxisAt(d)| {
      AxisCount(reg.start[d], reg.stop[d], reg.step[d]);
    }
  }

  lemma {:induction false} TuplesCount(reg: Region, shape: seq<int>, d: nat)
    requires reg.Valid() && reg.HasShape(shape) && d <= |reg.start|
    ensures |reg.TuplesFrom(d)| == ProductFrom(shape, d)
    decreases |reg.start| - d
  {
    if d < |reg.start| {
      TuplesCount(reg, shape, d + 1);
      PrefixedLength(reg.AxisAt(d), reg.TuplesFrom(d + 1));
    }
  }

  lemma {:induction false} DegenerateTuples(reg: Region, d: nat, i: nat)
    requires reg.Valid()
    requires d <= i < |reg.start| && reg.stop[i] <= reg.start[i]
    ensures reg.TuplesFrom(d) == []
    decreases i - d
  {
    if d < i {
      DegenerateTuples(reg, d + 1, i);
      PrefixedLength(reg.AxisAt(d), []);
    }
  }

  /** Regions that agree from dimension d on have the same tuples there. */
  lemma {:induction false} TuplesAgree(a: Region, b: Region, d: nat)
    requires a.Valid() && b.Valid() && |a.start| == |b.start| && d <= |a.start|
    requires forall i | d <= i < |a.start| ::
      a.start[i] == b.start[i] && a.stop[i] == b.stop[i] && a.step[i] == b.step[i]
    ensures a.TuplesFrom(d) == b.TuplesFrom(d)
    decreases |a.start| - d
  {
    if d < |a.start| { TuplesAgree(a, b, d + 1); }
  }
}
