/** Blocked reading of a strided n-dimensional region (prototype/hdf/hdf_array_iterator.py, ArrayIterator). */
module ArrayBlocks {
  import opened Arithmetic
  import opened Wrappers
  import opened Regions
  import opened Reslicing

  /** A variable that supports n-dimensional slices. */
  datatype Variable<!T> = Variable(shape: seq<nat>, at: seq<int> -> T)

  function Values<T>(at: seq<int> -> T, ts: seq<seq<int>>): (r: seq<T>)
    ensures |r| == |ts|
  {
    seq(|ts|, i requires 0 <= i < |ts| => at(ts[i]))
  }

  function Flatten<T>(blocks: seq<seq<T>>): seq<T> {
    if blocks == [] then [] else Flatten(blocks[..|blocks| - 1]) + blocks[|blocks| - 1]
  }

  function Min(a: int, b: int): int { if a <= b then a else b }

  // ------------------------------------------------- what one pass over the dimensions computes

  ghost predicate PositiveShape(shape: seq<int>) {
    |shape| >= 1 && forall i | 0 <= i < |shape| :: shape[i] >= 1
  }

  /** The element count left over for dimensions below i once dimensions i and above are dealt with. */
  ghost function CountAbove(shape: seq<int>, count: nat, i: nat): nat
    requires PositiveShape(shape) && i <= |shape|
    decreases |shape| - i
  {
    if i == |shape| then count else CountAbove(shape, count, i + 1) / shape[i]
  }

  /** The running dimension among 0..i: the highest one that the count left over does not cover, or 0. */
  ghost function RunDim(shape: seq<int>, count: nat, i: nat): (r: nat)
    requires PositiveShape(shape) && i < |shape|
    ensures r <= i
  {
    if i == 0 || CountAbove(shape, count, i + 1) < shape[i] then i else RunDim(shape, count, i - 1)
  }

  lemma {:induction false} RunDimHas(shape: seq<int>, count: nat, i: nat, j: nat)
    requires PositiveShape(shape) && i < |shape| && j <= i
    ensures var r := RunDim(shape, count, i);
      && (j == r && r > 0 ==> CountAbove(shape, count, j + 1) < shape[j])
      && (j > r ==> CountAbove(shape, count, j + 1) >= shape[j])
  {
    if i > 0 && j < i && RunDim(shape, count, i) != i { RunDimHas(shape, count, i - 1, j); }
  }

  ghost function RunningDimension(shape: seq<int>, count: nat): (r: nat)
    requires PositiveShape(shape)
    ensures r < |shape|
  {
    RunDim(shape, count, |shape| - 1)
  }

  lemma {:induction false} CountsBelow(shape: seq<int>, count: nat, i: nat)
    requires PositiveShape(shape)
    requires i <= RunningDimension(shape, count)
    requires RunningDimension(shape, count) > 0
    ensures CountAbove(shape, count, i) == 0
    decreases RunningDimension(shape, count) - i
  {
    if i < RunningDimension(shape, count) {
      CountsBelow(shape, count, i + 1);
    } else {
      RunDimHas(shape, count, |shape| - 1, i);
      ZeroQuotient(CountAbove(shape, count, i + 1), shape[i]);
    }
  }

  lemma {:induction false} CountPositive(shape: seq<int>, count: nat, i: nat)
    requires PositiveShape(shape) && count >= 1
    requires RunningDimension(shape, count) < i <= |shape|
    ensures CountAbove(shape, count, i) >= 1
    decreases |shape| - i
  {
    if i < |shape| {
      CountPositive(shape, count, i + 1);
      RunDimHas(shape, count, |shape| - 1, i);
    }
  }

  lemma ZeroQuotient(c: nat, s: int)
    requires c < s
    ensures c / s == 0
  {
  }

  /** Whole dimensions from i up hold at most count / CountAbove(i) elements. */
  lemma {:induction false} CountBounds(shape: seq<int>, count: nat, i: nat)
    requires PositiveShape(shape) && i <= |shape|
    ensures CountAbove(shape, count, i) * ProductFrom(shape, i) <= count
    ensures ProductFrom(shape, i) >= 1
    decreases |shape| - i
  {
    if i < |shape| {
      CountBounds(shape, count, i + 1);
      DivideOut(CountAbove(shape, count, i + 1), shape[i], ProductFrom(shape, i + 1));
    }
  }

  /** One more than CountAbove(i) would not fit. */
  lemma {:induction false} CountExact(shape: seq<int>, count: nat, i: nat)
    requires PositiveShape(shape) && i <= |shape|
    ensures (CountAbove(shape, count, i) + 1) * ProductFrom(shape, i) > count
    decreases |shape| - i
  {
    if i < |shape| {
      CountExact(shape, count, i + 1);
      CountBounds(shape, count, i + 1);
      DivideUp(CountAbove(shape, count, i + 1), shape[i], ProductFrom(shape, i + 1));
    }
  }

  lemma DivideUp(c: nat, s: int, p: int)
    requires s >= 1 && p >= 1
    ensures (c / s + 1) * (s * p) >= (c + 1) * p
  {
    assert c + 1 <= (c / s + 1) * s;
    MulLe(c + 1, (c / s + 1) * s, p);
    assert ((c / s + 1) * s) * p == (c / s + 1) * (s * p);
  }

  lemma DivideOut(c: nat, s: int, p: int)
    requires s >= 1 && p >= 1
    ensures (c / s) * (s * p) <= c * p
    ensures s * p >= 1
  {
    assert (c / s) * s <= c;
    MulLe((c / s) * s, c, p);
    assert ((c / s) * s) * p == (c / s) * (s * p);
    MulLe(1, s, p);
  }

  // ------------------------------------------------- positions, blocks and what is left to read

  /** cur is a position of the region from dimension d on. */
  ghost predicate Within(cur: seq<int>, reg: Region, d: nat) {
    && reg.Valid() && |cur| == |reg.start|
    && forall i | d <= i < |cur| :: reg.start[i] <= cur[i] < reg.stop[i]
  }

  /** The tuples of dimensions d and above at or after position cur, in row-major order. */
  ghost function Remaining(cur: seq<int>, reg: Region, d: nat): seq<seq<int>>
    requires reg.Valid() && |cur| == |reg.start| && d <= |cur|
    decreases |cur| - d
  {
    if d == |cur| then [[]]
    else
      Cons(cur[d], Remaining(cur, reg, d + 1))
      + Prefixed(Axis(cur[d] + reg.step[d], reg.stop[d], reg.step[d]), reg.TuplesFrom(d + 1))
  }

  lemma {:induction false} RemainingAtStart(cur: seq<int>, reg: Region, d: nat)
    requires Within(cur, reg, d) && d <= |cur|
    requires forall i | d <= i < |cur| :: cur[i] == reg.start[i]
    ensures Remaining(cur, reg, d) == reg.TuplesFrom(d)
    decreases |cur| - d
  {
    if d < |cur| {
      RemainingAtStart(cur, reg, d + 1);
      RemainingHead(cur, reg, d);
    }
  }

  /** When dimensions above d are at their start, dimension d is simply read on from cur[d]. */
  lemma RemainingHead(cur: seq<int>, reg: Region, d: nat)
    requires reg.Valid() && |cur| == |reg.start| && d < |cur| && cur[d] < reg.stop[d]
    requires Remaining(cur, reg, d + 1) == reg.TuplesFrom(d + 1)
    ensures Remaining(cur, reg, d) == Prefixed(Axis(cur[d], reg.stop[d], reg.step[d]), reg.TuplesFrom(d + 1))
  {
    var xs := Axis(cur[d], reg.stop[d], reg.step[d]);
    assert xs[0] == cur[d] && xs[1..] == Axis(cur[d] + reg.step[d], reg.stop[d], reg.step[d]);
  }

  /** The block [cur, bstop) from dimension d on: one position below the running dimension r, everything above it. */
  ghost predicate IsBlock(block: Region, reg: Region, d: nat, r: nat) {
    && Within(block.start, reg, d) && |block.stop| == |reg.start| && block.step == reg.step && d <= r < |reg.start|
    && (forall i | d <= i < r :: block.stop[i] == block.start[i] + 1)
    && block.start[r] < block.stop[r] <= reg.stop[r]
    && (block.stop[r] < reg.stop[r] ==> OnAxis(block.start[r], block.stop[r], reg.step[r]))
    && (forall i | r < i < |reg.start| :: block.start[i] == reg.start[i] && block.stop[i] == reg.stop[i])
  }

  ghost predicate OnAxis(from: int, to: int, step: int) {
    exists n: nat :: to == from + n * step
  }

  ghost function CarryOne(c: seq<int>, i: nat, reg: Region): (r: seq<int>)
    requires reg.Valid() && |c| == |reg.start| && 0 < i < |c|
    ensures |r| == |c|
  {
    if c[i] >= reg.stop[i] then c[i := reg.start[i]][i - 1 := c[i - 1] + reg.step[i - 1]] else c
  }

  /** The carry loop, from the fastest dimension down into dimension d. */
  ghost function Carry(c: seq<int>, d: nat, reg: Region): (r: seq<int>)
    requires reg.Valid() && |c| == |reg.start| && d < |c|
    ensures |r| == |c|
    ensures r[..d] == c[..d]
    decreases |c| - d
  {
    if d == |c| - 1 then c else CarryOne(Carry(c, d + 1, reg), d + 1, reg)
  }

  /** What is left after a position that may have run off the end of dimension d. */
  ghost function Rest(cur: seq<int>, reg: Region, d: nat): seq<seq<int>>
    requires reg.Valid() && |cur| == |reg.start| && d < |cur|
  {
    if cur[d] >= reg.stop[d] then [] else Remaining(cur, reg, d)
  }

  /** The position after a block: carried into dimension d, and back at the start above the running dimension. */
  ghost predicate Carried(next: seq<int>, reg: Region, d: nat, r: nat) {
    && reg.Valid() && |next| == |reg.start| && d <= r < |next|
    && reg.start[d] <= next[d]
    && Within(next, reg, d + 1)
    && (forall i | r < i < |next| :: next[i] == reg.start[i])
    && (next[d] >= reg.stop[d] ==> forall i | d < i < |next| :: next[i] == reg.start[i])
  }

  /** One pass: the block is a prefix of what is left, and the carried position stands for the rest. */
  lemma {:induction false} Pass(block: Region, reg: Region, d: nat, r: nat)
    requires IsBlock(block, reg, d, r)
    ensures var next := Carry(block.start[r := block.stop[r]], d, reg);
      && Carried(next, reg, d, r)
      && Remaining(block.start, reg, d) == block.TuplesFrom(d) + Rest(next, reg, d)
    decreases r - d
  {
    var c := block.start[r := block.stop[r]];
    if d == r {
      NoCarry(c, r, reg);
      PassHere(block, reg, r);
    } else {
      Pass(block, reg, d + 1, r);
      assert c[..d + 1] == block.start[..d + 1];
      PassBelow(block, reg, d, r, Carry(c, d + 1, reg));
    }
  }

  lemma {:induction false} NoCarry(c: seq<int>, d: nat, reg: Region)
    requires reg.Valid() && |c| == |reg.start| && d < |c|
    requires forall j | d < j < |c| :: c[j] < reg.stop[j]
    ensures Carry(c, d, reg) == c
    decreases |c| - d
  {
    if d < |c| - 1 { NoCarry(c, d + 1, reg); }
  }

  lemma PassHere(block: Region, reg: Region, d: nat)
    requires IsBlock(block, reg, d, d)
    ensures Remaining(block.start, reg, d)
         == block.TuplesFrom(d) + Rest(block.start[d := block.stop[d]], reg, d)
  {
    var cur, mid, stop, step := block.start, block.stop[d], reg.stop[d], reg.step[d];
    var ts := reg.TuplesFrom(d + 1);
    TuplesAgree(block, reg, d + 1);
    RemainingAxis(cur, reg, d);
    if mid < stop {
      var n: nat :| mid == cur[d] + n * step;
      AxisSplit(cur[d], mid, stop, step, n);
      PrefixedAppend(Axis(cur[d], mid, step), Axis(mid, stop, step), ts);
      RemainingAxis(cur[d := mid], reg, d);
    }
  }

  /** At the start of the dimensions below, what is left is the rest of the axis with all tuples below. */
  lemma RemainingAxis(cur: seq<int>, reg: Region, d: nat)
    requires reg.Valid() && |cur| == |reg.start| && d < |cur| && cur[d] < reg.stop[d]
    requires forall i | d < i < |cur| :: cur[i] == reg.start[i] < reg.stop[i]
    ensures Remaining(cur, reg, d) == Prefixed(Axis(cur[d], reg.stop[d], reg.step[d]), reg.TuplesFrom(d + 1))
  {
    RemainingAtStart(cur, reg, d + 1);
    RemainingHead(cur, reg, d);
  }

  lemma PassBelow(block: Region, reg: Region, d: nat, r: nat, t: seq<int>)
    requires IsBlock(block, reg, d, r) && d < r
    requires Carried(t, reg, d + 1, r) && t[..d + 1] == block.start[..d + 1]
    requires Remaining(block.start, reg, d + 1) == block.TuplesFrom(d + 1) + Rest(t, reg, d + 1)
    ensures var next := CarryOne(t, d + 1, reg);
      && Carried(next, reg, d, r)
      && Remaining(block.start, reg, d) == block.TuplesFrom(d) + Rest(next, reg, d)
  {
    var x := block.start[d];
    assert t[d] == t[..d + 1][d] == block.start[..d + 1][d] == x;
    CarryInto(t, reg, d, r);
    CarriedRest(t, reg, d, r);
    OnePosition(block, d);
    ConsInFront(x, block.TuplesFrom(d + 1), Rest(t, reg, d + 1),
      Prefixed(Axis(x + reg.step[d], reg.stop[d], reg.step[d]), reg.TuplesFrom(d + 1)));
  }

  lemma ConsInFront(x: int, a: seq<seq<int>>, b: seq<seq<int>>, c: seq<seq<int>>)
    ensures Cons(x, a + b) + c == Cons(x, a) + (Cons(x, b) + c)
  {
    ConsAppend(x, a, b);
  }

  lemma ConsAppend(x: int, a: seq<seq<int>>, b: seq<seq<int>>)
    ensures Cons(x, a + b) == Cons(x, a) + Cons(x, b)
  {
  }

  lemma CarryInto(t: seq<int>, reg: Region, d: nat, r: nat)
    requires Carried(t, reg, d + 1, r) && reg.start[d] <= t[d] < reg.stop[d]
    requires forall i | d < i < |t| :: reg.start[i] < reg.stop[i]
    ensures Carried(CarryOne(t, d + 1, reg), reg, d, r)
  {
  }

  /** What is left after the carry out of dimension d + 1: the rest there under t[d], then everything after t[d]. */
  lemma CarriedRest(t: seq<int>, reg: Region, d: nat, r: nat)
    requires Carried(t, reg, d + 1, r) && t[d] < reg.stop[d]
    requires forall i | d < i < |t| :: reg.start[i] < reg.stop[i]
    ensures Rest(CarryOne(t, d + 1, reg), reg, d) == Cons(t[d], Rest(t, reg, d + 1))
         + Prefixed(Axis(t[d] + reg.step[d], reg.stop[d], reg.step[d]), reg.TuplesFrom(d + 1))
  {
    if t[d + 1] >= reg.stop[d + 1] {
      Overflow(CarryOne(t, d + 1, reg), reg, d, t[d]);
    } else {
      RestWithin(t, reg, d);
    }
  }

  lemma RestWithin(t: seq<int>, reg: Region, d: nat)
    requires reg.Valid() && |t| == |reg.start| && d + 1 < |t| && t[d] < reg.stop[d] && t[d + 1] < reg.stop[d + 1]
    ensures CarryOne(t, d + 1, reg) == t
    ensures Rest(t, reg, d) == Cons(t[d], Rest(t, reg, d + 1))
         + Prefixed(Axis(t[d] + reg.step[d], reg.stop[d], reg.step[d]), reg.TuplesFrom(d + 1))
  {
  }

  lemma Overflow(next: seq<int>, reg: Region, d: nat, x: int)
    requires reg.Valid() && |next| == |reg.start| && d < |next|
    requires forall i | d < i < |next| :: next[i] == reg.start[i] < reg.stop[i]
    requires next[d] == x + reg.step[d]
    ensures Rest(next, reg, d)
      == Cons(x, []) + Prefixed(Axis(x + reg.step[d], reg.stop[d], reg.step[d]), reg.TuplesFrom(d + 1))
  {
    assert Cons(x, []) == [];
    if next[d] < reg.stop[d] {
      RemainingAtStart(next, reg, d + 1);
      RemainingHead(next, reg, d);
    }
  }

  lemma OnePosition(block: Region, d: nat)
    requires block.Valid() && d < |block.start| && block.stop[d] == block.start[d] + 1
    ensures block.TuplesFrom(d) == Cons(block.start[d], block.TuplesFrom(d + 1))
  {
    var ts := block.TuplesFrom(d + 1);
    assert Axis(block.start[d] + block.step[d], block.stop[d], block.step[d]) == [];
    assert block.AxisAt(d) == [block.start[d]];
    assert Prefixed([block.start[d]], ts) == Cons(block.start[d], ts) + Prefixed([], ts);
  }

  /** A block holds the positions read along the running axis times the whole dimensions above it. */
  lemma {:induction false} BlockCount(block: Region, reg: Region, shape: seq<int>, d: nat, r: nat)
    requires IsBlock(block, reg, d, r) && reg.HasShape(shape)
    ensures |block.TuplesFrom(d)| == |block.AxisAt(r)| * ProductFrom(shape, r + 1)
    decreases r - d
  {
    if d == r {
      TuplesAgree(block, reg, d + 1);
      TuplesCount(reg, shape, d + 1);
      PrefixedLength(block.AxisAt(d), block.TuplesFrom(d + 1));
    } else {
      OnePosition(block, d);
      BlockCount(block, reg, shape, d + 1, r);
    }
  }

  /** Where the running dimension of a block at position cur stops, for a left-over count. */
  ghost function RunStop(cur: int, stop: int, step: int, len: int, count: nat): int {
    if count <= len then Min(stop, cur + count * step) else stop
  }

  /**
   * The slice bounds that the scan gives a block at position cur, for dimensions i and above:
   * r is the running dimension and c the count left over for it.
   */
  ghost predicate Scanned(cur: seq<int>, bstop: seq<int>, reg: Region, len: int, r: nat, c: nat, i: nat) {
    && reg.Valid() && |bstop| == |cur| == |reg.start| && r < |cur|
    && (forall j | i <= j < r :: bstop[j] == cur[j] + 1)
    && (forall j | i <= j < |cur| && r < j :: bstop[j] == reg.stop[j])
    && (i <= r ==> bstop[r] == RunStop(cur[r], reg.stop[r], reg.step[r], len, c))
  }

  /** The scan has dealt with dimensions i and above. */
  ghost predicate Scanning(cur: seq<int>, bstop: seq<int>, reg: Region, shape: seq<int>, count0: nat, count: int,
                           rundim: nat, i: nat)
  {
    && PositiveShape(shape) && |shape| == |cur| && i <= |cur| && count0 >= 1
    && count == CountAbove(shape, count0, i)
    && (var r := RunningDimension(shape, count0);
        Scanned(cur, bstop, reg, shape[r], r, CountAbove(shape, count0, r + 1), i) && (r >= i ==> rundim == r))
    && (count >= 2 ==> rundim == 0)
  }

  /** What the scan makes of dimension i. */
  lemma ScanStep(cur: seq<int>, bstop: seq<int>, reg: Region, shape: seq<int>, count0: nat, count: int, rundim: nat,
                 i: nat)
    requires i < |cur| && Scanning(cur, bstop, reg, shape, count0, count, rundim, i + 1)
    requires reg.Valid() && reg.HasShape(shape) && Within(cur, reg, 0)
    requires forall j | RunningDimension(shape, count0) < j < |cur| :: cur[j] == reg.start[j]
    ensures var bound := if count
      == 0 then cur[i] + 1 else if count <= shape[i] then cur[i] + count * reg.step[i] else reg.stop[i];
      Scanning(cur, bstop[i := Min(reg.stop[i], bound)], reg, shape, count0, count / shape[i],
        if 0 < count <= shape[i] then i else rundim, i)
  {
    CountCases(reg, shape, count0, i);
  }

  lemma ScannedIsBlock(block: Region, reg: Region, shape: seq<int>, count: nat, r: nat, c: nat)
    requires Within(block.start, reg, 0) && block.step == reg.step && r < |block.start|
    requires reg.HasShape(shape)
    requires forall j | r < j < |reg.start| :: block.start[j] == reg.start[j]
    requires Scanned(block.start, block.stop, reg, shape[r], r, c, 0)
    requires c >= 1 && ProductFrom(shape, r + 1) >= 1 && c * ProductFrom(shape, r + 1) <= count
    requires (c + 1) * ProductFrom(shape, r + 1) > count
    ensures IsBlock(block, reg, 0, r)
    ensures 1 <= |block.Tuples()| <= count && Fills(block, reg, r, count)
  {
    RunningPart(block.start[r], reg.start[r], reg.stop[r], reg.step[r], c);
    assert shape[r] == |reg.AxisAt(r)|;
    BlockCount(block, reg, shape, 0, r);
    TuplesCount(reg, shape, r + 1);
    Between(|block.AxisAt(r)|, c, ProductFrom(shape, r + 1), count);
  }

  /** A block that does not reach the end of its running dimension could not hold one more position of it. */
  ghost predicate Fills(block: Region, reg: Region, r: nat, count: nat) {
    && block.Valid() && reg.Valid() && r < |block.stop| == |reg.stop|
    && (block.stop[r] == reg.stop[r] || |block.Tuples()| + |reg.TuplesFrom(r + 1)| > count)
  }

  /** The dimensions above the running one fit into a block whole, and unless it is the first, it does not too. */
  ghost predicate RunsAlong(reg: Region, r: nat, count: nat) {
    && reg.Valid() && r < |reg.start|
    && |reg.TuplesFrom(r + 1)| <= count && (r > 0 ==> |reg.TuplesFrom(r)| > count)
  }

  lemma RunningFits(reg: Region, shape: seq<int>, count: nat)
    requires reg.Valid() && reg.HasShape(shape) && PositiveShape(shape) && count >= 1
    ensures RunsAlong(reg, RunningDimension(shape, count), count)
  {
    var r := RunningDimension(shape, count);
    var c, p := CountAbove(shape, count, r + 1), ProductFrom(shape, r + 1);
    CountPositive(shape, count, r + 1);
    CountBounds(shape, count, r + 1);
    CountExact(shape, count, r + 1);
    RunDimHas(shape, count, |shape| - 1, r);
    MulLe(1, c, p);
    if r > 0 { MulLe(c + 1, shape[r], p); }
    TuplesCount(reg, shape, r);
    TuplesCount(reg, shape, r + 1);
  }

  lemma Between(n: int, c: int, p: int, count: int)
    requires 1 <= n <= c && p >= 1 && c * p <= count
    ensures 1 <= n * p <= count
  {
    MulLe(n, c, p);
    MulLe(1, n, p);
  }

  lemma RunningPart(cur: int, start: int, stop: int, step: int, c: nat)
    requires step >= 1 && start <= cur < stop && c >= 1
    ensures var b := RunStop(cur, stop, step, |Axis(start, stop, step)|, c);
      && cur < b <= stop && (b < stop ==> OnAxis(cur, b, step))
      && 1 <= |Axis(cur, b, step)| <= c && (b < stop ==> |Axis(cur, b, step)| == c)
  {
    var len := |Axis(start, stop, step)|;
    var b := RunStop(cur, stop, step, len, c);
    MulLe(1, c, step);
    if c <= len {
      AxisAtMost(cur, b, step, c);
      AxisExact(cur, step, c);
    } else {
      WholeAxis(start, stop, step);
      AxisAtMost(cur, b, step, len);
    }
  }

  lemma SmallQuotient(c: nat, len: int)
    requires len >= 1 && c <= len
    ensures c / len < 2
  {
    var q := c / len;
    assert q * len <= c;
    if q >= 2 { MulLe(2, q, len); }
  }

  /** What the scan finds in dimension i above, at and below the running dimension. */
  lemma CountCases(reg: Region, shape: seq<int>, count: nat, i: nat)
    requires reg.Valid() && reg.HasShape(shape)
    requires PositiveShape(shape) && count >= 1 && i < |shape|
    ensures var r, c := RunningDimension(shape, count), CountAbove(shape, count, i + 1);
      && (i < r ==> c == 0)
      && (i == r ==> c >= 1 && (c <= shape[i] || r == 0))
      && (i > r ==> c >= shape[i] && reg.start[i] + shape[i] * reg.step[i] >= reg.stop[i])
      && (c <= shape[i] ==> c / shape[i] < 2)
  {
    var r, c := RunningDimension(shape, count), CountAbove(shape, count, i + 1);
    RunDimHas(shape, count, |shape| - 1, i);
    assert shape[i] == |reg.AxisAt(i)|;
    WholeAxis(reg.start[i], reg.stop[i], reg.step[i]);
    if c <= shape[i] { SmallQuotient(c, shape[i]); }
    if i < r { CountsBelow(shape, count, i + 1); } else { CountPositive(shape, count, i + 1); }
  }

  lemma FlattenSnoc<T>(blocks: seq<seq<T>>, b: seq<T>)
    ensures Flatten(blocks + [b]) == Flatten(blocks) + b
  {
    assert (blocks + [b])[..|blocks|] == blocks;
  }

  lemma {:induction false} PositiveProduct(shape: seq<int>, d: nat)
    requires PositiveShape(shape) && d <= |shape|
    ensures ProductFrom(shape, d) >= 1
    decreases |shape| - d
  {
    if d < |shape| {
      PositiveProduct(shape, d + 1);
      MulLe(1, shape[d], ProductFrom(shape, d + 1));
    }
  }

  // ------------------------------------------------- the iterator

  /** The region that covers a whole variable. */
  function Whole(shape: seq<nat>): (r: Region)
    ensures r.Valid() && |r.start| == |shape|
  {
    Region(seq(|shape|, i => 0), shape, seq(|shape|, i => 1))
  }

  ghost predicate BlockOf<T>(at: seq<int> -> T, slice: Region, block: seq<T>, reg: Region, r: nat, count: nat) {
    && IsBlock(slice, reg, 0, r)
    && block == Values(at, slice.Tuples())
    && 1 <= |block| <= count && Fills(slice, reg, r, count)
  }

  /** The blocks that the slices give: all run along one dimension, and hold as much of it as the buffer can. */
  ghost predicate Blocked<T>(at: seq<int> -> T, slices: seq<Region>, blocks: seq<seq<T>>, reg: Region, count: nat) {
    && |slices| == |blocks|
    && (slices != [] ==>
          exists r :: RunsAlong(reg, r, count) && forall k | 0 <= k < |slices| ::
            BlockOf(at, slices[k], blocks[k], reg, r, count))
  }

  /** The tuples in done have been yielded, those from cur on are left. */
  ghost predicate Underway<T>(at: seq<int> -> T, slices: seq<Region>, blocks: seq<seq<T>>, done: seq<seq<int>>,
                                    cur: seq<int>, reg: Region, r: nat, count: nat) {
    && Within(cur, reg, 0) && |cur| > 0
    && (forall j | r < j < |cur| :: cur[j] == reg.start[j])
    && Yielded(at, slices, blocks, done, reg, r, count)
    && done + Remaining(cur, reg, 0) == reg.Tuples()
  }

  ghost predicate Yielded<T>(at: seq<int> -> T, slices: seq<Region>, blocks: seq<seq<T>>, done: seq<seq<int>>,
                                   reg: Region, r: nat, count: nat) {
    && |slices| == |blocks|
    && Flatten(blocks) == Values(at, done)
    && forall k | 0 <= k < |slices| :: BlockOf(at, slices[k], blocks[k], reg, r, count)
  }

  lemma WalkStarts<T>(at: seq<int> -> T, reg: Region, r: nat, count: nat)
    requires Within(reg.start, reg, 0) && |reg.start| > 0
    ensures Underway(at, [], [], [], reg.start, reg, r, count)
  {
    RemainingAtStart(reg.start, reg, 0);
    assert Values(at, []) == [];
    assert [] + reg.Tuples() == reg.Tuples();
  }

  lemma WalkStep<T>(at: seq<int> -> T, slices: seq<Region>, blocks: seq<seq<T>>, done: seq<seq<int>>,
                    slice: Region, reg: Region, r: nat, count: nat, next: seq<int>)
    requires Underway(at, slices, blocks, done, slice.start, reg, r, count)
    requires IsBlock(slice, reg, 0, r) && 1 <= |slice.Tuples()| <= count && Fills(slice, reg, r, count)
    requires next == Carry(slice.start[r := slice.stop[r]], 0, reg)
    ensures var slices', blocks', done' := slices + [slice], blocks + [Values(at, slice.Tuples())], done
      + slice.Tuples();
      && Yielded(at, slices', blocks', done', reg, r, count)
      && (next[0] >= reg.stop[0] ==> done' == reg.Tuples())
      && (next[0] < reg.stop[0] ==>
            Underway(at, slices', blocks', done', next, reg, r, count)
            && |Remaining(next, reg, 0)| < |Remaining(slice.start, reg, 0)|)
  {
    var ts := slice.Tuples();
    YieldOne(at, slices, blocks, done, slice, reg, r, count);
    Pass(slice, reg, 0, r);
    Regroup(done, ts, Rest(next, reg, 0), Remaining(slice.start, reg, 0));
  }

  lemma Regroup(done: seq<seq<int>>, ts: seq<seq<int>>, rest: seq<seq<int>>, remaining: seq<seq<int>>)
    requires remaining == ts + rest
    ensures done + remaining == (done + ts) + rest
    ensures |remaining| == |ts| + |rest|
    ensures rest == [] ==> done + remaining == done + ts
  {
  }

  lemma YieldOne<T>(at: seq<int> -> T, slices: seq<Region>, blocks: seq<seq<T>>, done: seq<seq<int>>,
                    slice: Region, reg: Region, r: nat, count: nat)
    requires Yielded(at, slices, blocks, done, reg, r, count)
    requires IsBlock(slice, reg, 0, r) && 1 <= |slice.Tuples()| <= count && Fills(slice, reg, r, count)
    ensures Yielded(at, slices + [slice], blocks + [Values(at, slice.Tuples())], done + slice.Tuples(), reg, r, count)
  {
    FlattenSnoc(blocks, Values(at, slice.Tuples()));
    ValuesAppend(at, done, slice.Tuples());
    assert BlockOf(at, slice, Values(at, slice.Tuples()), reg, r, count);
  }

  lemma BlockedAlong<T>(at: seq<int> -> T, slices: seq<Region>, blocks: seq<seq<T>>, reg: Region, count: nat)
    returns (r: nat)
    requires Blocked(at, slices, blocks, reg, count)
    ensures forall k | 0 <= k < |slices| :: BlockOf(at, slices[k], blocks[k], reg, r, count)
    ensures forall k | 0 <= k < |blocks| :: 1 <= |blocks[k]| <= count
  {
    if slices == [] {
      r := 0;
    } else {
      r :| RunsAlong(reg, r, count) && forall k | 0 <= k < |slices| ::
          BlockOf(at, slices[k], blocks[k], reg, r, count);
    }
  }

  lemma NoneToRead<T>(at: seq<int> -> T, reg: Region, shape: seq<int>)
    requires reg.Valid() && reg.HasShape(shape) && exists i :: 0 <= i < |shape| && shape[i] <= 0
    ensures reg.Tuples() == [] && Values(at, reg.Tuples()) == []
  {
    var i :| 0 <= i < |shape| && shape[i] <= 0;
    assert |reg.AxisAt(i)| <= 0;
    DegenerateTuples(reg, 0, i);
  }

  lemma AllPositive(reg: Region, shape: seq<int>)
    requires reg.Valid() && reg.HasShape(shape) && |shape| > 0 && forall i | 0 <= i < |shape| :: shape[i] > 0
    ensures Within(reg.start, reg, 0) && PositiveShape(shape)
    ensures |reg.Tuples()| == ProductFrom(shape, 0) >= 1
  {
    forall i | 0 <= i < |shape| ensures reg.start[i] < reg.stop[i] { assert |reg.AxisAt(i)| > 0; }
    PositiveProduct(shape, 0);
    TuplesCount(reg, shape, 0);
  }

  lemma WalkedBlocks<T>(at: seq<int> -> T, slices: seq<Region>, blocks: seq<seq<T>>, reg: Region, shape: seq<int>,
                        count: nat)
    requires reg.Valid() && reg.HasShape(shape) && PositiveShape(shape) && count >= 1
    requires |slices| == |blocks| > 0 && slices[0].start == reg.start && Flatten(blocks) == Values(at, reg.Tuples())
    requires forall k | 0 <= k < |slices| ::
      BlockOf(at, slices[k], blocks[k], reg, RunningDimension(shape, count), count)
    ensures Blocked(at, slices, blocks, reg, count)
    ensures forall k | 0 <= k < |blocks| :: 1 <= |blocks[k]| <= count
    ensures count == |reg.Tuples()| ==> |blocks| == 1
  {
    RunningFits(reg, shape, count);
    if count == |reg.Tuples()| { OneBlock(at, slices, blocks, reg, RunningDimension(shape, count)); }
  }

  /** With room for everything the first block takes everything. */
  lemma OneBlock<T>(at: seq<int> -> T, slices: seq<Region>, blocks: seq<seq<T>>, reg: Region, r: nat)
    requires reg.Valid() && |slices| == |blocks| > 0 && slices[0].start == reg.start
    requires Flatten(blocks) == Values(at, reg.Tuples()) && RunsAlong(reg, r, |reg.Tuples()|)
    requires forall k | 0 <= k < |blocks| :: BlockOf(at, slices[k], blocks[k], reg, r, |reg.Tuples()|)
    ensures |blocks| == 1
  {
    var first := slices[0];
    assert BlockOf(at, first, blocks[0], reg, r, |reg.Tuples()|);
    FirstTakesAll(first, reg, r);
    forall k | 0 <= k < |blocks| ensures |blocks[k]| >= 1 {
      assert BlockOf(at, slices[k], blocks[k], reg, r, |reg.Tuples()|);
    }
    FlattenAtLeast(blocks);
  }

  lemma FirstTakesAll(first: Region, reg: Region, r: nat)
    requires IsBlock(first, reg, 0, r) && first.start == reg.start
    requires RunsAlong(reg, r, |reg.Tuples()|) && Fills(first, reg, r, |reg.Tuples()|)
    ensures |first.Tuples()| == |reg.Tuples()|
  {
    var shape := reg.Shape();
    ShapeCounts(reg);
    RunsAlongFirst(reg, shape, r);
    BlockCount(first, reg, shape, 0, 0);
    TuplesCount(reg, shape, 0);
    if first.stop[0] < reg.stop[0] { StopsShort(first, reg, shape); }
  }

  lemma RunsAlongFirst(reg: Region, shape: seq<int>, r: nat)
    requires reg.Valid() && reg.HasShape(shape) && (forall i | 0 <= i < |reg.start| :: reg.start[i] < reg.stop[i])
    requires RunsAlong(reg, r, |reg.Tuples()|)
    ensures r == 0 && ProductFrom(shape, 1) >= 1
  {
    forall i | 0 <= i < |reg.start| ensures shape[i] >= 1 { assert shape[i] == |reg.AxisAt(i)|; }
    TuplesCount(reg, shape, 0);
    TuplesCount(reg, shape, r);
    ProductShrinks(shape, r);
    ProductShrinks(shape, 1);
  }

  /** A block that stops short leaves room for one more position. */
  lemma StopsShort(first: Region, reg: Region, shape: seq<int>)
    requires IsBlock(first, reg, 0, 0) && first.start == reg.start && first.stop[0] < reg.stop[0]
    requires reg.HasShape(shape) && ProductFrom(shape, 1) >= 1
    ensures |first.Tuples()| + |reg.TuplesFrom(1)| <= |reg.Tuples()|
  {
    var n: nat :| first.stop[0] == reg.start[0] + n * reg.step[0];
    AxisSplit(reg.start[0], first.stop[0], reg.stop[0], reg.step[0], n);
    BlockCount(first, reg, shape, 0, 0);
    TuplesCount(reg, shape, 0);
    TuplesCount(reg, shape, 1);
    OneMore(|first.AxisAt(0)|, shape[0], ProductFrom(shape, 1));
  }

  lemma OneMore(n: nat, m: int, p: int)
    requires n < m && p >= 1
    ensures n * p + p <= m * p
  {
    MulLe(n + 1, m, p);
  }

  lemma {:induction false} ProductShrinks(shape: seq<int>, d: nat)
    requires PositiveShape(shape) && d <= |shape|
    ensures 1 <= ProductFrom(shape, d) <= ProductFrom(shape, 0)
  {
    PositiveProduct(shape, d);
    if d > 0 {
      ProductShrinks(shape, d - 1);
      MulLe(1, shape[d - 1], ProductFrom(shape, d));
    }
  }

  lemma {:induction false} FlattenAtLeast<T>(blocks: seq<seq<T>>)
    requires blocks != [] && forall k | 0 <= k < |blocks| :: |blocks[k]| >= 1
    ensures |Flatten(blocks)| >= |blocks[0]| + |blocks| - 1
  {
    if |blocks| > 1 { FlattenAtLeast(blocks[..|blocks| - 1]); }
  }

  /** The first i dimensions of a part. */
  ghost predicate PartSoFar(part: Region, reg: Region, slices: seq<Slice>, i: nat) {
    && |part.start| == |part.stop| == |part.step| == |reg.start| == |reg.stop| == |reg.step| <= |slices|
      && i <= |reg.start|
    && (forall j | 0 <= j < i :: part.start[j] == NewStart(reg.start[j], slices[j]))
    && (forall j | 0 <= j < i :: part.stop[j] == NewStop(reg.start[j], reg.stop[j], slices[j]))
    && (forall j | 0 <= j < i :: part.step[j] == NewStep(reg.step[j], slices[j]))
  }

  /** Takes an index to slices, one for each dimension. */
  method FixIndex(index: seq<Item>, dims: nat) returns (fixed: seq<Slice>)
    ensures fixed == FixedIndex(index, dims)
  {
    fixed := [];
    var length: int := |index|;
    for i := 0 to |index|
      invariant Expand(index, 0, [], |index|, dims) == Expand(index, i, fixed, length, dims)
    {
      match index[i]
      case Ellipsis =>
        fixed := fixed + Full(dims - length + 1);
        length := |fixed|;
      case At(k) => fixed := fixed + [Slice(Some(k), Some(k + 1), Some(1))];
      case Part(s) => fixed := fixed + [s];
    }
    fixed := fixed + Full(dims - |fixed|);
  }

  class ArrayIterator<T> {
    const variable: Variable<T>
    const bufSize: Option<nat>
    var start: seq<int>
    var stop: seq<int>
    var step: seq<int>
    var currSlice: Option<Region>

    function Reg(): Region
      reads `start, `stop, `step
    {
      Region(start, stop, step)
    }

    ghost predicate Valid()
      reads `start, `stop, `step
    {
      && Reg().Valid() && |start| == |variable.shape| >= 1
      && forall i | 0 <= i < |start| :: 0 <= start[i] && stop[i] <= variable.shape[i]
    }

    constructor (variable: Variable<T>, bufSize: Option<nat>)
      requires |variable.shape| >= 1
      ensures Valid() && this.variable == variable && this.bufSize == bufSize
      ensures Reg() == Whole(variable.shape)
      ensures currSlice == None
    {
      this.variable, this.bufSize := variable, bufSize;
      start := seq(|variable.shape|, i => 0);
      stop := variable.shape;
      step := seq(|variable.shape|, i => 1);
      currSlice := None;
    }

    /** A part of the region, by a full or partial index; the iterator itself is left as it is. */
    method GetItem(index: seq<Item>) returns (out: ArrayIterator<T>)
      requires Valid()
      ensures fresh(out) && out.Valid() && out.variable == variable && out.bufSize == bufSize
      ensures IsPart(out.Reg(), Reg(), FixedIndex(index, |start|))
    {
      var fixed := FixIndex(index, |start|);
      out := new ArrayIterator(variable, bufSize);
      var part := TakePart(fixed);
      out.start, out.stop, out.step := part.start, part.stop, part.step;
    }

    method TakePart(slices: seq<Slice>) returns (part: Region)
      requires Valid() && |slices| >= |start|
      ensures IsPart(part, Reg(), slices)
    {
      part := Reg();
      for i := 0 to |start|
        invariant PartSoFar(part, Reg(), slices, i)
      {
        part := Region(part.start[i := NewStart(start[i], slices[i])],
            part.stop[i := NewStop(start[i], stop[i], slices[i])],
          part.step[i := NewStep(step[i], slices[i])]);
      }
    }

    /** Scans the dimensions from the fastest to the slowest and fixes the bounds of the next block. */
    method Scan(cur: seq<int>, shape: seq<int>, count0: nat) returns (bstop: seq<int>, rundim: nat)
      requires Valid() && Within(cur, Reg(), 0) && count0 >= 1
      requires Reg().HasShape(shape) && PositiveShape(shape)
      requires forall j | RunningDimension(shape, count0) < j < |cur| :: cur[j] == start[j]
      ensures rundim == RunningDimension(shape, count0)
      ensures Scanned(cur, bstop, Reg(), shape[rundim], rundim, CountAbove(shape, count0, rundim + 1), 0)
    {
      ghost var reg := Reg();
      bstop := stop;
      rundim := 0;
      var count: int := count0;
      var i := |cur|;
      while i > 0
        invariant 0 <= i <= |cur|
        invariant Scanning(cur, bstop, reg, shape, count0, count, rundim, i)
      {
        i := i - 1;
        var bound;
        ScanStep(cur, bstop, reg, shape, count0, count, rundim, i);
        if count == 0 {
          bound := cur[i] + 1;
        } else if count <= shape[i] {
          bound := cur[i] + count * step[i];
          rundim := i;
        } else {
          bound := stop[i];
        }
        bstop := bstop[i := Min(stop[i], bound)];
        count := count / shape[i];
      }
    }

    /** Moves to where the block stopped and carries over into the slower dimensions. */
    method Advance(cur: seq<int>, bstop: seq<int>, rundim: nat) returns (next: seq<int>)
      requires Valid() && |cur| == |bstop| == |start| && rundim < |cur|
      ensures next == Carry(cur[rundim := bstop[rundim]], 0, Reg())
    {
      next := cur[rundim := bstop[rundim]];
      var i := |cur| - 1;
      while i > 0
        invariant 0 <= i < |cur| == |next|
        invariant next == Carry(cur[rundim := bstop[rundim]], i, Reg())
      {
        if next[i] >= stop[i] {
          next := next[i := start[i]];
          next := next[i - 1 := next[i - 1] + step[i - 1]];
        }
        i := i - 1;
      }
    }

    /** The loop of the generator, on a region without an empty dimension. */
    method Walk(shape: seq<int>, count: nat) returns (slices: seq<Region>, blocks: seq<seq<T>>)
      requires Valid() && Within(start, Reg(), 0) && count >= 1
      requires Reg().HasShape(shape) && PositiveShape(shape)
      modifies this`currSlice
      ensures |slices| == |blocks| > 0 && slices[0].start == start
      ensures Flatten(blocks) == Values(variable.at, Reg().Tuples())
      ensures forall k | 0 <= k < |slices| ::
        BlockOf(variable.at, slices[k], blocks[k], Reg(), RunningDimension(shape, count), count)
      ensures currSlice == Some(slices[|slices| - 1])
    {
      slices, blocks := [], [];
      ghost var reg, r := Reg(), RunningDimension(shape, count);
      ghost var done: seq<seq<int>> := [];
      var cur := start;
      WalkStarts(variable.at, reg, r, count);
      while true
        invariant Underway(variable.at, slices, blocks, done, cur, reg, r, count)
        invariant if slices == [] then cur == start else slices[0].start == start
        decreases |Remaining(cur, reg, 0)|
      {
        var slice, block, next := ReadBlock(cur, shape, count);
        WalkStep(variable.at, slices, blocks, done, slice, reg, r, count, next);
        currSlice := Some(slice);
        slices, blocks, done := slices + [slice], blocks + [block], done + slice.Tuples();
        cur := next;
        if cur[0] >= stop[0] {
          return;
        }
      }
    }

    /** Reads the block at a position and moves on from it. */
    method ReadBlock(cur: seq<int>, shape: seq<int>, count: nat) returns (slice: Region, block: seq<T>, next: seq<int>)
      requires Valid() && Within(cur, Reg(), 0) && count >= 1
      requires Reg().HasShape(shape) && PositiveShape(shape)
      requires forall j | RunningDimension(shape, count) < j < |cur| :: cur[j] == start[j]
      ensures var r := RunningDimension(shape, count);
        && IsBlock(slice, Reg(), 0, r) && slice.start == cur && 1 <= |slice.Tuples()| <= count
        && Fills(slice, Reg(), r, count)
        && next == Carry(cur[r := slice.stop[r]], 0, Reg())
      ensures block == Values(variable.at, slice.Tuples())
    {
      var bstop, rundim := Scan(cur, shape, count);
      slice := Region(cur, bstop, step);
      CountPositive(shape, count, rundim + 1);
      CountBounds(shape, count, rundim + 1);
      CountExact(shape, count, rundim + 1);
      ScannedIsBlock(slice, Reg(), shape, count, rundim, CountAbove(shape, count, rundim + 1));
      block := Values(variable.at, slice.Tuples());
      next := Advance(cur, bstop, rundim);
    }

    /**
     * Runs the generator to exhaustion; slices[k] and blocks[k] are the k-th slice and the k-th yielded block.
     * The blocks, flattened in order, are the values at the region's index tuples in row-major order.
     */
    method Iterate() returns (slices: seq<Region>, blocks: seq<seq<T>>)
      requires Valid()
      modifies this`currSlice
      ensures |slices| == |blocks|
      ensures Flatten(blocks) == Values(variable.at, Reg().Tuples())
      ensures bufSize.Some? && bufSize.value != 0 ==>
        && Blocked(variable.at, slices, blocks, Reg(), bufSize.value)
        && forall k | 0 <= k < |blocks| :: 1 <= |blocks[k]| <= bufSize.value
      ensures bufSize.None? || bufSize.value == 0 ==>
        && Blocked(variable.at, slices, blocks, Reg(), |Reg().Tuples()|)
        && (Reg().Tuples() != [] ==> |blocks| == 1)
      ensures currSlice == if |slices| == 0 then old(currSlice) else Some(slices[|slices| - 1])
    {
      slices, blocks := [], [];
      var shape := Reg().Shape();
      ShapeCounts(Reg());
      if exists i :: 0 <= i < |shape| && shape[i] <= 0 {
        NoneToRead(variable.at, Reg(), shape);
        return;
      }
      AllPositive(Reg(), shape);
      var total := ProductFrom(shape, 0);
      var count := if bufSize.Some? && bufSize.value != 0 then bufSize.value else total;
      slices, blocks := Walk(shape, count);
      WalkedBlocks(variable.at, slices, blocks, Reg(), shape, count);
    }
  }

  /**
   * The blocks of a part of an iterator with unit steps, flattened, are the values of the region sliced as lists
   * are.
   */
  method IteratePart<T>(iter: ArrayIterator<T>, index: seq<Item>) returns (blocks: seq<seq<T>>)
    requires iter.Valid() && Sliceable(iter.Reg(), FixedIndex(index, |iter.start|))
    ensures Flatten(blocks)
      == Values(iter.variable.at, Product(SlicedAxes(iter.Reg(), FixedIndex(index, |iter.start|)), 0))
  {
    var part := iter.GetItem(index);
    PartOfRegion(part.Reg(), iter.Reg(), FixedIndex(index, |iter.start|));
    var slices;
    slices, blocks := part.Iterate();
  }

  lemma ValuesAppend<T>(at: seq<int> -> T, xs: seq<seq<int>>, ys: seq<seq<int>>)
    ensures Values(at, xs + ys) == Values(at, xs) + Values(at, ys)
  {
  }
}
