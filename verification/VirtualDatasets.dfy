/** A list of datasets read as one (prototype/hdf/hdf_array_iterator.py, VirtualDataset). */
module VirtualDatasets {
  import opened Wrappers
  import opened Regions
  import opened ArrayBlocks

  /** One record: the value at every index tuple of the trailing dimensions. */
  type Record<!T> = seq<int> -> T

  /** A dataset: its records along the first dimension, and the sizes of the other dimensions. */
  datatype Dataset<!T> = Dataset(records: seq<Record<T>>, trailing: seq<nat>)

  /** All records of the datasets, in order. */
  function Concatenated<T>(vars: seq<Dataset<T>>): seq<Record<T>> {
    if vars == [] then [] else Concatenated(vars[..|vars| - 1]) + vars[|vars| - 1].records
  }

  /** Slicing clamps both ends to the number of records. */
  function Clamped<T>(rows: seq<T>, lo: int, hi: int): seq<T>
    requires 0 <= lo
  {
    var b := if hi < |rows| then hi else |rows|;
    if lo < b then rows[lo..b] else []
  }

  /** The values of some records at the trailing index tuples ts, in order. */
  function Rows<T>(rows: seq<Record<T>>, ts: seq<seq<int>>): seq<T> {
    if rows == [] then [] else Values(rows[0], ts) + Rows(rows[1..], ts)
  }

  lemma {:induction false} RowsAppend<T>(a: seq<Record<T>>, b: seq<Record<T>>, ts: seq<seq<int>>)
    ensures Rows(a + b, ts) == Rows(a, ts) + Rows(b, ts)
  {
    if a == [] {
      assert a + b == b;
    } else {
      RowsAppend(a[1..], b, ts);
      assert (a + b)[0] == a[0] && (a + b)[1..] == a[1..] + b;
      AppendAssociative(Values(a[0], ts), Rows(a[1..], ts), Rows(b, ts));
    }
  }

  lemma ConcatenatedSnoc<T>(vars: seq<Dataset<T>>, k: nat)
    requires k < |vars|
    ensures Concatenated(vars[..k + 1]) == Concatenated(vars[..k]) + vars[k].records
  {
    assert vars[..k + 1][..k] == vars[..k];
  }

  /** How the trailing shapes must relate: `agg_shape or shape[1:]` forgets an empty shape. */
  ghost predicate Agreeing<T>(vars: seq<Dataset<T>>) {
    forall i, j | 0 <= i < j < |vars| :: vars[i].trailing == [] || vars[i].trailing == vars[j].trailing
  }

  /** starts and stops are the first and last record number of each dataset. */
  ghost predicate Bounds<T>(vars: seq<Dataset<T>>, starts: seq<nat>, stops: seq<int>) {
    && |vars| == |starts| == |stops|
    && forall k | 0 <= k < |vars| ::
         && starts[k] == |Concatenated(vars[..k])|
         && stops[k] == starts[k] + |vars[k].records| - 1
  }

  lemma AgreeingSnoc<T>(vars: seq<Dataset<T>>, k: nat)
    requires k < |vars| && Agreeing(vars[..k])
    requires k > 0 ==> vars[k - 1].trailing == [] || vars[k - 1].trailing == vars[k].trailing
    ensures Agreeing(vars[..k + 1])
  {
    var some := vars[..k];
    forall i, j | 0 <= i < j < k + 1 ensures vars[i].trailing == [] || vars[i].trailing == vars[j].trailing {
      if j == k && i < k - 1 { assert some[i].trailing == [] || some[i].trailing == some[k - 1].trailing; }
      if j < k { assert some[i].trailing == [] || some[i].trailing == some[j].trailing; }
    }
  }

  lemma BoundsSnoc<T>(vars: seq<Dataset<T>>, k: nat, starts: seq<nat>, stops: seq<int>)
    requires k < |vars| && Bounds(vars[..k], starts, stops)
    ensures var n := |Concatenated(vars[..k])|;
      Bounds(vars[..k + 1], starts + [n], stops + [n + |vars[k].records| - 1])
  {
    var n := |Concatenated(vars[..k])|;
    var starts', stops' := starts + [n], stops + [n + |vars[k].records| - 1];
    forall j | 0 <= j < k + 1
      ensures starts'[j] == |Concatenated(vars[..k + 1][..j])| && stops'[j] == starts'[j] + |vars[j].records| - 1
    {
      assert vars[..k + 1][..j] == vars[..j];
      if j < k { assert vars[..k][..j] == vars[..j] && vars[..k][j] == vars[j]; }
    }
  }

  /** What the next dataset adds to a clamped read, for each way it can lie to the requested range. */
  lemma ClampedAppend<T>(c: seq<T>, d: seq<T>, lo: int, hi: int)
    requires 0 <= lo < hi
    ensures |c| + |d| <= lo ==> Clamped(c + d, lo, hi) == []
    ensures |c| >= hi ==> Clamped(c + d, lo, hi) == Clamped(c, lo, hi)
    ensures |c| <= lo ==> Clamped(c + d, lo, hi) == Clamped(d, lo - |c|, hi - |c|)
    ensures lo < |c| < hi ==> Clamped(c + d, lo, hi) == Clamped(c, lo, hi) + Clamped(d, 0, hi - |c|)
  {
  }

  /** aggregate is the read of the records c so far; it is unbound until the first record is found. */
  ghost predicate Aggregates<T>(aggregate: Option<seq<T>>, c: seq<Record<T>>, lo: int, hi: int, ts: seq<seq<int>>) {
    && (aggregate.Some? <==> 0 <= lo < |c|)
    && (aggregate.Some? ==> aggregate.value == Rows(Clamped(c, lo, hi), ts))
  }

  lemma AggregateStep<T>(aggregate: Option<seq<T>>, c: seq<Record<T>>, d: seq<Record<T>>, lo: int, hi: int,
                         ts: seq<seq<int>>)
    requires lo < hi && Aggregates(aggregate, c, lo, hi, ts)
    ensures |c| + |d| - 1 < lo || |c| >= hi || lo < 0 ==> Aggregates(aggregate, c + d, lo, hi, ts)
    ensures |c| <= lo <= |c| + |d| - 1 ==>
      Aggregates(Some(Rows(Clamped(d, lo - |c|, hi - |c|), ts)), c + d, lo, hi, ts)
    ensures 0 <= lo < |c| < hi ==>
      aggregate.Some? && Aggregates(Some(aggregate.value + Rows(Clamped(d, 0, hi - |c|), ts)), c + d, lo, hi, ts)
  {
    if lo >= 0 {
      ClampedAppend(c, d, lo, hi);
      if lo < |c| < hi { RowsAppend(Clamped(c, lo, hi), Clamped(d, 0, hi - |c|), ts); }
    }
  }

  /** What dataset k adds to a read. */
  lemma PartStep<T>(vars: seq<Dataset<T>>, k: nat, aggregate: Option<seq<T>>, lo: int, hi: int, ts: seq<seq<int>>)
    requires k < |vars| && lo < hi && Aggregates(aggregate, Concatenated(vars[..k]), lo, hi, ts)
    ensures var start, data, c := |Concatenated(vars[..k])|, vars[k].records, Concatenated(vars[..k + 1]);
      && (start + |data| - 1 < lo || start >= hi || lo < 0 ==> Aggregates(aggregate, c, lo, hi, ts))
      && (start <= lo <= start + |data| - 1 ==>
          Aggregates(Some(Rows(Clamped(data, lo - start, hi - start), ts)), c, lo, hi, ts))
      && (0 <= lo < start < hi ==>
            aggregate.Some? && Aggregates(Some(aggregate.value + Rows(Clamped(data, 0, hi - start), ts)), c, lo, hi,
                ts))
  {
    ConcatenatedSnoc(vars, k);
    AggregateStep(aggregate, Concatenated(vars[..k]), vars[k].records, lo, hi, ts);
  }

  /** The fields after the first k datasets. */
  ghost predicate Assembling<T>(varList: seq<Dataset<T>>, k: nat, vars: seq<Dataset<T>>, starts: seq<nat>,
                                stops: seq<int>, records: nat, agg: Option<seq<nat>>)
  {
    && k <= |varList| && vars == varList[..k] && Agreeing(vars) && Bounds(vars, starts, stops)
    && records == |Concatenated(vars)|
    && agg == if k == 0 then None else Some(varList[k - 1].trailing)
  }

  /** A dataset may be added exactly if its trailing shape is the last one, or that is empty. */
  predicate Fits<T>(agg: Option<seq<nat>>, v: Dataset<T>) {
    agg.None? || agg.value == [] || agg.value == v.trailing
  }

  lemma AssembleStep<T>(varList: seq<Dataset<T>>, k: nat, vars: seq<Dataset<T>>, starts: seq<nat>, stops: seq<int>,
                        records: nat, agg: Option<seq<nat>>)
    requires Assembling(varList, k, vars, starts, stops, records, agg) && k < |varList| && Fits(agg, varList[k])
    ensures var v := varList[k];
      Assembling(varList, k + 1, vars + [v], starts + [records], stops + [records + |v.records| - 1],
                 records + |v.records|, Some(v.trailing))
  {
    assert vars + [varList[k]] == varList[..k + 1];
    AgreeingSnoc(varList, k);
    BoundsSnoc(varList, k, starts, stops);
    ConcatenatedSnoc(varList, k);
  }

  lemma AssembleFails<T>(varList: seq<Dataset<T>>, k: nat, vars: seq<Dataset<T>>, starts: seq<nat>, stops: seq<int>,
                         records: nat, agg: Option<seq<nat>>)
    requires Assembling(varList, k, vars, starts, stops, records, agg) && k < |varList| && !Fits(agg, varList[k])
    ensures !Agreeing(varList)
  {
    assert varList[k - 1].trailing != [] && varList[k - 1].trailing != varList[k].trailing;
  }

  /** Adds dataset k, unless its trailing shape does not agree with the one so far. */
  method Assemble<T>(varList: seq<Dataset<T>>, k: nat, vars: seq<Dataset<T>>, starts: seq<nat>, stops: seq<int>,
                     records: nat, agg: Option<seq<nat>>)
    returns (ok: bool, vars': seq<Dataset<T>>, starts': seq<nat>, stops': seq<int>, records': nat,
        agg': Option<seq<nat>>)
    requires Assembling(varList, k, vars, starts, stops, records, agg) && k < |varList|
    ensures if ok then Assembling(varList, k + 1, vars', starts', stops', records', agg') else !Agreeing(varList)
  {
    var v := varList[k];
    if Fits(agg, v) {
      AssembleStep(varList, k, vars, starts, stops, records, agg);
    } else {
      AssembleFails(varList, k, vars, starts, stops, records, agg);
    }
    ok, vars', starts', stops', records' := false, vars, starts, stops, records;
    agg' := if agg.None? || agg.value == [] then Some(v.trailing) else agg;
    if agg'.value == v.trailing {
      ok := true;
      starts' := starts + [records];
      records' := records + |v.records|;
      stops' := stops + [records' - 1];
      vars' := vars + [v];
    }
  }

  method AssembleAll<T>(varList: seq<Dataset<T>>)
    returns (ok: bool, vars: seq<Dataset<T>>, starts: seq<nat>, stops: seq<int>, records: nat, agg: Option<seq<nat>>)
    ensures if ok then Assembling(varList, |varList|, vars, starts, stops, records, agg) && vars == varList
            else !Agreeing(varList)
  {
    ok, vars, starts, stops, records, agg := true, [], [], [], 0, None;
    var k := 0;
    while k < |varList| && ok
      invariant if ok then Assembling(varList, k, vars, starts, stops, records, agg) else !Agreeing(varList)
      decreases |varList| - k, ok
    {
      ok, vars, starts, stops, records, agg := Assemble(varList, k, vars, starts, stops, records, agg);
      if ok { k := k + 1; }
    }
    assert ok ==> varList[..|varList|] == varList;
  }

  class VirtualDataset<T> {
    var vars: seq<Dataset<T>>
    var starts: seq<nat>
    var stops: seq<int>
    var records: nat
    var aggShape: seq<nat>
    var assembled: bool

    ghost predicate Valid()
      reads this
    {
      && Bounds(vars, starts, stops)
      && records == |Concatenated(vars)|
    }

    /** Fails on an empty list and on trailing shapes that do not agree; then the object is not used. */
    constructor (varList: seq<Dataset<T>>)
      ensures assembled <==> varList != [] && Agreeing(varList)
      ensures assembled ==> Valid() && vars == varList && aggShape == varList[|varList| - 1].trailing
    {
      var ok, vs, ss, es, total, agg := AssembleAll(varList);
      vars, starts, stops, records := vs, ss, es, total;
      assembled := ok && agg.Some?;
      aggShape := if agg.Some? then agg.value else [];
    }

    /** A read from lo to hi takes a part, maybe empty, of dataset k. */
    ghost predicate Touches(k: nat, lo: int, hi: int)
      requires Valid() && k < |vars|
      reads this
    {
      starts[k] <= lo <= stops[k] || lo < starts[k] < hi
    }

    /** Every dataset a read takes a part of has the rank of the whole. */
    ghost predicate Ranked(lo: int, hi: int)
      requires Valid()
      reads this
    {
      forall k | 0 <= k < |vars| && Touches(k, lo, hi) :: |vars[k].trailing| == |aggShape|
    }

    /**
     * Reads the records getStart .. getStop at the trailing index tuples ts: each dataset that overlaps
     * contributes its part. Failure stands for the assertion, the unbound aggregate, and an index of too
     * many dimensions for a dataset.
     */
    method GetItem(getStart: int, getStop: int, ts: seq<seq<int>>) returns (r: Result<seq<T>>)
      requires Valid()
      ensures r.Success? <==> getStart < getStop && 0 <= getStart < records && Ranked(getStart, getStop)
      ensures r.Success? ==> r.value == Rows(Clamped(Concatenated(vars), getStart, getStop), ts)
    {
      if !(getStop > getStart) { return Failure; }
      var aggregate: Option<seq<T>> := None;
      assert vars[..0] == [];
      for k := 0 to |vars|
        invariant ReadUpTo(k, aggregate, getStart, getStop, ts)
      {
        var next := ReadPart(k, aggregate, getStart, getStop, ts);
        if next.Failure? { return Failure; }
        aggregate := next.value;
      }
      assert vars[..|vars|] == vars;
      return if aggregate.None? then Failure else Success(aggregate.value);
    }

    /** The read of the first k datasets, each of the rank of the whole. */
    ghost predicate ReadUpTo(k: nat, aggregate: Option<seq<T>>, lo: int, hi: int, ts: seq<seq<int>>)
      requires Valid() && k <= |vars|
      reads this
    {
      && Aggregates(aggregate, Concatenated(vars[..k]), lo, hi, ts)
      && forall i | 0 <= i < k && Touches(i, lo, hi) :: |vars[i].trailing| == |aggShape|
    }

    /** Adds what dataset k holds of a read; only a read from before the first record has nothing to add to. */
    method ReadPart(k: nat, aggregate: Option<seq<T>>, lo: int, hi: int, ts: seq<seq<int>>)
      returns (r: Result<Option<seq<T>>>)
      requires Valid() && k < |vars| && lo < hi && ReadUpTo(k, aggregate, lo, hi, ts)
      ensures r.Success? ==> ReadUpTo(k + 1, r.value, lo, hi, ts)
      ensures r.Failure? ==> lo < 0 || (Touches(k, lo, hi) && |vars[k].trailing| != |aggShape|)
    {
      var start, stop, data := starts[k], stops[k], vars[k].records;
      PartStep(vars, k, aggregate, lo, hi, ts);
      if stop < lo || start > hi {
        r := Success(aggregate);
      } else if start <= lo && stop >= lo {
        if |vars[k].trailing| != |aggShape| { return Failure; }
        r := Success(Some(Rows(Clamped(data, lo - start, hi - start), ts)));
      } else if start > lo && start < hi {
        if |vars[k].trailing| != |aggShape| { return Failure; }
        if aggregate.None? { return Failure; }
        r := Success(Some(aggregate.value + Rows(Clamped(data, 0, hi - start), ts)));
      } else {
        r := Success(aggregate);
      }
    }

    /** The concatenation as one variable; missing stands for indices outside it. */
    function View(missing: T): Variable<T>
      reads this
    {
      var rows := Concatenated(vars);
      Variable([|rows|] + aggShape, (t: seq<int>) => if |t| > 0
          && 0 <= t[0] < |rows| then rows[t[0]](t[1..]) else missing)
    }
  }

  /** at reads record i at the index tuple t as the value at the index tuple [i] + t. */
  ghost predicate Views<T>(at: seq<int> -> T, rows: seq<Record<T>>) {
    forall i: int, t: seq<int> | 0 <= i < |rows| :: at([i] + t) == rows[i](t)
  }

  lemma ViewViews<T>(dataset: VirtualDataset<T>, missing: T)
    ensures Views(dataset.View(missing).at, Concatenated(dataset.vars))
  {
    var at, rows := dataset.View(missing).at, Concatenated(dataset.vars);
    forall i: int, t: seq<int> | 0 <= i < |rows| ensures at([i] + t) == rows[i](t) {
      assert ([i] + t)[1..] == t;
    }
  }

  /** A read of consecutive records is a read of the concatenation as one variable. */
  lemma {:induction false} PrefixedRows<T>(at: seq<int> -> T, rows: seq<Record<T>>, lo: int, hi: int, ts: seq<seq<int>>)
    requires 0 <= lo <= hi <= |rows| && Views(at, rows)
    ensures Values(at, Prefixed(Axis(lo, hi, 1), ts)) == Rows(rows[lo..hi], ts)
    decreases hi - lo
  {
    if lo < hi {
      PrefixedRows(at, rows, lo + 1, hi, ts);
      assert Axis(lo, hi, 1)[1..] == Axis(lo + 1, hi, 1);
      ValuesAppend(at, Cons(lo, ts), Prefixed(Axis(lo + 1, hi, 1), ts));
      OneRow(at, rows, lo, ts);
      assert rows[lo..hi][1..] == rows[lo + 1..hi];
    }
  }

  lemma OneRow<T>(at: seq<int> -> T, rows: seq<Record<T>>, i: int, ts: seq<seq<int>>)
    requires 0 <= i < |rows| && Views(at, rows)
    ensures Values(at, Cons(i, ts)) == Values(rows[i], ts)
  {
  }

  /** Reading the records of a block's slice gives the block. */
  lemma ServeBlock<T>(at: seq<int> -> T, rows: seq<Record<T>>, s: Region, block: seq<T>, reg: Region, r: nat,
                      count: nat)
    requires Views(at, rows)
    requires BlockOf(at, s, block, reg, r, count)
    requires 0 <= reg.start[0] && reg.step[0] == 1 && reg.stop[0] <= |rows|
    ensures reg.start[0] <= s.start[0] < s.stop[0] <= reg.stop[0] && |s.start| >= 1
    ensures block == Rows(Clamped(rows, s.start[0], s.stop[0]), s.TuplesFrom(1))
  {
    PrefixedRows(at, rows, s.start[0], s.stop[0], s.TuplesFrom(1));
  }

  /** What a part of a read takes, the read takes. */
  lemma RankedWithin<T>(dataset: VirtualDataset<T>, lo: int, hi: int, lo': int, hi': int)
    requires dataset.Valid() && dataset.Ranked(lo, hi) && lo <= lo' < hi' <= hi
    ensures dataset.Ranked(lo', hi')
  {
    forall k | 0 <= k < |dataset.vars| && dataset.Touches(k, lo', hi') ensures dataset.Touches(k, lo, hi) {}
  }

  /** Serves every slice the iterator asks for. */
  method ServeAll<T>(dataset: VirtualDataset<T>, slices: seq<Region>, ghost at: seq<int> -> T,
                     ghost wanted: seq<seq<T>>, ghost reg: Region, ghost r: nat, ghost limit: nat)
    returns (blocks: Result<seq<seq<T>>>)
    requires dataset.Valid() && Views(at, Concatenated(dataset.vars)) && |slices| == |wanted|
    requires reg.Valid() && |reg.start| > 0
    requires 0 <= reg.start[0] && reg.step[0] == 1 && reg.stop[0] <= dataset.records
    requires forall k | 0 <= k < |slices| :: BlockOf(at, slices[k], wanted[k], reg, r, limit)
    ensures blocks == Success(wanted) || (blocks == Failure && !dataset.Ranked(reg.start[0], reg.stop[0]))
  {
    var served: seq<seq<T>> := [];
    for k := 0 to |slices|
      invariant served == wanted[..k]
    {
      var s := slices[k];
      ServeBlock(at, Concatenated(dataset.vars), s, wanted[k], reg, r, limit);
      var b := dataset.GetItem(s.start[0], s.stop[0], s.TuplesFrom(1));
      if b.Failure? {
        if dataset.Ranked(reg.start[0], reg.stop[0]) {
          RankedWithin(dataset, reg.start[0], reg.stop[0], s.start[0], s.stop[0]);
        }
        return Failure;
      }
      served := served + [b.value];
    }
    assert wanted[..|slices|] == wanted;
    return Success(served);
  }

  /**
   * Block iteration over any part of a virtual dataset, with unit step in the records: every slice the
   * iterator asks for is served, and the blocks, flattened, are those records of the datasets in order. It
   * fails only if a dataset it may take a part of lacks dimensions.
   */
  method IterateVirtual<T>(dataset: VirtualDataset<T>, iter: ArrayIterator<T>) returns (blocks: Result<seq<seq<T>>>)
    requires dataset.Valid() && iter.Valid() && iter.step[0] == 1
    requires iter.variable.shape == [dataset.records] + dataset.aggShape
    requires Views(iter.variable.at, Concatenated(dataset.vars))
    modifies iter`currSlice
    ensures blocks.Failure? ==> !dataset.Ranked(iter.start[0], iter.stop[0])
    ensures blocks.Success? ==>
      var rows := Clamped(Concatenated(dataset.vars), iter.start[0], iter.stop[0]);
      Flatten(blocks.value) == Rows(rows, iter.Reg().TuplesFrom(1))
    ensures blocks.Success? && iter.bufSize.Some? && iter.bufSize.value != 0 ==>
      forall k | 0 <= k < |blocks.value| :: 1 <= |blocks.value[k]| <= iter.bufSize.value
    ensures blocks.Success? && (iter.bufSize.None? || iter.bufSize.value == 0) && iter.Reg().Tuples() != [] ==>
      |blocks.value| == 1
  {
    ghost var at, rows := iter.variable.at, Concatenated(dataset.vars);
    ghost var reg := iter.Reg();
    ghost var limit: nat := |reg.Tuples()|;
    if iter.bufSize.Some? && iter.bufSize.value != 0 { limit := iter.bufSize.value; }
    var slices, wanted := iter.Iterate();
    ghost var r := BlockedAlong(at, slices, wanted, reg, limit);
    RegionRows(at, rows, reg);
    blocks := ServeAll(dataset, slices, at, wanted, reg, r, limit);
  }

  lemma RegionRows<T>(at: seq<int> -> T, rows: seq<Record<T>>, reg: Region)
    requires Views(at, rows) && reg.Valid() && |reg.start| > 0
    requires 0 <= reg.start[0] && reg.step[0] == 1 && reg.stop[0] <= |rows|
    ensures Values(at, reg.Tuples()) == Rows(Clamped(rows, reg.start[0], reg.stop[0]), reg.TuplesFrom(1))
  {
    if reg.start[0] < reg.stop[0] {
      PrefixedRows(at, rows, reg.start[0], reg.stop[0], reg.TuplesFrom(1));
    } else {
      assert reg.AxisAt(0) == [];
    }
  }

  /** Over the whole of a virtual dataset whose datasets have all dimensions: all records, flattened. */
  method IterateWhole<T>(dataset: VirtualDataset<T>, missing: T, bufSize: Option<nat>)
    returns (blocks: Result<seq<seq<T>>>)
    requires dataset.Valid()
    ensures blocks.Failure? ==> !dataset.Ranked(0, dataset.records)
    ensures blocks.Success? ==>
      var trailing := Whole([dataset.records] + dataset.aggShape).TuplesFrom(1);
      Flatten(blocks.value) == Rows(Concatenated(dataset.vars), trailing)
  {
    ViewViews(dataset, missing);
    var iter := new ArrayIterator(dataset.View(missing), bufSize);
    blocks := IterateVirtual(dataset, iter);
    assert Clamped(Concatenated(dataset.vars), 0, dataset.records) == Concatenated(dataset.vars);
  }

  /** Every step-th record, starting with the first. */
  function Strided<T>(rows: seq<T>, step: int): (r: seq<T>)
    requires step >= 1
    decreases |rows|
  {
    if rows == [] then [] else [rows[0]] + Strided(if step < |rows| then rows[step..] else [], step)
  }

  lemma {:induction false} StridedLength<T>(rows: seq<T>, step: int)
    requires step >= 1
    ensures |Strided(rows, step)| <= |rows|
    ensures step == 1 ==> Strided(rows, step) == rows
    ensures step > 1 && |rows| > 1 ==> |Strided(rows, step)| < |rows|
    decreases |rows|
  {
    if rows != [] { StridedLength(if step < |rows| then rows[step..] else [], step); }
  }

  /** GetItem ignores a record step: its answer is right exactly for step 1 and for reads of one record. */
  lemma RecordStepIgnored<T>(rows: seq<T>, lo: int, hi: int, step: int)
    requires 0 <= lo < hi && lo < |rows| && step >= 1
    ensures Strided(Clamped(rows, lo, hi), step) == Clamped(rows, lo, hi)
        <==> step == 1 || hi == lo + 1 || |rows| == lo + 1
  {
    StridedLength(Clamped(rows, lo, hi), step);
    if |Clamped(rows, lo, hi)| == 1 { assert Strided(Clamped(rows, lo, hi), step) == Clamped(rows, lo, hi); }
  }
}
