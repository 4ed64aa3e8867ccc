/**
 * The simulated strategy-tester run of `run_mt5_optimization`: two nested
 * Python `range` loops over TakeProfit and StopLoss, one result row per grid
 * point with `Profit = 2 * tp - sl`, and the selection of the best row.
 */
module Grid {
  import opened Wrappers
  import opened Arith

  /** One axis of the grid: the `min`, `max` and `step` of a parameter. */
  datatype Axis = Axis(min: int, max: int, step: int)

  /**
   * The parts of the request body that the simulation reads. A `None` axis
   * stands for a missing key or a non-integer value (KeyError/TypeError),
   * which raises on the first read of `params["params"][name][...]`; a zero
   * step is an axis with step 0.
   */
  datatype Params = Params(takeProfit: Option<Axis>, stopLoss: Option<Axis>)

  /** One result row; the floating-point `Drawdown` column is not modelled. */
  datatype Row = Row(takeProfit: int, stopLoss: int, profit: int)

  /** Why the worker raises before it records a completed job. */
  datatype Failure =
    | MissingParameter   // KeyError while reading the axis bounds
    | ZeroStep           // `range` raises ValueError for a zero step
    | EmptyResults       // the DataFrame of no rows has no Profit column to sort by

  /** The dummy objective of the simulation. */
  function Profit(tp: int, sl: int): int {
    2 * tp - sl
  }

  function MakeRow(tp: int, sl: int): Row {
    Row(tp, sl, Profit(tp, sl))
  }

  /** True when `range` yields `x` before stopping. */
  predicate Continues(x: int, stop: int, step: int) {
    if step > 0 then x < stop else x > stop
  }

  /** Python's `range(start, stop, step)`. */
  function Range(start: int, stop: int, step: int): (r: seq<int>)
    requires step != 0
    ensures r != [] <==> Continues(start, stop, step)
    ensures r != [] ==> r[0] == start
    decreases if step > 0 then stop - start else start - stop
  {
    if Continues(start, stop, step) then [start] + Range(start + step, stop, step) else []
  }

  /** The length Python computes for `range(start, stop, step)`. */
  function RangeLength(start: int, stop: int, step: int): nat
    requires step != 0
  {
    if step > 0 then
      if start < stop then (stop - start + step - 1) / step else 0
    else
      if start > stop then (start - stop - step - 1) / (-step) else 0
  }

  /** Membership in `range(start, stop, step)` stated without iteration. */
  predicate InRange(x: int, start: int, stop: int, step: int)
    requires step != 0
  {
    (if step > 0 then start <= x < stop else stop < x <= start) && (x - start) % step == 0
  }

  /** The values an axis runs through: `range(min, max + 1, step)`. */
  function Values(a: Axis): seq<int>
    requires a.step != 0
  {
    Range(a.min, a.max + 1, a.step)
  }

  /** The rows of the inner loop for one TakeProfit value. */
  function RowsFor(tp: int, sls: seq<int>): seq<Row> {
    if sls == [] then [] else [MakeRow(tp, sls[0])] + RowsFor(tp, sls[1..])
  }

  /** The rows of both loops, TakeProfit-major. */
  function GridRows(tps: seq<int>, sls: seq<int>): seq<Row> {
    if tps == [] then [] else RowsFor(tps[0], sls) + GridRows(tps[1..], sls)
  }

  /**
   * The result list of the two loops, or the exception they raise. The
   * StopLoss axis is only read, and its range only built, once the
   * TakeProfit range has produced a value.
   */
  function Simulate(p: Params): (r: Result<seq<Row>, Failure>)
    ensures r.Err? ==> r.error != EmptyResults
    ensures r.Ok? ==> p.takeProfit.Some? && p.takeProfit.value.step != 0
    ensures r.Ok? && r.value != [] ==> p.stopLoss.Some? && p.stopLoss.value.step != 0
  {
    if p.takeProfit.None? then Err(MissingParameter)
    else if p.takeProfit.value.step == 0 then Err(ZeroStep)
    else if Values(p.takeProfit.value) == [] then Ok([])
    else if p.stopLoss.None? then Err(MissingParameter)
    else if p.stopLoss.value.step == 0 then Err(ZeroStep)
    else Ok(GridRows(Values(p.takeProfit.value), Values(p.stopLoss.value)))
  }

  /**
   * `df.sort_values("Profit", ascending=False).iloc[0]`: a row of greatest
   * profit, or a failure when there are no rows.
   */
  function BestRow(rows: seq<Row>): (r: Result<Row, Failure>)
    ensures r.Ok? <==> rows != []
    ensures r.Err? ==> r.error == EmptyResults
    ensures r.Ok? ==> r.value in rows && forall x :: x in rows ==> x.profit <= r.value.profit
  {
    if rows == [] then Err(EmptyResults)
    else if |rows| == 1 then Ok(rows[0])
    else
      var rest := BestRow(rows[1..]);
      assert rows == [rows[0]] + rows[1..];
      if rows[0].profit >= rest.value.profit then Ok(rows[0]) else rest
  }

  /** What a successful worker run records: every row and the best one. */
  datatype Outcome = Outcome(results: seq<Row>, best: Row)

  /**
   * Everything `run_mt5_optimization` computes before it writes the job
   * table: the rows and the best row, or the exception that stops it.
   */
  function Optimization(p: Params): (r: Result<Outcome, Failure>)
    ensures r.Ok? <==> Simulate(p).Ok? && Simulate(p).value != []
    ensures r.Ok? ==> r.value.results == Simulate(p).value
    ensures r.Ok? ==> r.value.best in r.value.results
    ensures r.Ok? ==> forall x :: x in r.value.results ==> x.profit <= r.value.best.profit
    ensures r.Err? && Simulate(p).Ok? ==> r.error == EmptyResults
  {
    match Simulate(p)
    case Err(e) => Err(e)
    case Ok(rows) =>
      match BestRow(rows)
      case Err(e) => Err(e)
      case Ok(best) => Ok(Outcome(rows, best))
  }

  /**
   * The two loops of `run_mt5_optimization`. The TakeProfit axis is read
   * before the outer loop; the StopLoss axis is read, and its range built,
   * in every outer iteration, so a missing StopLoss or a zero StopLoss step
   * only raises once the TakeProfit range has produced a value.
   */
  method SimulateResults(p: Params) returns (r: Result<seq<Row>, Failure>)
    ensures r == Simulate(p)
  {
    if p.takeProfit.None? {
      return Err(MissingParameter);
    }
    var tp := p.takeProfit.value;
    if tp.step == 0 {
      return Err(ZeroStep);
    }
    var stopLoss := p.stopLoss;
    ghost var slReady := stopLoss.Some? && stopLoss.value.step != 0;
    ghost var sls := if slReady then Values(stopLoss.value) else [];
    ghost var tps0 := Values(tp);
    ghost var all := GridRows(tps0, sls);
    ghost var expected := Simulate(p);
    assert tps0 == [] ==> expected == Ok([]);
    assert tps0 != [] && stopLoss.None? ==> expected == Err(MissingParameter);
    assert tps0 != [] && stopLoss.Some? && stopLoss.value.step == 0 ==> expected == Err(ZeroStep);
    assert tps0 != [] && slReady ==> expected == Ok(all);
    var stop := tp.max + 1;
    var results: seq<Row> := [];
    var t := tp.min;
    ghost var tps := tps0;
    ghost var first := true;
    while Continues(t, stop, tp.step)
      invariant tps == Range(t, stop, tp.step)
      invariant first ==> results == [] && tps == tps0
      invariant first || (slReady && tps0 != [])
      invariant slReady ==> results + GridRows(tps, sls) == all
      decreases |tps|
    {
      if stopLoss.None? {
        return Err(MissingParameter);
      }
      var sl := stopLoss.value;
      if sl.step == 0 {
        return Err(ZeroStep);
      }
      OuterStep(t, stop, tp.step, sls);
      ghost var later := GridRows(tps[1..], sls);
      ConcatAssoc(results, RowsFor(t, sls), later);
      var slStop := sl.max + 1;
      var s := sl.min;
      ghost var rest := sls;
      while Continues(s, slStop, sl.step)
        invariant rest == Range(s, slStop, sl.step)
        invariant results + (RowsFor(t, rest) + later) == all
        decreases |rest|
      {
        RangeUnfold(s, slStop, sl.step);
        assert rest[1..] == Range(s + sl.step, slStop, sl.step);
        ghost var tail := RowsFor(t, rest[1..]);
        assert RowsFor(t, rest) == [MakeRow(t, s)] + tail;
        ConcatAssoc([MakeRow(t, s)], tail, later);
        ConcatAssoc(results, [MakeRow(t, s)], tail + later);
        results := results + [MakeRow(t, s)];
        s := s + sl.step;
        rest := rest[1..];
      }
      assert RowsFor(t, rest) + later == later;
      t := t + tp.step;
      tps := tps[1..];
      first := false;
    }
    assert tps == [];
    assert results + GridRows(tps, sls) == results;
    return Ok(results);
  }

  // The two helpers below state, as separate obligations, facts the loops
  // of `SimulateResults` need; asserted inline, the solver would prove them
  // inside the loops' much larger context.

  /** Concatenation of rows is associative. */
  lemma ConcatAssoc(a: seq<Row>, b: seq<Row>, c: seq<Row>)
    ensures (a + b) + c == a + (b + c)
  {
  }

  /** A range that continues starts with `start` and goes on one step later. */
  lemma RangeUnfold(start: int, stop: int, step: int)
    requires step != 0 && Continues(start, stop, step)
    ensures Range(start, stop, step) == [start] + Range(start + step, stop, step)
  {
  }

  lemma OuterStep(t: int, stop: int, step: int, sls: seq<int>)
    requires step != 0 && Continues(t, stop, step)
    ensures Range(t, stop, step)[1..] == Range(t + step, stop, step)
    ensures GridRows(Range(t, stop, step), sls) == RowsFor(t, sls) + GridRows(Range(t + step, stop, step), sls)
  {
    RangeUnfold(t, stop, step);
  }

  // ---------------------------------------------------------------------
  // Python's range

  /** `range` yields exactly as many values as Python's length formula says. */
  lemma {:induction false} RangeLengthMatches(start: int, stop: int, step: int)
    requires step != 0
    ensures |Range(start, stop, step)| == RangeLength(start, stop, step)
    decreases if step > 0 then stop - start else start - stop
  {
    if Continues(start, stop, step) {
      RangeLengthMatches(start + step, stop, step);
      if step > 0 {
        if start + step < stop {
          DivStep(stop - start - 1, step);
        } else {
          DivOne(stop - start + step - 1, step);
        }
      } else {
        if start + step > stop {
          DivStep(start - stop - 1, -step);
        } else {
          DivOne(start - stop - step - 1, -step);
        }
      }
    }
  }

  /** The k-th value of `range(start, stop, step)` is `start + k * step`. */
  lemma {:induction false} RangeAt(start: int, stop: int, step: int, k: nat)
    requires step != 0 && k < |Range(start, stop, step)|
    ensures Range(start, stop, step)[k] == start + k * step
    decreases k
  {
    if k > 0 {
      RangeAt(start + step, stop, step, k - 1);
      assert (start + step) + (k - 1) * step == start + k * step;
    }
  }

  /** A value is produced by `range` exactly when it lies between the bounds on the step's lattice. */
  lemma {:induction false} RangeMembership(start: int, stop: int, step: int, x: int)
    requires step != 0
    ensures x in Range(start, stop, step) <==> InRange(x, start, stop, step)
    decreases if step > 0 then stop - start else start - stop
  {
    if Continues(start, stop, step) {
      RangeMembership(start + step, stop, step, x);
      InRangeStep(start, stop, step, x);
    }
  }

  /** One step of `range`: the lattice from start is start itself plus the lattice from the next value. */
  lemma InRangeStep(start: int, stop: int, step: int, x: int)
    requires step != 0 && Continues(start, stop, step)
    ensures InRange(x, start, stop, step) <==> x == start || InRange(x, start + step, stop, step)
  {
    ModStep(x - start, step);
    assert x - (start + step) == (x - start) - step;
    if x != start && (x - start) % step == 0 {
      if step > 0 && start < x < start + step {
        ModSmall(x - start, step);
      } else if step < 0 && start + step < x < start {
        ModSmall(x - (start + step), step);
      }
    }
  }

  /** With a positive step, `range` is strictly increasing. */
  lemma {:induction false} RangeIncreasing(start: int, stop: int, step: int)
    requires step > 0
    ensures forall i, j :: 0 <= i < j < |Range(start, stop, step)| ==>
      Range(start, stop, step)[i] < Range(start, stop, step)[j]
    decreases stop - start
  {
    if Continues(start, stop, step) {
      RangeIncreasing(start + step, stop, step);
      var r, rest := Range(start, stop, step), Range(start + step, stop, step);
      assert r == [start] + rest;
      forall i, j | 0 <= i < j < |r| ensures r[i] < r[j] {
        assert r[j] == rest[j - 1];
        RangeMembership(start + step, stop, step, rest[j - 1]);
        if i > 0 {
          assert r[i] == rest[i - 1];
        }
      }
    }
  }

  // ---------------------------------------------------------------------
  // The result list of the two loops

  /** The inner loop yields one row per StopLoss value, in order. */
  lemma {:induction false} RowsForAt(tp: int, sls: seq<int>)
    ensures |RowsFor(tp, sls)| == |sls|
    ensures forall j :: 0 <= j < |sls| ==> RowsFor(tp, sls)[j] == MakeRow(tp, sls[j])
  {
    if sls != [] {
      RowsForAt(tp, sls[1..]);
    }
  }

  /** The grid has one row per pair of values. */
  lemma {:induction false} GridRowsLength(tps: seq<int>, sls: seq<int>)
    ensures |GridRows(tps, sls)| == |tps| * |sls|
  {
    if tps != [] {
      RowsForAt(tps[0], sls);
      GridRowsLength(tps[1..], sls);
      assert |tps| * |sls| == |sls| + (|tps| - 1) * |sls|;
    }
  }

  /**
   * The grid is TakeProfit-major: row `k = i * |sls| + j` pairs the i-th
   * TakeProfit value with the j-th StopLoss value.
   */
  // The flat index `k` is a parameter so that the one product `i * |sls|`
  // stays in the precondition; each step only subtracts `|sls|` from it.
  lemma {:induction false} GridRowAt(tps: seq<int>, sls: seq<int>, i: nat, j: nat, k: int)
    requires i < |tps| && j < |sls| && k == i * |sls| + j
    ensures 0 <= k < |GridRows(tps, sls)|
    ensures GridRows(tps, sls)[k] == MakeRow(tps[i], sls[j])
    decreases i
  {
    var n := |sls|;
    var head, tail := RowsFor(tps[0], sls), GridRows(tps[1..], sls);
    assert GridRows(tps, sls) == head + tail;
    RowsForAt(tps[0], sls);
    if i > 0 {
      MulPred(i, n);
      GridRowAt(tps[1..], sls, i - 1, j, k - n);
      assert tps[1..][i - 1] == tps[i];
    } else {
      assert k == j;
    }
  }

  /** A row of the inner loop is exactly a StopLoss value paired with tp, with its profit. */
  lemma {:induction false} RowsForMembership(tp: int, sls: seq<int>, r: Row)
    ensures r in RowsFor(tp, sls) <==> r.takeProfit == tp && r.stopLoss in sls && r.profit == Profit(tp, r.stopLoss)
  {
    if sls != [] {
      RowsForMembership(tp, sls[1..], r);
      assert sls == [sls[0]] + sls[1..];
    }
  }

  /** The grid holds exactly the rows of every TakeProfit and StopLoss pair, and nothing else. */
  lemma {:induction false} GridMembership(tps: seq<int>, sls: seq<int>, r: Row)
    ensures r in GridRows(tps, sls) <==>
      r.takeProfit in tps && r.stopLoss in sls && r.profit == Profit(r.takeProfit, r.stopLoss)
  {
    if tps != [] {
      RowsForMembership(tps[0], sls, r);
      GridMembership(tps[1..], sls, r);
      assert tps == [tps[0]] + tps[1..];
    }
  }

  /** s is strictly increasing. */
  predicate Increasing(s: seq<int>) {
    forall i, j :: 0 <= i < j < |s| ==> s[i] < s[j]
  }

  /** a comes strictly before b in (TakeProfit, StopLoss) order. */
  predicate LexBefore(a: Row, b: Row) {
    a.takeProfit < b.takeProfit || (a.takeProfit == b.takeProfit && a.stopLoss < b.stopLoss)
  }

  /** Increasing axes give rows in strictly increasing (TakeProfit, StopLoss) order. */
  lemma {:induction false} GridRowsSorted(tps: seq<int>, sls: seq<int>)
    requires Increasing(tps) && Increasing(sls)
    ensures var g := GridRows(tps, sls); forall p, q :: 0 <= p < q < |g| ==> LexBefore(g[p], g[q])
  {
    if tps != [] {
      var g, head, tail := GridRows(tps, sls), RowsFor(tps[0], sls), GridRows(tps[1..], sls);
      assert g == head + tail;
      RowsForAt(tps[0], sls);
      GridRowsSorted(tps[1..], sls);
      forall p, q | 0 <= p < q < |g| ensures LexBefore(g[p], g[q]) {
        if q < |head| {
          assert g[p] == head[p] && g[q] == head[q];
        } else if p < |head| {
          assert g[q] == tail[q - |head|];
          GridMembership(tps[1..], sls, tail[q - |head|]);
          var k :| 0 <= k < |tps[1..]| && tps[1..][k] == tail[q - |head|].takeProfit;
          assert tps[1..][k] == tps[k + 1];
        } else {
          assert g[p] == tail[p - |head|] && g[q] == tail[q - |head|];
        }
      }
    }
  }

  /** v is the largest element of s. */
  predicate IsLargest(v: int, s: seq<int>) {
    v in s && forall y :: y in s ==> y <= v
  }

  /** v is the smallest element of s. */
  predicate IsSmallest(v: int, s: seq<int>) {
    v in s && forall y :: y in s ==> v <= y
  }

  /** r has the greatest profit among rows. */
  predicate IsMaximal(r: Row, rows: seq<Row>) {
    r in rows && forall x :: x in rows ==> x.profit <= r.profit
  }

  /**
   * Profit rises with TakeProfit and falls with StopLoss, so a grid row has
   * the greatest profit exactly when it pairs the largest TakeProfit with the
   * smallest StopLoss.
   */
  lemma GridMaximal(tps: seq<int>, sls: seq<int>, r: Row)
    requires r in GridRows(tps, sls)
    ensures IsMaximal(r, GridRows(tps, sls)) <==> IsLargest(r.takeProfit, tps) && IsSmallest(r.stopLoss, sls)
  {
    var g := GridRows(tps, sls);
    GridMembership(tps, sls, r);
    if IsMaximal(r, g) {
      forall y | y in tps ensures y <= r.takeProfit {
        GridMembership(tps, sls, MakeRow(y, r.stopLoss));
      }
      forall y | y in sls ensures r.stopLoss <= y {
        GridMembership(tps, sls, MakeRow(r.takeProfit, y));
      }
    }
    if IsLargest(r.takeProfit, tps) && IsSmallest(r.stopLoss, sls) {
      forall x | x in g ensures x.profit <= r.profit {
        GridMembership(tps, sls, x);
      }
    }
  }

  /**
   * The best row is unique, so pandas' unstable sort picks the same row as
   * any other maximum would.
   */
  lemma MaximalRowIsUnique(tps: seq<int>, sls: seq<int>, r1: Row, r2: Row)
    requires IsMaximal(r1, GridRows(tps, sls)) && IsMaximal(r2, GridRows(tps, sls))
    ensures r1 == r2
  {
    GridMaximal(tps, sls, r1);
    GridMaximal(tps, sls, r2);
    GridMembership(tps, sls, r1);
    GridMembership(tps, sls, r2);
  }

  /** With a positive step, the last value of a range is the largest one below stop. */
  lemma {:induction false} RangeLast(start: int, stop: int, step: int)
    requires step > 0 && start < stop
    ensures Range(start, stop, step) != []
    ensures var r := Range(start, stop, step); r[|r| - 1] < stop <= r[|r| - 1] + step
    decreases stop - start
  {
    var r, rest := Range(start, stop, step), Range(start + step, stop, step);
    assert r == [start] + rest;
    if rest != [] {
      RangeLast(start + step, stop, step);
      assert r[|r| - 1] == rest[|rest| - 1];
    }
  }

  // ---------------------------------------------------------------------
  // Properties of the simulation

  /** An axis with a positive step runs through min..max inclusive on the step's lattice. */
  lemma AxisMembership(a: Axis, x: int)
    requires a.step > 0
    ensures x in Values(a) <==> a.min <= x <= a.max && (x - a.min) % a.step == 0
  {
    RangeMembership(a.min, a.max + 1, a.step, x);
  }

  /**
   * An axis yields a value exactly when `min` does not pass `max` in the
   * step's direction, and its first value is then `min`.
   */
  lemma ValuesStart(a: Axis)
    requires a.step != 0
    ensures a.step > 0 ==> (Values(a) != [] <==> a.min <= a.max)
    ensures a.step < 0 ==> (Values(a) != [] <==> a.min > a.max + 1)
    ensures Values(a) != [] ==> Values(a)[0] == a.min
  {
  }

  /**
   * With a negative step the `max + 1` stop keeps the range strictly above
   * `max + 1`, so neither `max` nor `max + 1` is ever a value.
   */
  lemma NegativeAxisSkipsMax(a: Axis)
    requires a.step < 0
    ensures a.max !in Values(a) && a.max + 1 !in Values(a)
  {
    RangeMembership(a.min, a.max + 1, a.step, a.max);
    RangeMembership(a.min, a.max + 1, a.step, a.max + 1);
  }

  /** When both axes can be read, the result list has |tp range| * |sl range| rows. */
  lemma SimulateLength(tp: Axis, sl: Axis)
    requires tp.step != 0 && sl.step != 0
    ensures Simulate(Params(Some(tp), Some(sl))).Ok?
    ensures |Simulate(Params(Some(tp), Some(sl))).value|
      == RangeLength(tp.min, tp.max + 1, tp.step) * RangeLength(sl.min, sl.max + 1, sl.step)
  {
    RangeLengthMatches(tp.min, tp.max + 1, tp.step);
    RangeLengthMatches(sl.min, sl.max + 1, sl.step);
    GridRowsLength(Values(tp), Values(sl));
  }

  /**
   * Row `i * n + j` (n being the number of StopLoss values) holds the i-th
   * TakeProfit value `tp.min + i * tp.step` and the j-th StopLoss value
   * `sl.min + j * sl.step`: the rows are TakeProfit-major, each axis in range order.
   */
  lemma SimulateRowAt(tp: Axis, sl: Axis, i: nat, j: nat)
    requires tp.step != 0 && sl.step != 0
    requires i < RangeLength(tp.min, tp.max + 1, tp.step) && j < RangeLength(sl.min, sl.max + 1, sl.step)
    ensures Simulate(Params(Some(tp), Some(sl))).Ok?
    ensures var rows := Simulate(Params(Some(tp), Some(sl))).value;
      var n := RangeLength(sl.min, sl.max + 1, sl.step);
      0 <= i * n + j < |rows| && rows[i * n + j] == MakeRow(tp.min + i * tp.step, sl.min + j * sl.step)
  {
    RangeLengthMatches(tp.min, tp.max + 1, tp.step);
    RangeLengthMatches(sl.min, sl.max + 1, sl.step);
    RangeAt(tp.min, tp.max + 1, tp.step, i);
    RangeAt(sl.min, sl.max + 1, sl.step, j);
    GridRowAt(Values(tp), Values(sl), i, j, i * |Values(sl)| + j);
  }

  /**
   * When both axes can be read, a row is in the results exactly when its
   * TakeProfit and StopLoss are values of their ranges and its profit is
   * `2 * tp - sl`.
   */
  lemma SimulateMembership(tp: Axis, sl: Axis, r: Row)
    requires tp.step != 0 && sl.step != 0
    ensures Simulate(Params(Some(tp), Some(sl))).Ok?
    ensures r in Simulate(Params(Some(tp), Some(sl))).value <==>
      && InRange(r.takeProfit, tp.min, tp.max + 1, tp.step)
      && InRange(r.stopLoss, sl.min, sl.max + 1, sl.step)
      && r.profit == 2 * r.takeProfit - r.stopLoss
  {
    GridMembership(Values(tp), Values(sl), r);
    RangeMembership(tp.min, tp.max + 1, tp.step, r.takeProfit);
    RangeMembership(sl.min, sl.max + 1, sl.step, r.stopLoss);
  }

  /**
   * The worker gets as far as recording a completed job exactly when both
   * axes are present, both steps are non-zero and both ranges are non-empty.
   */
  lemma OptimizationSucceedsIff(p: Params)
    ensures Optimization(p).Ok? <==>
      && p.takeProfit.Some? && p.takeProfit.value.step != 0 && Values(p.takeProfit.value) != []
      && p.stopLoss.Some? && p.stopLoss.value.step != 0 && Values(p.stopLoss.value) != []
  {
    if p.takeProfit.Some? && p.takeProfit.value.step != 0 && p.stopLoss.Some? && p.stopLoss.value.step != 0 {
      GridRowsLength(Values(p.takeProfit.value), Values(p.stopLoss.value));
      var a, b := |Values(p.takeProfit.value)|, |Values(p.stopLoss.value)|;
      if a > 0 && b > 0 {
        MulAtLeast(a, b);
      }
    }
  }

  /**
   * An empty TakeProfit range ends the run before the StopLoss axis is
   * read: the run fails on the empty result list whatever the StopLoss entry holds.
   */
  lemma EmptyTakeProfitIgnoresStopLoss(tp: Axis, stopLoss: Option<Axis>)
    requires tp.step != 0 && Values(tp) == []
    ensures Optimization(Params(Some(tp), stopLoss)) == Err(EmptyResults)
  {
  }

  /**
   * With a positive step and min <= max, an axis starts at its smallest
   * value min and ends at its largest value, the last lattice point not above max.
   */
  lemma PositiveAxisExtremes(a: Axis)
    requires a.step > 0 && a.min <= a.max
    ensures Values(a) != []
    ensures IsSmallest(a.min, Values(a))
    ensures var vs := Values(a); var last := vs[|vs| - 1];
      && IsLargest(last, vs)
      && last == a.min + (RangeLength(a.min, a.max + 1, a.step) - 1) * a.step
      && last <= a.max < last + a.step
  {
    var vs := Values(a);
    RangeLast(a.min, a.max + 1, a.step);
    RangeIncreasing(a.min, a.max + 1, a.step);
    assert vs[0] == a.min;
    forall y | y in vs ensures a.min <= y <= vs[|vs| - 1] {
      var k :| 0 <= k < |vs| && vs[k] == y;
      if 0 < k { assert vs[0] < vs[k]; }
      if k < |vs| - 1 { assert vs[k] < vs[|vs| - 1]; }
    }
    RangeLengthMatches(a.min, a.max + 1, a.step);
    RangeAt(a.min, a.max + 1, a.step, |vs| - 1);
  }

  /**
   * With positive steps and non-empty ranges the best row is the unique row
   * of the last TakeProfit value (the largest `tp.min + k * tp.step` not
   * above `tp.max`) and the first StopLoss value `sl.min`.
   */
  lemma BestOfPositiveGrid(tp: Axis, sl: Axis)
    requires tp.step > 0 && sl.step > 0 && tp.min <= tp.max && sl.min <= sl.max
    ensures Optimization(Params(Some(tp), Some(sl))).Ok?
    ensures var best := Optimization(Params(Some(tp), Some(sl))).value.best;
      && best.stopLoss == sl.min
      && best.takeProfit == tp.min + (RangeLength(tp.min, tp.max + 1, tp.step) - 1) * tp.step
      && best.takeProfit <= tp.max < best.takeProfit + tp.step
      && best.profit == 2 * best.takeProfit - sl.min
  {
    var tps, sls := Values(tp), Values(sl);
    PositiveAxisExtremes(tp);
    PositiveAxisExtremes(sl);
    OptimizationSucceedsIff(Params(Some(tp), Some(sl)));
    var best := BestRow(GridRows(tps, sls)).value;
    GridMaximal(tps, sls, best);
    GridMembership(tps, sls, best);
  }

  /**
   * With positive steps the result list is in strictly increasing
   * (TakeProfit, StopLoss) order: TakeProfit-major, both ascending.
   */
  lemma SimulateSorted(tp: Axis, sl: Axis)
    requires tp.step > 0 && sl.step > 0
    ensures Simulate(Params(Some(tp), Some(sl))).Ok?
    ensures var rows := Simulate(Params(Some(tp), Some(sl))).value;
      forall p, q :: 0 <= p < q < |rows| ==> LexBefore(rows[p], rows[q])
  {
    RangeIncreasing(tp.min, tp.max + 1, tp.step);
    RangeIncreasing(sl.min, sl.max + 1, sl.step);
    assert Increasing(Values(tp)) && Increasing(Values(sl));
    GridRowsSorted(Values(tp), Values(sl));
    assert Simulate(Params(Some(tp), Some(sl))).value == GridRows(Values(tp), Values(sl));
  }
}
