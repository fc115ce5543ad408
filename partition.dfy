/** The row partitioner `_getRatios` as functions: one walk over the items that
    builds the nested `rows` of running ratio sums, and the flattening of `rows`
    into the per-item arrays `map` (here `RowSums`) and `breaks`. */
module Partition {
  import opened JsNumbers
  import opened Config

  /** One child of the container: its `data-ratio` attribute when it has one, and
      its `data-width` and `data-height`. */
  datatype Item = Item(dataRatio: Option<real>, dataWidth: real, dataHeight: real)

  /** An item whose aspect ratio is a positive number (no Infinity, no NaN). */
  predicate ValidItem(it: Item)
  {
    match it.dataRatio
    case Some(q) => q > 0.0
    case None => it.dataHeight != 0.0 && it.dataWidth / it.dataHeight > 0.0
  }

  /** The aspect ratio the walk reads for an item: `data-ratio` when present,
      otherwise `data-width / data-height`. */
  function ResolveRatio(it: Item): (r: real)
    requires ValidItem(it)
    ensures r > 0.0
    ensures it.dataRatio.Some? ==> r == it.dataRatio.value
    ensures it.dataRatio.None? ==> r * it.dataHeight == it.dataWidth
  {
    match it.dataRatio
    case Some(q) => q
    case None => it.dataWidth / it.dataHeight
  }

  predicate ValidItems(items: seq<Item>)
  {
    forall j | 0 <= j < |items| :: ValidItem(items[j])
  }

  /** The `ratios` array: one resolved ratio per item, in order. */
  function RatiosOf(items: seq<Item>): (rs: seq<real>)
    requires ValidItems(items)
    ensures |rs| == |items| && Positive(rs)
    ensures forall j | 0 <= j < |items| :: rs[j] == ResolveRatio(items[j])
  {
    if items == [] then [] else RatiosOf(items[..|items| - 1]) + [ResolveRatio(items[|items| - 1])]
  }

  predicate Positive(rs: seq<real>)
  {
    forall i | 0 <= i < |rs| :: rs[i] > 0.0
  }

  /** The state of the walk: the nested `rows`, `rowTicker` (the open row) and
      `ratioTicker` (the running sum of the open row). */
  datatype Walk = Walk(rows: seq<seq<real>>, rowTicker: nat, ratioTicker: real)

  /** Push the ticker, increased by `r`, onto the open row. */
  function Push(w: Walk, r: real): (w': Walk)
    requires |w.rows| == w.rowTicker + 1
    ensures |w'.rows| == w'.rowTicker + 1
  {
    var t := w.ratioTicker + r;
    Walk(w.rows[w.rowTicker := w.rows[w.rowTicker] + [t]], w.rowTicker, t)
  }

  /** Open a fresh empty row and reset the ticker. */
  function Reset(w: Walk): (w': Walk)
    requires |w.rows| == w.rowTicker + 1
    ensures |w'.rows| == w'.rowTicker + 1
  {
    Walk(w.rows + [[]], w.rowTicker + 1, 0.0)
  }

  /** One iteration of the walk for an item of ratio `r` in a container of width `pw`:
      the push, then the `minHeight` test and the `maxRatio` test, each of which
      resets when it fires. */
  function Step(w: Walk, r: real, pw: real, o: Options): (w': Walk)
    requires |w.rows| == w.rowTicker + 1
    ensures |w'.rows| == w'.rowTicker + 1
  {
    var pushed := Push(w, r);
    var first := if DivLess(pw, pushed.ratioTicker, o.minHeight) then Reset(pushed) else pushed;
    if first.ratioTicker > o.maxRatio && DivLess(pw, first.ratioTicker, o.maxHeight)
    then Reset(first)
    else first
  }

  /** The walk over the ratios `rs`, from `rows = [[]]` and both tickers at 0. */
  function WalkOf(rs: seq<real>, pw: real, o: Options): (w: Walk)
    ensures |w.rows| == w.rowTicker + 1
  {
    if rs == [] then Walk([[]], 0, 0.0)
    else Step(WalkOf(rs[..|rs| - 1], pw, o), rs[|rs| - 1], pw, o)
  }

  /** `n` copies of `x`. */
  function Repeat<T>(x: T, n: nat): (s: seq<T>)
    ensures |s| == n
    ensures forall j | 0 <= j < n :: s[j] == x
  {
    if n == 0 then [] else Repeat(x, n - 1) + [x]
  }

  /** Every entry of a row replaced by the row's last entry. */
  function Fill(row: seq<real>): (f: seq<real>)
    ensures |f| == |row|
    ensures forall j | 0 <= j < |f| :: f[j] == row[|row| - 1]
  {
    if row == [] then [] else Repeat(row[|row| - 1], |row|)
  }

  /** The flattened `map`: for every entry of row p, the final sum of row p. */
  function MapOf(rows: seq<seq<real>>): seq<real>
  {
    if rows == [] then [] else MapOf(rows[..|rows| - 1]) + Fill(rows[|rows| - 1])
  }

  /** The flattened `breaks`: for every entry of row p, the index p. */
  function BreaksOf(rows: seq<seq<real>>): seq<nat>
  {
    if rows == [] then []
    else BreaksOf(rows[..|rows| - 1]) + Repeat(|rows| - 1, |rows[|rows| - 1]|)
  }

  /** `breaks` after the walk over `rs`. */
  function Breaks(rs: seq<real>, pw: real, o: Options): seq<nat>
  {
    BreaksOf(WalkOf(rs, pw, o).rows)
  }

  /** `map` after the walk over `rs`. */
  function RowSums(rs: seq<real>, pw: real, o: Options): seq<real>
  {
    MapOf(WalkOf(rs, pw, o).rows)
  }

  /** The sum of `xs[j]` over the items j < hi that `b` places in row p. */
  function SumOverRow(xs: seq<real>, b: seq<nat>, p: nat, hi: nat): real
    requires hi <= |xs| && hi <= |b|
  {
    if hi == 0 then 0.0
    else SumOverRow(xs, b, p, hi - 1) + (if b[hi - 1] == p then xs[hi - 1] else 0.0)
  }

  /** Whether an item that brings the open row's sum to `t` closes the row. */
  predicate Closes(t: real, pw: real, o: Options)
  {
    DivLess(pw, t, o.minHeight) || (t > o.maxRatio && DivLess(pw, t, o.maxHeight))
  }

  /** How many rows the two tests open after an item that brings the sum to `t`:
      the second test sees the ticker already reset to 0 when the first one fired. */
  function Closed(t: real, pw: real, o: Options): nat
  {
    if DivLess(pw, t, o.minHeight)
    then 1 + (if 0.0 > o.maxRatio && DivLess(pw, 0.0, o.maxHeight) then 1 else 0)
    else if t > o.maxRatio && DivLess(pw, t, o.maxHeight) then 1 else 0
  }

  lemma {:induction false} ClosedCount(t: real, pw: real, o: Options)
    ensures Closed(t, pw, o) > 0 <==> Closes(t, pw, o)
    ensures Closed(t, pw, o) <= 2
    ensures o.maxRatio >= 0.0 || pw >= 0.0 ==> Closed(t, pw, o) <= 1
  {
  }

  // ---------------------------------------------------------------------------
  // Flattening facts

  lemma {:induction false} FlattenGrow(rows: seq<seq<real>>)
    ensures BreaksOf(rows + [[]]) == BreaksOf(rows)
    ensures MapOf(rows + [[]]) == MapOf(rows)
  {
    assert (rows + [[]])[..|rows|] == rows;
  }

  /** Both flattened arrays have one entry per row entry, and every row index is a row. */
  lemma {:induction false} FlattenBounds(rows: seq<seq<real>>)
    ensures |BreaksOf(rows)| == |MapOf(rows)|
    ensures forall i | 0 <= i < |BreaksOf(rows)| :: BreaksOf(rows)[i] < |rows|
  {
    if rows != [] {
      FlattenBounds(rows[..|rows| - 1]);
    }
  }

  lemma {:induction false} FlattenPushBreaks(rows: seq<seq<real>>, t: real)
    requires |rows| > 0
    ensures var k := |rows| - 1;
      BreaksOf(rows[k := rows[k] + [t]]) == BreaksOf(rows) + [k]
  {
    var k := |rows| - 1;
    var rows' := rows[k := rows[k] + [t]];
    assert rows'[..k] == rows[..k];
    var front := BreaksOf(rows[..k]);
    assert BreaksOf(rows') == front + Repeat(k, |rows[k]| + 1);
    assert Repeat(k, |rows[k]| + 1) == Repeat(k, |rows[k]|) + [k];
    assert BreaksOf(rows) == front + Repeat(k, |rows[k]|);
    assert front + (Repeat(k, |rows[k]|) + [k]) == (front + Repeat(k, |rows[k]|)) + [k];
  }

  lemma {:induction false} FlattenPushMap(rows: seq<seq<real>>, t: real)
    requires |rows| > 0
    ensures var k := |rows| - 1;
      MapOf(rows[k := rows[k] + [t]]) == MapOf(rows[..k]) + Repeat(t, |rows[k]| + 1)
  {
    var k := |rows| - 1;
    var rows' := rows[k := rows[k] + [t]];
    assert rows'[..k] == rows[..k];
    assert rows'[k] == rows[k] + [t];
    assert Fill(rows'[k]) == Repeat(t, |rows[k]| + 1);
  }

  /** The entries of all rows but the last come first and lie in lower rows. */
  lemma {:induction false} FlattenSplit(rows: seq<seq<real>>)
    requires |rows| > 0
    ensures var k := |rows| - 1; var off := |MapOf(rows[..k])|;
      && |MapOf(rows)| == off + |rows[k]|
      && |BreaksOf(rows)| == |MapOf(rows)|
      && (forall i | 0 <= i < off :: MapOf(rows)[i] == MapOf(rows[..k])[i] && BreaksOf(rows)[i] < k)
      && (forall i | off <= i < |MapOf(rows)| :: BreaksOf(rows)[i] == k)
  {
    var k := |rows| - 1;
    FlattenBounds(rows[..k]);
    FlattenBounds(rows);
    assert BreaksOf(rows) == BreaksOf(rows[..k]) + Repeat(k, |rows[k]|);
  }

  /** What one step from `w` to `w'` does to the flattened arrays and to the tickers. */
  predicate Stepped(w: Walk, r: real, w': Walk, pw: real, o: Options)
    requires |w.rows| == w.rowTicker + 1
  {
    var k := w.rowTicker;
    var t := w.ratioTicker + r;
    && |w'.rows| == w'.rowTicker + 1
    && BreaksOf(w'.rows) == BreaksOf(w.rows) + [k]
    && MapOf(w'.rows) == MapOf(w.rows[..k]) + Repeat(t, |w.rows[k]| + 1)
    && w'.rowTicker == k + Closed(t, pw, o)
    && w'.ratioTicker == (if Closed(t, pw, o) == 0 then t else 0.0)
  }

  /** A step is the push followed by as many resets as rows it opens. */
  lemma {:induction false} StepShape(w: Walk, r: real, pw: real, o: Options)
    requires |w.rows| == w.rowTicker + 1
    ensures var n := Closed(w.ratioTicker + r, pw, o); var pushed := Push(w, r);
      && n <= 2
      && Step(w, r, pw, o) == (if n == 0 then pushed else if n == 1 then Reset(pushed) else Reset(Reset(pushed)))
  {
  }

  lemma {:induction false} StepFacts(w: Walk, r: real, pw: real, o: Options)
    requires |w.rows| == w.rowTicker + 1
    ensures Stepped(w, r, Step(w, r, pw, o), pw, o)
  {
    var k := w.rowTicker;
    var t := w.ratioTicker + r;
    var pushed := Push(w, r);
    var once := Reset(pushed);
    StepShape(w, r, pw, o);
    FlattenPushBreaks(w.rows, t);
    FlattenPushMap(w.rows, t);
    FlattenGrow(pushed.rows);
    FlattenGrow(once.rows);
  }

  // ---------------------------------------------------------------------------
  // Sums over a row

  lemma {:induction false} SumOverRowAgree(xs: seq<real>, b: seq<nat>, ys: seq<real>, c: seq<nat>, p: nat, hi: nat)
    requires hi <= |xs| && hi <= |b| && hi <= |ys| && hi <= |c|
    requires forall j | 0 <= j < hi :: xs[j] == ys[j] && b[j] == c[j]
    ensures SumOverRow(xs, b, p, hi) == SumOverRow(ys, c, p, hi)
  {
    if hi > 0 {
      SumOverRowAgree(xs, b, ys, c, p, hi - 1);
    }
  }

  lemma {:induction false} SumOverRowAbsent(xs: seq<real>, b: seq<nat>, p: nat, hi: nat)
    requires hi <= |xs| && hi <= |b|
    requires forall j | 0 <= j < hi :: b[j] != p
    ensures SumOverRow(xs, b, p, hi) == 0.0
  {
    if hi > 0 {
      SumOverRowAbsent(xs, b, p, hi - 1);
    }
  }

  lemma {:induction false} SumOverRowPositive(xs: seq<real>, b: seq<nat>, p: nat, hi: nat, j: nat)
    requires hi <= |xs| && hi <= |b| && Positive(xs)
    requires j < hi && b[j] == p
    ensures SumOverRow(xs, b, p, hi) >= xs[j] > 0.0
  {
    if j < hi - 1 {
      SumOverRowPositive(xs, b, p, hi - 1, j);
    } else {
      SumOverRowNonNegative(xs, b, p, hi - 1);
    }
  }

  lemma {:induction false} SumOverRowNonNegative(xs: seq<real>, b: seq<nat>, p: nat, hi: nat)
    requires hi <= |xs| && hi <= |b| && Positive(xs)
    ensures SumOverRow(xs, b, p, hi) >= 0.0
  {
    if hi > 0 {
      SumOverRowNonNegative(xs, b, p, hi - 1);
    }
  }

  // ---------------------------------------------------------------------------
  // The walk

  /** The row sum through item i: the ratios of i's row up to and including i. */
  function RunningSum(rs: seq<real>, b: seq<nat>, i: nat): real
    requires i < |rs| && i < |b|
  {
    SumOverRow(rs, b, b[i], i + 1)
  }

  /** Item i + 1 is in item i's row plus the number of rows item i's tests opened. */
  predicate NextRow(rs: seq<real>, b: seq<nat>, i: nat, pw: real, o: Options)
    requires i + 1 < |rs| && |b| == |rs|
  {
    b[i + 1] == b[i] + Closed(RunningSum(rs, b, i), pw, o)
  }

  /** The invariant of the walk over `rs`: one flattened entry per item, every item
      in a row no later than the open one, the ticker is the sum of the open row,
      every `map` entry is the full sum of its item's row, the open row is the
      last item's row plus the rows that item's tests opened, the first item is in
      row 0, and each item's row follows from the previous one's. */
  predicate WalkInv(rs: seq<real>, w: Walk, pw: real, o: Options)
  {
    var b := BreaksOf(w.rows);
    var m := MapOf(w.rows);
    && |w.rows| == w.rowTicker + 1
    && |b| == |rs| && |m| == |rs|
    && (forall i | 0 <= i < |rs| :: b[i] <= w.rowTicker)
    && w.ratioTicker == SumOverRow(rs, b, w.rowTicker, |rs|)
    && (forall i {:trigger m[i]} | 0 <= i < |rs| :: m[i] == SumOverRow(rs, b, b[i], |rs|))
    && (rs == [] ==> w.rowTicker == 0)
    && (rs != [] ==> w.rowTicker == b[|rs| - 1] + Closed(SumOverRow(rs, b, b[|rs| - 1], |rs|), pw, o))
    && (rs != [] ==> b[0] == 0)
    && (forall i: nat | i + 1 < |rs| :: NextRow(rs, b, i, pw, o))
  }

  /** After a step every `map` entry is still the full sum of its item's row. */
  lemma {:induction false} InvStepMap(rs: seq<real>, r: real, w: Walk, w': Walk, pw: real, o: Options)
    requires WalkInv(rs, w, pw, o) && Stepped(w, r, w', pw, o)
    ensures var b' := BreaksOf(w'.rows); var m' := MapOf(w'.rows);
      && |b'| == |rs| + 1 && |m'| == |rs| + 1
      && (forall i | 0 <= i < |rs| + 1 :: m'[i] == SumOverRow(rs + [r], b', b'[i], |rs| + 1))
  {
    var n := |rs|;
    var rs' := rs + [r];
    var k := w.rowTicker;
    var b := BreaksOf(w.rows);
    var m := MapOf(w.rows);
    var b' := BreaksOf(w'.rows);
    var m' := MapOf(w'.rows);
    var t := w.ratioTicker + r;
    FlattenSplit(w.rows);
    assert w.rows[..k] == w.rows[..|w.rows| - 1];
    var off := |MapOf(w.rows[..k])|;
    forall i | 0 <= i < n + 1
      ensures m'[i] == SumOverRow(rs', b', b'[i], n + 1)
    {
      SumOverRowAgree(rs', b', rs, b, b'[i], n);
      if i < off {
        assert m'[i] == m[i];
        assert b'[i] == b[i] < k;
      } else {
        assert m'[i] == t;
        assert b'[i] == k;
      }
    }
  }

  /** After a step the ticker is the sum of the new open row, and the open row is
      the new item's row plus the rows it opened. */
  lemma {:induction false} InvStepTicker(rs: seq<real>, r: real, w: Walk, w': Walk, pw: real, o: Options)
    requires WalkInv(rs, w, pw, o) && Stepped(w, r, w', pw, o)
    ensures var b' := BreaksOf(w'.rows);
      && |b'| == |rs| + 1
      && (forall i | 0 <= i < |rs| + 1 :: b'[i] <= w'.rowTicker)
      && w'.ratioTicker == SumOverRow(rs + [r], b', w'.rowTicker, |rs| + 1)
      && w'.rowTicker == b'[|rs|] + Closed(SumOverRow(rs + [r], b', b'[|rs|], |rs| + 1), pw, o)
  {
    var n := |rs|;
    var rs' := rs + [r];
    var k := w.rowTicker;
    var b := BreaksOf(w.rows);
    var b' := BreaksOf(w'.rows);
    var t := w.ratioTicker + r;
    assert b' == b + [k];
    assert forall i | 0 <= i < n + 1 :: b'[i] <= k;
    SumOverRowAgree(rs', b', rs, b, k, n);
    assert SumOverRow(rs', b', k, n + 1) == t;
    if Closed(t, pw, o) > 0 {
      SumOverRowAbsent(rs', b', w'.rowTicker, n + 1);
    }
  }

  /** After a step the first item is still in row 0 and the new item's row follows
      from the previous item's. */
  lemma {:induction false} InvStepBreaks(rs: seq<real>, r: real, w: Walk, w': Walk, pw: real, o: Options)
    requires WalkInv(rs, w, pw, o) && Stepped(w, r, w', pw, o)
    ensures var b' := BreaksOf(w'.rows);
      && |b'| == |rs| + 1 && b'[0] == 0
      && (forall i: nat | i + 1 < |rs| + 1 :: NextRow(rs + [r], b', i, pw, o))
  {
    var n := |rs|;
    var rs' := rs + [r];
    var b := BreaksOf(w.rows);
    var b' := BreaksOf(w'.rows);
    assert b' == b + [w.rowTicker];
    forall i: nat | i + 1 < n + 1
      ensures NextRow(rs', b', i, pw, o)
    {
      SumOverRowAgree(rs', b', rs, b, b[i], i + 1);
      if i + 1 < n {
        assert NextRow(rs, b, i, pw, o);
      }
    }
  }

  /** One step keeps the invariant. */
  lemma {:induction false} InvStep(rs: seq<real>, r: real, w: Walk, w': Walk, pw: real, o: Options)
    requires WalkInv(rs, w, pw, o) && Stepped(w, r, w', pw, o)
    ensures WalkInv(rs + [r], w', pw, o)
  {
    InvStepMap(rs, r, w, w', pw, o);
    InvStepTicker(rs, r, w, w', pw, o);
    InvStepBreaks(rs, r, w, w', pw, o);
  }

  lemma {:induction false} WalkOfSnoc(rs: seq<real>, r: real, pw: real, o: Options)
    ensures WalkOf(rs + [r], pw, o) == Step(WalkOf(rs, pw, o), r, pw, o)
  {
    assert (rs + [r])[..|rs|] == rs;
  }

  lemma {:induction false} WalkFacts(rs: seq<real>, pw: real, o: Options)
    ensures WalkInv(rs, WalkOf(rs, pw, o), pw, o)
  {
    if rs == [] {
      assert WalkOf(rs, pw, o) == Walk([[]], 0, 0.0);
    } else {
      var prev := rs[..|rs| - 1];
      var r := rs[|rs| - 1];
      assert rs == prev + [r];
      WalkFacts(prev, pw, o);
      var w := WalkOf(prev, pw, o);
      StepFacts(w, r, pw, o);
      InvStep(prev, r, w, Step(w, r, pw, o), pw, o);
      WalkOfSnoc(prev, r, pw, o);
    }
  }

  // ---------------------------------------------------------------------------
  // Properties of the partition

  /** One entry of `map` and of `breaks` per item, in input order. */
  lemma {:induction false} PartitionLength(rs: seq<real>, pw: real, o: Options)
    ensures |Breaks(rs, pw, o)| == |rs| && |RowSums(rs, pw, o)| == |rs|
  {
    WalkFacts(rs, pw, o);
  }

  /** The first item is in row 0. */
  lemma {:induction false} FirstRow(rs: seq<real>, pw: real, o: Options)
    requires rs != []
    ensures |Breaks(rs, pw, o)| == |rs| && Breaks(rs, pw, o)[0] == 0
  {
    WalkFacts(rs, pw, o);
  }

  /** The next item's row is this item's row plus the number of rows this item's
      tests opened, decided by the running sum through this item. */
  lemma {:induction false} BreakStep(rs: seq<real>, pw: real, o: Options, i: nat)
    requires i + 1 < |rs|
    ensures var b := Breaks(rs, pw, o);
      |b| == |rs| && b[i + 1] == b[i] + Closed(RunningSum(rs, b, i), pw, o)
  {
    WalkFacts(rs, pw, o);
    assert NextRow(rs, Breaks(rs, pw, o), i, pw, o);
  }

  /** Rows are contiguous: `breaks` never decreases. */
  lemma {:induction false} BreaksMonotone(rs: seq<real>, pw: real, o: Options, i: nat, j: nat)
    requires i <= j < |rs|
    ensures var b := Breaks(rs, pw, o); |b| == |rs| && b[i] <= b[j]
  {
    PartitionLength(rs, pw, o);
    if i < j {
      BreaksMonotone(rs, pw, o, i, j - 1);
      BreakStep(rs, pw, o, j - 1);
    }
  }

  /** Items i and i + 1 are in different rows exactly when the running sum through i
      makes the row shorter than `minHeight`, or exceeds `maxRatio` while keeping the
      row shorter than `maxHeight`; the item that triggers the break stays behind. */
  lemma {:induction false} BreakRule(rs: seq<real>, pw: real, o: Options, i: nat)
    requires i + 1 < |rs|
    ensures var b := Breaks(rs, pw, o);
      |b| == |rs| && (b[i] != b[i + 1] <==> Closes(RunningSum(rs, b, i), pw, o))
  {
    BreakStep(rs, pw, o, i);
    ClosedCount(RunningSum(rs, Breaks(rs, pw, o), i), pw, o);
  }

  /** With a non-negative `maxRatio` (or a non-negative width) an item opens at most
      one row, so consecutive items are in the same row or in adjacent rows. */
  lemma {:induction false} AdjacentRows(rs: seq<real>, pw: real, o: Options, i: nat)
    requires i + 1 < |rs|
    requires o.maxRatio >= 0.0 || pw >= 0.0
    ensures var b := Breaks(rs, pw, o);
      |b| == |rs| && (b[i + 1] == b[i] || b[i + 1] == b[i] + 1)
  {
    BreakStep(rs, pw, o, i);
    ClosedCount(RunningSum(rs, Breaks(rs, pw, o), i), pw, o);
  }

  /** `map[i]` is the sum of the ratios of all items in item i's row, and is positive. */
  lemma {:induction false} RowSumIsRowTotal(rs: seq<real>, pw: real, o: Options, i: nat)
    requires Positive(rs) && i < |rs|
    ensures var b := Breaks(rs, pw, o); var m := RowSums(rs, pw, o);
      |b| == |rs| && |m| == |rs| && m[i] == SumOverRow(rs, b, b[i], |rs|) && m[i] > 0.0
  {
    WalkFacts(rs, pw, o);
    var b := Breaks(rs, pw, o);
    SumOverRowPositive(rs, b, b[i], |rs|, i);
  }

  /** Items in the same row share one `map` value. */
  lemma {:induction false} SameRowSameSum(rs: seq<real>, pw: real, o: Options, i: nat, j: nat)
    requires i < |rs| && j < |rs|
    ensures var b := Breaks(rs, pw, o); var m := RowSums(rs, pw, o);
      |b| == |rs| && |m| == |rs| && (b[i] == b[j] ==> m[i] == m[j])
  {
    WalkFacts(rs, pw, o);
  }

  /** With positive ratios every entry of `map` is positive. */
  lemma {:induction false} RowSumsPositive(rs: seq<real>, pw: real, o: Options)
    requires Positive(rs)
    ensures |RowSums(rs, pw, o)| == |rs| && Positive(RowSums(rs, pw, o))
  {
    PartitionLength(rs, pw, o);
    forall i | 0 <= i < |rs|
      ensures RowSums(rs, pw, o)[i] > 0.0
    {
      RowSumIsRowTotal(rs, pw, o, i);
    }
  }
}
