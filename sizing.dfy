/** The row sizer `_makeLayout` as functions: one pass over the items that gives
    each item a width and a height from its ratio and its row's sum, carrying the
    width taken so far in the open row so that the row's last item can absorb
    what is left of the container. */
module Sizing {
  import opened JsNumbers
  import opened Config
  import opened Partition

  /** The inline `width` and `height` an item receives. */
  datatype Box = Box(width: real, height: real)

  /** A row's last item takes the whole remaining width when less than this would be left over. */
  const SnapGap: real := 5.0

  /** The arrays the pass reads are long enough for `n` items and no row sum it
      divides by is 0. */
  predicate Sizable(rs: seq<real>, m: seq<real>, b: seq<nat>, n: nat)
  {
    n <= |rs| && |m| == |rs| && |b| == |rs| && forall j | 0 <= j < n :: m[j] != 0.0
  }

  /** Whether the rounded height of a row with ratio sum `s` exceeds `maxH`. */
  predicate Clamped(pw: real, s: real, maxH: real)
    requires s != 0.0
  {
    Round(pw / s) as real > maxH
  }

  /** An item's fraction `r / s` of its row, times the container width. */
  function Share(r: real, s: real, pw: real): real
    requires s != 0.0
  {
    r / s * pw
  }

  /** An item's box before the row-end adjustment: its share `r / s` of the
      container as width and the container width over its row's sum `s` as height,
      both rounded; a row taller than `maxH` is clamped to `maxH`, and its items keep
      their aspect ratio. */
  function ItemBox(r: real, s: real, pw: real, maxH: real): (bx: Box)
    requires s != 0.0
    ensures bx.height <= maxH
  {
    var height := Round(pw / s) as real;
    if height > maxH then Box(maxH * r, maxH) else Box(Round(Share(r, s, pw)) as real, height)
  }

  /** The last item of a row with `pos` pixels left: it grows or shrinks to `pos`
      when the gap would be under `SnapGap` or negative. */
  function Snap(width: real, pos: real): (r: real)
    ensures r <= pos
    ensures pos - width < SnapGap ==> r == pos
    ensures pos - width >= SnapGap ==> r == width
  {
    if pos - width < SnapGap || width > pos then pos else width
  }

  /** Item i ends a row: `breaks[i] !== breaks[i + 1]`, which past the last entry
      compares with `undefined` and holds. */
  predicate RowEnd(b: seq<nat>, i: nat)
    requires i < |b|
  {
    i + 1 == |b| || b[i] != b[i + 1]
  }

  /** The state of the pass: the boxes so far and `runningWidth`. */
  datatype Pass = Pass(boxes: seq<Box>, running: real)

  /** The boxes of the first `n` items before the row-end adjustment. */
  function RawBoxes(rs: seq<real>, m: seq<real>, pw: real, maxH: real, n: nat): (raw: seq<Box>)
    requires n <= |rs| && |m| == |rs| && forall j | 0 <= j < n :: m[j] != 0.0
    ensures |raw| == n
    ensures forall j | 0 <= j < n :: raw[j] == ItemBox(rs[j], m[j], pw, maxH)
  {
    if n == 0 then [] else RawBoxes(rs, m, pw, maxH, n - 1) + [ItemBox(rs[n - 1], m[n - 1], pw, maxH)]
  }

  /** The pass over the first `k` of the boxes `raw`, carrying `runningWidth`: an
      item that ends a row is snapped against what the row left of the container. */
  function PassOf(raw: seq<Box>, b: seq<nat>, pw: real, k: nat): (p: Pass)
    requires k <= |raw| <= |b|
    ensures |p.boxes| == k
  {
    if k == 0 then Pass([], 0.0)
    else
      var prev := PassOf(raw, b, pw, k - 1);
      var bx := raw[k - 1];
      if RowEnd(b, k - 1) then Pass(prev.boxes + [Box(Snap(bx.width, pw - prev.running), bx.height)], 0.0)
      else Pass(prev.boxes + [bx], prev.running + bx.width)
  }

  /** The boxes of all `n` items. */
  function Boxes(rs: seq<real>, m: seq<real>, b: seq<nat>, n: nat, pw: real, maxH: real): seq<Box>
    requires Sizable(rs, m, b, n)
  {
    PassOf(RawBoxes(rs, m, pw, maxH, n), b, pw, n).boxes
  }

  function Widths(bs: seq<Box>): (ws: seq<real>)
    ensures |ws| == |bs|
    ensures forall j | 0 <= j < |bs| :: ws[j] == bs[j].width
  {
    if bs == [] then [] else Widths(bs[..|bs| - 1]) + [bs[|bs| - 1].width]
  }

  /** `xs[lo] + ... + xs[hi - 1]`. */
  function Sum(xs: seq<real>, lo: nat, hi: nat): real
    requires hi <= |xs|
  {
    if hi <= lo then 0.0 else Sum(xs, lo, hi - 1) + xs[hi - 1]
  }

  /** The first item of the row segment that item k would belong to: the item
      after the last row end before k. */
  function RowStart(b: seq<nat>, k: nat): (s: nat)
    requires k <= |b|
    ensures s <= k
  {
    if k == 0 then 0 else if RowEnd(b, k - 1) then k else RowStart(b, k - 1)
  }

  // ---------------------------------------------------------------------------
  // The pass, item by item

  lemma {:induction false} PassPrefix(raw: seq<Box>, b: seq<nat>, pw: real, k: nat, k': nat)
    requires k <= k' <= |raw| <= |b|
    ensures PassOf(raw, b, pw, k).boxes == PassOf(raw, b, pw, k').boxes[..k]
  {
    if k < k' {
      PassPrefix(raw, b, pw, k, k' - 1);
      assert PassOf(raw, b, pw, k' - 1).boxes == PassOf(raw, b, pw, k').boxes[..k' - 1];
    }
  }

  /** Item i keeps its raw height, and its raw width unless it ends a row. */
  lemma {:induction false} PassAt(raw: seq<Box>, b: seq<nat>, pw: real, n: nat, i: nat)
    requires i < n <= |raw| <= |b|
    ensures var B := PassOf(raw, b, pw, n).boxes;
      && B[i].height == raw[i].height
      && (!RowEnd(b, i) ==> B[i].width == raw[i].width)
  {
    PassPrefix(raw, b, pw, i + 1, n);
  }

  lemma {:induction false} SumAgree(xs: seq<real>, ys: seq<real>, lo: nat, hi: nat)
    requires hi <= |xs| && hi <= |ys|
    requires forall j | lo <= j < hi :: xs[j] == ys[j]
    ensures Sum(xs, lo, hi) == Sum(ys, lo, hi)
  {
    if lo < hi {
      SumAgree(xs, ys, lo, hi - 1);
    }
  }

  /** `runningWidth` after k items is the width taken by the items of the open
      row segment, and so 0 right after a row end. */
  lemma {:induction false} RunningWidth(raw: seq<Box>, b: seq<nat>, pw: real, k: nat)
    requires k <= |raw| <= |b|
    ensures var p := PassOf(raw, b, pw, k);
      p.running == Sum(Widths(p.boxes), RowStart(b, k), k)
  {
    if k > 0 {
      var prev := PassOf(raw, b, pw, k - 1);
      var p := PassOf(raw, b, pw, k);
      RunningWidth(raw, b, pw, k - 1);
      if !RowEnd(b, k - 1) {
        var s := RowStart(b, k);
        assert s == RowStart(b, k - 1);
        assert p.boxes[..k - 1] == prev.boxes;
        SumAgree(Widths(p.boxes), Widths(prev.boxes), s, k - 1);
      }
    }
  }

  /** A row's last item is snapped against the width the rest of its segment left. */
  lemma {:induction false} RowEndWidth(raw: seq<Box>, b: seq<nat>, pw: real, n: nat, i: nat)
    requires i < n <= |raw| <= |b| && RowEnd(b, i)
    ensures var W := Widths(PassOf(raw, b, pw, n).boxes);
      W[i] == Snap(raw[i].width, pw - Sum(W, RowStart(b, i), i))
  {
    var B := PassOf(raw, b, pw, n).boxes;
    var W := Widths(B);
    var p := PassOf(raw, b, pw, i);
    var q := PassOf(raw, b, pw, i + 1);
    var s := RowStart(b, i);
    PassPrefix(raw, b, pw, i, n);
    PassPrefix(raw, b, pw, i + 1, n);
    assert q.boxes[i] == Box(Snap(raw[i].width, pw - p.running), raw[i].height);
    assert B[i] == q.boxes[i];
    RunningWidth(raw, b, pw, i);
    forall j | s <= j < i
      ensures W[j] == Widths(p.boxes)[j]
    {
      assert p.boxes[j] == B[j];
    }
    SumAgree(W, Widths(p.boxes), s, i);
  }

  // ---------------------------------------------------------------------------
  // Properties of the sizes

  /** A row segment's widths add up to at most the container width, and to
      exactly the container width when its last item's raw width leaves a gap
      under `SnapGap`. */
  lemma {:induction false} RowEndFits(raw: seq<Box>, b: seq<nat>, pw: real, n: nat, i: nat)
    requires i < n <= |raw| <= |b| && RowEnd(b, i)
    ensures var W := Widths(PassOf(raw, b, pw, n).boxes); var s := RowStart(b, i);
      var gap := pw - Sum(W, s, i) - raw[i].width;
      && W[i] == Snap(raw[i].width, pw - Sum(W, s, i))
      && Sum(W, s, i + 1) <= pw
      && (Sum(W, s, i + 1) == pw <==> gap < SnapGap)
  {
    var W := Widths(PassOf(raw, b, pw, n).boxes);
    var s := RowStart(b, i);
    RowEndWidth(raw, b, pw, n, i);
    assert Sum(W, s, i + 1) == Sum(W, s, i) + W[i];
  }

  /** The last item always ends a row, so the last row fits the container too. */
  lemma {:induction false} LastRowFits(rs: seq<real>, m: seq<real>, b: seq<nat>, pw: real, maxH: real)
    requires Sizable(rs, m, b, |rs|) && |rs| > 0
    ensures var n := |rs|; Sum(Widths(Boxes(rs, m, b, n, pw, maxH)), RowStart(b, n - 1), n) <= pw
  {
    RowEndFits(RawBoxes(rs, m, pw, maxH, |rs|), b, pw, |rs|, |rs| - 1);
  }

  /** Item i's box keeps the height `ItemBox` gives it, and its width unless it ends a row. */
  lemma {:induction false} SizeAt(rs: seq<real>, m: seq<real>, b: seq<nat>, n: nat, pw: real, maxH: real, i: nat)
    requires Sizable(rs, m, b, n) && i < n
    ensures var B := Boxes(rs, m, b, n, pw, maxH); var bx := ItemBox(rs[i], m[i], pw, maxH);
      && B[i].height == bx.height
      && (!RowEnd(b, i) ==> B[i].width == bx.width)
  {
    PassAt(RawBoxes(rs, m, pw, maxH, n), b, pw, n, i);
  }

  /** No item is taller than `maxHeight`. */
  lemma {:induction false} HeightBound(rs: seq<real>, m: seq<real>, b: seq<nat>, n: nat, pw: real, maxH: real, i: nat)
    requires Sizable(rs, m, b, n) && i < n
    ensures Boxes(rs, m, b, n, pw, maxH)[i].height <= maxH
  {
    SizeAt(rs, m, b, n, pw, maxH, i);
  }

  /** A clamped item is `maxHeight` tall and, unless it ends a row, `maxHeight * ratio` wide. */
  lemma {:induction false} ClampedItem(rs: seq<real>, m: seq<real>, b: seq<nat>, n: nat, pw: real, maxH: real, i: nat)
    requires Sizable(rs, m, b, n) && i < n && Clamped(pw, m[i], maxH)
    ensures var B := Boxes(rs, m, b, n, pw, maxH);
      && B[i].height == maxH
      && (!RowEnd(b, i) ==> B[i].width == maxH * rs[i])
  {
    SizeAt(rs, m, b, n, pw, maxH, i);
  }

  /** An unclamped item's height is the container width over its row sum, and,
      unless the item ends a row, its width is its share `ratio / rowSum` of the
      container, each rounded to the nearest integer. */
  lemma {:induction false} UnclampedItem(rs: seq<real>, m: seq<real>, b: seq<nat>, n: nat, pw: real, maxH: real, i: nat)
    requires Sizable(rs, m, b, n) && i < n && !Clamped(pw, m[i], maxH)
    ensures var B := Boxes(rs, m, b, n, pw, maxH);
      && B[i].height == Round(pw / m[i]) as real
      && pw / m[i] - 0.5 < B[i].height <= pw / m[i] + 0.5
      && (!RowEnd(b, i) ==>
            && B[i].width == Round(Share(rs[i], m[i], pw)) as real
            && Share(rs[i], m[i], pw) - 0.5 < B[i].width <= Share(rs[i], m[i], pw) + 0.5)
  {
    SizeAt(rs, m, b, n, pw, maxH, i);
  }

  // ---------------------------------------------------------------------------
  // Sizing the rows of a partition

  /** Between the start of a row segment and item i all `breaks` entries agree,
      and the entry before the start differs. */
  lemma {:induction false} StartFacts(b: seq<nat>, i: nat)
    requires i < |b|
    ensures var s := RowStart(b, i);
      && (forall j | s <= j <= i :: b[j] == b[i])
      && (s > 0 ==> b[s - 1] != b[s])
  {
    if i > 0 && !RowEnd(b, i - 1) {
      StartFacts(b, i - 1);
    }
  }

  /** In a partition, the items of the row that item i ends are exactly the
      segment from `RowStart` to i. */
  lemma {:induction false} RowSegment(rs: seq<real>, pw: real, o: Options, i: nat)
    requires i < |rs|
    ensures var b := Breaks(rs, pw, o);
      && |b| == |rs|
      && (RowEnd(b, i) ==> forall j | 0 <= j < |rs| :: (RowStart(b, i) <= j <= i <==> b[j] == b[i]))
  {
    var b := Breaks(rs, pw, o);
    PartitionLength(rs, pw, o);
    if RowEnd(b, i) {
      var s := RowStart(b, i);
      StartFacts(b, i);
      forall j | 0 <= j < |rs|
        ensures RowStart(b, i) <= j <= i <==> b[j] == b[i]
      {
        if j < s {
          BreaksMonotone(rs, pw, o, j, s - 1);
          BreaksMonotone(rs, pw, o, s - 1, s);
        } else if j > i {
          BreaksMonotone(rs, pw, o, i, i + 1);
          BreaksMonotone(rs, pw, o, i + 1, j);
        }
      }
    }
  }

  /** Summing over a row whose members are exactly the segment `[s, e)`. */
  lemma {:induction false} SumOverRowSegment(xs: seq<real>, b: seq<nat>, p: nat, s: nat, e: nat, hi: nat)
    requires s <= e <= |xs| && hi <= |xs| && hi <= |b|
    requires forall j | 0 <= j < hi :: (b[j] == p <==> s <= j < e)
    ensures SumOverRow(xs, b, p, hi) == Sum(xs, s, if hi < e then hi else e)
  {
    if hi > 0 {
      SumOverRowSegment(xs, b, p, s, e, hi - 1);
    }
  }

  /** The partition's arrays can be sized: one entry per item, no zero row sum. */
  lemma {:induction false} PartitionSizable(rs: seq<real>, pw: real, o: Options)
    requires Positive(rs)
    ensures Sizable(rs, RowSums(rs, pw, o), Breaks(rs, pw, o), |rs|)
  {
    PartitionLength(rs, pw, o);
    RowSumsPositive(rs, pw, o);
  }

  /** No row of the layout is wider than the container: the widths of the items
      in item i's row add up to at most `pw` when i ends the row, and to exactly
      `pw` when the row's last item would leave a gap under `SnapGap`. The rows
      may come from a walk at another width `pw0`. */
  lemma {:induction false} RowFits(rs: seq<real>, pw0: real, o: Options, pw: real, maxH: real, i: nat)
    requires Positive(rs) && i < |rs|
    ensures var b := Breaks(rs, pw0, o); var m := RowSums(rs, pw0, o);
      && Sizable(rs, m, b, |rs|)
      && (RowEnd(b, i) ==>
            var W := Widths(Boxes(rs, m, b, |rs|, pw, maxH));
            var gap := pw - Sum(W, RowStart(b, i), i) - ItemBox(rs[i], m[i], pw, maxH).width;
            && SumOverRow(W, b, b[i], |rs|) <= pw
            && (SumOverRow(W, b, b[i], |rs|) == pw <==> gap < SnapGap))
  {
    var b := Breaks(rs, pw0, o);
    var m := RowSums(rs, pw0, o);
    PartitionSizable(rs, pw0, o);
    if RowEnd(b, i) {
      var raw := RawBoxes(rs, m, pw, maxH, |rs|);
      var W := Widths(Boxes(rs, m, b, |rs|, pw, maxH));
      assert W == Widths(PassOf(raw, b, pw, |rs|).boxes);
      assert raw[i] == ItemBox(rs[i], m[i], pw, maxH);
      RowSegment(rs, pw0, o, i);
      SumOverRowSegment(W, b, b[i], RowStart(b, i), i + 1, |rs|);
      RowEndFits(raw, b, pw, |rs|, i);
    }
  }

  /** The shares `Share(rs[j], s, pw)` of the items j in `[lo, hi)`. */
  function ShareSum(rs: seq<real>, s: real, pw: real, lo: nat, hi: nat): real
    requires hi <= |rs| && s != 0.0
  {
    if hi <= lo then 0.0 else ShareSum(rs, s, pw, lo, hi - 1) + Share(rs[hi - 1], s, pw)
  }

  /** Shares are linear: a segment's shares are its ratio total over `s`, times `pw`. */
  lemma {:induction false} ShareSumTotal(rs: seq<real>, s: real, pw: real, lo: nat, hi: nat)
    requires hi <= |rs| && s != 0.0
    ensures ShareSum(rs, s, pw, lo, hi) == Sum(rs, lo, hi) / s * pw
  {
    if lo < hi {
      ShareSumTotal(rs, s, pw, lo, hi - 1);
      var a := Sum(rs, lo, hi - 1);
      var r := rs[hi - 1];
      assert (a + r) / s == a / s + r / s;
      assert (a / s + r / s) * pw == a / s * pw + r / s * pw;
    }
  }

  /** The shares of the items of a row, whose ratios add up to its row sum `s`,
      add up to the container width. */
  lemma {:induction false} RowShares(rs: seq<real>, s: real, pw: real, lo: nat, hi: nat)
    requires hi <= |rs| && s != 0.0 && Sum(rs, lo, hi) == s
    ensures ShareSum(rs, s, pw, lo, hi) == pw
  {
    ShareSumTotal(rs, s, pw, lo, hi);
    assert s / s == 1.0;
  }

  /** Items of an unclamped row with sum `s` that do not end it are sized by rounding
      their shares, so together they fall short of their shares by less than half a
      pixel each. */
  lemma {:induction false} SegmentLower(rs: seq<real>, m: seq<real>, b: seq<nat>, n: nat, pw: real, maxH: real, s: real, lo: nat, hi: nat)
    requires Sizable(rs, m, b, n) && lo <= hi < n && s != 0.0 && !Clamped(pw, s, maxH)
    requires forall j | lo <= j < hi :: m[j] == s && !RowEnd(b, j)
    ensures Sum(Widths(Boxes(rs, m, b, n, pw, maxH)), lo, hi) >= ShareSum(rs, s, pw, lo, hi) - (hi - lo) as real / 2.0
  {
    if lo < hi {
      SegmentLower(rs, m, b, n, pw, maxH, s, lo, hi - 1);
      SizeAt(rs, m, b, n, pw, maxH, hi - 1);
      RoundNearest(Share(rs[hi - 1], s, pw), 0);
    }
  }

  /** A row segment `[RowStart(b, i), i]` of k unclamped items with one row sum, the
      total of their ratios, adds up to more than `pw` less half a pixel per item and
      to at most `pw`, and so to exactly `pw` when k is at most 10: the rounding of
      so few items cannot open the `SnapGap`. */
  lemma {:induction false} SegmentFills(rs: seq<real>, m: seq<real>, b: seq<nat>, n: nat, pw: real, maxH: real, i: nat)
    requires Sizable(rs, m, b, n) && i < n && RowEnd(b, i) && !Clamped(pw, m[i], maxH)
    requires forall j | RowStart(b, i) <= j < i :: m[j] == m[i] && !RowEnd(b, j)
    requires Sum(rs, RowStart(b, i), i + 1) == m[i]
    ensures var W := Widths(Boxes(rs, m, b, n, pw, maxH)); var k := i + 1 - RowStart(b, i);
      && pw - k as real / 2.0 < Sum(W, RowStart(b, i), i + 1) <= pw
      && (k <= 10 ==> Sum(W, RowStart(b, i), i + 1) == pw)
  {
    var W := Widths(Boxes(rs, m, b, n, pw, maxH));
    var st := RowStart(b, i);
    var share := Share(rs[i], m[i], pw);
    var front := Sum(W, st, i);
    var shares := ShareSum(rs, m[i], pw, st, i);
    SegmentLower(rs, m, b, n, pw, maxH, m[i], st, i);
    RowShares(rs, m[i], pw, st, i + 1);
    assert ShareSum(rs, m[i], pw, st, i + 1) == shares + share;
    UnclampedRowEnd(rs, m, b, n, pw, maxH, i);
    assert Sum(W, st, i + 1) == front + W[i];
    FillBounds(front, ItemBox(rs[i], m[i], pw, maxH).width, share, shares, W[i], pw, i + 1 - st);
  }

  /** An unclamped row end's raw width is its rounded share, so more than the share
      less half a pixel, and its width is that raw width snapped against the space
      the row has left. */
  lemma {:induction false} UnclampedRowEnd(rs: seq<real>, m: seq<real>, b: seq<nat>, n: nat, pw: real, maxH: real, i: nat)
    requires Sizable(rs, m, b, n) && i < n && RowEnd(b, i) && !Clamped(pw, m[i], maxH)
    ensures var W := Widths(Boxes(rs, m, b, n, pw, maxH)); var w := ItemBox(rs[i], m[i], pw, maxH).width;
      && w > Share(rs[i], m[i], pw) - 0.5
      && W[i] == Snap(w, pw - Sum(W, RowStart(b, i), i))
  {
    var raws := RawBoxes(rs, m, pw, maxH, n);
    var share := Share(rs[i], m[i], pw);
    assert raws[i].width == Round(share) as real;
    RoundNearest(share, 0);
    assert Widths(Boxes(rs, m, b, n, pw, maxH)) == Widths(PassOf(raws, b, pw, n).boxes);
    RowEndWidth(raws, b, pw, n, i);
  }

  /** The arithmetic of a row's fill: the first k - 1 widths fall short of their
      shares by at most half a pixel each, the last raw width falls short of its
      share by less, and the shares add up to `pw`. */
  lemma {:induction false} FillBounds(front: real, raw: real, share: real, shares: real, last: real, pw: real, k: nat)
    requires k >= 1 && shares + share == pw
    requires front >= shares - (k - 1) as real / 2.0 && raw > share - 0.5
    requires last == Snap(raw, pw - front)
    ensures pw - k as real / 2.0 < front + last <= pw
    ensures k <= 10 ==> front + last == pw
  {
  }

  /** Width fill: a row that is not clamped fills the container up to rounding. Its
      widths add up to more than `pw` less half a pixel per item and to at most `pw`,
      and to exactly `pw` when the row has at most 10 items. The rows may come from a
      walk at another width `pw0`. */
  lemma {:induction false} RowFills(rs: seq<real>, pw0: real, o: Options, pw: real, maxH: real, i: nat)
    requires Positive(rs) && i < |rs|
    ensures var b := Breaks(rs, pw0, o); var m := RowSums(rs, pw0, o);
      && Sizable(rs, m, b, |rs|)
      && (RowEnd(b, i) && !Clamped(pw, m[i], maxH) ==>
            var W := Widths(Boxes(rs, m, b, |rs|, pw, maxH));
            var k := i + 1 - RowStart(b, i);
            && pw - k as real / 2.0 < SumOverRow(W, b, b[i], |rs|) <= pw
            && (k <= 10 ==> SumOverRow(W, b, b[i], |rs|) == pw))
  {
    var b := Breaks(rs, pw0, o);
    var m := RowSums(rs, pw0, o);
    PartitionSizable(rs, pw0, o);
    if RowEnd(b, i) && !Clamped(pw, m[i], maxH) {
      var W := Widths(Boxes(rs, m, b, |rs|, pw, maxH));
      var st := RowStart(b, i);
      RowSegment(rs, pw0, o, i);
      SumOverRowSegment(W, b, b[i], st, i + 1, |rs|);
      RowSumIsRowTotal(rs, pw0, o, i);
      SumOverRowSegment(rs, b, b[i], st, i + 1, |rs|);
      forall j | st <= j < i
        ensures m[j] == m[i] && !RowEnd(b, j)
      {
        SameRowSameSum(rs, pw0, o, j, i);
      }
      SegmentFills(rs, m, b, |rs|, pw, maxH, i);
    }
  }

  /** All items of a row get the same height, the row's clamped height. */
  lemma {:induction false} UniformRowHeight(rs: seq<real>, pw0: real, o: Options, pw: real, maxH: real, i: nat, j: nat)
    requires Positive(rs) && i < |rs| && j < |rs|
    ensures var b := Breaks(rs, pw0, o); var m := RowSums(rs, pw0, o);
      && Sizable(rs, m, b, |rs|)
      && (b[i] == b[j] ==>
            var B := Boxes(rs, m, b, |rs|, pw, maxH);
            B[i].height == B[j].height <= maxH)
  {
    var b := Breaks(rs, pw0, o);
    var m := RowSums(rs, pw0, o);
    PartitionSizable(rs, pw0, o);
    SameRowSameSum(rs, pw0, o, i, j);
    SizeAt(rs, m, b, |rs|, pw, maxH, i);
    SizeAt(rs, m, b, |rs|, pw, maxH, j);
  }
}
