/** A griddle instance: the container's children, the width chosen for the
    container, the arrays the partitioner fills, and the inline size each child
    ends up with. `Layout` and `Resize` are the two passes the plugin runs. */
module GriddleLayout {
  import opened JsNumbers
  import opened Config
  import opened Partition
  import opened Sizing

  /** A child's inline size: cleared (its natural size) or set by the sizer. */
  datatype Style = Natural | Sized(box: Box)

  /** `_setParentWidth`: a truthy forced `parentWidth` option wins over the
      container's measured width. */
  function ChosenWidth(o: Options, domWidth: real): real
  {
    if o.parentWidth != 0.0 then o.parentWidth else domWidth
  }

  /** The whole layout cancels in a container narrower than `minParentWidth`. */
  predicate Cancels(pw: real, o: Options)
  {
    pw < o.minParentWidth
  }

  predicate AllNatural(styles: seq<Style>)
  {
    forall j | 0 <= j < |styles| :: styles[j] == Natural
  }

  /** Every child carries the box the sizer computed for it. */
  predicate Placed(styles: seq<Style>, boxes: seq<Box>)
  {
    |styles| == |boxes| && forall j | 0 <= j < |styles| :: styles[j] == Sized(boxes[j])
  }

  /** The first half of `_makeLayout`'s loop body: an item's share of the
      container and its row's height, both rounded, and clamped at `maxHeight`. */
  method ItemSize(ratio: real, rowSum: real, parentWidth: real, maxHeight: real) returns (width: real, height: real)
    requires rowSum != 0.0
    ensures Box(width, height) == ItemBox(ratio, rowSum, parentWidth, maxHeight)
  {
    // the item's fraction of its row, times the container width
    width := Round(Share(ratio, rowSum, parentWidth)) as real;
    height := Round(parentWidth / rowSum) as real;
    if height > maxHeight {
      height := maxHeight;
      width := maxHeight * ratio; // `height * ratio`, with `height` now `maxHeight`
    }
  }

  class Griddle {
    const options: Options
    /** `$items`: the container's children. */
    var items: seq<Item>
    var parentWidth: real
    var ratios: seq<real>
    /** The per-item row sums (`map` in the plugin). */
    var rowSums: seq<real>
    var breaks: seq<nat>
    /** The inline size of each child. */
    var styles: seq<Style>
    /** The container width the last partition was computed for. */
    ghost var ratiosWidth: real

    /** The arrays are the partition of the ratios at the width they were computed for. */
    ghost predicate Valid()
      reads this
    {
      && ValidItems(items)
      && |styles| == |items|
      && Positive(ratios)
      && breaks == Breaks(ratios, ratiosWidth, options)
      && rowSums == RowSums(ratios, ratiosWidth, options)
    }

    /** `_create`: store the options, then run `layout`. Before the first
        partition the arrays are empty. */
    constructor (o: Options, children: seq<Item>, domWidth: real)
      requires ValidItems(children)
      ensures options == o && Valid()
      ensures items == children && parentWidth == ChosenWidth(o, domWidth)
      ensures Cancels(parentWidth, o) ==> ratios == [] && AllNatural(styles)
      ensures !Cancels(parentWidth, o) ==>
        && ratios == RatiosOf(children) && ratiosWidth == parentWidth
        && Sizable(ratios, rowSums, breaks, |items|)
        && Placed(styles, Boxes(ratios, rowSums, breaks, |items|, parentWidth, o.maxHeight))
    {
      options := o;
      items := children;
      parentWidth := 0.0;
      ratios := [];
      rowSums := [];
      breaks := [];
      styles := Repeat(Natural, |children|);
      ratiosWidth := 0.0;
      new;
      Layout(children, domWidth);
    }

    /** `_setParentWidth`. */
    method SetParentWidth(domWidth: real)
      modifies this`parentWidth
      ensures parentWidth == ChosenWidth(options, domWidth)
    {
      if options.parentWidth != 0.0 {
        parentWidth := options.parentWidth;
      } else {
        parentWidth := domWidth;
      }
    }

    /** `_getRatios`: walk the items, building rows of running ratio sums, then
        flatten the rows into `rowSums` and `breaks`. */
    method GetRatios()
      requires ValidItems(items)
      modifies this`ratios, this`rowSums, this`breaks, this`ratiosWidth
      ensures ratios == RatiosOf(items) && ratiosWidth == parentWidth
      ensures breaks == Breaks(ratios, parentWidth, options)
      ensures rowSums == RowSums(ratios, parentWidth, options)
    {
      var rowTicker: nat := 0;
      var ratioTicker := 0.0;
      var rows: seq<seq<real>> := [[]];
      rowSums := [];
      ratios := [];
      breaks := [];
      ratiosWidth := parentWidth;
      var i := 0;
      while i < |items|
        invariant 0 <= i <= |items|
        invariant ratiosWidth == parentWidth && rowSums == [] && breaks == []
        invariant |ratios| == i && forall j | 0 <= j < i :: ratios[j] == ResolveRatio(items[j])
        invariant Walk(rows, rowTicker, ratioTicker) == WalkOf(ratios, parentWidth, options)
      {
        var ratio := ResolveRatio(items[i]);
        WalkOfSnoc(ratios, ratio, parentWidth, options);
        ratios := ratios + [ratio];
        rows, rowTicker, ratioTicker := WalkItem(rows, rowTicker, ratioTicker, ratio);
        i := i + 1;
      }
      assert ratios == RatiosOf(items);
      Flatten(rows);
    }

    /** The body of `_getRatios`'s first loop for an item of ratio `ratio`: push the
        running sum onto the open row, then the `minHeight` test and the `maxRatio`
        test, each opening a new row and resetting the sum when it fires. */
    method WalkItem(rows: seq<seq<real>>, rowTicker: nat, ratioTicker: real, ratio: real)
      returns (rows': seq<seq<real>>, rowTicker': nat, ratioTicker': real)
      requires |rows| == rowTicker + 1
      ensures Walk(rows', rowTicker', ratioTicker')
          == Step(Walk(rows, rowTicker, ratioTicker), ratio, parentWidth, options)
    {
      rows', rowTicker', ratioTicker' := rows, rowTicker, ratioTicker + ratio;
      rows' := rows'[rowTicker' := rows'[rowTicker'] + [ratioTicker']];
      if DivLess(parentWidth, ratioTicker', options.minHeight) {
        rowTicker' := rowTicker' + 1;
        ratioTicker' := 0.0;
        rows' := rows' + [[]];
      }
      if ratioTicker' > options.maxRatio && DivLess(parentWidth, ratioTicker', options.maxHeight) {
        rowTicker' := rowTicker' + 1;
        ratioTicker' := 0.0;
        rows' := rows' + [[]];
      }
    }

    /** The second half of `_getRatios`: one `map` and one `breaks` entry per row entry. */
    method Flatten(rows: seq<seq<real>>)
      requires rowSums == [] && breaks == []
      modifies this`rowSums, this`breaks
      ensures rowSums == MapOf(rows) && breaks == BreaksOf(rows)
    {
      var p := 0;
      while p < |rows|
        invariant 0 <= p <= |rows|
        invariant rowSums == MapOf(rows[..p]) && breaks == BreaksOf(rows[..p])
      {
        var row := rows[p];
        var o := 0;
        while o < |row|
          invariant 0 <= o <= |row|
          invariant rowSums == MapOf(rows[..p]) + Fill(row)[..o]
          invariant breaks == BreaksOf(rows[..p]) + Repeat(p, o)
        {
          assert Fill(row)[..o + 1] == Fill(row)[..o] + [row[|row| - 1]];
          rowSums := rowSums + [row[|row| - 1]];
          breaks := breaks + [p];
          o := o + 1;
        }
        assert rows[..p + 1][..p] == rows[..p];
        assert Fill(row)[..o] == Fill(row);
        p := p + 1;
      }
      assert rows[..p] == rows;
    }

    /** `_makeLayout`: size every item from its ratio and its row's sum; the last
        item of each row absorbs the width left over when the gap is small. */
    method MakeLayout()
      requires Sizable(ratios, rowSums, breaks, |items|) && |styles| == |items|
      modifies this`styles
      ensures Placed(styles, Boxes(ratios, rowSums, breaks, |items|, parentWidth, options.maxHeight))
    {
      var runningWidth := 0.0;
      var i := 0;
      ghost var raw := RawBoxes(ratios, rowSums, parentWidth, options.maxHeight, |items|);
      ghost var pass := PassOf(raw, breaks, parentWidth, 0);
      while i < |items|
        invariant 0 <= i <= |items| && |styles| == |items|
        invariant pass == PassOf(raw, breaks, parentWidth, i)
        invariant runningWidth == pass.running
        invariant forall j | 0 <= j < i :: styles[j] == Sized(pass.boxes[j])
      {
        ghost var next := PassOf(raw, breaks, parentWidth, i + 1);
        var width, height := ItemSize(ratios[i], rowSums[i], parentWidth, options.maxHeight);
        if i + 1 == |breaks| || breaks[i] != breaks[i + 1] {
          var posWidth := parentWidth - runningWidth;
          if posWidth - width < SnapGap || width > posWidth {
            width := posWidth;
          }
          runningWidth := 0.0;
        } else {
          runningWidth := runningWidth + width;
        }
        styles := styles[i := Sized(Box(width, height))];
        assert next.boxes == pass.boxes + [Box(width, height)];
        pass := next;
        i := i + 1;
      }
    }

    /** `_cancel`: clear every child's inline size. */
    method Cancel()
      requires |styles| == |items|
      modifies this`styles
      ensures AllNatural(styles) && |styles| == |items|
    {
      var i := 0;
      while i < |styles|
        invariant 0 <= i <= |styles| && |styles| == |items|
        invariant forall j | 0 <= j < i :: styles[j] == Natural
      {
        styles := styles[i := Natural];
        i := i + 1;
      }
    }

    /** `layout`: take the container's current children, choose the width, and
        either cancel or partition and size. */
    method Layout(children: seq<Item>, domWidth: real)
      requires Valid() && ValidItems(children)
      modifies this
      ensures Valid() && items == children && parentWidth == ChosenWidth(options, domWidth)
      ensures Cancels(parentWidth, options) ==>
        && ratios == old(ratios) && rowSums == old(rowSums) && breaks == old(breaks)
        && ratiosWidth == old(ratiosWidth) && AllNatural(styles)
      ensures !Cancels(parentWidth, options) ==>
        && ratios == RatiosOf(children) && ratiosWidth == parentWidth
        && Sizable(ratios, rowSums, breaks, |items|)
        && Placed(styles, Boxes(ratios, rowSums, breaks, |items|, parentWidth, options.maxHeight))
    {
      items := children;
      styles := Repeat(Natural, |children|);
      SetParentWidth(domWidth);
      if parentWidth < options.minParentWidth {
        Cancel();
      } else {
        GetRatios();
        PartitionSizable(ratios, parentWidth, options);
        MakeLayout();
      }
    }

    /** `resize`: choose the width, re-partition when `maxHeight` is truthy (even
        if the layout then cancels), and either cancel or size with the arrays
        at hand. Without a re-partition the arrays must cover the items unless the
        layout cancels, which reads none of them. */
    method Resize(domWidth: real)
      requires Valid()
      requires options.maxHeight != 0.0 || |items| <= |ratios| || Cancels(ChosenWidth(options, domWidth), options)
      modifies this
      ensures Valid() && items == old(items) && parentWidth == ChosenWidth(options, domWidth)
      ensures options.maxHeight != 0.0 ==> ratios == RatiosOf(items) && ratiosWidth == parentWidth
      ensures options.maxHeight == 0.0 ==>
        ratios == old(ratios) && rowSums == old(rowSums) && breaks == old(breaks) && ratiosWidth == old(ratiosWidth)
      ensures Cancels(parentWidth, options) ==> AllNatural(styles)
      ensures !Cancels(parentWidth, options) ==>
        && Sizable(ratios, rowSums, breaks, |items|)
        && Placed(styles, Boxes(ratios, rowSums, breaks, |items|, parentWidth, options.maxHeight))
    {
      SetParentWidth(domWidth);
      if options.maxHeight != 0.0 {
        GetRatios();
      }
      if parentWidth < options.minParentWidth {
        Cancel();
      } else {
        PartitionSizable(ratios, ratiosWidth, options);
        MakeLayout();
      }
    }
  }
}
