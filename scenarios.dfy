/** Worked layouts: three items with ratios 1.5, 1 and 2 in a 900-pixel container,
    in one row and in two; a row whose rounding overshoots a 200-pixel container;
    a lone item clamped to its `maxHeight`; a clamped row whose last item is
    still snapped; and the `minParentWidth` boundary. */
module Scenarios {
  import opened Config
  import opened Partition
  import opened Sizing
  import opened GriddleLayout

  /** The walk over the example ratios, one item at a time. */
  lemma {:induction false} WalkPrefixes(o: Options)
    ensures WalkOf([1.5], 900.0, o) == Step(Walk([[]], 0, 0.0), 1.5, 900.0, o)
    ensures WalkOf([1.5, 1.0], 900.0, o) == Step(WalkOf([1.5], 900.0, o), 1.0, 900.0, o)
    ensures WalkOf([1.5, 1.0, 2.0], 900.0, o) == Step(WalkOf([1.5, 1.0], 900.0, o), 2.0, 900.0, o)
  {
    assert [1.5][..0] == [];
    assert [1.5, 1.0][..1] == [1.5];
    assert [1.5, 1.0, 2.0][..2] == [1.5, 1.0];
  }

  /** With the default options no break fires: the ratio sum climbs to 4.5 in one row. */
  lemma {:induction false} OneRowWalk()
    ensures WalkOf([1.5, 1.0, 2.0], 900.0, Defaults).rows == [[1.5, 2.5, 4.5]]
  {
    var o := Defaults;
    WalkPrefixes(o);
    var w1 := WalkOf([1.5], 900.0, o);
    assert w1 == Walk([[1.5]], 0, 1.5) by {
      assert |w1.rows| == 1 && w1.rows[0] == [1.5];
    }
    var w2 := WalkOf([1.5, 1.0], 900.0, o);
    assert w2 == Walk([[1.5, 2.5]], 0, 2.5) by {
      assert |w2.rows| == 1 && w2.rows[0] == [1.5, 2.5];
    }
    var w3 := WalkOf([1.5, 1.0, 2.0], 900.0, o);
    assert w3 == Walk([[1.5, 2.5, 4.5]], 0, 4.5) by {
      assert |w3.rows| == 1 && w3.rows[0] == [1.5, 2.5, 4.5];
    }
  }

  /** One row of sum 4.5 at 900 pixels: 200 pixels tall, and the shares 300, 200
      and 400 already add up to the container width. */
  lemma {:induction false} OneRowSizes()
    ensures Boxes([1.5, 1.0, 2.0], [4.5, 4.5, 4.5], [0, 0, 0], 3, 900.0, Defaults.maxHeight)
         == [Box(300.0, 200.0), Box(200.0, 200.0), Box(400.0, 200.0)]
  {
    var raw := RawBoxes([1.5, 1.0, 2.0], [4.5, 4.5, 4.5], 900.0, Defaults.maxHeight, 3);
    assert raw == [Box(300.0, 200.0), Box(200.0, 200.0), Box(400.0, 200.0)] by {
      assert raw[0] == Box(300.0, 200.0);
      assert raw[1] == Box(200.0, 200.0);
      assert raw[2] == Box(400.0, 200.0);
    }
    var b: seq<nat> := [0, 0, 0];
    assert PassOf(raw, b, 900.0, 1) == Pass([Box(300.0, 200.0)], 300.0);
    assert PassOf(raw, b, 900.0, 2) == Pass([Box(300.0, 200.0), Box(200.0, 200.0)], 500.0);
  }

  /** With the default options the three items share one row of ratio sum 4.5,
      which is 900 / 4.5 = 200 pixels tall, and the last item's rounded width
      already reaches the container edge. */
  lemma {:induction false} OneRow()
    ensures Breaks([1.5, 1.0, 2.0], 900.0, Defaults) == [0, 0, 0]
    ensures RowSums([1.5, 1.0, 2.0], 900.0, Defaults) == [4.5, 4.5, 4.5]
    ensures Boxes([1.5, 1.0, 2.0], [4.5, 4.5, 4.5], [0, 0, 0], 3, 900.0, Defaults.maxHeight)
         == [Box(300.0, 200.0), Box(200.0, 200.0), Box(400.0, 200.0)]
  {
    OneRowWalk();
    OneRowSizes();
    var rows := WalkOf([1.5, 1.0, 2.0], 900.0, Defaults).rows;
    assert rows[..0] == [];
    assert Fill(rows[0]) == [4.5, 4.5, 4.5];
  }

  /** With `maxRatio` 2 the second item lifts the ratio sum to 2.5 and closes the
      first row, staying in it; the third item opens the second row. */
  lemma {:induction false} TwoRowsWalk()
    ensures WalkOf([1.5, 1.0, 2.0], 900.0, Defaults.(maxRatio := 2.0)).rows == [[1.5, 2.5], [2.0]]
  {
    var o := Defaults.(maxRatio := 2.0);
    WalkPrefixes(o);
    var w1 := WalkOf([1.5], 900.0, o);
    assert w1 == Walk([[1.5]], 0, 1.5) by {
      assert |w1.rows| == 1 && w1.rows[0] == [1.5];
    }
    var w2 := WalkOf([1.5, 1.0], 900.0, o);
    assert w2 == Walk([[1.5, 2.5], []], 1, 0.0) by {
      assert |w2.rows| == 2 && w2.rows[0] == [1.5, 2.5] && w2.rows[1] == [];
    }
    var w3 := WalkOf([1.5, 1.0, 2.0], 900.0, o);
    assert w3 == Walk([[1.5, 2.5], [2.0]], 1, 2.0) by {
      assert |w3.rows| == 2 && w3.rows[0] == [1.5, 2.5] && w3.rows[1] == [2.0];
    }
  }

  /** Rows of sums 2.5 and 2 at 900 pixels: 360 and 450 pixels tall. */
  lemma {:induction false} TwoRowsSizes()
    ensures Boxes([1.5, 1.0, 2.0], [2.5, 2.5, 2.0], [0, 0, 1], 3, 900.0, Defaults.maxHeight)
         == [Box(540.0, 360.0), Box(360.0, 360.0), Box(900.0, 450.0)]
  {
    var raw := RawBoxes([1.5, 1.0, 2.0], [2.5, 2.5, 2.0], 900.0, Defaults.maxHeight, 3);
    assert raw == [Box(540.0, 360.0), Box(360.0, 360.0), Box(900.0, 450.0)] by {
      assert raw[0] == Box(540.0, 360.0);
      assert raw[1] == Box(360.0, 360.0);
      assert raw[2] == Box(900.0, 450.0);
    }
    var b: seq<nat> := [0, 0, 1];
    assert PassOf(raw, b, 900.0, 1) == Pass([Box(540.0, 360.0)], 540.0);
    assert PassOf(raw, b, 900.0, 2) == Pass([Box(540.0, 360.0), Box(360.0, 360.0)], 0.0);
  }

  /** With `maxRatio` 2 the first row holds the first two items at 360 pixels tall
      and the third item fills the container on its own. */
  lemma {:induction false} TwoRows()
    ensures var o := Defaults.(maxRatio := 2.0);
      && Breaks([1.5, 1.0, 2.0], 900.0, o) == [0, 0, 1]
      && RowSums([1.5, 1.0, 2.0], 900.0, o) == [2.5, 2.5, 2.0]
      && Boxes([1.5, 1.0, 2.0], [2.5, 2.5, 2.0], [0, 0, 1], 3, 900.0, o.maxHeight)
         == [Box(540.0, 360.0), Box(360.0, 360.0), Box(900.0, 450.0)]
  {
    TwoRowsWalk();
    TwoRowsSizes();
    var rows := WalkOf([1.5, 1.0, 2.0], 900.0, Defaults.(maxRatio := 2.0)).rows;
    assert rows[..1] == [[1.5, 2.5]];
    assert rows[..1][..0] == [];
    assert MapOf(rows[..1]) == [2.5, 2.5] by {
      assert Fill(rows[0]) == [2.5, 2.5];
    }
    assert BreaksOf(rows[..1]) == [0, 0];
    assert Fill(rows[1]) == [2.0];
    assert Repeat(1, 1) == [1];
  }

  /** The walk over the overshooting row's ratios, one item at a time. */
  lemma {:induction false} NegativeRowPrefixes(o: Options)
    ensures WalkOf([1.0], 200.0, o) == Step(Walk([[]], 0, 0.0), 1.0, 200.0, o)
    ensures WalkOf([1.0, 1.0], 200.0, o) == Step(WalkOf([1.0], 200.0, o), 1.0, 200.0, o)
    ensures WalkOf([1.0, 1.0, 1.0], 200.0, o) == Step(WalkOf([1.0, 1.0], 200.0, o), 1.0, 200.0, o)
    ensures WalkOf([1.0, 1.0, 1.0, 0.003], 200.0, o) == Step(WalkOf([1.0, 1.0, 1.0], 200.0, o), 0.003, 200.0, o)
  {
    assert [1.0][..0] == [];
    assert [1.0, 1.0][..1] == [1.0];
    assert [1.0, 1.0, 1.0][..2] == [1.0, 1.0];
    assert [1.0, 1.0, 1.0, 0.003][..3] == [1.0, 1.0, 1.0];
  }

  /** Four items of ratios 1, 1, 1 and 0.003 at 200 pixels: with the default
      options no break fires, and the ratio sum climbs to 3.003 in one row. */
  lemma {:induction false} NegativeRowWalk()
    ensures WalkOf([1.0, 1.0, 1.0, 0.003], 200.0, Defaults).rows == [[1.0, 2.0, 3.0, 3.003]]
  {
    var o := Defaults;
    NegativeRowPrefixes(o);
    var w1 := WalkOf([1.0], 200.0, o);
    assert w1 == Walk([[1.0]], 0, 1.0) by {
      assert |w1.rows| == 1 && w1.rows[0] == [1.0];
    }
    var w2 := WalkOf([1.0, 1.0], 200.0, o);
    assert w2 == Walk([[1.0, 2.0]], 0, 2.0) by {
      assert |w2.rows| == 1 && w2.rows[0] == [1.0, 2.0];
    }
    var w3 := WalkOf([1.0, 1.0, 1.0], 200.0, o);
    assert w3 == Walk([[1.0, 2.0, 3.0]], 0, 3.0) by {
      assert |w3.rows| == 1 && w3.rows[0] == [1.0, 2.0, 3.0];
    }
    var w4 := WalkOf([1.0, 1.0, 1.0, 0.003], 200.0, o);
    assert w4 == Walk([[1.0, 2.0, 3.0, 3.003]], 0, 3.003) by {
      assert |w4.rows| == 1 && w4.rows[0] == [1.0, 2.0, 3.0, 3.003];
    }
  }

  /** One row of sum 3.003 at 200 pixels: every item is 67 pixels tall, the first
      three are rounded up to 67 pixels wide, and the last is snapped to what is left. */
  lemma {:induction false} NegativeRowSizes()
    ensures Boxes([1.0, 1.0, 1.0, 0.003], [3.003, 3.003, 3.003, 3.003], [0, 0, 0, 0], 4, 200.0, Defaults.maxHeight)
         == [Box(67.0, 67.0), Box(67.0, 67.0), Box(67.0, 67.0), Box(-1.0, 67.0)]
  {
    var raw := RawBoxes([1.0, 1.0, 1.0, 0.003], [3.003, 3.003, 3.003, 3.003], 200.0, Defaults.maxHeight, 4);
    assert raw == [Box(67.0, 67.0), Box(67.0, 67.0), Box(67.0, 67.0), Box(0.0, 67.0)] by {
      assert raw[0] == raw[1] == raw[2] == Box(67.0, 67.0);
      assert raw[3] == Box(0.0, 67.0);
    }
    var b: seq<nat> := [0, 0, 0, 0];
    assert PassOf(raw, b, 200.0, 1) == Pass([Box(67.0, 67.0)], 67.0);
    assert PassOf(raw, b, 200.0, 2) == Pass([Box(67.0, 67.0), Box(67.0, 67.0)], 134.0);
    assert PassOf(raw, b, 200.0, 3) == Pass([Box(67.0, 67.0), Box(67.0, 67.0), Box(67.0, 67.0)], 201.0);
  }

  /** Rounding can overshoot the container: three items of ratio 1 and one of ratio
      0.003 share a row of sum 3.003 at 200 pixels. The first three are rounded up
      to 67 pixels each, 201 in all, and the last item is snapped to the -1 pixel
      that is left. */
  lemma {:induction false} NegativeRowEnd()
    ensures Breaks([1.0, 1.0, 1.0, 0.003], 200.0, Defaults) == [0, 0, 0, 0]
    ensures RowSums([1.0, 1.0, 1.0, 0.003], 200.0, Defaults) == [3.003, 3.003, 3.003, 3.003]
    ensures Boxes([1.0, 1.0, 1.0, 0.003], [3.003, 3.003, 3.003, 3.003], [0, 0, 0, 0], 4, 200.0, Defaults.maxHeight)
         == [Box(67.0, 67.0), Box(67.0, 67.0), Box(67.0, 67.0), Box(-1.0, 67.0)]
  {
    NegativeRowWalk();
    NegativeRowSizes();
    var rows := WalkOf([1.0, 1.0, 1.0, 0.003], 200.0, Defaults).rows;
    assert rows[..0] == [];
    assert Fill(rows[0]) == [3.003, 3.003, 3.003, 3.003];
  }

  /** A single item clamped to a `maxHeight` of 300 is 300 pixels square: the
      gap of 600 pixels it leaves is too wide for the row-end snap. */
  lemma {:induction false} ClampedLastItem()
    ensures Boxes([1.0], [1.0], [0], 1, 900.0, 300.0) == [Box(300.0, 300.0)]
  {
  }

  /** A clamped row's last item is still snapped: one row of sum 4.5 at 900 pixels
      with a `maxHeight` of 199 is clamped to 199 pixels, and its items are
      298.5, 199 and 398 wide. The 4.5 pixels left are under the snap gap, so the
      last item is stretched to 402.5 and loses its aspect ratio of 2. */
  lemma {:induction false} ClampedRowSnap()
    ensures Boxes([1.5, 1.0, 2.0], [4.5, 4.5, 4.5], [0, 0, 0], 3, 900.0, 199.0)
         == [Box(298.5, 199.0), Box(199.0, 199.0), Box(402.5, 199.0)]
  {
    var raw := RawBoxes([1.5, 1.0, 2.0], [4.5, 4.5, 4.5], 900.0, 199.0, 3);
    assert raw == [Box(298.5, 199.0), Box(199.0, 199.0), Box(398.0, 199.0)] by {
      assert raw[0] == Box(298.5, 199.0);
      assert raw[1] == Box(199.0, 199.0);
      assert raw[2] == Box(398.0, 199.0);
    }
    var b: seq<nat> := [0, 0, 0];
    assert PassOf(raw, b, 900.0, 1) == Pass([Box(298.5, 199.0)], 298.5);
    assert PassOf(raw, b, 900.0, 2) == Pass([Box(298.5, 199.0), Box(199.0, 199.0)], 497.5);
  }

  /** A container exactly `minParentWidth` wide is laid out; one pixel less cancels. */
  lemma {:induction false} CancelBoundary()
    ensures !Cancels(700.0, Defaults) && Cancels(699.0, Defaults)
  {
  }
}
