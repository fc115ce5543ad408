# griddle.js justified-row layout, modelled in Dafny

griddle.js is a jQuery plugin that lays out a container's children in
justified rows. Each child has an aspect ratio, either its `data-ratio` or
`data-width / data-height`. The plugin walks the children and builds rows of
running ratio sums. A row closes when the running sum makes it shorter than
`minHeight`, or when the sum exceeds `maxRatio` while the row is still within
`maxHeight`. The rows are flattened into two per-item arrays. `map` (here
`rowSums`) holds each item's row total. `breaks` holds each item's row index.

The sizer then gives every item the height `parentWidth / map[i]` and the
width `ratio / map[i] * parentWidth`, both rounded. A row taller than
`maxHeight` is clamped to `maxHeight`, and every item except the row's last
keeps its aspect ratio. The last item of each row, clamped or not, takes up
what is left of the container when less than 5 pixels would be left over, so a
clamped row's last item may still be stretched (`Scenarios.ClampedRowSnap`). A container narrower than `minParentWidth`
cancels the whole layout: every child's inline size is cleared.

The project has six modules:

- `JsNumbers` (numbers.dfy) gives `Math.round` and the comparison `a / b < bound`, including division by zero.
- `Config` (config.dfy) holds the options and the plugin's defaults.
- `Partition` (partition.dfy) states `_getRatios` as functions: the walk and the flattening. It proves the properties of `breaks` and `map`.
- `Sizing` (sizing.dfy) states `_makeLayout` as functions: one pass carrying `runningWidth`. It proves the row-fit and height properties.
- `GriddleLayout` (griddle.dfy) is the plugin instance. It is a class whose fields are the arrays the plugin keeps. Its methods are the imperative loops of the source, each proved against the functions of `Partition` and `Sizing`.
- `Scenarios` (scenarios.dfy) works out concrete layouts. Three items with ratios 1.5, 1 and 2 in a 900-pixel container form one row with the defaults and two rows with `maxRatio` 2. Four items in a 200-pixel container form a row whose rounding overshoots it. A lone item is clamped to a `maxHeight` of 300, and a clamped row of the three items still has its last item snapped. A last scenario checks the `minParentWidth` boundary.

The code makes a reading choice that matters here. The item whose ratio
triggers a break stays in the row it closes. The running sum including that
item is pushed onto the open row before either test runs. A new row opens only
after that item. A description of the algorithm as breaking "before" the item
that overflows the row does not match the code. The model follows the code:
see `Partition.BreakRule` and `Scenarios.TwoRows`.

Rounding decides how well a row fills the container. Each item's width is its
share `ratio / map[i] * parentWidth`, rounded. All but the last item of a row
keep their rounded widths, and the last item is compared with what is left. An
unclamped row of k items therefore adds up to more than `parentWidth - k / 2`
and to at most `parentWidth` (`Sizing.RowFills`). With at most 10 items the
rounding error stays under the 5-pixel snap, so the row fills the container
exactly. The code does not guard against the earlier items rounding up past the
container: its last item then gets the negative space left over.
`Scenarios.NegativeRowEnd` works out such a row, whose last item is -1 pixel wide.

## Model

| member | source | states |
|---|---|---|
| JsNumbers.Round | jquery.griddle.js:201-202 | defines `Math.round` as the floor of x + 0.5, so halves round towards +infinity |
| JsNumbers.RoundNearest | jquery.griddle.js:201-202 | `Math.round(x)` lies in (x - 0.5, x + 0.5], and it is the only integer there |
| JsNumbers.DivLessPositive | jquery.griddle.js:176 | for a positive divisor, the test `pw / t < bound` is the same as `pw < bound * t` |
| JsNumbers.DivLess | jquery.griddle.js:176-182 | defines the tests `parentWidth / ratioTicker < bound`: a true quotient comparison for a non-zero divisor, and for a zero divisor true only when the numerator is negative (-Infinity) |
| GriddleLayout.ChosenWidth | jquery.griddle.js:137-142 | defines `_setParentWidth`'s choice: a truthy `parentWidth` option, otherwise the measured width |
| GriddleLayout.Griddle.SetParentWidth | jquery.griddle.js:137-142 | the `parentWidth` field becomes the width `ChosenWidth` picks; no other field changes |
| Partition.ResolveRatio | jquery.griddle.js:161-167 | the ratio is positive; it is `data-ratio` when that is present; otherwise ratio * `data-height` = `data-width` |
| Partition.RatiosOf | jquery.griddle.js:157-170 | `ratios` has one positive entry per item, in order, each the item's resolved ratio |
| Partition.Push | jquery.griddle.js:172-174 | defines the push: the ticker is increased by the ratio and appended to the open row |
| Partition.Reset | jquery.griddle.js:177-179 | defines the reset of either test (also lines 183-185): `rowTicker` moves to a fresh empty row and the ticker returns to 0 |
| Partition.Step | jquery.griddle.js:172-186 | defines one iteration of the walk: the ticker, increased by the ratio, is pushed onto the open row, and then each of the two tests that fires opens a fresh empty row and resets the ticker; the result again has one open row, the last |
| Partition.WalkOf | jquery.griddle.js:147-188 | defines the walk as `Step` over the ratios in order, from `rows = [[]]` and both tickers at 0; the result has one open row, the last |
| Partition.MapOf | jquery.griddle.js:190-195 | defines the flattened `map`: for each row in order, one copy of its last running sum per entry |
| Partition.BreaksOf | jquery.griddle.js:190-195 | defines the flattened `breaks`: for each row p in order, one copy of p per entry |
| Partition.FlattenBounds | jquery.griddle.js:190-195 | `map` and `breaks` have the same length, and every `breaks` entry is the index of a row |
| Partition.WalkFacts | jquery.griddle.js:147-195 | after the walk, `map` and `breaks` have one entry per item, every row index is at most `rowTicker`, `ratioTicker` is the ratio total of the open row, every `map` entry is the ratio total of its item's row, the first item is in row 0, `rowTicker` is the last item's row plus the rows its tests opened, and each next item's row follows from the running sum through the one before |
| Partition.Closes | jquery.griddle.js:176-182 | defines the break condition on the running sum t: `parentWidth / t < minHeight`, or t > `maxRatio` with `parentWidth / t < maxHeight` |
| Partition.Closed | jquery.griddle.js:176-186 | defines how many rows the two tests open after a running sum t: the second test sees the ticker the first one reset to 0 |
| Partition.Breaks | jquery.griddle.js:147-195 | defines `this.breaks` as `_getRatios` leaves it: the flattened `breaks` of the walk over the ratios |
| Partition.RowSums | jquery.griddle.js:147-195 | defines `this.map` as `_getRatios` leaves it: the flattened `map` of the walk over the ratios |
| Partition.ClosedCount | jquery.griddle.js:176-186 | an item opens a new row iff one of the two tests fires; it opens at most two rows, and at most one when `maxRatio` ≥ 0 or the width ≥ 0 |
| Partition.FlattenGrow | jquery.griddle.js:176-195 | an empty row left open at the end adds nothing to `map` or `breaks` |
| Partition.PartitionLength | jquery.griddle.js:157-195 | `map` and `breaks` have exactly one entry per item |
| Partition.FirstRow | jquery.griddle.js:147-195 | the first item is in row 0 |
| Partition.BreakStep | jquery.griddle.js:172-195 | the next item's row is this item's row plus the number of rows this item's tests opened, decided by the running sum through this item |
| Partition.BreaksMonotone | jquery.griddle.js:172-195 | `breaks` never decreases, so rows are contiguous runs of items |
| Partition.BreakRule | jquery.griddle.js:172-186 | items i and i + 1 are in different rows iff the running sum through i trips the `minHeight` test or the `maxRatio`/`maxHeight` test; the triggering item stays in the old row |
| Partition.AdjacentRows | jquery.griddle.js:176-186 | with `maxRatio` ≥ 0 or a non-negative width, consecutive items are in the same row or in adjacent rows |
| Partition.RowSumIsRowTotal | jquery.griddle.js:172-195 | `map[i]` is the sum of the ratios of all items in item i's row, and it is positive |
| Partition.SameRowSameSum | jquery.griddle.js:190-195 | items in the same row have equal `map` entries |
| Partition.RowSumsPositive | jquery.griddle.js:190-195 | with positive ratios, every `map` entry is positive, so the sizer's divisions are defined |
| Sizing.Share | jquery.griddle.js:200-201 | defines an item's share `ratio / map[i] * parentWidth`, before rounding |
| Sizing.Clamped | jquery.griddle.js:202-203 | defines the clamp test: the rounded height `parentWidth / map[i]` exceeds `maxHeight` |
| Sizing.ItemBox | jquery.griddle.js:200-206 | an item's box before the row-end adjustment is never taller than `maxHeight` |
| Sizing.Snap | jquery.griddle.js:207-214 | a row's last item takes the remaining width `pos` when the gap is under 5; otherwise it keeps its width; it is never wider than `pos` |
| Sizing.RowEnd | jquery.griddle.js:207 | defines a row end: the next `breaks` entry differs, or there is none (`breaks[len]` is undefined) |
| Sizing.RawBoxes | jquery.griddle.js:200-206 | there is one raw box per item, and it is the item's `ItemBox` |
| Sizing.PassOf | jquery.griddle.js:198-216 | the pass over k items produces k boxes |
| Sizing.Boxes | jquery.griddle.js:197-227 | defines the boxes `_makeLayout` gives the items: the pass over the items' raw boxes |
| Sizing.PassAt | jquery.griddle.js:199-215 | the pass keeps every item's raw height, and its raw width unless it ends a row |
| Sizing.SizeAt | jquery.griddle.js:199-215 | item i's box has the height `ItemBox` gives it, and its width too unless i ends a row |
| Sizing.RunningWidth | jquery.griddle.js:198-216 | `runningWidth` is the width the items of the open row segment have taken, so it is 0 right after a row end |
| Sizing.RowEndWidth | jquery.griddle.js:207-214 | a row end's width is its raw width snapped against `parentWidth` less the widths of the rest of its segment |
| Sizing.RowEndFits | jquery.griddle.js:207-215 | for any raw boxes, at a row end the segment's widths sum to at most `parentWidth`, and to exactly `parentWidth` iff the last item's raw width leaves a gap under 5 |
| Sizing.LastRowFits | jquery.griddle.js:207 | the final item always ends a row (`breaks[len]` is undefined), so the last row also fits |
| Sizing.HeightBound | jquery.griddle.js:201-204 | no item is taller than `maxHeight` |
| Sizing.ClampedItem | jquery.griddle.js:201-206 | a clamped item is `maxHeight` tall and, unless it ends a row, `maxHeight * ratio` wide |
| Sizing.UnclampedItem | jquery.griddle.js:200-202 | an unclamped item's height is `parentWidth / map[i]` rounded; its width, unless it ends a row, is `ratio / map[i] * parentWidth` rounded; each is within half a pixel |
| Sizing.RowSegment | jquery.griddle.js:190-207 | in a partition, the row segment ending at a row end i is exactly the items with `breaks[j] == breaks[i]` |
| Sizing.PartitionSizable | jquery.griddle.js:190-200 | a partition of positive ratios gives the sizer arrays of the right length and no zero row sum |
| Sizing.RowFits | jquery.griddle.js:172-215 | for a partition, the widths of a whole row sum to at most `parentWidth`, and to exactly `parentWidth` iff the last item's raw width leaves a gap under 5 |
| Sizing.ShareSumTotal | jquery.griddle.js:200-201 | the shares of a run of items are their ratio total over the row sum, times `parentWidth` |
| Sizing.RowShares | jquery.griddle.js:190-201 | the shares of the items of a row, whose ratios add up to the row sum, add up to `parentWidth` |
| Sizing.SegmentLower | jquery.griddle.js:199-215 | the items of an unclamped row that do not end it fall short of their shares by at most half a pixel each |
| Sizing.UnclampedRowEnd | jquery.griddle.js:200-211 | an unclamped row end's raw width exceeds its share less half a pixel, and its width is that raw width snapped against the space left |
| Sizing.FillBounds | jquery.griddle.js:207-211 | if k - 1 widths fall at most half a pixel each short of shares that, with a last share, add up to `parentWidth`, the snapped last width brings the total into (`parentWidth` - k / 2, `parentWidth`], and to `parentWidth` exactly when k ≤ 10 |
| Sizing.SegmentFills | jquery.griddle.js:199-215 | an unclamped row segment of k items on one row sum, the total of their ratios, adds up to more than `parentWidth` - k / 2 and at most `parentWidth`; exactly `parentWidth` when k ≤ 10 |
| Sizing.RowFills | jquery.griddle.js:172-215 | for a partition, an unclamped row of k items adds up to more than `parentWidth` - k / 2 and at most `parentWidth`, and to exactly `parentWidth` when k ≤ 10, even when the rows came from a walk at another width |
| Sizing.UniformRowHeight | jquery.griddle.js:190-206 | items in the same row have the same height, and it is at most `maxHeight` |
| GriddleLayout.ItemSize | jquery.griddle.js:200-206 | the rounded share and height, clamped at `maxHeight`, are the box `ItemBox` describes |
| GriddleLayout.Griddle.WalkItem | jquery.griddle.js:172-186 | one loop iteration of the walk performs exactly one `Step` of the walk function |
| GriddleLayout.Griddle.Flatten | jquery.griddle.js:190-195 | the nested loops leave `map` and `breaks` as the flattening of `rows` |
| GriddleLayout.Griddle.GetRatios | jquery.griddle.js:145-196 | `ratios`, `map` and `breaks` become the resolved ratios of the items and their partition at the current width |
| GriddleLayout.Griddle.MakeLayout | jquery.griddle.js:197-227 | every item receives the box the sizing pass gives it |
| GriddleLayout.Griddle.Cancel | jquery.griddle.js:228-234 | every item's inline size is cleared |
| GriddleLayout.Cancels | jquery.griddle.js:106-107 | defines the cancel test: the chosen width is below `minParentWidth` |
| GriddleLayout.Griddle.Layout | jquery.griddle.js:102-113 | the instance stays valid. Below `minParentWidth` everything is cleared, and the arrays and the width they were computed at are untouched. Otherwise the items are re-partitioned at the chosen width and placed; a width equal to `minParentWidth` does not cancel |
| GriddleLayout.Griddle.Resize | jquery.griddle.js:90-101 | a truthy `maxHeight` re-partitions at the new width even when the layout then cancels. A falsy one keeps the old arrays and their width. Then the same cancel-or-place choice as `Layout` follows. Stale arrays must cover the items only when the layout is placed |
| GriddleLayout.Griddle.constructor | jquery.griddle.js:43-46 | a new instance stores its options and runs `Layout` on its children |
| Scenarios.OneRow | jquery.griddle.js:145-227 | with the defaults, ratios 1.5, 1, 2 at 900 pixels form one row of sum 4.5 and get the boxes 300×200, 200×200, 400×200 |
| Scenarios.TwoRows | jquery.griddle.js:172-217 | with `maxRatio` 2, the second item closes row 0 and stays in it; the boxes are 540×360, 360×360, 900×450 |
| Scenarios.NegativeRowEnd | jquery.griddle.js:145-227 | with the defaults, ratios 1, 1, 1 and 0.003 at 200 pixels form one row (`breaks` [0, 0, 0, 0], sums 3.003); the first three boxes are 67×67, 201 pixels in all, and the last item is snapped to -1×67 |
| Scenarios.ClampedLastItem | jquery.griddle.js:203-214 | a lone item clamped to a `maxHeight` of 300 is 300×300: its 600-pixel gap is too wide to snap |
| Scenarios.ClampedRowSnap | jquery.griddle.js:203-211 | ratios 1.5, 1 and 2 in one row of sum 4.5 at 900 pixels with a `maxHeight` of 199: the row is clamped to 199 pixels, the first two items keep their ratio at 298.5 and 199 wide, and the last is snapped from 398 to 402.5 |
| Scenarios.CancelBoundary | jquery.griddle.js:106-107 | with the defaults, 700 pixels lays out and 699 pixels cancels |

## Left out

- DOM writes: the `float`/class setup of `_prepItems`, the `width`/`height` CSS, the `data-row` attribute and the container's own width. The model keeps each child's inline size as a `Style` value and leaves out the rest.
- The DOM width read in `_setParentWidth`: the measured parent width is a parameter (`domWidth`).
- `_prepItems`: the `Item` values are taken as they are after it runs. Its `typeof(... === 'undefined')` test takes `typeof` of a boolean, which is always truthy, so it always overwrites `data-width`/`data-height` with the measured outer size.
- Layout: it resets `styles` to `Natural` for the new children. Every path then overwrites or clears all of them, so this reset is not observable.
- Cancel: the source clears every current child of the container. The model clears the styles of the items the instance holds.
- The `before`/`end` hooks and the `cssBefore`/`cssEnd` styles: these are callbacks and CSS with no effect on the arrays or on the sizes.
- `exposeScaling` and the `widths`/`heights` arrays: `exposeScaling` divides by `widths[i]`, and the arrays feed nothing else, so they are not modelled. Line 160 declares `var width,height = null;`, which sets only `height` to null. `width` is function-scoped and keeps its last value, so an item with `data-ratio` records the `data-width` of the last earlier item without one. Its recorded width is undefined only before the first such item.
- Option merging (`$.extend`), the `option` method, and the plugin bridge: options are a fixed `Options` value per instance.
- smartresize debouncing, imagesLoaded and the deferred `griddle-pan` class: these are timers and event wiring. `Resize` is the handler's body.
- Floating point: numbers are reals. Division by zero is modelled only where the partition's comparisons can meet it (`DivLess`: only a negative numerator gives -Infinity). NaN ratios and Infinity ratios are excluded by `ValidItem`, and `parseFloat` of an attribute string is not modelled.
- Zero and negative ratios: `ValidItem` also excludes them, for example a `data-ratio` of 0 or a `data-width` of 0. The source walks such items like any other, and a row whose ratios sum to 0 would then divide by zero in the sizer. The model keeps every ratio positive, so every row sum is a positive divisor.
- Resize: when `maxHeight` is falsy and the layout is placed, it requires the stored arrays to cover the current items. Past their end the source reads `undefined` and produces NaN sizes. If nothing was ever partitioned, `this.ratios` is itself undefined and line 200 throws a TypeError. When the layout cancels, no array is read and nothing is required.
- ClampedItem: this is stated for `width = maxHeight * ratio`. In the source, `height * ratio` is computed after `height` has been set to `maxHeight`, so the two are equal.
