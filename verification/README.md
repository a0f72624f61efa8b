# Mind-map layout and hit-testing core, in Dafny

This project models the part of the NetBeans mind-map plugin that lays out
the root topic of a mind map and answers point queries over the tree of
topic elements.

- `AbstractElement` is the shared element contract:
  - moving an element's origin;
  - the capability queries;
  - getting and setting the label alignment, which is persisted in the
    topic's `align` attribute;
  - storing a calculated block size;
  - classifying a point as NONE, AREA or TEXT;
  - the recursive point lookup `findForPoint` over the element tree.
- `ElementRoot` is the root topic. It places its first-level children in two
  independent vertical stacks, one growing to the left and one to the right.
  - `calcTotalChildrenHeight` and `calcBlockSize` compute the stacks'
    aggregate sizes and the size of the whole root block.
  - `alignElementAndChildren` moves the root. It then anchors every child of
    a side whose stack height is positive, so that each such stack is centred
    vertically on the root:
    - left stacks end at the root's left edge minus an inset;
    - right stacks start at its right edge plus the inset.
  - `updateElementBounds` grows the label rectangle by the text margins.
  - `drawConnector` computes the start, control and end points of the curve
    from the root to a child.

Geometry uses exact `real` arithmetic. A rectangle contains a point when the
point lies on or after its minimum edges and strictly before its maximum
edges. This is the rule of `java.awt.geom.Rectangle2D.contains`. The model
takes it as given and does not verify the library.

The files are:

- `wrappers.dfy`: `Option`, which stands for Java's `null`.
- `geometry.dfy`: rectangles, points, containment, `Max` and `Round`.
- `abstract_element.dfy`:
  - the element tree: an element's children are slots, and an empty slot is
    a topic without a payload;
  - the shared operations;
  - the characterization of point lookup as "first hit in pre-order".
- `element_root.dfy`: the root's size and layout passes.
  - Each loop is a method, verified against a functional definition of the
    stack (`SideBlocks`, `StackHeight`, `StackWidth`, `StackOffset`).
  - The alignment returns, for every child, the arguments of the child's own
    alignment call (`Anchor`). It returns `None` when the child is not
    aligned.
- `element_root_props.dfy`: lemmas about those anchors. They cover
  stacking, non-overlap, centring, horizontal placement and the
  two-children example layout.

The point lookup returns the outermost hit in pre-order and does not prune.
An element that contains the point is returned without looking at its
children. When an element misses the point, its children are still
searched, even if they lie outside it. The layout relies on this: an
element's bounds cover only its own label and margins, and the root anchors
its children outside them. `SearchIsFirstInPreOrder`, `AncestorWins`
and `NoPruning` state this.

## Model

| member | source | states |
|---|---|---|
| Geometry.HalfOpenBoundary | src/main/java/com/igormaznitsa/nbmindmap/gui/mmview/AbstractElement.java:136 | The assumed containment rule: a non-empty rectangle contains its minimum corner but no point on its maximum edges. |
| Geometry.Round | src/main/java/com/igormaznitsa/nbmindmap/gui/mmview/ElementRoot.java:135 | `Math.round` gives the integer nearest to the value, with halves rounded up. |
| AbstractElement.Caps | src/main/java/com/igormaznitsa/nbmindmap/gui/mmview/ElementRoot.java:39-57 | The root is never moveable, removable or collapsed, and always focusable. Other elements answer what their topic says. |
| AbstractElement.RootHasDirection | src/main/java/com/igormaznitsa/nbmindmap/gui/mmview/ElementRoot.java:236-239 | The root always has a direction, and its left direction is the inherited default, false. |
| AbstractElement.SetCoordOffset | src/main/java/com/igormaznitsa/nbmindmap/gui/mmview/ElementRoot.java:136 | The label rectangle moves to the given offset from the element origin. Its size and alignment are unchanged. |
| AbstractElement.MoveTo | src/main/java/com/igormaznitsa/nbmindmap/gui/mmview/AbstractElement.java:76-78 | The origin becomes (x, y). The width, the height and every other part of the element are unchanged. |
| AbstractElement.MoveToLastWins | src/main/java/com/igormaznitsa/nbmindmap/gui/mmview/AbstractElement.java:76-78 | Two moves in a row equal the last move alone. |
| AbstractElement.MoveToOwnOrigin | src/main/java/com/igormaznitsa/nbmindmap/gui/mmview/AbstractElement.java:76-78 | Moving an element to its own origin leaves it unchanged. |
| AbstractElement.AlignNameInjective | src/main/java/com/igormaznitsa/nbmindmap/gui/mmview/AbstractElement.java:58-61 | The persisted names of the alignments are distinct, so a name determines its alignment. |
| AbstractElement.SetTextAlign | src/main/java/com/igormaznitsa/nbmindmap/gui/mmview/AbstractElement.java:58-61 | Afterwards the alignment is the given one and the `align` attribute holds its name. All other attributes and parts of the element are unchanged. |
| AbstractElement.SetTextAlignRoundTrip | src/main/java/com/igormaznitsa/nbmindmap/gui/mmview/AbstractElement.java:54-61 | After a set, the stored name matches exactly one alignment: the one the getter returns. A second set overrides the first completely. |
| AbstractElement.UpdateBlockSize | src/main/java/com/igormaznitsa/nbmindmap/gui/mmview/AbstractElement.java:68-70 | The calculated size becomes the block size, and nothing else changes. |
| AbstractElement.FindPartForPoint | src/main/java/com/igormaznitsa/nbmindmap/gui/mmview/AbstractElement.java:134-143 | NONE exactly when the bounds miss the point. TEXT exactly when the bounds hold the point and the label holds it after translation by the negated origin. AREA exactly when the bounds hold it and the label does not. |
| AbstractElement.FindForPoint | src/main/java/com/igormaznitsa/nbmindmap/gui/mmview/AbstractElement.java:145-162 | A null point finds nothing. Any element found contains the point. |
| AbstractElement.Search | src/main/java/com/igormaznitsa/nbmindmap/gui/mmview/AbstractElement.java:148-159 | Any element the lookup of a subtree returns contains the point. |
| AbstractElement.SearchChildren | src/main/java/com/igormaznitsa/nbmindmap/gui/mmview/AbstractElement.java:152-159 | Any element the scan of the children returns contains the point. Empty slots are skipped. |
| AbstractElement.SearchIsFirstInPreOrder | src/main/java/com/igormaznitsa/nbmindmap/gui/mmview/AbstractElement.java:145-162 | The lookup returns the first element of the subtree's pre-order that contains the point: the outermost hit. |
| AbstractElement.SearchChildrenIsFirstInPreOrder | src/main/java/com/igormaznitsa/nbmindmap/gui/mmview/AbstractElement.java:152-159 | The scan of the children from index i returns the first hit in the pre-order of those children's subtrees. |
| AbstractElement.FindForPointCharacterized | src/main/java/com/igormaznitsa/nbmindmap/gui/mmview/AbstractElement.java:145-162 | The lookup finds nothing exactly when no element of the subtree contains the point. Otherwise it finds a subtree element that holds the point, and every element before it in pre-order misses the point. |
| AbstractElement.AncestorWins | src/main/java/com/igormaznitsa/nbmindmap/gui/mmview/AbstractElement.java:148-150 | An element whose bounds contain the point is returned ahead of all its descendants. |
| AbstractElement.NoPruning | src/main/java/com/igormaznitsa/nbmindmap/gui/mmview/AbstractElement.java:151-159 | When an element misses the point, a hit in its first child is still found, even outside the parent's bounds. |
| AbstractElement.PartAgreesWithLookup | src/main/java/com/igormaznitsa/nbmindmap/gui/mmview/AbstractElement.java:134-162 | An element whose part is not NONE is what the lookup returns. When its part is NONE, the lookup is that of its children. |
| ElementRoot.SideBlocksStep | src/main/java/com/igormaznitsa/nbmindmap/gui/mmview/ElementRoot.java:113-116 | A present child extends the block sequence of its own side and leaves the other side's unchanged. |
| ElementRoot.MaxWidthIsMaximum | src/main/java/com/igormaznitsa/nbmindmap/gui/mmview/ElementRoot.java:199-215 | The running width bounds every child width of the side, and it is either 0 or one of those widths. |
| ElementRoot.StackHeightClosedForm | src/main/java/com/igormaznitsa/nbmindmap/gui/mmview/ElementRoot.java:110-127 | A stack of k >= 1 blocks is as high as their heights together plus (k - 1) insets. |
| ElementRoot.StackOffsetIsOffset | src/main/java/com/igormaznitsa/nbmindmap/gui/mmview/ElementRoot.java:147-152 | The vertical offset of child n equals the heights plus insets of the blocks of its side that come before it. |
| ElementRoot.CalcTotalChildrenHeight | src/main/java/com/igormaznitsa/nbmindmap/gui/mmview/ElementRoot.java:110-127 | The loop returns 0 when no child is on the side, and otherwise the height of the stack of that side's blocks. |
| ElementRoot.StackChild | src/main/java/com/igormaznitsa/nbmindmap/gui/mmview/ElementRoot.java:204-223 | One step of the size loop keeps the running width and height equal to the stack's maximum and height. |
| ElementRoot.StackSkip | src/main/java/com/igormaznitsa/nbmindmap/gui/mmview/ElementRoot.java:204-223 | A child of the other side leaves a stack's running width and height as they were. |
| ElementRoot.FinishStack | src/main/java/com/igormaznitsa/nbmindmap/gui/mmview/ElementRoot.java:226-227 | Only a non-empty stack gains the horizontal inset in width. |
| ElementRoot.CalcStacks | src/main/java/com/igormaznitsa/nbmindmap/gui/mmview/ElementRoot.java:199-230 | Each side's size is its widest child plus the horizontal inset (0 with no child) by its stacked height. |
| ElementRoot.CalcBlockSize | src/main/java/com/igormaznitsa/nbmindmap/gui/mmview/ElementRoot.java:184-234 | The block is as wide as the two stacks and the root together, and as high as the highest of the three. It is never lower than the root, and never narrower when the inset is non-negative. |
| ElementRoot.UpdateRootBlockSize | src/main/java/com/igormaznitsa/nbmindmap/gui/mmview/ElementRoot.java:229-232 | The root stores both stack sizes and the block size. The block's height is the largest of the root's and the two stacks' heights. The bounds, label, attributes and children are unchanged. |
| ElementRoot.PlaceStack | src/main/java/com/igormaznitsa/nbmindmap/gui/mmview/ElementRoot.java:144-166 | One placement loop gives each child of its side the stack anchor at its running offset, and leaves the other side's anchors unchanged. |
| ElementRoot.AlignElementAndChildren | src/main/java/com/igormaznitsa/nbmindmap/gui/mmview/ElementRoot.java:130-167 | The root's origin becomes (x, y) with its size kept. Its label moves to the rounded scaled margin inside it, with the label's size kept. Every child gets the planned anchor of its side, or no call when its side's stack height is not positive. |
| ElementRoot.UpdateElementBounds | src/main/java/com/igormaznitsa/nbmindmap/gui/mmview/ElementRoot.java:169-174 | The bounds keep the label's origin. They are wider and higher than the label by twice the scaled text margin each. |
| ElementRoot.BoundsCoverLabel | src/main/java/com/igormaznitsa/nbmindmap/gui/mmview/ElementRoot.java:169-174 | With a non-negative margin and scale, every point of the label lies inside the new bounds. |
| ElementRoot.LabelPlacedInsideMargins | src/main/java/com/igormaznitsa/nbmindmap/gui/mmview/ElementRoot.java:135-136 | After `updateElementBounds` and alignment, the label lies inside the bounds, one rounded margin from the corner, when that margin is between 0 and the padding. A point is TEXT exactly when it is in that label, and AREA exactly when it is in the bounds but not the label; this includes the margin strips on all four sides. |
| ElementRoot.LabelMarginFits | src/main/java/com/igormaznitsa/nbmindmap/gui/mmview/ElementRoot.java:135-136 | With a non-negative margin and scale, the rounded label margin lies between 0 and the padding that `updateElementBounds` adds, so the label always fits inside the bounds. |
| ElementRoot.MarginStripsAreArea | src/main/java/com/igormaznitsa/nbmindmap/gui/mmview/AbstractElement.java:134-143 | Take a 10 x 10 label with margin 2, aligned at (100, 100). The corner (100, 100) is AREA, (102, 102) is TEXT, and (112, 105) in the right margin strip is AREA. |
| ElementRoot.Connector | src/main/java/com/igormaznitsa/nbmindmap/gui/mmview/ElementRoot.java:95-105 | The curve starts at the source's vertical centre, a quarter of its width left of centre when the destination centre is strictly to the left, else to the right. Both control points are at (start x, destination centre y). The curve ends at the destination centre. |
| ElementRoot.ConnectorStartsInsideTowardDestination | src/main/java/com/igormaznitsa/nbmindmap/gui/mmview/ElementRoot.java:95-104 | For a non-empty source the start point lies inside the source, on the half facing the destination. |
| ElementRootProperties.OffsetMonotone | src/main/java/com/igormaznitsa/nbmindmap/gui/mmview/ElementRoot.java:147-152 | With non-negative heights and inset, the running offset never decreases from child to child. |
| ElementRootProperties.HorizontalPlacement | src/main/java/com/igormaznitsa/nbmindmap/gui/mmview/ElementRoot.java:144-162 | A placed child keeps its side. Left blocks end exactly at x minus the horizontal inset; right blocks start at x plus the root width plus the inset. With a non-negative inset and width, the two sides are separated by the root. |
| ElementRootProperties.FirstOfSide | src/main/java/com/igormaznitsa/nbmindmap/gui/mmview/ElementRoot.java:144-150 | The first child of a side is placed at y minus half of (stack height minus root height). |
| ElementRootProperties.NextOfSide | src/main/java/com/igormaznitsa/nbmindmap/gui/mmview/ElementRoot.java:147-152 | The next child of the same side, in child order, is placed at the previous child's y plus its block height plus the vertical inset. |
| ElementRootProperties.NoOverlap | src/main/java/com/igormaznitsa/nbmindmap/gui/mmview/ElementRoot.java:156-166 | With non-negative heights and inset, any later child of a side starts at least an inset below the end of an earlier one. Block intervals on one side are therefore disjoint. |
| ElementRootProperties.StackCentred | src/main/java/com/igormaznitsa/nbmindmap/gui/mmview/ElementRoot.java:141-166 | The midpoint between the top of a side's first child and the bottom of its last child is the root's vertical centre. |
| ElementRootProperties.EveryChildPlaced | src/main/java/com/igormaznitsa/nbmindmap/gui/mmview/ElementRoot.java:141-166 | With positive block heights and a non-negative inset, every child gets an alignment call. |
| ElementRootProperties.TwoChildLayout | src/main/java/com/igormaznitsa/nbmindmap/gui/mmview/ElementRoot.java:130-167 | Take a root of 80 x 30 with one 100 x 40 child on each side, insets 10 and 20, and scale 1. The left child is anchored at (x - 120, y - 5) and the right child at (x + 100, y - 5). |

## Left out

- Painting (`drawComponent`, `doPaint`, `doPaintConnectors`, strokes, colours and the `Path2D` calls) is left out: these are toolkit calls. Only the connector's point arithmetic is modelled.
- Label measurement (`TextBlock.updateUI`, `getBounds`) and `TextAlign.findForName` depend on fonts and on code that is not part of this model. The measured label rectangle is an input of `UpdateElementBounds`, and the alignment names are those of the enum constants.
- ElementRoot.CalcBlockSize: computes exact reals. The source keeps sizes in `java.awt.Dimension`, whose `setSize` rounds up to whole pixels, and it mixes `float` and `double`. That rounding and precision are not modelled.
- AbstractElement.Search: every descendant is searched with the lookup of AbstractElement.java:145-162. The child classes are not part of this model and could override `findForPoint`; the model assumes they do not. In particular a collapsed branch's present children are still searched, as the base lookup does.
- AbstractElement.SetTextAlign: `TextBlock` is not part of this model. Its `setTextAlign` is assumed to store its argument unchanged, so the name written back to the `align` attribute is that of the argument. A `null` alignment cannot be expressed.
- AbstractElement.SetCoordOffset: `TextBlock` is not part of this model. `setCoordOffset` is taken to move the label rectangle that `getBounds()` returns to the offset, relative to the element's origin, keeping its size. `findPartForPoint` then tests points against that placed rectangle.
- Geometry.Round: returns an unbounded integer. Java's `Math.round(float)` clamps to the `int` range and maps NaN to 0; that clamping is not modelled, because the model's reals have no NaN and no range limit.
- ElementRoot.UpdateElementBounds: the margin is `textMargins * 2` over unbounded integers. The source's `int` shift can wrap for huge margins.
- The first-level child classes (`ElementLevelFirst`, `AbstractCollapsableElement`) are not part of this model. A child is a record with bounds, block size and capability flags, and its own size and alignment passes are left out.
- ElementRoot.AlignElementAndChildren: does not perform each child's own `alignElementAndChildren`. It returns the arguments of that call for every child, because the child classes are not part of this model. The root ignores the `leftSide` argument, as the source does.
- ElementRoot.CalcBlockSize: uses each child's stored block size. The source asks each child to recompute its size inside the loop; the two are taken to agree.
- The root's passes cast every child payload and would fail on a missing one. The model states this as the precondition `AllPresent` instead of modelling the failure. The point lookup does skip missing payloads, and the model does the same.
- Geometry.HalfOpenBoundary: the containment rule of `Rectangle2D.contains` is assumed, not derived from the library.
- The remaining repository files are unrelated to this core and are not modelled: the note editor, UI utilities, the tree panel, dialog and path service interfaces, and event-thread helpers.
