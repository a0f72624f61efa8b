/**
 The root topic's element. It distributes its children into two independent
 vertical stacks: the left-growing children and the right-growing ones.
 */
module ElementRoot {

  import opened Wrappers
  import opened Geometry
  import opened AbstractElement

  /** The layout options the root reads. */
  datatype Config = Config(
    scale: real,
    textMargins: int,
    firstLevelVerticalInset: real,
    firstLevelHorizontalInset: real)

  /** Vertical gap between consecutive children of one stack. */
  function InsetV(cfg: Config): real {
    cfg.firstLevelVerticalInset * cfg.scale
  }

  /** Horizontal gap between the root and its children. */
  function InsetH(cfg: Config): real {
    cfg.firstLevelHorizontalInset * cfg.scale
  }

  /** Offset of the label inside the root: the scaled text margin, rounded to whole pixels. */
  function LabelMargin(cfg: Config): int {
    Round(cfg.scale * cfg.textMargins as real)
  }

  /** How much wider and higher than its label the root is: twice the scaled text margin. */
  function MarginOffset(cfg: Config): real {
    (2 * cfg.textMargins) as real * cfg.scale
  }

  /**
   Every child topic carries an element. The root's size and alignment
   passes dereference each payload; an empty one would abort them.
   */
  predicate AllPresent(cs: seq<Slot>) {
    forall i :: 0 <= i < |cs| ==> cs[i].Payload?
  }

  /**
   The block sizes of the first `n` children that grow to the given side,
   in child order. An empty slot contributes nothing; the passes that read
   these require every slot to be present.
   */
  function SideBlocksUpTo(cs: seq<Slot>, n: nat, left: bool): (ds: seq<Dim>)
    requires n <= |cs|
    ensures |ds| <= n
  {
    if n == 0 then []
    else
      var last := cs[n - 1];
      SideBlocksUpTo(cs, n - 1, left) +
      (if last.Payload? && IsLeftDirection(last.element) == left then [last.element.blockSize] else [])
  }

  /** One more child: the blocks of its side gain its block at the end, the other side's stay. */
  lemma SideBlocksStep(cs: seq<Slot>, i: nat, left: bool)
    requires i < |cs| && cs[i].Payload?
    ensures IsLeftDirection(cs[i].element) == left ==>
              SideBlocksUpTo(cs, i + 1, left) == SideBlocksUpTo(cs, i, left) + [cs[i].element.blockSize]
    ensures IsLeftDirection(cs[i].element) != left ==>
              SideBlocksUpTo(cs, i + 1, left) == SideBlocksUpTo(cs, i, left)
  {
    assert SideBlocksUpTo(cs, i, left) + [] == SideBlocksUpTo(cs, i, left);
  }

  /** The block sizes of all children that grow to the given side, in child order. */
  function SideBlocks(cs: seq<Slot>, left: bool): seq<Dim> {
    SideBlocksUpTo(cs, |cs|, left)
  }

  function SumHeights(ds: seq<Dim>): real {
    if |ds| == 0 then 0.0 else SumHeights(ds[..|ds| - 1]) + ds[|ds| - 1].height
  }

  /** The widest block, or 0 when there is none or all widths are negative. */
  function MaxWidth(ds: seq<Dim>): (m: real)
    ensures m >= 0.0
  {
    if |ds| == 0 then 0.0 else Max(MaxWidth(ds[..|ds| - 1]), ds[|ds| - 1].width)
  }

  /** `MaxWidth` bounds every block's width and is 0 or one of them. */
  lemma {:induction false} MaxWidthIsMaximum(ds: seq<Dim>)
    ensures forall k :: 0 <= k < |ds| ==> ds[k].width <= MaxWidth(ds)
    ensures MaxWidth(ds) == 0.0 || exists k :: 0 <= k < |ds| && ds[k].width == MaxWidth(ds)
  {
    if |ds| > 0 {
      var n := |ds| - 1;
      MaxWidthIsMaximum(ds[..n]);
      assert forall k :: 0 <= k < n ==> ds[..n][k] == ds[k];
      if MaxWidth(ds) != 0.0 && MaxWidth(ds) != ds[n].width {
        var k :| 0 <= k < n && ds[..n][k].width == MaxWidth(ds[..n]);
        assert ds[k].width == MaxWidth(ds);
      }
    }
  }

  /**
   How far below the top of a stack the block after `ds` starts: each
   block of `ds` advances it by its height and the inset.
   */
  function Offset(ds: seq<Dim>, inset: real): real {
    if |ds| == 0 then 0.0 else Offset(ds[..|ds| - 1], inset) + ds[|ds| - 1].height + inset
  }

  /** Height of a stack: the blocks with one inset between each two of them, 0 when empty. */
  function StackHeight(ds: seq<Dim>, inset: real): real {
    if |ds| == 0 then 0.0 else Offset(ds, inset) - inset
  }

  /** Width of a stack: the widest block plus the inset, or 0 for an empty stack. */
  function StackWidth(ds: seq<Dim>, inset: real): real {
    if |ds| == 0 then 0.0 else MaxWidth(ds) + inset
  }

  /** Top of a stack of height `stackHeight`, vertically centred on an element of height `ownHeight` at `y`. */
  function StackTop(stackHeight: real, ownHeight: real, y: real): real {
    y - (stackHeight - ownHeight) / 2.0
  }

  /** The offset after k blocks is their total height plus k insets. */
  lemma {:induction false} OffsetClosedForm(ds: seq<Dim>, inset: real)
    ensures Offset(ds, inset) == SumHeights(ds) + |ds| as real * inset
  {
    if |ds| > 0 {
      var k := |ds| - 1;
      OffsetClosedForm(ds[..k], inset);
      assert |ds| as real * inset == k as real * inset + inset;
    }
  }

  /** A stack of k >= 1 blocks is their total height plus k - 1 insets. */
  lemma StackHeightClosedForm(ds: seq<Dim>, inset: real)
    requires |ds| > 0
    ensures StackHeight(ds, inset) == SumHeights(ds) + (|ds| - 1) as real * inset
  {
    OffsetClosedForm(ds, inset);
    assert |ds| as real * inset == (|ds| - 1) as real * inset + inset;
  }

  lemma MaxWidthSnoc(ds: seq<Dim>, b: Dim)
    ensures MaxWidth(ds + [b]) == Max(MaxWidth(ds), b.width)
  {
    assert (ds + [b])[..|ds|] == ds;
  }

  lemma OffsetSnoc(ds: seq<Dim>, b: Dim, inset: real)
    ensures Offset(ds + [b], inset) == Offset(ds, inset) + b.height + inset
  {
    assert (ds + [b])[..|ds|] == ds;
  }

  lemma StackHeightSnoc(ds: seq<Dim>, b: Dim, inset: real)
    ensures StackHeight(ds + [b], inset) ==
            StackHeight(ds, inset) + b.height + (if |ds| == 0 then 0.0 else inset)
  {
    OffsetSnoc(ds, b, inset);
  }

  /**
   How far below the top of its side's stack child `n` starts: the heights
   of the earlier children of that side, each followed by the inset.
   */
  function StackOffset(cs: seq<Slot>, n: nat, left: bool, inset: real): real
    requires n <= |cs|
  {
    if n == 0 then 0.0
    else
      var last := cs[n - 1];
      StackOffset(cs, n - 1, left, inset) +
      (if last.Payload? && IsLeftDirection(last.element) == left then last.element.blockSize.height + inset else 0.0)
  }

  /** The offset of child `n` is the offset after the side's blocks that precede it. */
  lemma {:induction false} StackOffsetIsOffset(cs: seq<Slot>, n: nat, left: bool, inset: real)
    requires n <= |cs|
    ensures StackOffset(cs, n, left, inset) == Offset(SideBlocksUpTo(cs, n, left), inset)
  {
    if n > 0 {
      StackOffsetIsOffset(cs, n - 1, left, inset);
      var ds := SideBlocksUpTo(cs, n - 1, left);
      var last := cs[n - 1];
      if last.Empty? {
        assert SideBlocksUpTo(cs, n, left) == ds + [];
        assert ds + [] == ds;
      } else {
        SideBlocksStep(cs, n - 1, left);
        if IsLeftDirection(last.element) == left {
          OffsetSnoc(ds, last.element.blockSize, inset);
        }
      }
    }
  }

  /**
   `calcTotalChildrenHeight`: the height of the stack of children growing to
   one side. It is 0 with no child on that side; with k children it is the
   sum of their block heights plus (k - 1) insets.
   */
  method CalcTotalChildrenHeight(root: Element, vertInset: real, left: bool) returns (result: real)
    requires AllPresent(root.children)
    ensures SideBlocks(root.children, left) == [] ==> result == 0.0
    ensures result == StackHeight(SideBlocks(root.children, left), vertInset)
  {
    var cs := root.children;
    result := 0.0;
    var nonfirst := false;
    var i := 0;
    while i < |cs|
      invariant 0 <= i <= |cs|
      invariant nonfirst <==> |SideBlocksUpTo(cs, i, left)| > 0
      invariant result == StackHeight(SideBlocksUpTo(cs, i, left), vertInset)
    {
      var w := cs[i].element;
      SideBlocksStep(cs, i, left);
      if IsLeftDirection(w) == left {
        StackHeightSnoc(SideBlocksUpTo(cs, i, left), w.blockSize, vertInset);
        if nonfirst {
          result := result + vertInset;
        } else {
          nonfirst := true;
        }
        result := result + w.blockSize.height;
      }
      i := i + 1;
    }
  }

  /** The running aggregate of one stack: width, height and whether a block was seen. */
  datatype StackSum = StackSum(width: real, height: real, nonfirst: bool)

  /** `sum` is the running aggregate of the blocks `ds`. */
  predicate Summarizes(sum: StackSum, ds: seq<Dim>, insetV: real) {
    && (sum.nonfirst <==> |ds| > 0)
    && sum.width == MaxWidth(ds)
    && sum.height == StackHeight(ds, insetV)
  }

  /**
   Adds child `i`, which grows to the stack's side, to the running aggregate
   of the stack: the width keeps the maximum, the height grows by the block
   and, from the second block on, by the inset.
   */
  method StackChild(cs: seq<Slot>, i: nat, left: bool, sum: StackSum, insetV: real) returns (sum': StackSum)
    requires i < |cs| && cs[i].Payload? && IsLeftDirection(cs[i].element) == left
    requires Summarizes(sum, SideBlocksUpTo(cs, i, left), insetV)
    ensures Summarizes(sum', SideBlocksUpTo(cs, i + 1, left), insetV)
  {
    var block := cs[i].element.blockSize;
    SideBlocksStep(cs, i, left);
    MaxWidthSnoc(SideBlocksUpTo(cs, i, left), block);
    StackHeightSnoc(SideBlocksUpTo(cs, i, left), block, insetV);
    var height := sum.height + block.height;
    if sum.nonfirst {
      height := height + insetV;
    }
    sum' := StackSum(Max(sum.width, block.width), height, true);
  }

  /** A child of the other side leaves the aggregate of a stack as it is. */
  lemma StackSkip(cs: seq<Slot>, i: nat, left: bool, sum: StackSum, insetV: real)
    requires i < |cs| && cs[i].Payload? && IsLeftDirection(cs[i].element) != left
    requires Summarizes(sum, SideBlocksUpTo(cs, i, left), insetV)
    ensures Summarizes(sum, SideBlocksUpTo(cs, i + 1, left), insetV)
  {
    SideBlocksStep(cs, i, left);
  }

  /** Completes a stack's size: a non-empty stack is widened by the horizontal inset. */
  method FinishStack(ghost ds: seq<Dim>, sum: StackSum, insetV: real, insetH: real) returns (block: Dim)
    requires Summarizes(sum, ds, insetV)
    ensures block == Dim(StackWidth(ds, insetH), StackHeight(ds, insetV))
  {
    block := Dim(sum.width + (if sum.nonfirst then insetH else 0.0), sum.height);
  }

  /**
   The loop of `calcBlockSize`, given the scaled insets: the aggregate sizes
   of the left stack and of the right stack. A stack is as wide as its
   widest child plus the horizontal inset (0 when empty) and as high as its
   children plus the vertical insets between them.
   */
  method CalcStacks(root: Element, insetV: real, insetH: real) returns (leftBlock: Dim, rightBlock: Dim)
    requires AllPresent(root.children)
    ensures leftBlock == Dim(StackWidth(SideBlocks(root.children, true), insetH),
                             StackHeight(SideBlocks(root.children, true), insetV))
    ensures rightBlock == Dim(StackWidth(SideBlocks(root.children, false), insetH),
                              StackHeight(SideBlocks(root.children, false), insetV))
  {
    var cs := root.children;
    var left, right := StackSum(0.0, 0.0, false), StackSum(0.0, 0.0, false);
    var i := 0;
    while i < |cs|
      invariant 0 <= i <= |cs|
      invariant Summarizes(left, SideBlocksUpTo(cs, i, true), insetV)
      invariant Summarizes(right, SideBlocksUpTo(cs, i, false), insetV)
    {
      if IsLeftDirection(cs[i].element) {
        StackSkip(cs, i, false, right, insetV);
        left := StackChild(cs, i, true, left, insetV);
      } else {
        StackSkip(cs, i, true, left, insetV);
        right := StackChild(cs, i, false, right, insetV);
      }
      i := i + 1;
    }
    leftBlock := FinishStack(SideBlocks(cs, true), left, insetV, insetH);
    rightBlock := FinishStack(SideBlocks(cs, false), right, insetV, insetH);
  }

  /**
   `calcBlockSize`: the two stacks and the size of the whole root block,
   which puts the stacks beside the root and is as high as the highest of
   the three. The block is never smaller than the root itself.
   */
  method CalcBlockSize(root: Element, cfg: Config) returns (leftBlock: Dim, rightBlock: Dim, size: Dim)
    requires AllPresent(root.children)
    ensures leftBlock == Dim(StackWidth(SideBlocks(root.children, true), InsetH(cfg)),
                             StackHeight(SideBlocks(root.children, true), InsetV(cfg)))
    ensures rightBlock == Dim(StackWidth(SideBlocks(root.children, false), InsetH(cfg)),
                              StackHeight(SideBlocks(root.children, false), InsetV(cfg)))
    ensures size.width == leftBlock.width + rightBlock.width + root.bounds.width
    ensures size.height == Max(root.bounds.height, Max(leftBlock.height, rightBlock.height))
    ensures size.height >= root.bounds.height
    ensures InsetH(cfg) >= 0.0 ==> size.width >= root.bounds.width
  {
    leftBlock, rightBlock := CalcStacks(root, InsetV(cfg), InsetH(cfg));
    size := Dim(leftBlock.width + rightBlock.width + root.bounds.width,
                Max(root.bounds.height, Max(leftBlock.height, rightBlock.height)));
  }

  /**
   `updateBlockSize` of the root: stores the calculated block size, and the
   two stack sizes, in the root; nothing else changes. The stored block is
   never smaller than the root's own bounds.
   */
  method UpdateRootBlockSize(root: Element, cfg: Config) returns (r: Element)
    requires root.kind.Root? && AllPresent(root.children)
    ensures r.kind.Root?
    ensures r.kind.leftBlockSize.height == StackHeight(SideBlocks(root.children, true), InsetV(cfg))
    ensures r.kind.rightBlockSize.height == StackHeight(SideBlocks(root.children, false), InsetV(cfg))
    ensures r.kind.leftBlockSize.width == StackWidth(SideBlocks(root.children, true), InsetH(cfg))
    ensures r.kind.rightBlockSize.width == StackWidth(SideBlocks(root.children, false), InsetH(cfg))
    ensures r.blockSize.width ==
              r.kind.leftBlockSize.width + r.kind.rightBlockSize.width + root.bounds.width
    ensures r.blockSize.height == Max(root.bounds.height, Max(r.kind.leftBlockSize.height, r.kind.rightBlockSize.height))
    ensures r.blockSize.height >= root.bounds.height
    ensures r.blockSize.height >= r.kind.leftBlockSize.height
    ensures r.blockSize.height >= r.kind.rightBlockSize.height
    ensures r.bounds == root.bounds && r.text == root.text && r.attributes == root.attributes
    ensures r.children == root.children
  {
    var leftBlock, rightBlock, size := CalcBlockSize(root, cfg);
    r := UpdateBlockSize(root, size).(kind := Root(leftBlock, rightBlock));
  }

  /** The arguments of one call of a child's `alignElementAndChildren`. */
  datatype Anchor = Anchor(leftSide: bool, x: real, y: real)

  /**
   The anchor of child `i` in a stack anchored horizontally at `ddx` whose
   first block starts at `top`: a left child ends at `ddx`, a right child
   starts there, and the child sits below every earlier child of its side.
   */
  function StackAnchor(cs: seq<Slot>, i: nat, left: bool, ddx: real, top: real, insetV: real): Anchor
    requires AllPresent(cs) && i < |cs|
  {
    var c := cs[i].element;
    Anchor(left, if left then ddx - c.blockSize.width else ddx, top + StackOffset(cs, i, left, insetV))
  }

  /**
   Where the root's alignment sends child `i`, in closed form. A child is
   placed only when the stack of its side has positive height. Left children
   end at the root's left edge minus the inset; right children start at its
   right edge plus the inset. Each stack is centred vertically on the root.
   */
  function PlannedAnchor(root: Element, cfg: Config, x: real, y: real, i: nat): Option<Anchor>
    requires AllPresent(root.children) && i < |root.children|
  {
    var cs := root.children;
    var left := IsLeftDirection(cs[i].element);
    var stackHeight := StackHeight(SideBlocks(cs, left), InsetV(cfg));
    var ddx := if left then x - InsetH(cfg) else x + root.bounds.width + InsetH(cfg);
    if stackHeight > 0.0 then
      Some(StackAnchor(cs, i, left, ddx, StackTop(stackHeight, root.bounds.height, y), InsetV(cfg)))
    else
      None
  }

  /**
   One of the two loops of `alignElementAndChildren`: walks the children in
   order and gives each child of the side its anchor in the stack; the
   anchors of the other side's children stay as they were.
   */
  method PlaceStack(cs: seq<Slot>, left: bool, ddx: real, top: real, insetV: real, anchors: seq<Option<Anchor>>)
    returns (placed: seq<Option<Anchor>>)
    requires AllPresent(cs) && |anchors| == |cs|
    ensures |placed| == |cs|
    ensures forall j {:trigger placed[j]} :: 0 <= j < |cs| ==>
              placed[j] == (if IsLeftDirection(cs[j].element) == left
                            then Some(StackAnchor(cs, j, left, ddx, top, insetV)) else anchors[j])
  {
    placed := anchors;
    var ddy := top;
    var i := 0;
    while i < |cs|
      invariant 0 <= i <= |cs| && |placed| == |cs|
      invariant ddy == top + StackOffset(cs, i, left, insetV)
      invariant forall j {:trigger placed[j]} :: 0 <= j < i && IsLeftDirection(cs[j].element) == left ==>
                  placed[j] == Some(StackAnchor(cs, j, left, ddx, top, insetV))
      invariant forall j {:trigger placed[j]} :: 0 <= j < i && IsLeftDirection(cs[j].element) != left ==>
                  placed[j] == anchors[j]
      invariant forall j {:trigger placed[j]} :: i <= j < |cs| ==> placed[j] == anchors[j]
    {
      var c := cs[i].element;
      if IsLeftDirection(c) == left {
        var anchor := Anchor(left, if left then ddx - c.blockSize.width else ddx, ddy);
        placed := placed[i := Some(anchor)];
        ddy := ddy + c.blockSize.height + insetV;
      }
      i := i + 1;
    }
  }

  /**
   The part of the root's alignment that concerns the root itself: its
   origin moves to (x, y) and its label to the rounded scaled text margin
   inside it.
   */
  function MoveAndPlaceLabel(root: Element, cfg: Config, x: real, y: real): Element {
    var moved := MoveTo(root, x, y);
    moved.(text := SetCoordOffset(moved.text, LabelMargin(cfg), LabelMargin(cfg)))
  }

  /**
   `alignElementAndChildren` of the root: moves the root to (x, y), keeping
   its size, sets the label offset to the rounded scaled text margin, and
   calls each child's alignment with the anchor `PlannedAnchor` gives, or
   not at all when that is None.
   */
  method AlignElementAndChildren(root: Element, cfg: Config, leftSide: bool, x: real, y: real)
    returns (r: Element, anchors: seq<Option<Anchor>>)
    requires AllPresent(root.children)
    ensures r == MoveAndPlaceLabel(root, cfg, x, y)
    ensures r.bounds == Rect(x, y, root.bounds.width, root.bounds.height)
    ensures r.text.bounds == Rect(LabelMargin(cfg) as real, LabelMargin(cfg) as real,
                                  root.text.bounds.width, root.text.bounds.height)
    ensures r.text.align == root.text.align
    ensures r.blockSize == root.blockSize && r.kind == root.kind
    ensures r.attributes == root.attributes && r.children == root.children
    ensures |anchors| == |root.children|
    ensures forall i {:trigger anchors[i]} :: 0 <= i < |anchors| ==> anchors[i] == PlannedAnchor(root, cfg, x, y, i)
  {
    var cs := root.children;
    r := MoveTo(root, x, y);
    var textMargin := LabelMargin(cfg);
    r := r.(text := SetCoordOffset(r.text, textMargin, textMargin));

    var insetVert := InsetV(cfg);
    var insetHorz := InsetH(cfg);
    var leftHeight := CalcTotalChildrenHeight(root, insetVert, true);
    var rightHeight := CalcTotalChildrenHeight(root, insetVert, false);

    anchors := seq(|cs|, _ => None);
    if leftHeight > 0.0 {
      anchors := PlaceStack(cs, true, x - insetHorz, y - (leftHeight - r.bounds.height) / 2.0, insetVert, anchors);
    }
    if rightHeight > 0.0 {
      anchors := PlaceStack(cs, false, x + r.bounds.width + insetHorz, y - (rightHeight - r.bounds.height) / 2.0,
                            insetVert, anchors);
    }
  }

  /**
   `updateElementBounds` of the root: the bounds become the freshly measured
   label rectangle, grown in width and height by twice the scaled text margin.
   */
  function UpdateElementBounds(root: Element, cfg: Config, measured: Rect): (r: Element)
    ensures r.text.bounds == measured
    ensures r.bounds.x == measured.x && r.bounds.y == measured.y
    ensures r.bounds.width - measured.width == (2 * cfg.textMargins) as real * cfg.scale
    ensures r.bounds.height - measured.height == r.bounds.width - measured.width
    ensures r.blockSize == root.blockSize && r.kind == root.kind && r.children == root.children
  {
    var marginOffset := MarginOffset(cfg);
    root.(text := root.text.(bounds := measured),
          bounds := Rect(measured.x, measured.y, measured.width + marginOffset, measured.height + marginOffset))
  }

  /** With a non-negative margin and scale, the root's bounds cover its label. */
  lemma BoundsCoverLabel(root: Element, cfg: Config, measured: Rect)
    requires cfg.textMargins >= 0 && cfg.scale >= 0.0
    ensures Within(measured, UpdateElementBounds(root, cfg, measured).bounds)
  {
    var r := UpdateElementBounds(root, cfg, measured);
    assert (2 * cfg.textMargins) as real * cfg.scale >= 0.0;
    forall px: real, py: real | ContainsXY(measured, px, py)
      ensures ContainsXY(r.bounds, px, py)
    {
    }
  }

  /**
   After measuring and aligning, the root's label sits inside its bounds, one
   rounded margin from the top-left corner, whenever that margin is neither
   negative nor larger than the padding. A point hits TEXT exactly when it lies
   in the label so placed; every other point of the bounds, the margin strips
   on all four sides included, is AREA.
   */
  lemma LabelPlacedInsideMargins(root: Element, cfg: Config, measured: Rect, x: real, y: real, p: Point)
    requires 0 <= LabelMargin(cfg) && LabelMargin(cfg) as real <= MarginOffset(cfg)
    requires measured.width >= 0.0 && measured.height >= 0.0
    ensures var r := MoveAndPlaceLabel(UpdateElementBounds(root, cfg, measured), cfg, x, y);
            var textRect := Rect(x + LabelMargin(cfg) as real, y + LabelMargin(cfg) as real,
                              measured.width, measured.height);
            && Within(textRect, r.bounds)
            && (FindPartForPoint(r, p) == TEXT <==> Contains(textRect, p))
            && (FindPartForPoint(r, p) == AREA <==> Contains(r.bounds, p) && !Contains(textRect, p))
  {
  }

  /**
   For every configuration with a non-negative margin and scale, the rounded
   label margin is neither negative nor larger than the padding, so
   `LabelPlacedInsideMargins` applies.
   */
  lemma LabelMarginFits(cfg: Config)
    requires cfg.textMargins >= 0 && cfg.scale >= 0.0
    ensures 0 <= LabelMargin(cfg) && LabelMargin(cfg) as real <= MarginOffset(cfg)
  {
    var st := cfg.scale * cfg.textMargins as real;
    assert st >= 0.0;
    assert MarginOffset(cfg) == 2.0 * st;
  }

  /**
   A root measured at 10 x 10 with text margin 2 and scale 1, aligned at
   (100, 100): its corner is margin, hence AREA; the label starts two pixels
   in; the right margin strip is AREA again.
   */
  lemma MarginStripsAreArea(root: Element)
    ensures var r := MoveAndPlaceLabel(UpdateElementBounds(root, Config(1.0, 2, 0.0, 0.0), Rect(0.0, 0.0, 10.0, 10.0)),
                                       Config(1.0, 2, 0.0, 0.0), 100.0, 100.0);
            && FindPartForPoint(r, Point(100, 100)) == AREA
            && FindPartForPoint(r, Point(102, 102)) == TEXT
            && FindPartForPoint(r, Point(112, 105)) == AREA
  {
  }

  /** A cubic connector: start point, two control points, end point. */
  datatype Curve = Curve(start: RealPoint, control1: RealPoint, control2: RealPoint, end: RealPoint)

  /**
   The connector the root draws to a child: it starts a quarter of the
   source's width off the source's centre, on the side of the destination,
   and ends at the destination's centre.
   */
  function Connector(source: Rect, destination: Rect): (c: Curve)
    ensures c.end == destination.Center()
    ensures c.start.y == source.CenterY()
    ensures destination.CenterX() < source.CenterX() ==> c.start.x == source.CenterX() - source.width / 4.0
    ensures destination.CenterX() >= source.CenterX() ==> c.start.x == source.CenterX() + source.width / 4.0
    ensures c.control1 == c.control2 == RealPoint(c.start.x, destination.CenterY())
  {
    var startX :=
      if destination.CenterX() < source.CenterX() then source.CenterX() - source.width / 4.0
      else source.CenterX() + source.width / 4.0;
    var start := RealPoint(startX, source.CenterY());
    var control := RealPoint(startX, destination.CenterY());
    Curve(start, control, control, destination.Center())
  }

  /**
   A connector leaves a non-empty source from inside it, on the half that
   faces the destination.
   */
  lemma ConnectorStartsInsideTowardDestination(source: Rect, destination: Rect)
    requires source.width > 0.0 && source.height > 0.0
    ensures var c := Connector(source, destination);
            && ContainsXY(source, c.start.x, c.start.y)
            && (destination.CenterX() < source.CenterX() ==> c.start.x < source.CenterX())
            && (destination.CenterX() >= source.CenterX() ==> c.start.x > source.CenterX())
  {
  }
}
