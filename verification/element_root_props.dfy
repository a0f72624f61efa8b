/**
 Properties of the root's layout: how the children planned by
 `alignElementAndChildren` sit in their two stacks. Left blocks end at the
 root's left edge minus the inset, right blocks start at its right edge
 plus the inset; in each stack the children follow one another in child
 order, an inset apart, without overlapping, and the stack is centred
 vertically on the root.
 */
module ElementRootProperties {
  import opened Wrappers
  import opened Geometry
  import opened AbstractElement
  import opened ElementRoot

  /** Child `i` is present and grows to the given side. */
  predicate OnSide(cs: seq<Slot>, i: int, left: bool) {
    0 <= i < |cs| && cs[i].Payload? && IsLeftDirection(cs[i].element) == left
  }

  /** Every child of the side has a non-negative block height. */
  predicate SideHeightsNonNegative(cs: seq<Slot>, left: bool) {
    forall j :: 0 <= j < |cs| && OnSide(cs, j, left) ==> cs[j].element.blockSize.height >= 0.0
  }

  /** Before the first child of a side, the offset is still 0. */
  lemma {:induction false} OffsetBeforeFirst(cs: seq<Slot>, n: nat, left: bool, inset: real)
    requires n <= |cs|
    requires forall j :: 0 <= j < n ==> !OnSide(cs, j, left)
    ensures StackOffset(cs, n, left, inset) == 0.0
  {
    if n > 0 {
      assert !OnSide(cs, n - 1, left);
      OffsetBeforeFirst(cs, n - 1, left, inset);
    }
  }

  /** Children of the other side, and empty slots, do not move the offset. */
  lemma {:induction false} OffsetSkipsOtherSide(cs: seq<Slot>, i: nat, n: nat, left: bool, inset: real)
    requires i <= n <= |cs|
    requires forall j :: i <= j < n ==> !OnSide(cs, j, left)
    ensures StackOffset(cs, n, left, inset) == StackOffset(cs, i, left, inset)
  {
    if n > i {
      assert !OnSide(cs, n - 1, left);
      OffsetSkipsOtherSide(cs, i, n - 1, left, inset);
    }
  }

  /** With non-negative heights and inset, the offset never decreases along the children. */
  lemma {:induction false} OffsetMonotone(cs: seq<Slot>, i: nat, n: nat, left: bool, inset: real)
    requires i <= n <= |cs|
    requires inset >= 0.0 && SideHeightsNonNegative(cs, left)
    ensures StackOffset(cs, i, left, inset) <= StackOffset(cs, n, left, inset)
  {
    if n > i {
      OffsetMonotone(cs, i, n - 1, left, inset);
      if OnSide(cs, n - 1, left) {
        assert cs[n - 1].element.blockSize.height >= 0.0;
      }
    }
  }

  /**
   Past the last child of a side, the offset is the stack's height plus one
   inset; so the last child of a non-empty stack ends exactly at its height.
   */
  lemma LastEndsStack(cs: seq<Slot>, l: nat, left: bool, inset: real)
    requires OnSide(cs, l, left)
    requires forall j :: l < j < |cs| ==> !OnSide(cs, j, left)
    ensures StackOffset(cs, l, left, inset) + cs[l].element.blockSize.height ==
            StackHeight(SideBlocks(cs, left), inset)
  {
    OffsetSkipsOtherSide(cs, l + 1, |cs|, left, inset);
    StackOffsetIsOffset(cs, |cs|, left, inset);
    StackOffsetIsOffset(cs, l, left, inset);
    SideBlocksStep(cs, l, left);
    assert |SideBlocksUpTo(cs, l + 1, left)| > 0;
    SideBlocksAfter(cs, l + 1, left);
  }

  /** The side's blocks do not grow past the last child of that side. */
  lemma {:induction false} SideBlocksAfter(cs: seq<Slot>, n: nat, left: bool)
    requires n <= |cs|
    requires forall j :: n <= j < |cs| ==> !OnSide(cs, j, left)
    ensures SideBlocks(cs, left) == SideBlocksUpTo(cs, n, left)
  {
    SideBlocksSkip(cs, n, |cs|, left);
  }

  lemma {:induction false} SideBlocksSkip(cs: seq<Slot>, i: nat, n: nat, left: bool)
    requires i <= n <= |cs|
    requires forall j :: i <= j < n ==> !OnSide(cs, j, left)
    ensures SideBlocksUpTo(cs, n, left) == SideBlocksUpTo(cs, i, left)
  {
    if n > i {
      assert !OnSide(cs, n - 1, left);
      SideBlocksSkip(cs, i, n - 1, left);
      var ds := SideBlocksUpTo(cs, n - 1, left);
      assert SideBlocksUpTo(cs, n, left) == ds + [];
      assert ds + [] == ds;
    }
  }

  /**
   A placed child keeps its side. A left child's block ends at the root's
   left edge minus the horizontal inset; a right child's block starts at
   the root's right edge plus it. With a non-negative inset and width the
   two sides never meet.
   */
  lemma HorizontalPlacement(root: Element, cfg: Config, x: real, y: real, i: nat, k: nat)
    requires AllPresent(root.children) && i < |root.children| && k < |root.children|
    requires PlannedAnchor(root, cfg, x, y, i).Some? && PlannedAnchor(root, cfg, x, y, k).Some?
    ensures var a := PlannedAnchor(root, cfg, x, y, i).value;
            var c := root.children[i].element;
            && a.leftSide == IsLeftDirection(c)
            && (a.leftSide ==> a.x + c.blockSize.width == x - InsetH(cfg))
            && (!a.leftSide ==> a.x == x + root.bounds.width + InsetH(cfg))
    ensures var a := PlannedAnchor(root, cfg, x, y, i).value;
            var b := PlannedAnchor(root, cfg, x, y, k).value;
            var c := root.children[i].element;
            InsetH(cfg) >= 0.0 && root.bounds.width >= 0.0 && a.leftSide && !b.leftSide ==>
              a.x + c.blockSize.width <= x <= x + root.bounds.width <= b.x
  {
  }

  /** The first child of a side starts at the top of the centred stack. */
  lemma FirstOfSide(root: Element, cfg: Config, x: real, y: real, f: nat)
    requires AllPresent(root.children) && f < |root.children|
    requires forall j :: 0 <= j < f ==> !OnSide(root.children, j, IsLeftDirection(root.children[f].element))
    requires PlannedAnchor(root, cfg, x, y, f).Some?
    ensures var left := IsLeftDirection(root.children[f].element);
            PlannedAnchor(root, cfg, x, y, f).value.y ==
              StackTop(StackHeight(SideBlocks(root.children, left), InsetV(cfg)), root.bounds.height, y)
  {
    OffsetBeforeFirst(root.children, f, IsLeftDirection(root.children[f].element), InsetV(cfg));
  }

  /**
   The next child of the same side is placed directly below: its top is the
   previous child's top plus that child's block height plus the vertical inset.
   */
  lemma NextOfSide(root: Element, cfg: Config, x: real, y: real, i: nat, k: nat)
    requires AllPresent(root.children) && i < k < |root.children|
    requires IsLeftDirection(root.children[i].element) == IsLeftDirection(root.children[k].element)
    requires forall j :: i < j < k ==> !OnSide(root.children, j, IsLeftDirection(root.children[i].element))
    requires PlannedAnchor(root, cfg, x, y, i).Some?
    ensures PlannedAnchor(root, cfg, x, y, k).Some?
    ensures PlannedAnchor(root, cfg, x, y, k).value.y ==
            PlannedAnchor(root, cfg, x, y, i).value.y + root.children[i].element.blockSize.height + InsetV(cfg)
  {
    OffsetSkipsOtherSide(root.children, i + 1, k, IsLeftDirection(root.children[i].element), InsetV(cfg));
  }

  /**
   With non-negative heights and inset, the vertical intervals of two
   children of one side do not overlap: the later one starts at least an
   inset below the end of the earlier one.
   */
  lemma NoOverlap(root: Element, cfg: Config, x: real, y: real, i: nat, k: nat)
    requires AllPresent(root.children) && i < k < |root.children|
    requires IsLeftDirection(root.children[i].element) == IsLeftDirection(root.children[k].element)
    requires InsetV(cfg) >= 0.0 && SideHeightsNonNegative(root.children, IsLeftDirection(root.children[i].element))
    requires PlannedAnchor(root, cfg, x, y, i).Some?
    ensures PlannedAnchor(root, cfg, x, y, k).Some?
    ensures PlannedAnchor(root, cfg, x, y, i).value.y + root.children[i].element.blockSize.height + InsetV(cfg) <=
            PlannedAnchor(root, cfg, x, y, k).value.y
  {
    OffsetMonotone(root.children, i + 1, k, IsLeftDirection(root.children[i].element), InsetV(cfg));
  }

  /**
   Each stack is centred on the root: the middle between the top of its
   first child and the bottom of its last child is the root's vertical centre.
   */
  lemma StackCentred(root: Element, cfg: Config, x: real, y: real, f: nat, l: nat)
    requires AllPresent(root.children) && f <= l < |root.children|
    requires IsLeftDirection(root.children[f].element) == IsLeftDirection(root.children[l].element)
    requires forall j :: 0 <= j < f ==> !OnSide(root.children, j, IsLeftDirection(root.children[f].element))
    requires forall j :: l < j < |root.children| ==> !OnSide(root.children, j, IsLeftDirection(root.children[f].element))
    requires PlannedAnchor(root, cfg, x, y, f).Some?
    ensures PlannedAnchor(root, cfg, x, y, l).Some?
    ensures (PlannedAnchor(root, cfg, x, y, f).value.y +
             PlannedAnchor(root, cfg, x, y, l).value.y + root.children[l].element.blockSize.height) / 2.0 ==
            y + root.bounds.height / 2.0
  {
    var left := IsLeftDirection(root.children[f].element);
    OffsetBeforeFirst(root.children, f, left, InsetV(cfg));
    LastEndsStack(root.children, l, left, InsetV(cfg));
  }

  /**
   With positive block heights and a non-negative vertical inset every
   child gets an anchor: each stack with a child has positive height.
   */
  lemma EveryChildPlaced(root: Element, cfg: Config, x: real, y: real)
    requires AllPresent(root.children) && InsetV(cfg) >= 0.0
    requires forall j :: 0 <= j < |root.children| ==> root.children[j].element.blockSize.height > 0.0
    ensures forall i :: 0 <= i < |root.children| ==> PlannedAnchor(root, cfg, x, y, i).Some?
  {
    var cs := root.children;
    forall i | 0 <= i < |cs|
      ensures PlannedAnchor(root, cfg, x, y, i).Some?
    {
      var left := IsLeftDirection(cs[i].element);
      assert SideHeightsNonNegative(cs, left);
      OffsetMonotone(cs, 0, i, left, InsetV(cfg));
      OffsetMonotone(cs, i + 1, |cs|, left, InsetV(cfg));
      StackOffsetIsOffset(cs, |cs|, left, InsetV(cfg));
      assert StackOffset(cs, |cs|, left, InsetV(cfg)) >= cs[i].element.blockSize.height + InsetV(cfg);
    }
  }

  /** A first-level child of the given size growing to the given side. */
  function Child(width: real, height: real, left: bool): Element {
    Element(Rect(0.0, 0.0, width, height), Dim(width, height), TextBlock(Rect(0.0, 0.0, 0.0, 0.0), LEFT),
            map[], Branch(Capabilities(true, true, true, false, true, left)), [])
  }

  /** A root of 80 x 30 with one 100 x 40 child on each side, the left one first. */
  function ExampleRoot(): Element {
    Element(Rect(0.0, 0.0, 80.0, 30.0), Dim(80.0, 30.0), TextBlock(Rect(0.0, 0.0, 0.0, 0.0), CENTER),
            map[], Root(Dim(0.0, 0.0), Dim(0.0, 0.0)),
            [Payload(Child(100.0, 40.0, true)), Payload(Child(100.0, 40.0, false))])
  }

  /** Scale 1, no text margin, vertical inset 10, horizontal inset 20. */
  const ExampleConfig: Config := Config(1.0, 0, 10.0, 20.0)

  /**
   Aligned at (x, y), the example root anchors its left child at
   (x - 120, y - 5) and its right child at (x + 100, y - 5).
   */
  lemma TwoChildLayout(x: real, y: real)
    ensures PlannedAnchor(ExampleRoot(), ExampleConfig, x, y, 0) == Some(Anchor(true, x - 120.0, y - 5.0))
    ensures PlannedAnchor(ExampleRoot(), ExampleConfig, x, y, 1) == Some(Anchor(false, x + 100.0, y - 5.0))
  {
    var cs := ExampleRoot().children;
    var block := Dim(100.0, 40.0);
    assert IsLeftDirection(cs[0].element) && !IsLeftDirection(cs[1].element);
    SideBlocksStep(cs, 0, true);
    SideBlocksStep(cs, 1, true);
    SideBlocksStep(cs, 0, false);
    SideBlocksStep(cs, 1, false);
    assert SideBlocks(cs, true) == [block];
    assert SideBlocks(cs, false) == [block];
    OffsetSnoc([], block, 10.0);
    assert [] + [block] == [block];
    assert StackOffset(cs, 0, true, 10.0) == 0.0;
    assert StackOffset(cs, 1, false, 10.0) == 0.0;
  }
}
