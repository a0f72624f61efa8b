/**
 The contract shared by every layout element of a mind map: the element
 tree, moving an element, text alignment and point hit-testing.

 A layout element and the topic it is attached to are modelled as one
 value. The children of an element are the payload slots of its topic's
 children, in topic order; a slot may be empty (a `null` payload).
 */
module AbstractElement {

  import opened Wrappers
  import opened Geometry

  /** Horizontal alignment of an element's label. */
  datatype TextAlign = LEFT | CENTER | RIGHT

  /** Which part of an element a point hits. */
  datatype ElementPart = NONE | AREA | TEXT

  /**
   The label of an element: its measured rectangle, relative to the
   element's origin, and its alignment. The rectangle's origin is the
   offset at which the label is drawn inside the element.
   */
  datatype TextBlock = TextBlock(bounds: Rect, align: TextAlign)

  /** Places the label at an offset from the element's origin; its size and alignment stay. */
  function SetCoordOffset(t: TextBlock, dx: int, dy: int): (r: TextBlock)
    ensures r.bounds.x == dx as real && r.bounds.y == dy as real
    ensures r.bounds.width == t.bounds.width && r.bounds.height == t.bounds.height
    ensures r.align == t.align
  {
    t.(bounds := t.bounds.(x := dx as real, y := dy as real))
  }

  /**
   What the variants not modelled here answer about themselves: the first
   level and deeper branches read these from their topic's attributes.
   */
  datatype Capabilities = Capabilities(
    moveable: bool,
    focusable: bool,
    removable: bool,
    collapsed: bool,
    hasDirection: bool,
    leftDirection: bool)

  /**
   The variant of an element. The root also keeps the aggregate block sizes
   of its left-growing and right-growing children.
   */
  datatype Kind =
    | Root(leftBlockSize: Dim, rightBlockSize: Dim)
    | Branch(caps: Capabilities)

  datatype Element = Element(
    bounds: Rect,
    blockSize: Dim,
    text: TextBlock,
    attributes: map<string, string>,
    kind: Kind,
    children: seq<Slot>)

  /** The payload slot of a child topic. */
  datatype Slot = Empty | Payload(element: Element)

  /** The attribute of a topic that persists the label alignment. */
  const AlignAttribute: string := "align"

  /** The constant name of an alignment, as Java's `Enum.name()`. */
  function AlignName(a: TextAlign): string {
    match a
    case LEFT => "LEFT"
    case CENTER => "CENTER"
    case RIGHT => "RIGHT"
  }

  /** Different alignments have different names, so the stored name determines the alignment. */
  lemma AlignNameInjective(a: TextAlign, b: TextAlign)
    ensures AlignName(a) == AlignName(b) <==> a == b
  {
  }

  /**
   The capability queries. The root answers constants: never moveable,
   removable or collapsed, always focusable and direction-bearing; it does
   not override the default left direction, which is false. The other
   variants answer what their topic says.
   */
  function Caps(e: Element): (c: Capabilities)
    ensures e.kind.Root? ==>
              && !c.moveable && c.focusable && !c.removable && !c.collapsed
              && c.hasDirection && !c.leftDirection
    ensures e.kind.Branch? ==> c == e.kind.caps
  {
    match e.kind
    case Root(_, _) => Capabilities(false, true, false, false, true, false)
    case Branch(caps) => caps
  }

  function IsLeftDirection(e: Element): bool {
    Caps(e).leftDirection
  }

  /** The root always bears a direction and, keeping the default, grows to the right. */
  lemma RootHasDirection(e: Element)
    requires e.kind.Root?
    ensures Caps(e).hasDirection && !IsLeftDirection(e)
  {
  }

  /** Moves the origin of the element's bounds; its size and everything else stay. */
  function MoveTo(e: Element, x: real, y: real): (r: Element)
    ensures r.bounds.x == x && r.bounds.y == y
    ensures r.bounds.width == e.bounds.width && r.bounds.height == e.bounds.height
    ensures r.blockSize == e.blockSize && r.text == e.text && r.attributes == e.attributes
    ensures r.kind == e.kind && r.children == e.children
  {
    e.(bounds := Rect(x, y, e.bounds.width, e.bounds.height))
  }

  /** Moving twice is moving once to the last target. */
  lemma MoveToLastWins(e: Element, x1: real, y1: real, x2: real, y2: real)
    ensures MoveTo(MoveTo(e, x1, y1), x2, y2) == MoveTo(e, x2, y2)
  {
  }

  /** Moving an element to its own origin changes nothing. */
  lemma MoveToOwnOrigin(e: Element)
    ensures MoveTo(e, e.bounds.x, e.bounds.y) == e
  {
  }

  function GetTextAlign(e: Element): TextAlign {
    e.text.align
  }

  /**
   Sets the label alignment and persists its name in the topic's `align`
   attribute; no other attribute and nothing else of the element changes.
   */
  function SetTextAlign(e: Element, a: TextAlign): (r: Element)
    ensures GetTextAlign(r) == a
    ensures AlignAttribute in r.attributes && r.attributes[AlignAttribute] == AlignName(a)
    ensures forall k :: k != AlignAttribute ==>
              (k in r.attributes <==> k in e.attributes) &&
              (k in e.attributes ==> r.attributes[k] == e.attributes[k])
    ensures r.bounds == e.bounds && r.blockSize == e.blockSize && r.kind == e.kind
    ensures r.children == e.children
    ensures r.text.bounds == e.text.bounds
  {
    e.(text := e.text.(align := a), attributes := e.attributes[AlignAttribute := AlignName(a)])
  }

  /**
   After setting an alignment, the stored attribute and the queried alignment
   agree, and exactly one alignment has the stored name.
   */
  lemma SetTextAlignRoundTrip(e: Element, a: TextAlign, b: TextAlign)
    ensures var r := SetTextAlign(e, a);
            AlignName(b) == r.attributes[AlignAttribute] <==> b == GetTextAlign(r)
    ensures SetTextAlign(SetTextAlign(e, b), a) == SetTextAlign(e, a)
  {
    var r := SetTextAlign(e, a);
    AlignNameInjective(a, b);
    assert r.attributes[AlignAttribute] == AlignName(a);
  }

  /** Stores a freshly calculated block size; nothing else changes. */
  function UpdateBlockSize(e: Element, calculated: Dim): (r: Element)
    ensures r.blockSize == calculated
    ensures r.bounds == e.bounds && r.text == e.text && r.attributes == e.attributes
    ensures r.kind == e.kind && r.children == e.children
  {
    e.(blockSize := calculated)
  }

  /**
   Classifies the part of the element a point hits. The label rectangle is
   relative to the element's origin, so the point is translated by the
   negated origin before it is compared with the label.
   */
  function FindPartForPoint(e: Element, p: Point): (r: ElementPart)
    ensures r == NONE <==> !Contains(e.bounds, p)
    ensures r == TEXT <==>
              Contains(e.bounds, p) &&
              ContainsXY(e.text.bounds, p.x as real - e.bounds.x, p.y as real - e.bounds.y)
    ensures r == AREA <==>
              Contains(e.bounds, p) &&
              !ContainsXY(e.text.bounds, p.x as real - e.bounds.x, p.y as real - e.bounds.y)
  {
    if !Contains(e.bounds, p) then NONE
    else if ContainsXY(e.text.bounds, p.x as real - e.bounds.x, p.y as real - e.bounds.y) then TEXT
    else AREA
  }

  /**
   Point lookup. A missing point finds nothing; otherwise the search of
   `Search` below.
   */
  function FindForPoint(e: Element, point: Option<Point>): (r: Option<Element>)
    ensures point.None? ==> r.None?
    ensures r.Some? ==> point.Some? && Contains(r.value.bounds, point.value)
  {
    match point
    case None => None
    case Some(p) => Search(e, p)
  }

  /**
   The element itself when its own bounds contain the point, without looking
   at its children; otherwise the first hit among the children, in order.
   Bounds of an element that miss the point do not stop the search of its
   children.
   */
  function Search(e: Element, p: Point): (r: Option<Element>)
    ensures r.Some? ==> Contains(r.value.bounds, p)
    decreases e, 1
  {
    if Contains(e.bounds, p) then Some(e) else SearchChildren(e, 0, p)
  }

  /** The first hit among the children from index `i` on; empty slots are skipped. */
  function SearchChildren(e: Element, i: nat, p: Point): (r: Option<Element>)
    requires i <= |e.children|
    ensures r.Some? ==> Contains(r.value.bounds, p)
    decreases e, 0, |e.children| - i
  {
    if i == |e.children| then None
    else
      match e.children[i]
      case Empty => SearchChildren(e, i + 1, p)
      case Payload(c) =>
        var found := Search(c, p);
        if found.Some? then found else SearchChildren(e, i + 1, p)
  }

  /** The elements of a subtree in pre-order: an element before its children, children in order. */
  function PreOrder(e: Element): (s: seq<Element>)
    ensures |s| >= 1 && s[0] == e
    decreases e, 1
  {
    [e] + PreOrderChildren(e, 0)
  }

  function PreOrderChildren(e: Element, i: nat): seq<Element>
    requires i <= |e.children|
    decreases e, 0, |e.children| - i
  {
    if i == |e.children| then []
    else
      match e.children[i]
      case Empty => PreOrderChildren(e, i + 1)
      case Payload(c) => PreOrder(c) + PreOrderChildren(e, i + 1)
  }

  /** The first element of a sequence whose bounds contain the point. */
  function FirstContaining(s: seq<Element>, p: Point): (r: Option<Element>)
    ensures r.None? <==> forall k :: 0 <= k < |s| ==> !Contains(s[k].bounds, p)
    ensures r.Some? ==>
              exists k :: 0 <= k < |s| && s[k] == r.value && Contains(s[k].bounds, p) &&
                          forall j :: 0 <= j < k ==> !Contains(s[j].bounds, p)
  {
    if |s| == 0 then None
    else if Contains(s[0].bounds, p) then Some(s[0])
    else
      var r := FirstContaining(s[1..], p);
      if r.Some? then
        var k :| 0 <= k < |s[1..]| && s[1..][k] == r.value && Contains(s[1..][k].bounds, p) &&
                 forall j :: 0 <= j < k ==> !Contains(s[1..][j].bounds, p);
        assert s[k + 1] == r.value;
        r
      else
        r
  }

  lemma {:induction false} FirstContainingAppend(s: seq<Element>, t: seq<Element>, p: Point)
    ensures FirstContaining(s + t, p) ==
            (if FirstContaining(s, p).Some? then FirstContaining(s, p) else FirstContaining(t, p))
  {
    if |s| == 0 {
      assert s + t == t;
    } else {
      assert (s + t)[1..] == s[1..] + t;
      FirstContainingAppend(s[1..], t, p);
    }
  }

  /**
   The lookup returns the first element of the subtree, in pre-order, whose
   bounds contain the point: the outermost hit, not the deepest one.
   */
  lemma {:induction false} SearchIsFirstInPreOrder(e: Element, p: Point)
    ensures Search(e, p) == FirstContaining(PreOrder(e), p)
    decreases e, 1
  {
    var s := PreOrder(e);
    assert s == [e] + PreOrderChildren(e, 0);
    if !Contains(e.bounds, p) {
      assert s[1..] == PreOrderChildren(e, 0);
      SearchChildrenIsFirstInPreOrder(e, 0, p);
    }
  }

  lemma {:induction false} SearchChildrenIsFirstInPreOrder(e: Element, i: nat, p: Point)
    requires i <= |e.children|
    ensures SearchChildren(e, i, p) == FirstContaining(PreOrderChildren(e, i), p)
    decreases e, 0, |e.children| - i
  {
    if i < |e.children| {
      match e.children[i]
      case Empty =>
        SearchChildrenIsFirstInPreOrder(e, i + 1, p);
      case Payload(c) =>
        SearchIsFirstInPreOrder(c, p);
        SearchChildrenIsFirstInPreOrder(e, i + 1, p);
        FirstContainingAppend(PreOrder(c), PreOrderChildren(e, i + 1), p);
    }
  }

  /**
   Lookup finds nothing exactly when no element of the subtree contains the
   point; what it finds is an element of the subtree containing the point,
   and every element before it in pre-order misses the point.
   */
  lemma FindForPointCharacterized(e: Element, p: Point)
    ensures FindForPoint(e, Some(p)).None? <==>
              forall k :: 0 <= k < |PreOrder(e)| ==> !Contains(PreOrder(e)[k].bounds, p)
    ensures FindForPoint(e, Some(p)).Some? ==>
              exists k :: 0 <= k < |PreOrder(e)| && PreOrder(e)[k] == FindForPoint(e, Some(p)).value &&
                          forall j :: 0 <= j < k ==> !Contains(PreOrder(e)[j].bounds, p)
  {
    SearchIsFirstInPreOrder(e, p);
  }

  /** An element whose bounds contain the point wins over all its descendants. */
  lemma AncestorWins(e: Element, p: Point)
    requires Contains(e.bounds, p)
    ensures FindForPoint(e, Some(p)) == Some(e)
  {
  }

  /**
   The search is not pruned: when the element misses the point, a hit in
   its first present child is found even if that child lies outside it.
   */
  lemma NoPruning(e: Element, c: Element, p: Point)
    requires !Contains(e.bounds, p)
    requires |e.children| >= 1 && e.children[0] == Payload(c)
    requires Contains(c.bounds, p)
    ensures FindForPoint(e, Some(p)) == Some(c)
  {
    assert Search(c, p) == Some(c);
    assert SearchChildren(e, 0, p) == Some(c);
  }

  /**
   The two point queries agree about the element itself: it is found exactly
   when its part is not NONE; otherwise the lookup is its children's.
   */
  lemma PartAgreesWithLookup(e: Element, p: Point)
    ensures FindPartForPoint(e, p) != NONE ==> FindForPoint(e, Some(p)) == Some(e)
    ensures FindPartForPoint(e, p) == NONE ==> FindForPoint(e, Some(p)) == SearchChildren(e, 0, p)
  {
  }
}
