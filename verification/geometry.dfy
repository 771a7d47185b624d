/** Layout geometry of the clock face, the centre disc and the hands.

    Coordinates are those of the view: x grows to the right, y grows
    downwards, and a rectangle is an origin plus a size. Lengths are exact
    reals, an idealisation of the view's floating-point values.

    A hand is laid out upright, pointing at twelve o'clock, in a frame
    whose width is the hand's thickness and whose height is its length. Its
    anchor point, the point about which the later rotation turns, is given
    in unit coordinates of that frame. The layout is arranged so that the
    anchor falls on the centre of the view, `offset` points above the
    hand's bottom edge; so the hand overlaps the centre by `offset` and
    turns about the centre whatever its length or offset.
 */
module Geometry {

  datatype Option<T> = None | Some(value: T)

  datatype Point = Point(x: real, y: real)
  datatype Size = Size(width: real, height: real)
  datatype Rect = Rect(origin: Point, size: Size)

  /** A view frame with rounded corners; a square whose corner radius is half
      its side draws as a disc. */
  datatype RoundedRect = RoundedRect(frame: Rect, cornerRadius: real)

  /** A hand's style: length as a ratio of the face radius, thickness in
      points, and the distance by which it overlaps past the centre. */
  datatype HandStyle = HandStyle(lengthRatio: real, thickness: real, offset: real)

  /** Where a hand is placed: its anchor in unit coordinates of its frame,
      and its frame in the clock view's coordinates. */
  datatype HandLayout = HandLayout(anchor: Point, frame: Rect)

  function Min(a: real, b: real): real {
    if a <= b then a else b
  }

  /** The midpoint of a rectangle. */
  function Mid(r: Rect): Point {
    Point(r.origin.x + r.size.width / 2.0, r.origin.y + r.size.height / 2.0)
  }

  /** The diameter of the face: the shorter side of the bounds. */
  function FaceDiameter(bounds: Rect): real {
    Min(bounds.size.width, bounds.size.height)
  }

  predicate NonNegativeSize(r: Rect) {
    r.size.width >= 0.0 && r.size.height >= 0.0
  }

  /** `inner` lies inside `outer` (both with non-negative sizes). */
  predicate Within(inner: Rect, outer: Rect) {
    && outer.origin.x <= inner.origin.x
    && outer.origin.y <= inner.origin.y
    && inner.origin.x + inner.size.width <= outer.origin.x + outer.size.width
    && inner.origin.y + inner.size.height <= outer.origin.y + outer.size.height
  }

  /** The point of a frame that a unit anchor designates: where the layer
      sits and about which a rotation turns it. */
  function Pivot(h: HandLayout): Point {
    Point(h.frame.origin.x + h.anchor.x * h.frame.size.width,
          h.frame.origin.y + h.anchor.y * h.frame.size.height)
  }

  /** The hand's length: its ratio of the face radius. It is zero exactly
      when the ratio is zero or the face is empty, and a ratio in [0, 1]
      gives a hand no longer than the radius. */
  function HandLength(bounds: Rect, lengthRatio: real): (l: real)
    ensures l == 0.0 <==> lengthRatio == 0.0 || FaceDiameter(bounds) == 0.0
    ensures FaceDiameter(bounds) >= 0.0 && 0.0 <= lengthRatio <= 1.0
      ==> 0.0 <= l <= FaceDiameter(bounds) / 2.0
  {
    (FaceDiameter(bounds) / 2.0) * lengthRatio
  }

  /** The anchor of a hand. Its x is the middle of the hand's width; its y
      puts the anchor `offset` points above the hand's bottom edge. Swift
      divides by the hand length here, so a zero length is excluded. For a
      hand of positive length the anchor lies within the frame exactly when
      the offset is between zero and the hand's length. */
  function HandAnchor(bounds: Rect, style: HandStyle): (a: Point)
    requires HandLength(bounds, style.lengthRatio) != 0.0
    ensures a.x == 0.5
    ensures (1.0 - a.y) * HandLength(bounds, style.lengthRatio) == style.offset
    ensures HandLength(bounds, style.lengthRatio) > 0.0 ==>
      (0.0 <= a.y <= 1.0 <==> 0.0 <= style.offset <= HandLength(bounds, style.lengthRatio))
  {
    var l := HandLength(bounds, style.lengthRatio);
    AnchorWithinUnit(l, style.offset);
    Point(0.5, 1.0 - style.offset / l)
  }

  lemma AnchorWithinUnit(l: real, offset: real)
    requires l != 0.0
    ensures (offset / l) * l == offset
    ensures l > 0.0 ==> (0.0 <= 1.0 - offset / l <= 1.0 <==> 0.0 <= offset <= l)
  {
    if l > 0.0 {
      var q := offset / l;
      assert q * l == offset;
      if 0.0 <= q <= 1.0 {
        assert q * l <= 1.0 * l;
      }
      if 0.0 <= offset <= l {
        assert q * l <= 1.0 * l;
      }
    }
  }

  /** The hand's frame: as wide as the hand is thick and as tall as it is
      long, horizontally centred on the view, its bottom edge `offset`
      points below the view's centre. */
  function HandFrame(bounds: Rect, style: HandStyle): (f: Rect)
    ensures f.size == Size(style.thickness, HandLength(bounds, style.lengthRatio))
    ensures Mid(f).x == Mid(bounds).x
    ensures f.origin.y + f.size.height == Mid(bounds).y + style.offset
  {
    var l := HandLength(bounds, style.lengthRatio);
    var c := Mid(bounds);
    Rect(Point(c.x - style.thickness / 2.0, c.y - l + style.offset), Size(style.thickness, l))
  }

  /** The hand setup. A zero-length hand has no defined anchor (Swift's
      division yields a non-finite value there) and gives `None`; otherwise
      the hand's pivot is the centre of the view, whatever the hand's length,
      thickness or offset. */
  function SetupHand(bounds: Rect, style: HandStyle): (r: Option<HandLayout>)
    ensures r.None? <==> HandLength(bounds, style.lengthRatio) == 0.0
    ensures r.Some? ==> r.value.frame == HandFrame(bounds, style)
    ensures r.Some? ==> r.value.anchor.x == 0.5
    ensures r.Some? ==> Pivot(r.value) == Mid(bounds)
  {
    if HandLength(bounds, style.lengthRatio) == 0.0 then None
    else Some(HandLayout(HandAnchor(bounds, style), HandFrame(bounds, style)))
  }

  /** A hand of ratio at most one whose offset lies within its length
      reaches from `offset` below the pivot to at most the face radius above
      it; as a rotation keeps distances to the pivot, its tip stays on the
      face in every position. */
  lemma HandTipOnFace(bounds: Rect, style: HandStyle)
    requires FaceDiameter(bounds) > 0.0
    requires 0.0 < style.lengthRatio <= 1.0
    requires 0.0 <= style.offset <= HandLength(bounds, style.lengthRatio)
    ensures SetupHand(bounds, style).Some?
    ensures var h := SetupHand(bounds, style).value;
      && 0.0 <= h.anchor.y <= 1.0
      && 0.0 <= Pivot(h).y - h.frame.origin.y <= FaceDiameter(bounds) / 2.0
      && h.frame.origin.y + h.frame.size.height - Pivot(h).y == style.offset
  {
  }

  /** The face: a square whose side is the face diameter, centred in the
      bounds, with a corner radius of half the side, so a disc. When the
      bounds have a non-negative size the face lies inside them. */
  function FaceLayout(bounds: Rect): (f: RoundedRect)
    ensures f.frame.size.width == FaceDiameter(bounds)
    ensures f.frame.size.height == FaceDiameter(bounds)
    ensures Mid(f.frame) == Mid(bounds)
    ensures 2.0 * f.cornerRadius == f.frame.size.width
    ensures NonNegativeSize(bounds) ==> Within(f.frame, bounds)
  {
    var d := FaceDiameter(bounds);
    var c := Mid(bounds);
    RoundedRect(Rect(Point(c.x - d / 2.0, c.y - d / 2.0), Size(d, d)), d / 2.0)
  }

  /** The centre disc: a square of side twice the centre radius, centred in
      the bounds, with the centre radius as corner radius, so a disc of that
      radius. */
  function CenterDiscLayout(bounds: Rect, centerRadius: real): (c: RoundedRect)
    ensures c.frame.size == Size(2.0 * centerRadius, 2.0 * centerRadius)
    ensures Mid(c.frame) == Mid(bounds)
    ensures c.cornerRadius == centerRadius
    ensures 2.0 * c.cornerRadius == c.frame.size.width
  {
    var m := Mid(bounds);
    RoundedRect(Rect(Point(m.x - centerRadius, m.y - centerRadius),
                     Size(2.0 * centerRadius, 2.0 * centerRadius)), centerRadius)
  }

  /** A centre disc no wider than the face lies on the face. */
  lemma CenterDiscOnFace(bounds: Rect, centerRadius: real)
    requires 0.0 <= 2.0 * centerRadius <= FaceDiameter(bounds)
    ensures Within(CenterDiscLayout(bounds, centerRadius).frame, FaceLayout(bounds).frame)
  {
  }
}
