/** Integer geometry of the playground that moveNoButton works on
    (assets/js/app.js): the range the No button may be placed in, the safe
    zone around the Yes button, and the overlap test between the two.
    Every coordinate is relative to the playground's top-left corner and
    already rounded to an integer. */
module Geometry {

  /** Gap kept between the No button and the playground's edges. */
  const EdgePadding: int := 12

  /** How far the safe zone extends beyond the Yes button on every side. */
  const SafePadding: int := 30

  /** What moveNoButton reads from the page on each call: the playground's
      size, the No button's size (rounded up) and the Yes button's box,
      translated into playground coordinates. */
  datatype Layout = Layout(
    width: nat, height: nat,
    noW: nat, noH: nat,
    yesLeft: int, yesTop: int, yesW: nat, yesH: nat)

  /** An axis-aligned box given by its four edges; points on the edges
      belong to the box. */
  datatype Box = Box(left: int, top: int, right: int, bottom: int)
  {
    predicate WellFormed() { left <= right && top <= bottom }

    predicate Contains(px: int, py: int) {
      left <= px <= right && top <= py <= bottom
    }
  }

  /** The inclusive range of top-left corners the No button may take. */
  datatype Bounds = Bounds(minX: int, minY: int, maxX: int, maxY: int)
  {
    predicate Contains(x: int, y: int) {
      minX <= x <= maxX && minY <= y <= maxY
    }
  }

  function Max(a: int, b: int): int { if a >= b then a else b }

  function Min(a: int, b: int): int { if a <= b then a else b }

  /** The padded placement range. It is never empty: when the playground is
      too small for the button plus both paddings it collapses onto the
      padding itself; otherwise the button's far edge ends exactly one
      padding short of the playground's far edge. */
  function PlacementBounds(l: Layout): (b: Bounds)
    ensures b.minX == EdgePadding && b.minY == EdgePadding
    ensures b.minX <= b.maxX && b.minY <= b.maxY
    ensures l.width >= l.noW + 2 * EdgePadding ==> b.maxX + l.noW + EdgePadding == l.width
    ensures l.width < l.noW + 2 * EdgePadding ==> b.maxX == b.minX
    ensures l.height >= l.noH + 2 * EdgePadding ==> b.maxY + l.noH + EdgePadding == l.height
    ensures l.height < l.noH + 2 * EdgePadding ==> b.maxY == b.minY
  {
    Bounds(EdgePadding, EdgePadding,
           Max(EdgePadding, l.width - l.noW - EdgePadding),
           Max(EdgePadding, l.height - l.noH - EdgePadding))
  }

  /** When the button fits with both paddings, every corner in the range
      keeps the whole button inside the padded playground. */
  lemma InBoundsStaysInside(l: Layout, x: int, y: int)
    requires l.width >= l.noW + 2 * EdgePadding && l.height >= l.noH + 2 * EdgePadding
    requires PlacementBounds(l).Contains(x, y)
    ensures EdgePadding <= x && x + l.noW + EdgePadding <= l.width
    ensures EdgePadding <= y && y + l.noH + EdgePadding <= l.height
  {
  }

  /** The playground as a box. */
  function Playground(l: Layout): Box {
    Box(0, 0, l.width, l.height)
  }

  /** The Yes button's box, grown by SafePadding on every side. */
  function PaddedYes(l: Layout): Box {
    Box(l.yesLeft - SafePadding, l.yesTop - SafePadding,
        l.yesLeft + l.yesW + SafePadding, l.yesTop + l.yesH + SafePadding)
  }

  /** The safe zone: the padded Yes box with each edge clamped into the
      playground. Its points are exactly the points of the padded Yes box
      that lie in the playground. */
  function SafeZone(l: Layout): (z: Box)
    ensures z.left >= 0 && z.top >= 0 && z.right <= l.width && z.bottom <= l.height
    ensures forall px, py :: z.Contains(px, py) <==>
              PaddedYes(l).Contains(px, py) && Playground(l).Contains(px, py)
  {
    Box(Max(0, l.yesLeft - SafePadding), Max(0, l.yesTop - SafePadding),
        Min(l.width, l.yesLeft + l.yesW + SafePadding),
        Min(l.height, l.yesTop + l.yesH + SafePadding))
  }

  /** A Yes button that lies inside the playground gets a well-formed safe
      zone that covers the whole button. */
  lemma SafeZoneCoversYes(l: Layout, px: int, py: int)
    requires 0 <= l.yesLeft && l.yesLeft + l.yesW <= l.width
    requires 0 <= l.yesTop && l.yesTop + l.yesH <= l.height
    requires l.yesLeft <= px <= l.yesLeft + l.yesW && l.yesTop <= py <= l.yesTop + l.yesH
    ensures SafeZone(l).WellFormed()
    ensures SafeZone(l).Contains(px, py)
  {
  }

  /** The box the No button covers with its top-left corner at (x, y). */
  function NoBox(l: Layout, x: int, y: int): Box {
    Box(x, y, x + l.noW, y + l.noH)
  }

  /** The four strict separation tests: an edge equal to the other box's
      opposite edge does not separate. */
  predicate Separated(a: Box, b: Box)
    ensures a.WellFormed() && b.WellFormed() ==>
              (!Separated(a, b) <==>
                 a.Contains(Max(a.left, b.left), Max(a.top, b.top)) &&
                 b.Contains(Max(a.left, b.left), Max(a.top, b.top)))
  {
    a.right < b.left || a.left > b.right || a.bottom < b.top || a.top > b.bottom
  }

  /** intersectsSafeZone: the No button at (x, y) is not separated from the
      zone. For a well-formed zone this is closed-box overlap, witnessed by
      the point at the larger left edge and the larger top edge. */
  predicate IntersectsSafeZone(l: Layout, zone: Box, x: int, y: int)
    ensures zone.WellFormed() ==>
              (IntersectsSafeZone(l, zone, x, y) <==>
                 NoBox(l, x, y).Contains(Max(x, zone.left), Max(y, zone.top)) &&
                 zone.Contains(Max(x, zone.left), Max(y, zone.top)))
  {
    !Separated(NoBox(l, x, y), zone)
  }

  lemma SeparatedSymmetric(a: Box, b: Box)
    ensures Separated(a, b) == Separated(b, a)
  {
  }

  /** Two well-formed boxes that are not separated share a point: the one
      at the larger of their left edges and the larger of their top edges. */
  lemma OverlapHasCommonPoint(a: Box, b: Box)
    requires a.WellFormed() && b.WellFormed()
    requires !Separated(a, b)
    ensures a.Contains(Max(a.left, b.left), Max(a.top, b.top))
    ensures b.Contains(Max(a.left, b.left), Max(a.top, b.top))
  {
  }

  /** Conversely, boxes that share a point are not separated. */
  lemma CommonPointOverlaps(a: Box, b: Box, px: int, py: int)
    requires a.Contains(px, py) && b.Contains(px, py)
    ensures !Separated(a, b)
  {
  }

  /** A No button whose right edge lies exactly on the zone's left edge,
      level with the zone, counts as intersecting it. */
  lemma EdgeContactIntersects(l: Layout, zone: Box, x: int, y: int)
    requires zone.WellFormed()
    requires x + l.noW == zone.left
    requires zone.top <= y <= zone.bottom
    ensures IntersectsSafeZone(l, zone, x, y)
  {
  }

  /** A 1000x700 playground with a 120x50 No button and a 120x50 Yes
      button at (440, 325): the range and the safe zone it yields, and a
      No button at (50, 20) that stays clear of the zone. */
  lemma ScenarioCentredYes()
    ensures PlacementBounds(Layout(1000, 700, 120, 50, 440, 325, 120, 50)) == Bounds(12, 12, 868, 638)
    ensures SafeZone(Layout(1000, 700, 120, 50, 440, 325, 120, 50)) == Box(410, 295, 590, 405)
    ensures !IntersectsSafeZone(Layout(1000, 700, 120, 50, 440, 325, 120, 50), Box(410, 295, 590, 405), 50, 20)
    ensures IntersectsSafeZone(Layout(1000, 700, 120, 50, 440, 325, 120, 50), Box(410, 295, 590, 405), 290, 300)
  {
  }
}
