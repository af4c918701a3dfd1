# Evasive "No" button: a Dafny model

This project models the script of a single-page "proposal" game. The page
asks a yes/no question. Whenever the pointer enters the "No" button, the
button jumps to a random spot in the playground that avoids a safe zone
around the "Yes" button, and a teasing line is shown. "Yes" reveals a
success view, and "again" resets the game. A page that does not look like a
desktop shows a fallback ("mobile") view instead.

The model is split into five modules:

- `Geometry` (geometry.dfy) covers integer rectangles. It holds the padded
  placement range, the safe zone clamped to the playground, and the strict
  separation test `intersectsSafeZone`.
- `RandomDraws` (draws.dfy) stands in for `Math.random()`. Each result is a
  real number in [0, 1), and `Pick` turns it into an integer of a range:
  `floor(r * (hi - lo + 1)) + lo`.
- `Sampler` (sampler.dfy) is the retry search of `moveNoButton`. `Place` is
  the imperative loop: at most 25 attempts, `break` on the first candidate
  that clears the safe zone, otherwise the last candidate. It is proved equal
  to the function `Placement`, which is defined through `FirstFit`, the index
  of the first fitting attempt or of the last attempt.
- `Tease` (tease.dfy) chooses the tease text on each hover. `TeaseAfter`
  gives the text after n hovers since a reset.
- `App` (session.dfy) holds `isProbablyDesktop` and the class `Session`. The
  class carries the per-view `hidden` flags, `noHoverCount`, the tease text,
  the No button's position, and whether the handlers were installed. It has
  one method per handler. Its invariant `Valid()` says four things:
  - exactly one view is not hidden;
  - an installed game with no hovers shows no text;
  - after the first hover the text is one of the five lines;
  - a placed button sits at least 12 units from the top-left edges.

Layout values (playground size, button sizes, the Yes button's offset) are
integer parameters of each call, read fresh on every event as the script
does. The random numbers are parameters too: one real per hover for the tease
redraw, and one pair per attempt for the placement.

Some facts about the script that the model keeps:

- The separation tests at assets/js/app.js:84-85 are strict. A No button
  touching the zone's edge therefore counts as intersecting it
  (`EdgeContactIntersects`).
- The script keeps no minimum distance from the previous position, no
  history against repeated lines, and no second pool of lines.
- The clamping at assets/js/app.js:71-76 does not keep the safe zone from
  being inverted. The zone is well formed when the Yes button lies inside
  the playground (`SafeZoneCoversYes`).
- The resize handler at assets/js/app.js:175-186 never leaves the fallback
  view again. `Resize` states this.

## Model

| member | source | states |
|---|---|---|
| Geometry.PlacementBounds | assets/js/app.js:59-64 | minX = minY = 12. The range is never empty. When the button fits with both paddings, its far edge ends 12 short of the playground's edge; otherwise the range collapses to 12. |
| Geometry.InBoundsStaysInside | assets/js/app.js:59-64 | When the playground fits the button plus both paddings, every corner in the range keeps the whole button inside the padded playground. |
| Geometry.SafeZone | assets/js/app.js:66-76 | The zone is clamped: left, top >= 0, right <= width, bottom <= height. Its points are exactly the points of the Yes box grown by 30 that lie inside the playground. |
| Geometry.SafeZoneCoversYes | assets/js/app.js:66-76 | For a Yes button inside the playground, the zone is well formed and contains every point of the button. |
| Geometry.Separated | assets/js/app.js:84-85 | The four strict separation tests. For well-formed boxes, not being separated is the same as sharing the point at the larger left edge and the larger top edge. |
| Geometry.IntersectsSafeZone | assets/js/app.js:78-88 | The No button at (x, y) is not separated from the zone by any of the four strict tests. For a well-formed zone, it intersects exactly when the two boxes share a closed point. |
| Geometry.SeparatedSymmetric | assets/js/app.js:84-85 | The separation test does not depend on which box comes first. |
| Geometry.OverlapHasCommonPoint | assets/js/app.js:78-88 | Two well-formed boxes that are not separated share a point, at their larger left edge and larger top edge. |
| Geometry.CommonPointOverlaps | assets/js/app.js:78-88 | Boxes that share a point are not separated. With OverlapHasCommonPoint, intersection is exactly closed-box overlap. |
| Geometry.EdgeContactIntersects | assets/js/app.js:84-87 | A No button whose right edge equals the zone's left edge, level with the zone, counts as intersecting. |
| Geometry.ScenarioCentredYes | assets/js/app.js:59-88 | Layout 1000x700 with 120x50 buttons and Yes at (440,325): range [12,868]x[12,638], zone (410,295)-(590,405). (50,20) is clear; (290,300) touches the zone and intersects. |
| RandomDraws.Pick | assets/js/app.js:96-97 | For r in [0,1) and lo <= hi, floor(r*(hi-lo+1))+lo lies in [lo, hi]. |
| RandomDraws.PickReaches | assets/js/app.js:96-97 | Every integer of [lo, hi] is produced by some r in [0,1). |
| Sampler.Candidate | assets/js/app.js:95-97 | Every attempt's candidate lies in the placement range. |
| Sampler.FirstFit | assets/js/app.js:94-108 | The chosen attempt k is below 25. Every attempt before k fails. Attempt k fits, or k is the 25th attempt. |
| Sampler.Placement | assets/js/app.js:90-108 | The returned corner lies in [minX,maxX]x[minY,maxY]. |
| Sampler.PlacementTakesFirstFit | assets/js/app.js:99-103 | If attempt k is the first that clears the safe zone, the result is attempt k's candidate. |
| Sampler.PlacementFallback | assets/js/app.js:105-108 | If none of the 25 attempts clears the safe zone, the result is the 25th candidate. |
| Sampler.PlacementAvoidsWhenPossible | assets/js/app.js:94-108 | If any of the 25 candidates clears the safe zone, the result clears it. |
| Sampler.Place | assets/js/app.js:90-108 | The loop, with at most 25 iterations and a break on the first fit, returns exactly Placement(layout, draws). |
| Tease.NextTease | assets/js/app.js:163-169 | Counts 1..5 show line count-1. Above 5, a multiple of 3 shows some tease line, and any other count keeps the text. |
| Tease.TeaseAfter | assets/js/app.js:162-170 | The text after n hovers since a reset, applying the handler hover by hover from "". It is empty exactly when n is 0. |
| Tease.TeaseAfterOnboarding | assets/js/app.js:162-170 | The first five hovers after a reset show the five lines in order, whatever the random numbers. |
| Tease.TeaseAfterIsLine | assets/js/app.js:162-170 | After at least one hover since a reset, the text is one of the tease lines. |
| Tease.TeaseAfterLatestRedraw | assets/js/app.js:167-168 | After n > 5 hovers, the text is the line drawn at the latest multiple of 3, which is itself above 5. |
| App.IsProbablyDesktop | assets/js/app.js:8-13 | True exactly when there is hover support, a fine pointer, and an inner width of at least 820. |
| App.NoHoverNoDesktop | assets/js/app.js:8-13 | Without hover support the page is never a desktop, whatever the width. |
| App.NarrowNoDesktop | assets/js/app.js:8-13 | An inner width below 820 is never a desktop. |
| App.WiderStaysDesktop | assets/js/app.js:8-13 | Widening a desktop window keeps it a desktop. |
| App.Session.constructor | assets/js/app.js:141-152 | On a desktop: question view, zero hovers, empty text, the centred No button, handlers installed. Otherwise: fallback view, the page's own text, no handlers. |
| App.Session.SetView | assets/js/app.js:42-45 | Every view gets a hidden flag, and exactly the view passed in is not hidden. |
| App.Session.ResetGame | assets/js/app.js:116-125 | Zero hovers, empty text, the No button at its centred default, question view. The invariant is re-established. |
| App.Session.MoveNoButton | assets/js/app.js:51-114 | The No button's new position is Placement(layout, draws), nothing else changes, and the invariant is kept. |
| App.Session.ClickYes | assets/js/app.js:153-155 | With handlers installed, the success view; counters, text and position are unchanged. |
| App.Session.ClickAgain | assets/js/app.js:157-159 | With handlers installed, the state after resetGame; otherwise nothing changes. |
| App.Session.HoverNo | assets/js/app.js:162-172 | The hover count goes up by exactly 1. The text becomes NextTease of the new count. The button moves to Placement. Views are untouched. |
| App.Session.Resize | assets/js/app.js:175-186 | Not a desktop: fallback view. Desktop: the button is re-placed only while the question view shows. The fallback view is never left. |

## Left out

- Element lookup and the early return when an element is missing (assets/js/app.js:15-30): every element is assumed present.
- `getBoundingClientRect`, `matchMedia` and `window.innerWidth`: their results are parameters. `Layout` holds the rectangles already rounded to integers, and `Capabilities` holds the two media-query answers and the width.
- Floating point: the `Math.floor`/`Math.ceil` on fractional rectangle sizes, and the rounding of `Math.random() * n` in binary floating point. Draws are exact reals in [0, 1).
- The deferred `requestAnimationFrame` placement at 62% of the playground in resetGame (assets/js/app.js:128-138). The model keeps the button at `Centered`, the 60%/60% spot written just before it.
- The CSS `transition` strings (assets/js/app.js:111). `Centered` stands for `left/top = 60%` together with the `translate(-50%, -50%)` transform of assets/js/app.js:121-123, so it places the button's centre, not its corner, at 60%/60%.
- App.Session.HoverNo: it does not check which view is showing, and neither does the script. The browser only sends the event while the No button is visible, and that delivery is not modelled.
- assets/js/config.js is not part of this model. It holds static data that the script never reads.
