/** moveNoButton's search for a new spot (assets/js/app.js): up to Tries
    random corners in the placement range; the first one whose button
    clears the safe zone wins, and if none does, the last one is kept. */
module Sampler {
  import opened Geometry
  import opened RandomDraws

  /** Number of attempts before the last candidate is accepted anyway. */
  const Tries: nat := 25

  /** The two Math.random() results one attempt consumes, x first. */
  datatype Draw = Draw(rx: real, ry: real)

  datatype Point = Point(x: int, y: int)

  /** The random numbers available to one call: enough for every attempt,
      each a possible Math.random() result. */
  predicate ValidDraws(draws: seq<Draw>) {
    Tries <= |draws| &&
    forall i :: 0 <= i < |draws| ==> Unit(draws[i].rx) && Unit(draws[i].ry)
  }

  /** The corner one attempt proposes; it always lies in the range. */
  function Candidate(l: Layout, d: Draw): (c: Point)
    requires Unit(d.rx) && Unit(d.ry)
    ensures PlacementBounds(l).Contains(c.x, c.y)
  {
    var b := PlacementBounds(l);
    Point(Pick(d.rx, b.minX, b.maxX), Pick(d.ry, b.minY, b.maxY))
  }

  /** Attempt k proposes a corner whose button clears the safe zone. */
  predicate Fits(l: Layout, draws: seq<Draw>, k: nat)
    requires ValidDraws(draws) && k < Tries
  {
    var c := Candidate(l, draws[k]);
    !IntersectsSafeZone(l, SafeZone(l), c.x, c.y)
  }

  /** The attempt whose candidate is taken when the search starts at
      attempt i: the first fitting one from i on, or the last attempt. */
  function FirstFit(l: Layout, draws: seq<Draw>, i: nat): (k: nat)
    requires ValidDraws(draws) && i < Tries
    ensures i <= k < Tries
    ensures Fits(l, draws, k) || k == Tries - 1
    ensures forall j :: i <= j < k ==> !Fits(l, draws, j)
    decreases Tries - i
  {
    if Fits(l, draws, i) || i == Tries - 1 then i else FirstFit(l, draws, i + 1)
  }

  /** Where moveNoButton puts the No button. */
  function Placement(l: Layout, draws: seq<Draw>): (p: Point)
    requires ValidDraws(draws)
    ensures PlacementBounds(l).Contains(p.x, p.y)
  {
    Candidate(l, draws[FirstFit(l, draws, 0)])
  }

  /** First acceptance: if attempt k is the first to fit, its candidate is
      the placement. */
  lemma PlacementTakesFirstFit(l: Layout, draws: seq<Draw>, k: nat)
    requires ValidDraws(draws) && k < Tries
    requires Fits(l, draws, k)
    requires forall j :: 0 <= j < k ==> !Fits(l, draws, j)
    ensures Placement(l, draws) == Candidate(l, draws[k])
  {
  }

  /** Fallback: when no attempt fits, the last candidate is kept. */
  lemma PlacementFallback(l: Layout, draws: seq<Draw>)
    requires ValidDraws(draws)
    requires forall k :: 0 <= k < Tries ==> !Fits(l, draws, k)
    ensures Placement(l, draws) == Candidate(l, draws[Tries - 1])
  {
  }

  /** Whenever any of the attempts fits, the placement clears the safe
      zone. */
  lemma PlacementAvoidsWhenPossible(l: Layout, draws: seq<Draw>, k: nat)
    requires ValidDraws(draws) && k < Tries
    requires Fits(l, draws, k)
    ensures !IntersectsSafeZone(l, SafeZone(l), Placement(l, draws).x, Placement(l, draws).y)
  {
  }

  /** The retry loop of moveNoButton: at most Tries iterations, stopping
      at the first candidate that clears the safe zone. */
  method Place(l: Layout, draws: seq<Draw>) returns (x: int, y: int)
    requires ValidDraws(draws)
    ensures Point(x, y) == Placement(l, draws)
  {
    var b := PlacementBounds(l);
    var zone := SafeZone(l);
    x, y := b.minX, b.minY;
    var i := 0;
    while i < Tries
      invariant 0 <= i <= Tries
      invariant forall j :: 0 <= j < i ==> !Fits(l, draws, j)
      invariant 0 < i ==> Point(x, y) == Candidate(l, draws[i - 1])
    {
      var rx := Pick(draws[i].rx, b.minX, b.maxX);
      var ry := Pick(draws[i].ry, b.minY, b.maxY);
      if !IntersectsSafeZone(l, zone, rx, ry) {
        x, y := rx, ry;
        PlacementTakesFirstFit(l, draws, i);
        break;
      }
      x, y := rx, ry;
      i := i + 1;
    }
    if i == Tries {
      PlacementFallback(l, draws);
    }
  }
}
