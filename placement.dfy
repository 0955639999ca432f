/**
 * Where gears go: grid snapping, the start position and overlap nudging
 * of a new gear, the hit test of a pointer, and the "place beside the
 * nearest gear" rule applied when a drag ends.
 */
module Placement {
  import opened Gears

  /** Diameter and tooth count of a newly added gear. */
  const NewDiameter: real := 30.0
  const NewTeeth: int := 10

  /** Number of nudges tried before a new gear is placed where it is. */
  const MaxAttempts: nat := 20

  /** Free space kept between a new gear's rim and another gear's rim. */
  const Clearance: real := 4.0

  /** A pointer this far outside a rim still hits the gear. */
  const HitSlack: real := 6.0

  /** A dragged gear released this close to another one is placed beside it. */
  const SnapThreshold: real := 20.0

  /** Rounds a coordinate to the nearest multiple of the grid cell (halves up). */
  function SnapToGrid(v: real): (r: real)
    ensures (r / Grid).Floor as real * Grid == r
    ensures v - Grid / 2.0 < r <= v + Grid / 2.0
  {
    Round(v / Grid) as real * Grid
  }

  /** Snapping a snapped coordinate changes nothing. */
  lemma SnapIdempotent(v: real)
    ensures SnapToGrid(SnapToGrid(v)) == SnapToGrid(v)
  {
    var n := Round(v / Grid);
    assert SnapToGrid(v) / Grid == n as real;
    assert (n as real + 0.5).Floor == n;
  }

  /** Keeps a new gear's centre at least half its diameter inside an axis of length `size`. */
  function ClampAxis(v: real, size: real): (r: real)
    ensures NewDiameter / 2.0 <= r
    ensures NewDiameter <= size ==> r <= size - NewDiameter / 2.0
    ensures NewDiameter / 2.0 <= v <= size - NewDiameter / 2.0 ==> r == v
    ensures v < NewDiameter / 2.0 ==> r == NewDiameter / 2.0
    ensures NewDiameter <= size && size - NewDiameter / 2.0 < v ==> r == size - NewDiameter / 2.0
    // an axis shorter than a new gear puts the centre half a diameter in
    ensures size < NewDiameter ==> r == NewDiameter / 2.0
  {
    Max(NewDiameter / 2.0, Min(size - NewDiameter / 2.0, v))
  }

  /** Start position of a new gear asked for at (`x`, `y`) on a `w` by `h`
      canvas: clamped inside the canvas, then snapped to the grid when `snap`. */
  function StartPos(x: real, y: real, snap: bool, w: real, h: real): (p: (real, real))
    ensures !snap ==> p == (ClampAxis(x, w), ClampAxis(y, h))
    ensures snap ==> p == (SnapToGrid(ClampAxis(x, w)), SnapToGrid(ClampAxis(y, h)))
  {
    var px := ClampAxis(x, w);
    var py := ClampAxis(y, h);
    if snap then (SnapToGrid(px), SnapToGrid(py)) else (px, py)
  }

  /** Snapping comes after clamping, so a snapped start can leave the band the
      clamp keeps: near the top-left corner the centre lands on the corner itself. */
  lemma SnapCanLeaveCanvas()
    ensures StartPos(5.0, 5.0, true, 800.0, 600.0) == (0.0, 0.0)
    ensures ClampAxis(5.0, 800.0) == NewDiameter / 2.0
  {
    assert (15.0 / Grid + 0.5).Floor == 0;
  }

  /** A new gear centred at (`px`, `py`) would come closer to `other` than the
      clearance allows (squared distances). */
  predicate Collides(other: Gear, px: real, py: real)
  {
    Sq(other.x - px) + Sq(other.y - py) < Sq((other.diameter + NewDiameter) / 2.0 + Clearance)
  }

  /** The squared test is the distance test `dist < minDist` of the placement loop. */
  lemma CollidesAgreesWithDistance(other: Gear, px: real, py: real, dist: real)
    requires 0.0 <= other.diameter
    requires 0.0 <= dist && Sq(dist) == Sq(other.x - px) + Sq(other.y - py)
    ensures Collides(other, px, py) <==> dist < (other.diameter + NewDiameter) / 2.0 + Clearance
  {
    SquareMonotone(dist, (other.diameter + NewDiameter) / 2.0 + Clearance);
  }

  ghost predicate CollidesAny(gs: seq<Gear>, p: (real, real))
  {
    exists i :: 0 <= i < |gs| && Collides(gs[i], p.0, p.1)
  }

  /** One nudge: half a grid cell right and down, clamped back inside the canvas. */
  function Nudge(p: (real, real), w: real, h: real): (q: (real, real))
    ensures NewDiameter / 2.0 <= q.0 && (NewDiameter <= w ==> q.0 <= w - NewDiameter / 2.0)
    ensures NewDiameter / 2.0 <= q.1 && (NewDiameter <= h ==> q.1 <= h - NewDiameter / 2.0)
    ensures p.0 + Grid / 2.0 <= w - NewDiameter / 2.0 ==> q.0 == Max(NewDiameter / 2.0, p.0 + Grid / 2.0)
    ensures p.1 + Grid / 2.0 <= h - NewDiameter / 2.0 ==> q.1 == Max(NewDiameter / 2.0, p.1 + Grid / 2.0)
    // past the right or bottom edge the centre stops half a diameter inside it
    ensures NewDiameter <= w && w - NewDiameter / 2.0 < p.0 + Grid / 2.0 ==> q.0 == w - NewDiameter / 2.0
    ensures NewDiameter <= h && h - NewDiameter / 2.0 < p.1 + Grid / 2.0 ==> q.1 == h - NewDiameter / 2.0
    ensures w < NewDiameter ==> q.0 == NewDiameter / 2.0
    ensures h < NewDiameter ==> q.1 == NewDiameter / 2.0
  {
    (ClampAxis(p.0 + Grid * 0.5, w), ClampAxis(p.1 + Grid * 0.5, h))
  }

  /** The position after `k` nudges. */
  function Nudged(p: (real, real), w: real, h: real, k: nat): (real, real)
  {
    if k == 0 then p else Nudge(Nudged(p, w, h, k - 1), w, h)
  }

  /**
   * The overlap-avoiding loop of gear creation: at most `MaxAttempts`
   * times, look for the first gear the candidate position collides with
   * and, if there is one, nudge the position. `attempts` counts the nudges.
   */
  method ResolveOverlap(gs: seq<Gear>, start: (real, real), w: real, h: real)
      returns (p: (real, real), attempts: nat)
    ensures attempts <= MaxAttempts
    ensures p == Nudged(start, w, h, attempts)
    ensures forall a :: 0 <= a < attempts ==> CollidesAny(gs, Nudged(start, w, h, a))
    ensures attempts < MaxAttempts ==> !CollidesAny(gs, p)
  {
    p, attempts := start, 0;
    while attempts < MaxAttempts
      invariant attempts <= MaxAttempts
      invariant p == Nudged(start, w, h, attempts)
      invariant forall a :: 0 <= a < attempts ==> CollidesAny(gs, Nudged(start, w, h, a))
    {
      var colliding := false;
      var i := 0;
      while i < |gs|
        invariant 0 <= i <= |gs|
        invariant forall j :: 0 <= j < i ==> !Collides(gs[j], p.0, p.1)
      {
        if Collides(gs[i], p.0, p.1) {
          colliding := true;
          break;
        }
        i := i + 1;
      }
      if !colliding {
        break;
      }
      p := Nudge(p, w, h);
      attempts := attempts + 1;
    }
  }

  /** The pointer at (`x`, `y`) is on gear `g` or within the slack around its rim. */
  predicate Hits(g: Gear, x: real, y: real)
  {
    Sq(x - g.x) + Sq(y - g.y) <= Sq(Radius(g) + HitSlack)
  }

  /** The squared test is the distance test `hypot <= r + 6` of the hit test. */
  lemma HitsAgreesWithDistance(g: Gear, x: real, y: real, dist: real)
    requires 0.0 <= g.diameter
    requires 0.0 <= dist && Sq(dist) == Sq(x - g.x) + Sq(y - g.y)
    ensures Hits(g, x, y) <==> dist <= Radius(g) + HitSlack
  {
    SquareMonotone(dist, Radius(g) + HitSlack);
  }

  /** The gear under the pointer: the last one in the list (drawn on top) that it hits. */
  method FindGearAt(gs: seq<Gear>, x: real, y: real) returns (r: Option<nat>)
    ensures r.Some? ==> r.value < |gs| && Hits(gs[r.value], x, y)
    ensures r.Some? ==> forall j :: r.value < j < |gs| ==> !Hits(gs[j], x, y)
    ensures r.None? ==> forall j :: 0 <= j < |gs| ==> !Hits(gs[j], x, y)
  {
    var i := |gs|;
    while i > 0
      invariant 0 <= i <= |gs|
      invariant forall j :: i <= j < |gs| ==> !Hits(gs[j], x, y)
    {
      i := i - 1;
      if Hits(gs[i], x, y) {
        return Some(i);
      }
    }
    return None;
  }

  /** `j` is the gear nearest to gear `k` other than `k` itself; of several
      at the same distance, the first in the list. */
  ghost predicate IsNearest(gs: seq<Gear>, k: nat, j: nat)
  {
    k < |gs| && j < |gs| && j != k
    && (forall i :: 0 <= i < |gs| && i != k ==> Dist2(gs[k], gs[j]) <= Dist2(gs[k], gs[i]))
    && (forall i :: 0 <= i < j && i != k ==> Dist2(gs[k], gs[j]) < Dist2(gs[k], gs[i]))
  }

  /** Of several gears at the same least distance only the first is nearest,
      so the nearest gear is unique. */
  lemma NearestUnique(gs: seq<Gear>, k: nat, i: nat, j: nat)
    requires IsNearest(gs, k, i) && IsNearest(gs, k, j)
    ensures i == j
  {
    NearestOrder(gs, k, i, j);
    NearestOrder(gs, k, j, i);
  }

  /** What being nearest says about one other gear `j`. */
  lemma NearestOrder(gs: seq<Gear>, k: nat, i: nat, j: nat)
    requires IsNearest(gs, k, i) && j < |gs| && j != k
    ensures Dist2(gs[k], gs[i]) <= Dist2(gs[k], gs[j])
    ensures j < i ==> Dist2(gs[k], gs[i]) < Dist2(gs[k], gs[j])
  {
  }

  /** The scan of the drop rule: the nearest other gear, if there is another gear. */
  method FindNearest(gs: seq<Gear>, k: nat) returns (r: Option<nat>)
    requires k < |gs|
    ensures r.Some? ==> IsNearest(gs, k, r.value)
    ensures r.None? <==> |gs| == 1
  {
    r := None;
    var i := 0;
    while i < |gs|
      invariant 0 <= i <= |gs|
      invariant r.None? <==> i == 0 || (i == 1 && k == 0)
      invariant r.Some? ==> r.value < i && r.value != k
      invariant r.Some? ==> forall j :: 0 <= j < i && j != k ==> Dist2(gs[k], gs[r.value]) <= Dist2(gs[k], gs[j])
      invariant r.Some? ==> forall j :: 0 <= j < r.value && j != k ==> Dist2(gs[k], gs[r.value]) < Dist2(gs[k], gs[j])
    {
      if i != k && (r.None? || Dist2(gs[k], gs[i]) < Dist2(gs[k], gs[r.value])) {
        r := Some(i);
      }
      i := i + 1;
    }
  }

  /** `sqrt` is the square root on the non-negative reals. */
  ghost predicate IsSqrt(sqrt: real -> real)
  {
    forall v :: 0.0 <= v ==> 0.0 <= sqrt(v) && sqrt(v) * sqrt(v) == v
  }

  /** The distance between the centres of `a` and `b`, the `hypot` of the drop rule. */
  function Distance(a: Gear, b: Gear, sqrt: real -> real): (d: real)
    requires IsSqrt(sqrt)
    ensures 0.0 <= d && Sq(d) == Dist2(a, b)
  {
    assert 0.0 <= Sq(b.x - a.x) && 0.0 <= Sq(b.y - a.y);
    sqrt(Dist2(a, b))
  }

  /**
   * The drop rule's new centre for gear `moved` beside gear `nearest`: on
   * the ray from `nearest` through `moved`, at the sum of the radii, or
   * straight to the right when the two centres (nearly) coincide. `mag` is
   * the distance between the centres.
   */
  function SnapBeside(moved: Gear, nearest: Gear, mag: real): (real, real)
  {
    var t := Radius(moved) + Radius(nearest);
    if mag < 0.000001 then
      (nearest.x + 1.0 * t, nearest.y + 0.0 * t)
    else
      (nearest.x + (moved.x - nearest.x) / mag * t, nearest.y + (moved.y - nearest.y) / mag * t)
  }

  /** When `mag` is the distance between the centres, the new centre is at
      the sum of the radii from `nearest`'s centre: the rims touch. Unless
      the centres (nearly) coincide, it lies on the line through both
      centres, on `moved`'s side. */
  lemma SnapBesideTouches(moved: Gear, nearest: Gear, mag: real)
    requires 0.0 <= mag && Sq(mag) == Dist2(nearest, moved)
    ensures var p := SnapBeside(moved, nearest, mag);
            Sq(p.0 - nearest.x) + Sq(p.1 - nearest.y) == Sq(Radius(moved) + Radius(nearest))
    ensures mag < 0.000001 ==> SnapBeside(moved, nearest, mag) == (nearest.x + Radius(moved) + Radius(nearest), nearest.y)
    ensures var p := SnapBeside(moved, nearest, mag);
            0.000001 <= mag ==>
              (p.0 - nearest.x) * (moved.y - nearest.y) == (p.1 - nearest.y) * (moved.x - nearest.x)
    ensures var p := SnapBeside(moved, nearest, mag);
            0.000001 <= mag && 0.0 <= Radius(moved) + Radius(nearest) ==>
              0.0 <= (p.0 - nearest.x) * (moved.x - nearest.x) + (p.1 - nearest.y) * (moved.y - nearest.y)
  {
    var t := Radius(moved) + Radius(nearest);
    var ux := moved.x - nearest.x;
    var uy := moved.y - nearest.y;
    var p := SnapBeside(moved, nearest, mag);
    if mag < 0.000001 {
      assert p.0 - nearest.x == t && p.1 - nearest.y == 0.0;
    } else {
      assert p.0 - nearest.x == ux / mag * t && p.1 - nearest.y == uy / mag * t;
      UnitVector(ux, uy, mag, t);
    }
  }

  /**
   * The drop rule: the new centre of gear `k` when a drag ends, beside
   * its nearest gear if that gear is within `SnapThreshold`, and `None`
   * (stay put) when there is no other gear or the nearest is farther.
   */
  method DropTarget(gs: seq<Gear>, k: nat, sqrt: real -> real) returns (r: Option<(real, real)>)
    requires k < |gs| && IsSqrt(sqrt)
    ensures r.None? <==> forall j: nat :: IsNearest(gs, k, j) ==> Sq(SnapThreshold) < Dist2(gs[k], gs[j])
    ensures forall j: nat :: IsNearest(gs, k, j) && r.Some? ==>
              r.value == SnapBeside(gs[k], gs[j], Distance(gs[j], gs[k], sqrt))
  {
    var nearest := FindNearest(gs, k);
    forall j: nat | nearest.Some? && IsNearest(gs, k, j)
      ensures j == nearest.value
    {
      NearestUnique(gs, k, j, nearest.value);
    }
    if nearest.Some? && Dist2(gs[k], gs[nearest.value]) <= Sq(SnapThreshold) {
      var j := nearest.value;
      var mag := Distance(gs[j], gs[k], sqrt);
      r := Some(SnapBeside(gs[k], gs[j], mag));
    } else {
      r := None;
    }
  }

  /** Dividing a vector by its length and scaling it by `t` gives a vector
      of length `t` along the same line and, for `t >= 0`, the same way. */
  lemma UnitVector(ux: real, uy: real, mag: real, t: real)
    requires 0.0 < mag && Sq(mag) == Sq(ux) + Sq(uy)
    ensures Sq(ux / mag * t) + Sq(uy / mag * t) == Sq(t)
    ensures (ux / mag * t) * uy == (uy / mag * t) * ux
    ensures 0.0 <= t ==> 0.0 <= (ux / mag * t) * ux + (uy / mag * t) * uy
  {
    var a, b := ux / mag, uy / mag;
    assert a * mag == ux && b * mag == uy;
    var a2, b2, m2 := Sq(a), Sq(b), Sq(mag);
    assert (a2 + b2) * m2 == Sq(ux) + Sq(uy);
    SquareMonotone(0.0, mag);
    assert (a2 + b2 - 1.0) * m2 == 0.0;
    assert a2 + b2 == 1.0;
    assert Sq(a * t) + Sq(b * t) == (a2 + b2) * Sq(t);
    assert (a * t) * ux + (b * t) * uy == t * mag * (a2 + b2);
  }
}
