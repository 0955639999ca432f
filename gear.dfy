/**
 * The gear record and the small arithmetic vocabulary shared by the
 * contact resolver, the propagation engine, the integrator and the
 * placement heuristic.
 */
module Gears {

  datatype Option<T> = None | Some(value: T)

  /** One gear on the canvas. Positions and speeds are reals; `teeth` is
      the integer tooth count, which only the renderer uses. */
  datatype Gear = Gear(
    id: int,
    x: real,
    y: real,
    diameter: real,
    teeth: int,
    angle: real,    // accumulated rotation in radians, never wrapped
    omega: real,    // angular velocity in rad/s
    rpm: real,
    isDriver: bool)

  /** The two kinds of contact that transmit rotation. */
  datatype Link = Coaxial | Mesh

  /** An entry of a gear's neighbour list: the neighbour's index and the kind of contact. */
  datatype Edge = Edge(to: nat, kind: Link)

  /** Grid cell size of the canvas, in canvas units. */
  const Grid: real := 40.0

  function Sq(v: real): real { v * v }

  function Max(a: real, b: real): real { if a >= b then a else b }

  function Min(a: real, b: real): real { if a <= b then a else b }

  function MaxInt(a: int, b: int): int { if a >= b then a else b }

  /** `Math.round`: halves round towards positive infinity. */
  function Round(v: real): int { (v + 0.5).Floor }

  function Radius(g: Gear): real { g.diameter / 2.0 }

  /** Squared distance between the centres of two gears. */
  function Dist2(a: Gear, b: Gear): real { Sq(b.x - a.x) + Sq(b.y - a.y) }

  /** The fields a simulation step never touches are the same in `g` and `h`. */
  predicate SameBody(g: Gear, h: Gear)
  {
    g.id == h.id && g.x == h.x && g.y == h.y && g.diameter == h.diameter
    && g.teeth == h.teeth && g.isDriver == h.isDriver
  }

  /** Comparing two non-negative lengths is the same as comparing their squares. */
  lemma SquareMonotone(a: real, b: real)
    requires 0.0 <= a && 0.0 <= b
    ensures a < b <==> Sq(a) < Sq(b)
    ensures a <= b <==> Sq(a) <= Sq(b)
  {
    var aa, ab, bb := a * a, a * b, b * b;
    if a < b {
      assert aa <= ab;
      assert ab < bb;
    } else if b < a {
      assert bb <= ab;
      assert ab < aa;
    }
  }

  lemma Dist2Symmetric(a: Gear, b: Gear)
    ensures Dist2(a, b) == Dist2(b, a)
  {
    assert Sq(b.x - a.x) == Sq(a.x - b.x);
    assert Sq(b.y - a.y) == Sq(a.y - b.y);
  }
}
