/**
 * Contact resolver: each simulation step classifies every unordered pair
 * of gears as coaxial, meshed or unrelated and records the relation in
 * both gears' neighbour lists.
 */
module Contacts {
  import opened Gears

  /** Centres closer than this share a shaft. */
  const CoaxialEps: real := 0.000001

  /** Rim contact tolerance, in canvas units. */
  const ContactTolerance: real := 2.0

  /**
   * The classification exactly as the resolver writes it, on the centre
   * distance `d` and the sum of radii `rsum`: a coaxial test, then the
   * "touching within tolerance" test, then the "slight overlap" test.
   */
  function ClassifyDistance(d: real, rsum: real): (r: Option<Link>)
    ensures r == Some(Coaxial) <==> d < CoaxialEps
    ensures r == Some(Mesh) <==> CoaxialEps <= d <= rsum + ContactTolerance
    ensures r == None <==> CoaxialEps <= d && rsum + ContactTolerance < d
  {
    if d < CoaxialEps then Some(Coaxial)
    else if (if d - rsum >= 0.0 then d - rsum else rsum - d) <= ContactTolerance then Some(Mesh)
    else if d < rsum + ContactTolerance then Some(Mesh)
    else None
  }

  /** The relation of a pair of gears, decided on the squared centre distance. */
  function Classify(a: Gear, b: Gear): Option<Link>
  {
    var rsum := (a.diameter + b.diameter) / 2.0;
    if Dist2(a, b) < Sq(CoaxialEps) then Some(Coaxial)
    else if Dist2(a, b) <= Sq(rsum + ContactTolerance) then Some(Mesh)
    else None
  }

  /** For gears of positive size, the squared test agrees with the three
      branches written on the true centre distance `d`. */
  lemma ClassifyAgreesWithDistance(a: Gear, b: Gear, d: real)
    requires 0.0 < a.diameter && 0.0 < b.diameter
    requires 0.0 <= d && Sq(d) == Dist2(a, b)
    ensures Classify(a, b) == ClassifyDistance(d, (a.diameter + b.diameter) / 2.0)
  {
    var rsum := (a.diameter + b.diameter) / 2.0;
    SquareMonotone(d, CoaxialEps);
    SquareMonotone(d, rsum + ContactTolerance);
  }

  /** The relation does not depend on the order of the pair. */
  lemma ClassifySymmetric(a: Gear, b: Gear)
    ensures Classify(a, b) == Classify(b, a)
  {
    Dist2Symmetric(a, b);
    assert (a.diameter + b.diameter) / 2.0 == (b.diameter + a.diameter) / 2.0;
  }

  /** The neighbour list of gear `a` restricted to gears with index below `m`,
      in index order. */
  function Neighbors(gs: seq<Gear>, a: nat, m: nat): seq<Edge>
    requires a < |gs| && m <= |gs|
  {
    if m == 0 then []
    else
      var rest := Neighbors(gs, a, m - 1);
      var c := Classify(gs[a], gs[m - 1]);
      if m - 1 != a && c.Some? then rest + [Edge(m - 1, c.value)] else rest
  }

  /** The contact graph: one neighbour list per gear. */
  function Adjacency(gs: seq<Gear>): (adj: seq<seq<Edge>>)
    ensures |adj| == |gs|
  {
    seq(|gs|, a requires 0 <= a < |gs| => Neighbors(gs, a, |gs|))
  }

  /** An edge is in a neighbour list exactly when the pair is related and
      the neighbour is another gear below the bound. */
  lemma {:induction false} NeighborsMember(gs: seq<Gear>, a: nat, m: nat, e: Edge)
    requires a < |gs| && m <= |gs|
    ensures e in Neighbors(gs, a, m) <==>
              e.to < m && e.to != a && Classify(gs[a], gs[e.to]) == Some(e.kind)
  {
    if m > 0 {
      NeighborsMember(gs, a, m - 1, e);
    }
  }

  /** Neighbour lists come out in strictly increasing gear-index order. */
  lemma {:induction false} NeighborsSorted(gs: seq<Gear>, a: nat, m: nat)
    requires a < |gs| && m <= |gs|
    ensures forall i :: 0 <= i < |Neighbors(gs, a, m)| ==> Neighbors(gs, a, m)[i].to < m
    ensures forall i, j :: 0 <= i < j < |Neighbors(gs, a, m)| ==>
              Neighbors(gs, a, m)[i].to < Neighbors(gs, a, m)[j].to
  {
    if m > 0 {
      NeighborsSorted(gs, a, m - 1);
    }
  }

  /** Every relation is recorded in both directions, with the same kind. */
  lemma AdjacencySymmetric(gs: seq<Gear>, a: nat, b: nat, k: Link)
    requires a < |gs| && b < |gs|
    ensures Edge(b, k) in Adjacency(gs)[a] <==> Edge(a, k) in Adjacency(gs)[b]
  {
    NeighborsMember(gs, a, |gs|, Edge(b, k));
    NeighborsMember(gs, b, |gs|, Edge(a, k));
    ClassifySymmetric(gs[a], gs[b]);
  }

  /** One pair `i < j` of the scan: when the two gears are related, each
      gets the other appended to its list. */
  method Connect(gs: seq<Gear>, adj: seq<seq<Edge>>, i: nat, j: nat) returns (adj': seq<seq<Edge>>)
    requires i < j < |gs| == |adj|
    requires adj[i] == Neighbors(gs, i, j) && adj[j] == Neighbors(gs, j, i)
    ensures |adj'| == |adj|
    ensures adj'[i] == Neighbors(gs, i, j + 1) && adj'[j] == Neighbors(gs, j, i + 1)
    ensures forall a :: 0 <= a < |adj| && a != i && a != j ==> adj'[a] == adj[a]
  {
    var c := Classify(gs[i], gs[j]);
    ClassifySymmetric(gs[i], gs[j]);
    adj' := adj;
    if c.Some? {
      adj' := adj'[i := adj'[i] + [Edge(j, c.value)]];
      adj' := adj'[j := adj'[j] + [Edge(i, c.value)]];
    }
  }

  /** Row `i` of the pair loop: gear `i` is paired with every later gear. */
  method ConnectRow(gs: seq<Gear>, adj: seq<seq<Edge>>, i: nat) returns (adj': seq<seq<Edge>>)
    requires i < |gs| == |adj|
    requires forall a :: 0 <= a < i ==> adj[a] == Neighbors(gs, a, |gs|)
    requires forall a :: i <= a < |gs| ==> adj[a] == Neighbors(gs, a, i)
    ensures |adj'| == |gs|
    ensures forall a :: 0 <= a <= i ==> adj'[a] == Neighbors(gs, a, |gs|)
    ensures forall a :: i < a < |gs| ==> adj'[a] == Neighbors(gs, a, i + 1)
  {
    var n := |gs|;
    adj' := adj;
    assert Neighbors(gs, i, i + 1) == Neighbors(gs, i, i);
    var j := i + 1;
    while j < n
      invariant i + 1 <= j <= n && |adj'| == n
      invariant forall a :: 0 <= a < i ==> adj'[a] == Neighbors(gs, a, n)
      invariant adj'[i] == Neighbors(gs, i, j)
      invariant forall a :: i < a < j ==> adj'[a] == Neighbors(gs, a, i + 1)
      invariant forall a :: j <= a < n ==> adj'[a] == Neighbors(gs, a, i)
    {
      adj' := Connect(gs, adj', i, j);
      j := j + 1;
    }
  }

  /** The nested pair loop of the resolver: for i < j it appends j to i's
      list and i to j's list whenever the pair is related. */
  method BuildAdjacency(gs: seq<Gear>) returns (adj: seq<seq<Edge>>)
    ensures adj == Adjacency(gs)
  {
    var n := |gs|;
    adj := seq(n, _ => []);
    var i := 0;
    while i < n
      invariant 0 <= i <= n && |adj| == n
      invariant forall a :: 0 <= a < i ==> adj[a] == Neighbors(gs, a, n)
      invariant forall a :: i <= a < n ==> adj[a] == Neighbors(gs, a, i)
    {
      adj := ConnectRow(gs, adj, i);
      i := i + 1;
    }
  }
}
