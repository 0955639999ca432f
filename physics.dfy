/**
 * One simulation step: drivers take their speed from their rpm, every
 * other gear starts at rest, the contact graph is rebuilt, speeds are
 * propagated from the drivers, and every gear's rpm and angle are updated.
 */
module Physics {
  import opened Gears
  import opened Contacts
  import opened Traversal
  import opened Propagation

  /** `Math.PI` as a double. */
  const PI: real := 3.141592653589793

  /** Revolutions per minute to radians per second. */
  function RpmToRadPerSec(rpm: real): (w: real)
    ensures RadPerSecToRpm(w) == rpm
  {
    rpm * 2.0 * PI / 60.0
  }

  /** Radians per second to revolutions per minute; the conversion keeps the sign. */
  function RadPerSecToRpm(rad: real): (r: real)
    ensures r > 0.0 <==> rad > 0.0
    ensures r == 0.0 <==> rad == 0.0
  {
    rad * 60.0 / (2.0 * PI)
  }

  /** The other round trip. */
  lemma RadRoundTrip(rad: real)
    ensures RpmToRadPerSec(RadPerSecToRpm(rad)) == rad
  {
    var r := RadPerSecToRpm(rad);
    assert r * (2.0 * PI) == rad * 60.0;
  }

  /** Both conversions are linear: a ratio between two speeds survives them. */
  lemma RpmScales(rad: real, c: real)
    ensures RadPerSecToRpm(c * rad) == c * RadPerSecToRpm(rad)
  {
  }

  /** Gear `i` is connected to some driver through a chain of contacts. */
  ghost predicate Driven(gs: seq<Gear>, i: nat)
  {
    Reachable(gs, Adjacency(gs), i)
  }

  /** Gear `i` got its new speed from its contact partner `j` by the transfer law. */
  ghost predicate FedBy(gs: seq<Gear>, gs': seq<Gear>, j: nat, i: nat)
  {
    |gs'| == |gs| && i < |gs| && j < |gs| && j != i && gs[i].diameter != 0.0
    && Classify(gs[j], gs[i]).Some?
    && gs'[i].omega == Transfer(Classify(gs[j], gs[i]).value, gs'[j].omega, gs[j].diameter, gs[i].diameter)
  }

  /**
   * `ord` lists the driven gears, each once, in an order in which every
   * driven gear that is not a driver is fed by a gear listed before it.
   * Speeds thus flow outwards from the drivers: no two gears feed each
   * other.
   */
  ghost predicate FeedOrder(gs: seq<Gear>, gs': seq<Gear>, ord: seq<nat>)
  {
    Distinct(ord)
    && (forall p :: 0 <= p < |ord| ==> ord[p] < |gs|)
    && (forall i :: 0 <= i < |gs| ==> (Driven(gs, i) <==> i in ord))
    && (forall p :: 0 <= p < |ord| && !gs[ord[p]].isDriver ==>
          exists q :: 0 <= q < p && FedBy(gs, gs', ord[q], ord[p]))
  }

  /** The speeds of a gear list. */
  function Omegas(gs': seq<Gear>): (om: seq<real>)
    ensures |om| == |gs'| && forall i :: 0 <= i < |gs'| ==> om[i] == gs'[i].omega
  {
    seq(|gs'|, i requires 0 <= i < |gs'| => gs'[i].omega)
  }

  /**
   * The speeds of `gs'` are what the breadth-first traversal over the
   * contact graph of `gs` leaves: `order` lists the driven gears, each
   * once, the drivers first in index order and the others in the order
   * they were discovered; each of those others got its speed from the
   * first gear in `order` that touches it, across the first entry of that
   * gear's list naming it, and that gear comes earlier in `order`.
   */
  ghost predicate FirstWins(gs: seq<Gear>, gs': seq<Gear>, order: seq<nat>,
                            src: map<nat, nat>, via: map<nat, nat>)
  {
    |gs'| == |gs| && Distinct(order)
    && (forall p :: 0 <= p < |order| ==> order[p] < |gs|)
    && (forall i :: 0 <= i < |gs| ==> (Driven(gs, i) <==> i in order))
    && (forall p, p' :: 0 <= p < p' < |order| && gs[order[p']].isDriver ==>
          gs[order[p]].isDriver && order[p] < order[p'])
    && (forall p, p' :: 0 <= p < |order| && 0 <= p' < |order| && !gs[order[p]].isDriver && !gs[order[p']].isDriver ==>
          (p < p' <==> DiscoveredBefore(src, via, order[p], order[p'])))
    && (forall v :: v in order && !gs[v].isDriver ==> AssignedFrom(gs, Adjacency(gs), Omegas(gs'), order, src, via, v))
  }

  /**
   * `gs'` is what one step of length `dt` makes of `gs`: nothing but the
   * motion fields change; rpm is the new speed converted; the angle
   * advances by speed times `dt`; drivers turn at their own rpm; a gear
   * with no contact chain to a driver stops; every other driven gear turns
   * as the first gear of the traversal that touches it makes it turn.
   */
  ghost predicate IsTick(gs: seq<Gear>, gs': seq<Gear>, dt: real)
  {
    |gs'| == |gs|
    && (forall i :: 0 <= i < |gs| ==>
          SameBody(gs[i], gs'[i])
          && gs'[i].rpm == RadPerSecToRpm(gs'[i].omega)
          && gs'[i].angle == gs[i].angle + gs'[i].omega * dt
          && (gs[i].isDriver ==> gs'[i].omega == RpmToRadPerSec(gs[i].rpm))
          && (!Driven(gs, i) ==> gs'[i].omega == 0.0))
    && exists order, src, via :: FirstWins(gs, gs', order, src, via)
  }

  /** The first loop of a step: drivers from their rpm, every other gear at rest. */
  method DriverOmegas(gs: seq<Gear>) returns (om: seq<real>)
    ensures |om| == |gs|
    ensures forall i :: 0 <= i < |gs| && gs[i].isDriver ==> RadPerSecToRpm(om[i]) == gs[i].rpm
    ensures forall i :: 0 <= i < |gs| && !gs[i].isDriver ==> om[i] == 0.0
  {
    om := [];
    var i := 0;
    while i < |gs|
      invariant 0 <= i <= |gs| && |om| == i
      invariant forall j :: 0 <= j < i && gs[j].isDriver ==> RadPerSecToRpm(om[j]) == gs[j].rpm
      invariant forall j :: 0 <= j < i && !gs[j].isDriver ==> om[j] == 0.0
    {
      if gs[i].isDriver {
        om := om + [RpmToRadPerSec(gs[i].rpm)];
      } else {
        om := om + [0.0];
      }
      i := i + 1;
    }
  }

  /** The last loop of a step: each gear takes its new speed, shows it in
      rpm and turns by speed times `dt`. */
  method Integrate(gs: seq<Gear>, om: seq<real>, dt: real) returns (gs': seq<Gear>)
    requires |om| == |gs|
    ensures |gs'| == |gs|
    ensures forall i :: 0 <= i < |gs| ==>
              SameBody(gs[i], gs'[i]) && gs'[i].omega == om[i]
              && gs'[i].rpm == RadPerSecToRpm(om[i])
              && gs'[i].angle == gs[i].angle + om[i] * dt
  {
    gs' := [];
    var i := 0;
    while i < |gs|
      invariant 0 <= i <= |gs| && |gs'| == i
      invariant forall j :: 0 <= j < i ==>
                  SameBody(gs[j], gs'[j]) && gs'[j].omega == om[j]
                  && gs'[j].rpm == RadPerSecToRpm(om[j])
                  && gs'[j].angle == gs[j].angle + om[j] * dt
    {
      var g := gs[i];
      gs' := gs' + [g.(omega := om[i], rpm := RadPerSecToRpm(om[i]), angle := g.angle + om[i] * dt)];
      i := i + 1;
    }
  }

  /** Every neighbour index of the contact graph names a gear. */
  lemma AdjacencyWellFormed(gs: seq<Gear>)
    ensures WellFormed(Adjacency(gs), |gs|)
  {
    var adj: seq<seq<Edge>> := Adjacency(gs);
    forall u, k | 0 <= u < |gs| && 0 <= k < |adj[u]|
      ensures adj[u][k].to < |gs|
    {
      assert adj[u][k] in Neighbors(gs, u, |gs|);
      NeighborsMember(gs, u, |gs|, adj[u][k]);
    }
  }

  /** The record the traversal leaves for a discovered gear `v`: the gear
      dequeued at position `src[v]` is a contact partner that feeds it, and
      `v` itself is dequeued only after that position. */
  lemma AssignedIsFed(gs: seq<Gear>, om: seq<real>, gs': seq<Gear>,
                      order: seq<nat>, src: map<nat, nat>, via: map<nat, nat>, v: nat)
    requires |gs'| == |gs| == |om| && forall i :: 0 <= i < |gs| ==> gs'[i].omega == om[i]
    requires AssignedFrom(gs, Adjacency(gs), om, order, src, via, v)
    ensures v in src && src[v] < |order| && FedBy(gs, gs', order[src[v]], v)
    ensures forall q :: 0 <= q <= src[v] ==> order[q] != v
  {
    var adj: seq<seq<Edge>> := Adjacency(gs);
    var j: nat := order[src[v]];
    var e := adj[j][via[v]];
    assert e in Neighbors(gs, j, |gs|);
    NeighborsMember(gs, j, |gs|, e);
  }

  /** One step of the simulation, of length `dt` seconds. */
  method SimulatePhysics(gs: seq<Gear>, dt: real) returns (gs': seq<Gear>)
    requires forall i :: 0 <= i < |gs| ==> gs[i].diameter > 0.0
    ensures IsTick(gs, gs', dt)
  {
    var om0 := DriverOmegas(gs);
    var adj := BuildAdjacency(gs);
    AdjacencyWellFormed(gs);
    var om, visited, order, src, via := Propagate(gs, adj, om0);
    gs' := Integrate(gs, om, dt);
    StepIsTick(gs, om0, om, visited, order, src, via, gs', dt);
  }

  /** The three phases of a step, as their contracts state them, make a tick. */
  lemma StepIsTick(gs: seq<Gear>, om0: seq<real>, om: seq<real>, visited: set<nat>,
                   order: seq<nat>, src: map<nat, nat>, via: map<nat, nat>, gs': seq<Gear>, dt: real)
    requires |om0| == |gs| && |om| == |gs|
    requires forall i :: 0 <= i < |gs| && gs[i].isDriver ==> RadPerSecToRpm(om0[i]) == gs[i].rpm
    requires forall i :: 0 <= i < |gs| && !gs[i].isDriver ==> om0[i] == 0.0
    requires forall i :: 0 <= i < |gs| ==> (i in visited <==> Reachable(gs, Adjacency(gs), i))
    requires forall i :: 0 <= i < |gs| && (gs[i].isDriver || i !in visited) ==> om[i] == om0[i]
    requires forall v :: v in visited ==> v < |gs|
    requires forall v :: v in visited && !gs[v].isDriver ==> AssignedFrom(gs, Adjacency(gs), om, order, src, via, v)
    requires forall v :: v in visited <==> v in order
    requires Distinct(order) && forall p :: 0 <= p < |order| ==> order[p] < |gs|
    requires forall p, p' :: 0 <= p < p' < |order| && gs[order[p']].isDriver ==>
               gs[order[p]].isDriver && order[p] < order[p']
    requires forall p, p' :: 0 <= p < |order| && 0 <= p' < |order| && !gs[order[p]].isDriver && !gs[order[p']].isDriver ==>
               (p < p' <==> DiscoveredBefore(src, via, order[p], order[p']))
    requires |gs'| == |gs|
    requires forall i :: 0 <= i < |gs| ==>
               SameBody(gs[i], gs'[i]) && gs'[i].omega == om[i]
               && gs'[i].rpm == RadPerSecToRpm(om[i])
               && gs'[i].angle == gs[i].angle + om[i] * dt
    ensures IsTick(gs, gs', dt)
  {
    forall i | 0 <= i < |gs|
      ensures gs[i].isDriver ==> gs'[i].omega == RpmToRadPerSec(gs[i].rpm)
      ensures !Driven(gs, i) ==> gs'[i].omega == 0.0
    {
      if gs[i].isDriver {
        RadRoundTrip(om0[i]);
        DriverIsDriven(gs, i);
      }
    }
    StepFirstWins(gs, om, visited, order, src, via, gs');
    TickIntro(gs, gs', dt, order, src, via);
  }

  /** The traversal's record is a first-wins record of the new speeds. */
  lemma StepFirstWins(gs: seq<Gear>, om: seq<real>, visited: set<nat>,
                      order: seq<nat>, src: map<nat, nat>, via: map<nat, nat>, gs': seq<Gear>)
    requires |om| == |gs| && |gs'| == |gs| && forall i :: 0 <= i < |gs| ==> gs'[i].omega == om[i]
    requires forall v :: v in visited ==> v < |gs|
    requires forall i :: 0 <= i < |gs| ==> (i in visited <==> Reachable(gs, Adjacency(gs), i))
    requires forall v :: v in visited && !gs[v].isDriver ==> AssignedFrom(gs, Adjacency(gs), om, order, src, via, v)
    requires forall v :: v in visited <==> v in order
    requires Distinct(order) && forall p :: 0 <= p < |order| ==> order[p] < |gs|
    requires forall p, p' :: 0 <= p < p' < |order| && gs[order[p']].isDriver ==>
               gs[order[p]].isDriver && order[p] < order[p']
    requires forall p, p' :: 0 <= p < |order| && 0 <= p' < |order| && !gs[order[p]].isDriver && !gs[order[p']].isDriver ==>
               (p < p' <==> DiscoveredBefore(src, via, order[p], order[p']))
    ensures FirstWins(gs, gs', order, src, via)
  {
    assert Omegas(gs') == om;
  }

  /** In the traversal's order every non-driver is fed by a gear listed before it. */
  lemma FirstWinsFeedOrder(gs: seq<Gear>, gs': seq<Gear>, order: seq<nat>, src: map<nat, nat>, via: map<nat, nat>)
    requires FirstWins(gs, gs', order, src, via)
    ensures FeedOrder(gs, gs', order)
  {
    forall p | 0 <= p < |order| && !gs[order[p]].isDriver
      ensures exists q :: 0 <= q < p && FedBy(gs, gs', order[q], order[p])
    {
      var v := order[p];
      assert v in order;
      AssignedIsFed(gs, Omegas(gs'), gs', order, src, via, v);
      assert src[v] < p;
    }
  }

  /** A tick never has two gears feeding each other: its speeds follow a feed order. */
  lemma TickFeedOrder(gs: seq<Gear>, gs': seq<Gear>, dt: real)
    requires IsTick(gs, gs', dt)
    ensures exists ord :: FeedOrder(gs, gs', ord)
  {
    var order, src, via :| FirstWins(gs, gs', order, src, via);
    FirstWinsFeedOrder(gs, gs', order, src, via);
  }

  /** `IsTick` from its parts, with `order`, `src` and `via` as the traversal record. */
  lemma TickIntro(gs: seq<Gear>, gs': seq<Gear>, dt: real, order: seq<nat>, src: map<nat, nat>, via: map<nat, nat>)
    requires |gs'| == |gs|
    requires forall i :: 0 <= i < |gs| ==>
               SameBody(gs[i], gs'[i]) && gs'[i].rpm == RadPerSecToRpm(gs'[i].omega)
               && gs'[i].angle == gs[i].angle + gs'[i].omega * dt
    requires forall i :: 0 <= i < |gs| && gs[i].isDriver ==> gs'[i].omega == RpmToRadPerSec(gs[i].rpm)
    requires forall i :: 0 <= i < |gs| && !Driven(gs, i) ==> gs'[i].omega == 0.0
    requires FirstWins(gs, gs', order, src, via)
    ensures IsTick(gs, gs', dt)
  {
  }

  /** Every gear of a driver path is reached from the driver it starts at. */
  lemma {:induction false} PathStartsAtDriver(gs: seq<Gear>, adj: seq<seq<Edge>>, p: seq<nat>)
    requires IsDriverPath(gs, adj, p)
    ensures p[0] < |gs| && gs[p[0]].isDriver
    decreases |p|
  {
    if |p| > 1 {
      PathStartsAtDriver(gs, adj, p[..|p| - 1]);
    }
  }

  /** A driver keeps the rpm it was given. */
  lemma TickKeepsDriverRpm(gs: seq<Gear>, gs': seq<Gear>, dt: real, i: nat)
    requires IsTick(gs, gs', dt) && i < |gs| && gs[i].isDriver
    ensures gs'[i].rpm == gs[i].rpm
  {
  }

  /** A gear with no contact chain to a driver stands still and shows 0 rpm. */
  lemma TickUndrivenAtRest(gs: seq<Gear>, gs': seq<Gear>, dt: real, i: nat)
    requires IsTick(gs, gs', dt) && i < |gs| && !Driven(gs, i)
    ensures gs'[i].omega == 0.0 && gs'[i].rpm == 0.0 && gs'[i].angle == gs[i].angle
  {
  }

  /** With no driver on the canvas no gear is driven. */
  lemma NoDriverNoneDriven(gs: seq<Gear>, i: nat)
    requires forall j :: 0 <= j < |gs| ==> !gs[j].isDriver
    ensures !Driven(gs, i)
  {
    if Driven(gs, i) {
      var p :| IsDriverPath(gs, Adjacency(gs), p) && Last(p) == i;
      PathStartsAtDriver(gs, Adjacency(gs), p);
    }
  }

  /** With no driver on the canvas every gear stops. */
  lemma TickNoDriverAllRest(gs: seq<Gear>, gs': seq<Gear>, dt: real)
    requires IsTick(gs, gs', dt)
    requires forall i :: 0 <= i < |gs| ==> !gs[i].isDriver
    ensures forall i :: 0 <= i < |gs| ==> gs'[i].omega == 0.0 && gs'[i].rpm == 0.0
  {
    forall i | 0 <= i < |gs|
      ensures gs'[i].omega == 0.0 && gs'[i].rpm == 0.0
    {
      NoDriverNoneDriven(gs, i);
      TickUndrivenAtRest(gs, gs', dt, i);
    }
  }

  /** A driver is driven: a path of one gear. */
  lemma DriverIsDriven(gs: seq<Gear>, i: nat)
    requires i < |gs| && gs[i].isDriver
    ensures Driven(gs, i)
  {
    assert IsDriverPath(gs, Adjacency(gs), [i]);
  }

  /** Meshed gears have equal and opposite rim speeds, in rad/s and in rpm;
      gears on one shaft turn at the same rpm. */
  lemma FedSpeeds(gs: seq<Gear>, gs': seq<Gear>, j: nat, i: nat)
    requires FedBy(gs, gs', j, i)
    requires gs'[i].rpm == RadPerSecToRpm(gs'[i].omega) && gs'[j].rpm == RadPerSecToRpm(gs'[j].omega)
    ensures Classify(gs[j], gs[i]) == Some(Mesh) ==>
              gs'[i].omega * gs[i].diameter == -(gs'[j].omega * gs[j].diameter)
              && gs'[i].rpm * gs[i].diameter == -(gs'[j].rpm * gs[j].diameter)
    ensures Classify(gs[j], gs[i]) == Some(Coaxial) ==> gs'[i].rpm == gs'[j].rpm
  {
    var wi, wj := gs'[i].omega, gs'[j].omega;
    var di, dj := gs[i].diameter, gs[j].diameter;
    if Classify(gs[j], gs[i]) == Some(Mesh) {
      assert wi * di == -(wj * dj);
      RpmScales(wi, di);
      RpmScales(wj, -dj);
      assert RadPerSecToRpm(di * wi) == RadPerSecToRpm(-dj * wj);
    }
  }

  /** A driver of diameter 40 at 60 rpm, and a gear of diameter 20 whose rim touches it. */
  const Pair: seq<Gear> :=
    [Gear(1, 0.0, 0.0, 40.0, 10, 0.0, 0.0, 60.0, true),
     Gear(2, 30.0, 0.0, 20.0, 10, 0.0, 0.0, 0.0, false)]

  /** The two gears of the pair mesh. */
  lemma PairContacts()
    ensures Classify(Pair[0], Pair[1]) == Some(Mesh) && Classify(Pair[1], Pair[0]) == Some(Mesh)
  {
    assert Dist2(Pair[0], Pair[1]) == Sq(30.0) && Dist2(Pair[1], Pair[0]) == Sq(-30.0);
  }

  /** The small gear of the pair is driven. */
  lemma PairDriven()
    ensures Driven(Pair, 1)
  {
    PairContacts();
    var adj := Adjacency(Pair);
    assert adj[0] == [Edge(1, Mesh)];
    assert Linked(adj, 0, 1) by { assert adj[0][0].to == 1; }
    assert IsDriverPath(Pair, adj, [0, 1][..1]);
    assert IsDriverPath(Pair, adj, [0, 1]);
  }

  /** In every feed order of the pair the small gear is fed by the driver. */
  lemma PairFeedOrder(gs': seq<Gear>, ord: seq<nat>)
    requires FeedOrder(Pair, gs', ord)
    ensures FedBy(Pair, gs', 0, 1)
  {
    assert 1 in ord by { PairDriven(); }
    var p :| 0 <= p < |ord| && ord[p] == 1;
    assert !Pair[ord[p]].isDriver;
    var q :| 0 <= q < p && FedBy(Pair, gs', ord[q], ord[p]);
    assert ord[q] == 0;
  }

  /**
   * After half a second of the pair the small gear turns the other way at
   * twice the speed: the driver turned by π, the small gear runs at
   * −120 rpm and turned by −2π.
   */
  lemma TwoGearExample(gs': seq<Gear>)
    requires IsTick(Pair, gs', 0.5)
    ensures gs'[0].omega == 2.0 * PI && gs'[0].rpm == 60.0 && gs'[0].angle == PI
    ensures gs'[1].omega == -4.0 * PI && gs'[1].rpm == -120.0 && gs'[1].angle == -2.0 * PI
  {
    TickFeedOrder(Pair, gs', 0.5);
    var ord :| FeedOrder(Pair, gs', ord);
    PairFeedOrder(gs', ord);
    PairContacts();
    assert Pair[0].isDriver;
    PairSpeeds(gs');
  }

  /** The speeds of the pair: the mesh halves the diameter, so the small gear turns twice as fast the other way. */
  lemma PairSpeeds(gs': seq<Gear>)
    requires FedBy(Pair, gs', 0, 1) && Classify(Pair[0], Pair[1]) == Some(Mesh)
    requires gs'[0].omega == RpmToRadPerSec(Pair[0].rpm)
    ensures gs'[0].omega == 2.0 * PI && gs'[0].omega == RpmToRadPerSec(60.0)
    ensures gs'[1].omega == -4.0 * PI && gs'[1].omega == RpmToRadPerSec(-120.0)
  {
    var w0, w1 := gs'[0].omega, gs'[1].omega;
    assert Pair[0].diameter == 40.0 && Pair[1].diameter == 20.0;
    assert w0 == 2.0 * PI;
    assert w1 * 20.0 == -(w0 * 40.0) by { assert w1 == Transfer(Mesh, w0, 40.0, 20.0); }
  }

  /**
   * A chain: the same driver, a gear of diameter 20 touching it, and a
   * second gear of diameter 20 touching only that one.
   */
  const Chain: seq<Gear> :=
    [Gear(1, 0.0, 0.0, 40.0, 10, 0.0, 0.0, 60.0, true),
     Gear(2, 30.0, 0.0, 20.0, 10, 0.0, 0.0, 0.0, false),
     Gear(3, 50.0, 0.0, 20.0, 10, 0.0, 0.0, 0.0, false)]

  /** In the chain, neighbours mesh and the two ends do not touch. */
  lemma ChainContacts()
    ensures Classify(Chain[0], Chain[1]) == Some(Mesh) && Classify(Chain[1], Chain[0]) == Some(Mesh)
    ensures Classify(Chain[1], Chain[2]) == Some(Mesh) && Classify(Chain[2], Chain[1]) == Some(Mesh)
    ensures Classify(Chain[0], Chain[2]) == None && Classify(Chain[2], Chain[0]) == None
  {
    var a, b, c := Chain[0], Chain[1], Chain[2];
    assert Sq(0.0) == 0.0 && Sq(CoaxialEps) < 1.0;
    assert Dist2(a, b) == Sq(30.0) == 900.0 && Dist2(b, a) == Sq(-30.0) == 900.0;
    assert Dist2(b, c) == Sq(20.0) == 400.0 && Dist2(c, b) == Sq(-20.0) == 400.0;
    assert Dist2(a, c) == Sq(50.0) == 2500.0 && Dist2(c, a) == Sq(-50.0) == 2500.0;
    assert Sq((a.diameter + b.diameter) / 2.0 + ContactTolerance) == Sq(32.0) == 1024.0;
    assert Sq((b.diameter + c.diameter) / 2.0 + ContactTolerance) == Sq(22.0) == 484.0;
    assert Sq((a.diameter + c.diameter) / 2.0 + ContactTolerance) == Sq(32.0);
  }

  /** Both followers of the chain are driven. */
  lemma ChainDriven()
    ensures Driven(Chain, 1) && Driven(Chain, 2)
  {
    ChainContacts();
    var adj := Adjacency(Chain);
    assert adj[0] == [Edge(1, Mesh)];
    assert adj[1] == [Edge(0, Mesh), Edge(2, Mesh)];
    assert Linked(adj, 0, 1) by { assert adj[0][0].to == 1; }
    assert Linked(adj, 1, 2) by { assert adj[1][1].to == 2; }
    assert IsDriverPath(Chain, adj, [0, 1][..1]);
    assert IsDriverPath(Chain, adj, [0, 1]);
    assert [0, 1, 2][..2] == [0, 1];
    assert IsDriverPath(Chain, adj, [0, 1, 2]);
  }

  /** Who can feed whom in the chain: each gear only by a neighbour. */
  lemma ChainFeeders(gs': seq<Gear>, j: nat, i: nat)
    requires FedBy(Chain, gs', j, i)
    ensures i == 2 ==> j == 1
    ensures i == 1 ==> j == 0 || j == 2
  {
    ChainContacts();
  }

  /**
   * In any feed order of the chain the middle gear is fed by the driver,
   * as the middle gear and the last one cannot feed each other.
   */
  lemma ChainFeedOrder(gs': seq<Gear>, ord: seq<nat>)
    requires FeedOrder(Chain, gs', ord)
    ensures FedBy(Chain, gs', 0, 1) && FedBy(Chain, gs', 1, 2)
  {
    assert 1 in ord && 2 in ord by { ChainDriven(); }
    var pb :| 0 <= pb < |ord| && ord[pb] == 1;
    var pc :| 0 <= pc < |ord| && ord[pc] == 2;
    // the last gear touches only the middle one, so the middle one comes first
    assert !Chain[ord[pc]].isDriver;
    var qc :| 0 <= qc < pc && FedBy(Chain, gs', ord[qc], ord[pc]);
    ChainFeeders(gs', ord[qc], 2);
    assert qc == pb;
    assert !Chain[ord[pb]].isDriver;
    var qb :| 0 <= qb < pb && FedBy(Chain, gs', ord[qb], ord[pb]);
    ChainFeeders(gs', ord[qb], 1);
    assert ord[qb] != 2;
  }

  /** Speeds down the chain: each mesh reverses the direction and scales by the diameters. */
  lemma ChainSpeeds(gs': seq<Gear>)
    requires FedBy(Chain, gs', 0, 1) && FedBy(Chain, gs', 1, 2)
    requires gs'[0].omega == RpmToRadPerSec(Chain[0].rpm)
    ensures gs'[0].omega == 2.0 * PI && gs'[1].omega == -4.0 * PI && gs'[2].omega == 4.0 * PI
    ensures gs'[1].omega == RpmToRadPerSec(-120.0) && gs'[2].omega == RpmToRadPerSec(120.0)
  {
    ChainContacts();
    var w0, w1, w2 := gs'[0].omega, gs'[1].omega, gs'[2].omega;
    assert Chain[0].diameter == 40.0 && Chain[1].diameter == 20.0 && Chain[2].diameter == 20.0;
    assert w1 * 20.0 == -(w0 * 40.0) by { assert w1 == Transfer(Mesh, w0, 40.0, 20.0); }
    assert w2 * 20.0 == -(w1 * 20.0) by { assert w2 == Transfer(Mesh, w1, 20.0, 20.0); }
  }

  /** After one second of the chain the last gear turns at 4π rad/s, the driver's direction. */
  lemma ThreeGearChain(gs': seq<Gear>)
    requires IsTick(Chain, gs', 1.0)
    ensures gs'[0].omega == 2.0 * PI
    ensures gs'[1].omega == -4.0 * PI && gs'[1].rpm == -120.0
    ensures gs'[2].omega == 4.0 * PI && gs'[2].rpm == 120.0 && gs'[2].angle == 4.0 * PI
  {
    TickFeedOrder(Chain, gs', 1.0);
    var ord :| FeedOrder(Chain, gs', ord);
    ChainFeedOrder(gs', ord);
    assert Chain[0].isDriver;
    ChainSpeeds(gs');
  }

  /**
   * A triangle: a driver of diameter 20 at 60 rpm and two gears of
   * diameter 20, each touching the other two. The driver's list names both
   * others, so it feeds both, and the meshed pair of followers does not
   * feed each other.
   */
  const Triangle: seq<Gear> :=
    [Gear(1, 0.0, 0.0, 20.0, 10, 0.0, 0.0, 60.0, true),
     Gear(2, 20.0, 0.0, 20.0, 10, 0.0, 0.0, 0.0, false),
     Gear(3, 10.0, 10.0, 20.0, 10, 0.0, 0.0, 0.0, false)]

  /** Every pair of the triangle meshes. */
  lemma TriangleContacts()
    ensures forall i, j :: 0 <= i < 3 && 0 <= j < 3 && i != j ==> Classify(Triangle[i], Triangle[j]) == Some(Mesh)
  {
    var a, b, c := Triangle[0], Triangle[1], Triangle[2];
    assert Sq(CoaxialEps) < 1.0 && Sq(22.0) == 484.0;
    assert Dist2(a, b) == Sq(20.0) + Sq(0.0) == 400.0 && Dist2(b, a) == Sq(-20.0) + Sq(0.0) == 400.0;
    assert Dist2(a, c) == Sq(10.0) + Sq(10.0) == 200.0 && Dist2(c, a) == Sq(-10.0) + Sq(-10.0) == 200.0;
    assert Dist2(b, c) == Sq(-10.0) + Sq(10.0) == 200.0 && Dist2(c, b) == Sq(10.0) + Sq(-10.0) == 200.0;
  }

  /** Both followers of the triangle touch the driver, so they are driven. */
  lemma TriangleDriven()
    ensures Linked(Adjacency(Triangle), 0, 1) && Linked(Adjacency(Triangle), 0, 2)
    ensures Driven(Triangle, 1) && Driven(Triangle, 2)
  {
    TriangleContacts();
    var adj := Adjacency(Triangle);
    assert adj[0] == [Edge(1, Mesh), Edge(2, Mesh)];
    assert Linked(adj, 0, 1) by { assert adj[0][0].to == 1; }
    assert Linked(adj, 0, 2) by { assert adj[0][1].to == 2; }
    assert IsDriverPath(Triangle, adj, [0, 1][..1]);
    assert IsDriverPath(Triangle, adj, [0, 1]);
    assert [0, 2][..1] == [0];
    assert IsDriverPath(Triangle, adj, [0, 2]);
  }

  /**
   * In the triangle each follower takes its speed from the driver, which
   * is dequeued first and touches it, and not from the other follower.
   */
  lemma TriangleFedByDriver(gs': seq<Gear>, order: seq<nat>, src: map<nat, nat>, via: map<nat, nat>, v: nat)
    requires FirstWins(Triangle, gs', order, src, via)
    requires v == 1 || v == 2
    ensures gs'[v].omega == -gs'[0].omega
  {
    var adj := Adjacency(Triangle);
    TriangleDriven();
    DriverIsDriven(Triangle, 0);
    assert 0 in order && v in order;
    var p0 :| 0 <= p0 < |order| && order[p0] == 0;
    // the driver is the only driver, and drivers are dequeued first
    assert order[0] == 0 by {
      assert Triangle[order[0]].isDriver;
    }
    assert AssignedFrom(Triangle, adj, Omegas(gs'), order, src, via, v);
    // no gear dequeued before the feeder touches `v`, and the first one does
    assert src[v] == 0 by { assert Linked(adj, order[0], v); }
    var e := adj[0][via[v]];
    assert e in Neighbors(Triangle, 0, |Triangle|);
    NeighborsMember(Triangle, 0, |Triangle|, e);
    TriangleContacts();
    assert e.kind == Mesh;
    assert Omegas(gs')[v] * 20.0 == -(Omegas(gs')[0] * 20.0);
  }

  /** The speeds of the triangle: both followers turn against the driver at its speed. */
  lemma TriangleSpeeds(gs': seq<Gear>)
    requires |gs'| == 3 && gs'[1].omega == -gs'[0].omega && gs'[2].omega == -gs'[0].omega
    requires gs'[0].omega == RpmToRadPerSec(Triangle[0].rpm)
    ensures gs'[0].omega == 2.0 * PI
    ensures gs'[1].omega == -2.0 * PI && gs'[2].omega == -2.0 * PI
    ensures gs'[2].omega == RpmToRadPerSec(-60.0)
  {
  }

  /**
   * After one second of the triangle the last gear turns at −2π rad/s,
   * −60 rpm: the driver's transfer, since the driver touches it first.
   */
  lemma TriangleExample(gs': seq<Gear>)
    requires IsTick(Triangle, gs', 1.0)
    ensures gs'[0].omega == 2.0 * PI
    ensures gs'[1].omega == -2.0 * PI
    ensures gs'[2].omega == -2.0 * PI && gs'[2].rpm == -60.0 && gs'[2].angle == -2.0 * PI
  {
    var order, src, via :| FirstWins(Triangle, gs', order, src, via);
    TriangleFedByDriver(gs', order, src, via, 1);
    TriangleFedByDriver(gs', order, src, via, 2);
    assert Triangle[0].isDriver;
    TriangleSpeeds(gs');
  }
}
