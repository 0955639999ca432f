/**
 * Velocity propagation: a first-in first-out breadth-first traversal of
 * the contact graph, seeded from every driver gear, that gives each newly
 * discovered gear exactly one angular velocity.
 */
module Propagation {
  import opened Gears
  import opened Traversal

  /** The drivers, in gear order: the traversal's starting queue. */
  method SeedDrivers(gs: seq<Gear>) returns (queue: seq<nat>, visited: set<nat>)
    ensures forall v: nat :: v in visited <==> v < |gs| && gs[v].isDriver
    ensures forall v :: v in visited <==> v in queue
    ensures Distinct(queue)
    ensures forall q, q' :: 0 <= q < q' < |queue| ==> queue[q] < queue[q']
  {
    queue, visited := [], {};
    var i := 0;
    while i < |gs|
      invariant 0 <= i <= |gs|
      invariant forall v: nat :: v in visited <==> v < i && gs[v].isDriver
      invariant forall v :: v in visited <==> v in queue
      invariant forall q :: 0 <= q < |queue| ==> queue[q] < i
      invariant forall q, q' :: 0 <= q < q' < |queue| ==> queue[q] < queue[q']
    {
      if gs[i].isDriver {
        queue := queue + [i];
        visited := visited + {i};
      }
      i := i + 1;
    }
  }

  /** One neighbour of the dequeued gear `cur`, entry `k` of its list: if
      it is not yet visited it takes its speed from `cur`, is marked and is
      enqueued; otherwise nothing changes. */
  method Discover(gs: seq<Gear>, adj: seq<seq<Edge>>, om0: seq<real>, om: seq<real>,
                  visited: set<nat>, ghost order: seq<nat>, cur: nat, k: nat, queue: seq<nat>,
                  ghost src: map<nat, nat>, ghost via: map<nat, nat>, ghost paths: map<nat, seq<nat>>)
      returns (om': seq<real>, visited': set<nat>, queue': seq<nat>,
               ghost src': map<nat, nat>, ghost via': map<nat, nat>, ghost paths': map<nat, seq<nat>>)
    requires InnerInv(gs, adj, om0, om, visited, order, cur, k, queue, src, via, paths)
    requires cur in visited && k < |adj[cur]|
    ensures InnerInv(gs, adj, om0, om', visited', order, cur, k + 1, queue', src', via', paths')
    ensures cur in visited' && visited <= visited' && (visited' == visited ==> queue' == queue)
    ensures var nb := adj[cur][k].to;
            nb !in visited ==>
              nb < |gs| && cur < |gs| && cur < |om| && gs[nb].diameter != 0.0
              && om' == om[nb := Transfer(adj[cur][k].kind, om[cur], gs[cur].diameter, gs[nb].diameter)]
              && visited' == visited + {nb} && queue' == queue + [nb]
    ensures adj[cur][k].to in visited ==> om' == om && visited' == visited && queue' == queue
  {
    var nb := adj[cur][k].to;
    if nb !in visited {
      AssignStep(gs, adj, om0, om, visited, order, cur, k, queue, src, via, paths, nb);
      om' := om[nb := Transfer(adj[cur][k].kind, om[cur], gs[cur].diameter, gs[nb].diameter)];
      visited' := visited + {nb};
      queue' := queue + [nb];
      src', via', paths' := src[nb := |order|], via[nb := k], paths[nb := paths[cur] + [nb]];
    } else {
      SkipStep(gs, adj, om0, om, visited, order, cur, k, queue, src, via, paths);
      om', visited', queue', src', via', paths' := om, visited, queue, src, via, paths;
    }
  }

  /**
   * The inner loop of the traversal: hands the speed of the dequeued gear
   * `cur` to each of its neighbours that is not yet visited, in list order,
   * marking and enqueueing each one.
   */
  method Expand(gs: seq<Gear>, adj: seq<seq<Edge>>, om0: seq<real>, om: seq<real>,
                visited: set<nat>, ghost order: seq<nat>, cur: nat, queue: seq<nat>,
                ghost src: map<nat, nat>, ghost via: map<nat, nat>, ghost paths: map<nat, seq<nat>>)
      returns (om': seq<real>, visited': set<nat>, queue': seq<nat>,
               ghost src': map<nat, nat>, ghost via': map<nat, nat>, ghost paths': map<nat, seq<nat>>)
    requires InnerInv(gs, adj, om0, om, visited, order, cur, 0, queue, src, via, paths)
    requires cur in visited && cur < |gs|
    ensures cur < |adj|
    ensures InnerInv(gs, adj, om0, om', visited', order, cur, |adj[cur]|, queue', src', via', paths')
    ensures visited <= visited' && (visited' == visited ==> queue' == queue)
    ensures forall v :: v in visited' ==> v < |gs|
  {
    om', visited', queue', src', via', paths' := om, visited, queue, src, via, paths;
    var k := 0;
    while k < |adj[cur]|
      invariant InnerInv(gs, adj, om0, om', visited', order, cur, k, queue', src', via', paths')
      invariant cur in visited'
      invariant visited <= visited' && (visited' == visited ==> queue' == queue)
    {
      om', visited', queue', src', via', paths' :=
        Discover(gs, adj, om0, om', visited', order, cur, k, queue', src', via', paths');
      k := k + 1;
    }
  }

  /** The main loop: dequeue gears until the queue is empty, keeping the traversal invariant. */
  method Drain(gs: seq<Gear>, adj: seq<seq<Edge>>, om0: seq<real>, om: seq<real>,
               visited: set<nat>, ghost order: seq<nat>, queue: seq<nat>,
               ghost src: map<nat, nat>, ghost via: map<nat, nat>, ghost paths: map<nat, seq<nat>>)
      returns (om': seq<real>, visited': set<nat>, ghost order': seq<nat>,
               ghost src': map<nat, nat>, ghost via': map<nat, nat>, ghost paths': map<nat, seq<nat>>)
    requires OuterInv(gs, adj, om0, om, visited, order, queue, src, via, paths)
    ensures OuterInv(gs, adj, om0, om', visited', order', [], src', via', paths')
  {
    var n := |gs|;
    var q := queue;
    om', visited', order', src', via', paths' := om, visited, order, src, via, paths;
    while |q| > 0
      invariant OuterInv(gs, adj, om0, om', visited', order', q, src', via', paths')
      decreases Below(n) - visited', |q|
    {
      DequeueStep(gs, adj, om0, om', visited', order', q, src', via', paths');
      var cur := q[0];
      q := q[1..];
      ghost var visited0 := visited';
      om', visited', q, src', via', paths' := Expand(gs, adj, om0, om', visited', order', cur, q, src', via', paths');
      FinishStep(gs, adj, om0, om', visited', order', cur, q, src', via', paths');
      order' := order' + [cur];
      if visited' != visited0 {
        UnvisitedShrinks(n, visited0, visited');
      }
    }
  }

  /**
   * The traversal. `om0` holds the speeds set before it starts (drivers
   * from their rpm, every other gear 0). Drivers are marked visited up
   * front; each dequeued gear hands its speed to every neighbour not yet
   * visited, which is then marked and enqueued.
   */
  method Propagate(gs: seq<Gear>, adj: seq<seq<Edge>>, om0: seq<real>)
      returns (om: seq<real>, visited: set<nat>, ghost order: seq<nat>,
               ghost src: map<nat, nat>, ghost via: map<nat, nat>)
    requires WellFormed(adj, |gs|) && |om0| == |gs|
    requires forall i :: 0 <= i < |gs| ==> gs[i].diameter > 0.0
    ensures |om| == |gs|
    ensures forall v :: v in visited ==> v < |gs|
    ensures forall i :: 0 <= i < |gs| ==> (i in visited <==> Reachable(gs, adj, i))
    ensures forall i :: 0 <= i < |gs| && (gs[i].isDriver || i !in visited) ==> om[i] == om0[i]
    ensures forall v :: v in visited && !gs[v].isDriver ==> AssignedFrom(gs, adj, om, order, src, via, v)
    ensures Distinct(order) && forall v :: v in visited <==> v in order
    ensures forall p :: 0 <= p < |order| ==> order[p] < |gs|
    // the drivers are dequeued first, in index order
    ensures forall p, p' :: 0 <= p < p' < |order| && gs[order[p']].isDriver ==>
              gs[order[p]].isDriver && order[p] < order[p']
    // the other gears are dequeued in the order they were discovered
    ensures forall p, p' :: 0 <= p < |order| && 0 <= p' < |order| && !gs[order[p]].isDriver && !gs[order[p']].isDriver ==>
              (p < p' <==> DiscoveredBefore(src, via, order[p], order[p']))
  {
    om := om0;
    var queue;
    queue, visited := SeedDrivers(gs);
    order, src, via := [], map[], map[];
    ghost var paths: map<nat, seq<nat>> := map v | v in visited :: [v];
    Seeded(gs, adj, om0, visited, queue);
    om, visited, order, src, via, paths := Drain(gs, adj, om0, om, visited, order, queue, src, via, paths);
    Done(gs, adj, om0, om, visited, order, src, via, paths);
  }
}
