/**
 * The contact graph seen as a graph to traverse: the speed-transfer law,
 * driver paths and reachability, and the invariant of the breadth-first
 * traversal in parts, with one lemma per step of the traversal.
 */
module Traversal {
  import opened Gears

  /** The angular velocity handed across one edge from the current gear
      (speed `wCur`, diameter `dCur`) to a neighbour of diameter `dNb`. */
  function Transfer(kind: Link, wCur: real, dCur: real, dNb: real): (w: real)
    requires dNb != 0.0
    ensures kind == Coaxial ==> w == wCur
    // meshed gears have equal and opposite rim speeds
    ensures kind == Mesh ==> w * dNb == -(wCur * dCur)
  {
    match kind
    case Coaxial => wCur
    case Mesh =>
      var ratio := dCur / dNb;
      assert ratio * dNb == dCur;
      -wCur * ratio
  }

  /** Every neighbour index names one of the `n` gears. */
  ghost predicate WellFormed(adj: seq<seq<Edge>>, n: nat)
  {
    |adj| == n && forall u, k :: 0 <= u < n && 0 <= k < |adj[u]| ==> adj[u][k].to < n
  }

  /** `v` is in the neighbour list of `u`. */
  ghost predicate Linked(adj: seq<seq<Edge>>, u: nat, v: nat)
  {
    u < |adj| && exists k :: 0 <= k < |adj[u]| && adj[u][k].to == v
  }

  function Last(p: seq<nat>): nat
    requires |p| > 0
  {
    p[|p| - 1]
  }

  /** A walk through the graph that starts at a driver: each gear of `p`
      after the first is in the neighbour list of the one before it. */
  ghost predicate IsDriverPath(gs: seq<Gear>, adj: seq<seq<Edge>>, p: seq<nat>)
    decreases |p|
  {
    if |p| <= 1 then |p| == 1 && p[0] < |gs| && gs[p[0]].isDriver
    else IsDriverPath(gs, adj, p[..|p| - 1]) && Linked(adj, p[|p| - 2], p[|p| - 1])
  }

  /** Gear `v` has a contact path from some driver. */
  ghost predicate Reachable(gs: seq<Gear>, adj: seq<seq<Edge>>, v: nat)
  {
    exists p :: IsDriverPath(gs, adj, p) && Last(p) == v
  }

  /** Every driver is in `s` and every edge out of `s` stays in `s`. */
  ghost predicate Closed(gs: seq<Gear>, adj: seq<seq<Edge>>, s: set<nat>)
  {
    (forall i :: 0 <= i < |gs| && gs[i].isDriver ==> i in s)
    && forall u, k :: u in s && u < |adj| && 0 <= k < |adj[u]| ==> adj[u][k].to in s
  }

  /** The indices of `n` gears. */
  ghost function Below(n: nat): (s: set<nat>)
    ensures forall j: nat :: j in s <==> j < n
  {
    if n == 0 then {} else Below(n - 1) + {n - 1}
  }

  ghost predicate Distinct(s: seq<nat>)
  {
    forall i, j :: 0 <= i < j < |s| ==> s[i] != s[j]
  }

  /**
   * How gear `v` received its speed: from the gear at position `src[v]` of
   * the dequeue order `dq`, across entry `via[v]` of that gear's list, by
   * the transfer law; `v` itself is not dequeued up to that position, no
   * gear dequeued earlier touches `v`, and no earlier entry of the same
   * list names `v`.
   */
  ghost predicate AssignedFrom(gs: seq<Gear>, adj: seq<seq<Edge>>, om: seq<real>,
                               dq: seq<nat>, src: map<nat, nat>, via: map<nat, nat>, v: nat)
  {
    v in src && v in via && src[v] < |dq| && v < |gs| && |om| == |gs| && |adj| == |gs|
    && dq[src[v]] < |gs| && via[v] < |adj[dq[src[v]]]| && gs[v].diameter != 0.0
    && adj[dq[src[v]]][via[v]].to == v
    && om[v] == Transfer(adj[dq[src[v]]][via[v]].kind, om[dq[src[v]]],
                         gs[dq[src[v]]].diameter, gs[v].diameter)
    && (forall q :: 0 <= q <= src[v] ==> dq[q] != v)
    && (forall q :: 0 <= q < src[v] ==> !Linked(adj, dq[q], v))
    && (forall k :: 0 <= k < via[v] ==> adj[dq[src[v]]][k].to != v)
  }

  /** `u` was discovered before `v`: by a gear dequeued earlier, or by the
      same gear at an earlier entry of its list. */
  ghost predicate DiscoveredBefore(src: map<nat, nat>, via: map<nat, nat>, u: nat, v: nat)
  {
    u in src && u in via && v in src && v in via
    && (src[u] < src[v] || (src[u] == src[v] && via[u] < via[v]))
  }

  /** The first-in first-out order of `all` (dequeued gears, then waiting
      ones): the drivers first, in index order, then the other gears in
      the order they were discovered. */
  ghost predicate Fifo(gs: seq<Gear>, all: seq<nat>, src: map<nat, nat>, via: map<nat, nat>)
  {
    (forall p :: 0 <= p < |all| ==> all[p] < |gs|)
    && (forall p, p' :: 0 <= p < p' < |all| && gs[all[p']].isDriver ==>
          gs[all[p]].isDriver && all[p] < all[p'])
    && (forall p, p' :: 0 <= p < p' < |all| && !gs[all[p]].isDriver && !gs[all[p']].isDriver ==>
          DiscoveredBefore(src, via, all[p], all[p']))
  }

  /** Every gear discovered so far was discovered before entry `k` of the
      list of the gear at position `s` of the dequeue order. */
  ghost predicate Frontier(gs: seq<Gear>, src: map<nat, nat>, via: map<nat, nat>, visited: set<nat>, s: nat, k: nat)
  {
    forall v :: v in visited && v < |gs| && !gs[v].isDriver ==>
      v in src && v in via && (src[v] < s || (src[v] == s && via[v] < k))
  }

  /** In a first-in first-out order, position and discovery order agree. */
  lemma FifoOrder(gs: seq<Gear>, all: seq<nat>, src: map<nat, nat>, via: map<nat, nat>)
    requires Fifo(gs, all, src, via) && Distinct(all)
    ensures forall p, p' :: 0 <= p < |all| && 0 <= p' < |all| && !gs[all[p]].isDriver && !gs[all[p']].isDriver ==>
              (p < p' <==> DiscoveredBefore(src, via, all[p], all[p']))
  {
    forall p, p' | 0 <= p < |all| && 0 <= p' < |all| && !gs[all[p]].isDriver && !gs[all[p']].isDriver
      ensures p < p' <==> DiscoveredBefore(src, via, all[p], all[p'])
    {
      if p' < p {
        assert DiscoveredBefore(src, via, all[p'], all[p]);
      }
    }
  }

  /** Appending a gear discovered after all others keeps the order first-in first-out. */
  lemma FifoAppend(gs: seq<Gear>, all: seq<nat>, src: map<nat, nat>, via: map<nat, nat>,
                   visited: set<nat>, nb: nat, s: nat, k: nat)
    requires Fifo(gs, all, src, via) && Frontier(gs, src, via, visited, s, k)
    requires forall p :: 0 <= p < |all| ==> all[p] in visited
    requires nb < |gs| && !gs[nb].isDriver && nb !in visited
    ensures Fifo(gs, all + [nb], src[nb := s], via[nb := k])
  {
    var all', src', via' := all + [nb], src[nb := s], via[nb := k];
    forall p | 0 <= p < |all| ensures all'[p] == all[p] && all[p] != nb {
      assert all[p] in visited;
    }
    forall p, p' | 0 <= p < p' < |all'| && !gs[all'[p]].isDriver && !gs[all'[p']].isDriver
      ensures DiscoveredBefore(src', via', all'[p], all'[p'])
    {
      if p' < |all| {
        assert DiscoveredBefore(src, via, all[p], all[p']);
      } else {
        assert all[p] in visited;
      }
    }
  }

  lemma PathExtend(gs: seq<Gear>, adj: seq<seq<Edge>>, p: seq<nat>, v: nat)
    requires IsDriverPath(gs, adj, p) && Linked(adj, Last(p), v)
    ensures IsDriverPath(gs, adj, p + [v]) && Last(p + [v]) == v
  {
    assert (p + [v])[..|p|] == p;
  }

  /** A closed set contains the end of every driver path. */
  lemma {:induction false} ClosedContainsPath(gs: seq<Gear>, adj: seq<seq<Edge>>, s: set<nat>, p: seq<nat>)
    requires Closed(gs, adj, s) && IsDriverPath(gs, adj, p)
    ensures Last(p) in s
    decreases |p|
  {
    if |p| > 1 {
      var p' := p[..|p| - 1];
      ClosedContainsPath(gs, adj, s, p');
      assert Last(p') == p[|p| - 2];
      var k :| 0 <= k < |adj[Last(p')]| && adj[Last(p')][k].to == Last(p);
    }
  }

  /** A closed set contains every gear reachable from a driver. */
  lemma ClosedContainsReachable(gs: seq<Gear>, adj: seq<seq<Edge>>, s: set<nat>, v: nat)
    requires Closed(gs, adj, s) && Reachable(gs, adj, v)
    ensures v in s
  {
    var p :| IsDriverPath(gs, adj, p) && Last(p) == v;
    ClosedContainsPath(gs, adj, s, p);
  }

  // ---------------------------------------------------------------------
  // The traversal's invariant, in parts. `dq` is the dequeue order so far,
  // `queue` the gears waiting, `om` the speeds written so far.

  /** Speeds of drivers and of gears not yet visited are still the initial ones. */
  ghost predicate Speeds(gs: seq<Gear>, om0: seq<real>, om: seq<real>, visited: set<nat>)
  {
    |om0| == |gs| && |om| == |gs| && (forall v :: v in visited ==> v < |gs|)
    && (forall j :: 0 <= j < |gs| && gs[j].isDriver ==> j in visited)
    && (forall j :: 0 <= j < |gs| && (gs[j].isDriver || j !in visited) ==> om[j] == om0[j])
  }

  /** The visited gears are exactly those dequeued or waiting, each once. */
  ghost predicate Queued(n: nat, visited: set<nat>, dq: seq<nat>, queue: seq<nat>)
  {
    (forall v :: v in visited <==> v in dq || v in queue)
    && Distinct(dq + queue)
    && (forall q :: 0 <= q < |dq| ==> dq[q] < n)
  }

  /** Every neighbour of every gear in `ds` is visited. */
  ghost predicate Expanded(adj: seq<seq<Edge>>, ds: seq<nat>, visited: set<nat>)
  {
    forall q, k :: 0 <= q < |ds| && ds[q] < |adj| && 0 <= k < |adj[ds[q]]| ==> adj[ds[q]][k].to in visited
  }

  /** The first `k` neighbours of `cur` are visited. */
  ghost predicate ExpandedBelow(adj: seq<seq<Edge>>, cur: nat, k: nat, visited: set<nat>)
  {
    cur < |adj| && k <= |adj[cur]| && forall k' :: 0 <= k' < k ==> adj[cur][k'].to in visited
  }

  /** Every visited non-driver got its speed as `AssignedFrom` says. */
  ghost predicate AllAssigned(gs: seq<Gear>, adj: seq<seq<Edge>>, om: seq<real>, dq: seq<nat>,
                              src: map<nat, nat>, via: map<nat, nat>, visited: set<nat>)
  {
    forall v :: v in visited && v < |gs| && !gs[v].isDriver ==> AssignedFrom(gs, adj, om, dq, src, via, v)
  }

  /** Every visited gear has a recorded driver path ending at it. */
  ghost predicate PathsTo(gs: seq<Gear>, adj: seq<seq<Edge>>, visited: set<nat>, paths: map<nat, seq<nat>>)
  {
    forall v :: v in visited ==> v in paths && IsDriverPath(gs, adj, paths[v]) && Last(paths[v]) == v
  }

  ghost predicate Sane(gs: seq<Gear>, adj: seq<seq<Edge>>)
  {
    WellFormed(adj, |gs|) && forall i :: 0 <= i < |gs| ==> gs[i].diameter > 0.0
  }

  /** Invariant between two dequeues. */
  ghost predicate OuterInv(gs: seq<Gear>, adj: seq<seq<Edge>>, om0: seq<real>, om: seq<real>,
                           visited: set<nat>, order: seq<nat>, queue: seq<nat>,
                           src: map<nat, nat>, via: map<nat, nat>, paths: map<nat, seq<nat>>)
  {
    Sane(gs, adj) && Speeds(gs, om0, om, visited) && Queued(|gs|, visited, order, queue)
    && Expanded(adj, order, visited) && AllAssigned(gs, adj, om, order, src, via, visited)
    && PathsTo(gs, adj, visited, paths)
    && Fifo(gs, order + queue, src, via) && Frontier(gs, src, via, visited, |order|, 0)
  }

  /** Invariant while the first `k` neighbours of the dequeued gear `cur` are handled. */
  ghost predicate InnerInv(gs: seq<Gear>, adj: seq<seq<Edge>>, om0: seq<real>, om: seq<real>,
                           visited: set<nat>, order: seq<nat>, cur: nat, k: nat, queue: seq<nat>,
                           src: map<nat, nat>, via: map<nat, nat>, paths: map<nat, seq<nat>>)
  {
    Sane(gs, adj) && Speeds(gs, om0, om, visited) && Queued(|gs|, visited, order + [cur], queue)
    && Expanded(adj, order, visited) && ExpandedBelow(adj, cur, k, visited)
    && AllAssigned(gs, adj, om, order + [cur], src, via, visited)
    && PathsTo(gs, adj, visited, paths)
    && Fifo(gs, order + [cur] + queue, src, via) && Frontier(gs, src, via, visited, |order|, k)
  }

  lemma ExpandedGrows(adj: seq<seq<Edge>>, ds: seq<nat>, visited: set<nat>, visited': set<nat>)
    requires Expanded(adj, ds, visited) && visited <= visited'
    ensures Expanded(adj, ds, visited')
  {
  }

  /** `cur` becomes fully expanded: it can join the expanded gears. */
  lemma ExpandedAppend(adj: seq<seq<Edge>>, ds: seq<nat>, cur: nat, visited: set<nat>)
    requires Expanded(adj, ds, visited) && cur < |adj| && ExpandedBelow(adj, cur, |adj[cur]|, visited)
    ensures Expanded(adj, ds + [cur], visited)
  {
    var ds' := ds + [cur];
    forall q, k | 0 <= q < |ds'| && ds'[q] < |adj| && 0 <= k < |adj[ds'[q]]|
      ensures adj[ds'[q]][k].to in visited
    {
      if q < |ds| {
        assert ds'[q] == ds[q];
      }
    }
  }

  /** Moving the head of the queue to the end of the dequeue order keeps the bookkeeping. */
  lemma QueuedShift(n: nat, visited: set<nat>, dq: seq<nat>, queue: seq<nat>)
    requires Queued(n, visited, dq, queue) && |queue| > 0
    requires forall v :: v in visited ==> v < n
    ensures queue[0] in visited && queue[0] !in dq
    ensures Queued(n, visited, dq + [queue[0]], queue[1..])
  {
    assert dq + queue == (dq + [queue[0]]) + queue[1..];
    assert queue[0] == (dq + queue)[|dq|];
    forall q | 0 <= q < |dq| ensures dq[q] != queue[0] {
      assert dq[q] == (dq + queue)[q];
    }
    forall v | v in visited ensures v in dq + [queue[0]] || v in queue[1..] {
      if v in queue {
        var i :| 0 <= i < |queue| && queue[i] == v;
        if i > 0 { assert queue[1..][i - 1] == v; }
      }
    }
    forall q | 0 <= q < |dq| + 1 ensures (dq + [queue[0]])[q] < n {
      if q < |dq| { assert (dq + [queue[0]])[q] == dq[q]; } else { assert queue[0] in visited; }
    }
  }

  /** Discovering `nb` appends it to the queue. */
  lemma QueuedAppend(n: nat, visited: set<nat>, dq: seq<nat>, queue: seq<nat>, nb: nat)
    requires Queued(n, visited, dq, queue) && nb !in visited
    ensures Queued(n, visited + {nb}, dq, queue + [nb])
  {
    assert dq + (queue + [nb]) == (dq + queue) + [nb];
    assert nb !in dq + queue;
    forall i | 0 <= i < |dq + queue| ensures (dq + queue)[i] != nb {
      assert (dq + queue)[i] in dq + queue;
    }
  }

  /** A record made against the dequeue order `dq` stays valid as `dq` grows. */
  lemma AssignedExtend(gs: seq<Gear>, adj: seq<seq<Edge>>, om: seq<real>, dq: seq<nat>, x: nat,
                       src: map<nat, nat>, via: map<nat, nat>, visited: set<nat>)
    requires AllAssigned(gs, adj, om, dq, src, via, visited)
    ensures AllAssigned(gs, adj, om, dq + [x], src, via, visited)
  {
    var dq' := dq + [x];
    forall v | v in visited && v < |gs| && !gs[v].isDriver
      ensures AssignedFrom(gs, adj, om, dq', src, via, v)
    {
      assert AssignedFrom(gs, adj, om, dq, src, via, v);
      assert dq'[src[v]] == dq[src[v]];
      forall q | 0 <= q <= src[v] ensures dq'[q] == dq[q] {
      }
    }
  }

  /** Taking the head of the queue starts an expansion. */
  lemma DequeueStep(gs: seq<Gear>, adj: seq<seq<Edge>>, om0: seq<real>, om: seq<real>,
                    visited: set<nat>, order: seq<nat>, queue: seq<nat>,
                    src: map<nat, nat>, via: map<nat, nat>, paths: map<nat, seq<nat>>)
    requires OuterInv(gs, adj, om0, om, visited, order, queue, src, via, paths) && |queue| > 0
    ensures queue[0] in visited && queue[0] < |gs| && |adj| == |gs| && |om| == |gs|
    ensures forall v :: v in visited ==> v < |gs|
    ensures InnerInv(gs, adj, om0, om, visited, order, queue[0], 0, queue[1..], src, via, paths)
  {
    QueuedShift(|gs|, visited, order, queue);
    assert order + queue == order + [queue[0]] + queue[1..];
    AssignedExtend(gs, adj, om, order, queue[0], src, via, visited);
  }

  /** Once every neighbour of `cur` is handled, `cur` joins the dequeued gears. */
  lemma FinishStep(gs: seq<Gear>, adj: seq<seq<Edge>>, om0: seq<real>, om: seq<real>,
                   visited: set<nat>, order: seq<nat>, cur: nat, queue: seq<nat>,
                   src: map<nat, nat>, via: map<nat, nat>, paths: map<nat, seq<nat>>)
    requires cur < |adj|
    requires InnerInv(gs, adj, om0, om, visited, order, cur, |adj[cur]|, queue, src, via, paths)
    ensures OuterInv(gs, adj, om0, om, visited, order + [cur], queue, src, via, paths)
  {
    ExpandedAppend(adj, order, cur, visited);
    assert order + [cur] + queue == (order + [cur]) + queue;
  }

  /** A neighbour that is already visited is skipped. */
  lemma SkipStep(gs: seq<Gear>, adj: seq<seq<Edge>>, om0: seq<real>, om: seq<real>,
                 visited: set<nat>, order: seq<nat>, cur: nat, k: nat, queue: seq<nat>,
                 src: map<nat, nat>, via: map<nat, nat>, paths: map<nat, seq<nat>>)
    requires InnerInv(gs, adj, om0, om, visited, order, cur, k, queue, src, via, paths)
    requires k < |adj[cur]| && adj[cur][k].to in visited
    ensures InnerInv(gs, adj, om0, om, visited, order, cur, k + 1, queue, src, via, paths)
  {
  }

  /** Speeds of gears other than `nb` are untouched by writing `nb`. */
  lemma AssignKeepsOthers(gs: seq<Gear>, adj: seq<seq<Edge>>, om: seq<real>, dq: seq<nat>,
                          src: map<nat, nat>, via: map<nat, nat>, visited: set<nat>,
                          nb: nat, w: real, s: nat, e: nat)
    requires nb < |om| && nb !in visited
    requires forall q :: 0 <= q < |dq| ==> dq[q] in visited
    requires AllAssigned(gs, adj, om, dq, src, via, visited)
    ensures AllAssigned(gs, adj, om[nb := w], dq, src[nb := s], via[nb := e], visited)
  {
    var om', src', via' := om[nb := w], src[nb := s], via[nb := e];
    forall v | v in visited && v < |gs| && !gs[v].isDriver
      ensures AssignedFrom(gs, adj, om', dq, src', via', v)
    {
      assert AssignedFrom(gs, adj, om, dq, src, via, v);
      assert v != nb && src'[v] == src[v] && via'[v] == via[v];
      assert dq[src[v]] in visited;
    }
  }

  /** The record for a gear `nb` discovered at entry `k` of the list of `cur`. */
  lemma AssignNew(gs: seq<Gear>, adj: seq<seq<Edge>>, om: seq<real>, order: seq<nat>, cur: nat, k: nat,
                  src: map<nat, nat>, via: map<nat, nat>, visited: set<nat>)
    requires Sane(gs, adj) && |om| == |gs| && cur in visited && cur < |gs|
    requires Expanded(adj, order, visited) && ExpandedBelow(adj, cur, k, visited)
    requires k < |adj[cur]| && adj[cur][k].to !in visited
    requires forall x :: x in order ==> x in visited
    ensures var nb := adj[cur][k].to;
            nb < |gs| &&
            AssignedFrom(gs, adj,
                         om[nb := Transfer(adj[cur][k].kind, om[cur], gs[cur].diameter, gs[nb].diameter)],
                         order + [cur], src[nb := |order|], via[nb := k], nb)
  {
    var nb := adj[cur][k].to;
    var dq := order + [cur];
    assert dq[|order|] == cur && cur != nb;
    forall q | 0 <= q < |order|
      ensures dq[q] == order[q] && order[q] != nb && !Linked(adj, dq[q], nb)
    {
      assert order[q] in order;
    }
  }

  /** The speeds after writing a newly discovered non-driver `nb`. */
  lemma SpeedsAssign(gs: seq<Gear>, om0: seq<real>, om: seq<real>, visited: set<nat>, nb: nat, w: real)
    requires Speeds(gs, om0, om, visited) && nb < |gs| && nb !in visited
    ensures Speeds(gs, om0, om[nb := w], visited + {nb})
  {
  }

  /** The first time a neighbour is seen it gets its speed from `cur`. */
  lemma AssignStep(gs: seq<Gear>, adj: seq<seq<Edge>>, om0: seq<real>, om: seq<real>,
                   visited: set<nat>, order: seq<nat>, cur: nat, k: nat, queue: seq<nat>,
                   src: map<nat, nat>, via: map<nat, nat>, paths: map<nat, seq<nat>>, nb: nat)
    requires InnerInv(gs, adj, om0, om, visited, order, cur, k, queue, src, via, paths)
    requires k < |adj[cur]| && nb == adj[cur][k].to && nb !in visited && cur in visited
    ensures nb < |gs| && cur < |gs| && gs[nb].diameter != 0.0 && cur in paths
    ensures InnerInv(gs, adj, om0,
                     om[nb := Transfer(adj[cur][k].kind, om[cur], gs[cur].diameter, gs[nb].diameter)],
                     visited + {nb}, order, cur, k + 1, queue + [nb],
                     src[nb := |order|], via[nb := k], paths[nb := paths[cur] + [nb]])
  {
    var dq := order + [cur];
    var w := Transfer(adj[cur][k].kind, om[cur], gs[cur].diameter, gs[nb].diameter);
    var visited' := visited + {nb};
    SpeedsAssign(gs, om0, om, visited, nb, w);
    QueuedAppend(|gs|, visited, dq, queue, nb);
    ExpandedGrows(adj, order, visited, visited');
    forall q | 0 <= q < |dq|
      ensures dq[q] in visited
    {
      assert dq[q] in dq;
    }
    AssignKeepsOthers(gs, adj, om, dq, src, via, visited, nb, w, |order|, k);
    forall x | x in order ensures x in visited {
      var q :| 0 <= q < |order| && order[q] == x;
      assert dq[q] == x;
    }
    AssignNew(gs, adj, om, order, cur, k, src, via, visited);
    forall p | 0 <= p < |dq + queue| ensures (dq + queue)[p] in visited {
      assert (dq + queue)[p] in dq + queue;
    }
    FifoAppend(gs, dq + queue, src, via, visited, nb, |order|, k);
    assert dq + (queue + [nb]) == (dq + queue) + [nb];
    assert Linked(adj, Last(paths[cur]), nb);
    PathExtend(gs, adj, paths[cur], nb);
  }

  /** With the queue empty, the visited set is closed under the graph, and
      the traversal's results are those `Propagate` promises. */
  lemma Done(gs: seq<Gear>, adj: seq<seq<Edge>>, om0: seq<real>, om: seq<real>,
             visited: set<nat>, order: seq<nat>,
             src: map<nat, nat>, via: map<nat, nat>, paths: map<nat, seq<nat>>)
    requires OuterInv(gs, adj, om0, om, visited, order, [], src, via, paths)
    ensures |om| == |gs|
    ensures forall v :: v in visited ==> v < |gs|
    ensures forall i :: 0 <= i < |gs| ==> (i in visited <==> Reachable(gs, adj, i))
    ensures forall i :: 0 <= i < |gs| && (gs[i].isDriver || i !in visited) ==> om[i] == om0[i]
    ensures forall v :: v in visited && !gs[v].isDriver ==> AssignedFrom(gs, adj, om, order, src, via, v)
    ensures Distinct(order) && forall v :: v in visited <==> v in order
    ensures forall p :: 0 <= p < |order| ==> order[p] < |gs|
    ensures forall p, p' :: 0 <= p < p' < |order| && gs[order[p']].isDriver ==>
              gs[order[p]].isDriver && order[p] < order[p']
    ensures forall p, p' :: 0 <= p < |order| && 0 <= p' < |order| && !gs[order[p]].isDriver && !gs[order[p']].isDriver ==>
              (p < p' <==> DiscoveredBefore(src, via, order[p], order[p']))
  {
    assert order + [] == order;
    FifoOrder(gs, order, src, via);
    forall u, k | u in visited && u < |adj| && 0 <= k < |adj[u]|
      ensures adj[u][k].to in visited
    {
      var q :| 0 <= q < |order| && order[q] == u;
    }
    assert Closed(gs, adj, visited);
    forall i | 0 <= i < |gs|
      ensures i in visited <==> Reachable(gs, adj, i)
    {
      if Reachable(gs, adj, i) {
        ClosedContainsReachable(gs, adj, visited, i);
      }
    }
  }

  /** The set of unvisited gears shrinks when a gear is discovered. */
  lemma UnvisitedShrinks(n: nat, visited0: set<nat>, visited: set<nat>)
    requires visited0 <= visited && visited0 != visited
    requires forall v :: v in visited ==> v < n
    ensures Below(n) - visited < Below(n) - visited0
  {
    var x :| x in visited && x !in visited0;
    assert x in Below(n) - visited0;
  }

  /** The drivers become the seeds of the traversal, each with a one-gear path. */
  lemma Seeded(gs: seq<Gear>, adj: seq<seq<Edge>>, om0: seq<real>, visited: set<nat>, queue: seq<nat>)
    requires Sane(gs, adj) && |om0| == |gs|
    requires forall v: nat :: v in visited <==> v < |gs| && gs[v].isDriver
    requires forall v :: v in visited <==> v in queue
    requires Distinct(queue)
    requires forall q, q' :: 0 <= q < q' < |queue| ==> queue[q] < queue[q']
    ensures OuterInv(gs, adj, om0, om0, visited, [], queue, map[], map[], map v | v in visited :: [v])
  {
    assert [] + queue == queue;
    forall p | 0 <= p < |queue| ensures queue[p] < |gs| && gs[queue[p]].isDriver {
      assert queue[p] in queue;
    }
    assert Fifo(gs, queue, map[], map[]);
    assert Frontier(gs, map[], map[], visited, 0, 0);
  }

}
