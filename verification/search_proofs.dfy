/** What the search finds. A route is only ever found to a node some chain of legs reaches, in
    the source and in the corrected variant alike. With the corrected treatment of `Town`s, the
    search is also complete (it answers "No solution" only when no chain of legs reaches the
    destination) and its reconstruction always ends. */
module SearchProofs {
  import opened Transit
  import opened NeighbourMap
  import opened Neighbours
  import opened Queue
  import opened Search

  // ---------------------------------------------------------------------------------------------
  // Reachability, independently of the search

  /** The nodes one leg away from the place `n`. */
  function Targets(net: Network, n: Id): (r: set<Id>)
    requires WellFormed(net) && IsPlaceId(net, n)
  {
    TargetsOf(Offers(net, n))
  }

  /** A chain of places, each one leg away from the one before. */
  ghost predicate IsPath(net: Network, p: seq<Id>)
    requires WellFormed(net)
  {
    && |p| > 0
    && (forall k | 0 <= k < |p| :: IsPlaceId(net, p[k]))
    && (forall k | 0 <= k < |p| - 1 :: IsPlaceId(net, p[k]) && p[k + 1] in Targets(net, p[k]))
  }

  /** Where a journey may start: at `from`, or at any spawn warp. */
  predicate IsStart(net: Network, from: Id, x: Id) {
    x == from || x in net.spawnWarps
  }

  /** Some chain of legs leads from a start to `to`. */
  ghost predicate Reachable(net: Network, from: Id, to: Id)
    requires WellFormed(net)
  {
    exists p :: IsPath(net, p) && IsStart(net, from, p[0]) && p[|p| - 1] == to
  }

  /** The targets of a place are places. */
  lemma TargetsArePlaces(net: Network, n: Id, y: Id)
    requires WellFormed(net) && IsPlaceId(net, n) && y in Targets(net, n)
    ensures IsPlaceId(net, y)
  {
    OfferIncrements(net, n);
    var k :| 0 <= k < |Offers(net, n)| && Offers(net, n)[k].target == y;
  }

  /** A start that is a place is reachable. */
  lemma StartReachable(net: Network, from: Id, x: Id)
    requires WellFormed(net) && IsPlaceId(net, x) && IsStart(net, from, x)
    ensures Reachable(net, from, x)
  {
    assert IsPath(net, [x]);
  }

  /** One more leg from a reachable place reaches its target. */
  lemma ReachableStep(net: Network, from: Id, x: Id, y: Id)
    requires WellFormed(net) && IsPlaceId(net, x) && Reachable(net, from, x) && y in Targets(net, x)
    ensures Reachable(net, from, y)
  {
    var p :| IsPath(net, p) && IsStart(net, from, p[0]) && p[|p| - 1] == x;
    TargetsArePlaces(net, x, y);
    var p' := p + [y];
    forall k | 0 <= k < |p'| ensures IsPlaceId(net, p'[k]) {
      if k < |p| { assert p'[k] == p[k]; }
    }
    forall k | 0 <= k < |p'| - 1 ensures IsPlaceId(net, p'[k]) && p'[k + 1] in Targets(net, p'[k]) {
      if k < |p| - 1 {
        assert p'[k] == p[k] && p'[k + 1] == p[k + 1];
      } else {
        assert p'[k] == x && p'[k + 1] == y;
      }
    }
    assert IsPath(net, p') && p'[0] == p[0];
  }

  /** Every spawn warp is a place. */
  lemma WarpsArePlaces(net: Network)
    requires WellFormed(net)
    ensures forall k | 0 <= k < |net.spawnWarps| :: IsPlaceId(net, net.spawnWarps[k])
  {
  }

  // ---------------------------------------------------------------------------------------------
  // Soundness

  /** Every recorded node and every entry still in `neighbours` is reachable. */
  ghost predicate SoundInv(net: Network, from: Id, s: State)
    requires WellFormed(net)
  {
    && (forall n | n in s.costs :: Reachable(net, from, n))
    && (forall k | 0 <= k < |s.pending| :: Reachable(net, from, s.pending[k].target))
  }

  lemma ExpandSound(net: Network, from: Id, i: Id, cost: real, pending: seq<Entry>)
    requires WellFormed(net) && IsPlaceId(net, i) && Distinct(pending)
    requires forall k | 0 <= k < |pending| :: IsPlaceId(net, pending[k].target)
    requires Reachable(net, from, i)
    requires forall k | 0 <= k < |pending| :: Reachable(net, from, pending[k].target)
    ensures forall x | x in Keys(Expand(net, i, cost, pending)) :: Reachable(net, from, x)
  {
    forall x | x in Keys(Expand(net, i, cost, pending)) ensures Reachable(net, from, x) {
      if x in Keys(pending) {
        var k :| 0 <= k < |pending| && pending[k].target == x;
      } else {
        ReachableStep(net, from, i, x);
      }
    }
  }

  /** One iteration keeps `SoundInv`, and a route is only reconstructed to a recorded node. */
  lemma StepSound(net: Network, from: Id, to: Id, v: Variant, s: State)
    requires WellFormed(net) && Inv(net, from, s) && SoundInv(net, from, s)
    ensures var r := Step(net, from, to, v, s);
            (r.Next? ==> SoundInv(net, from, r.state)) &&
            (r.Finished? && !r.outcome.NoSolution? ==> Reachable(net, from, to))
  {
    if |s.queue| > 0 {
      var p := Extract(s.queue, s.costs);
      var i := p.top;
      assert i in s.costs;
      if i != to {
        ExpandSound(net, from, i, s.costs[i], s.pending);
        var nb := Expand(net, i, s.costs[i], s.pending);
        assert forall k | 0 <= k < |nb| :: nb[k].target in Keys(nb);
        if !(v == AsWritten && net.nodes[i].kind.OtherLocated?) {
          var t := Relax(nb, i, State(p.rest, s.costs, s.cameFrom, []));
          assert RelaxCosts(nb, State(p.rest, s.costs, s.cameFrom, []), t);
        }
      }
    }
  }

  /** The loop from a sound state only finds routes to reachable nodes. */
  lemma {:induction false} RunSound(net: Network, from: Id, to: Id, v: Variant, s: State)
    requires WellFormed(net) && Inv(net, from, s) && SoundInv(net, from, s)
    ensures Run(net, from, to, v, s).Route? ==> Reachable(net, from, to)
    decreases |net.nodes.Keys - s.costs.Keys|, |s.queue|
  {
    StepSound(net, from, to, v, s);
    match Step(net, from, to, v, s)
    case Finished(_) =>
    case Next(t) =>
      ProgressDecreases(net, from, s, t);
      RunSound(net, from, to, v, t);
  }

  lemma SeedSound(net: Network, from: Id)
    requires WellFormed(net) && IsPlaceId(net, from)
    ensures SoundInv(net, from, Seed(net, from))
  {
    var s := Seed(net, from);
    forall n | n in s.costs ensures Reachable(net, from, n) {
      if n != from {
        var k :| 0 <= k < |net.spawnWarps| && net.spawnWarps[k] == n;
      }
      StartReachable(net, from, n);
    }
  }

  /** Both variants: a route is only ever found to a reachable destination. */
  lemma RouteOnlyIfReachable(net: Network, from: Id, to: Id, v: Variant)
    requires WellFormed(net) && IsPlaceId(net, from)
    ensures Dijkstra(net, from, to, v).Route? ==> Reachable(net, from, to)
  {
    SeedInv(net, from);
    SeedSound(net, from);
    RunSound(net, from, to, v, Seed(net, from));
  }

  // ---------------------------------------------------------------------------------------------
  // Each id is pushed by at most one iteration

  /** An iteration keeps the rest of the queue in order and pushes only ids that had no recorded
      cost, each once, and records them. Recorded ids stay recorded (`Progress`), so an id pushed
      by one iteration is never pushed by a later one. */
  lemma StepPushesOnlyNew(net: Network, from: Id, to: Id, v: Variant, s: State)
    requires WellFormed(net) && Inv(net, from, s)
    ensures var r := Step(net, from, to, v, s);
            r.Next? ==>
              var rest := Extract(s.queue, s.costs).rest;
              && |r.state.queue| >= |rest| && r.state.queue[..|rest|] == rest
              && NoDuplicates(r.state.queue[|rest|..])
              && (forall x | x in r.state.queue[|rest|..] :: x !in s.costs && x in r.state.costs)
  {
    if |s.queue| > 0 {
      var p := Extract(s.queue, s.costs);
      if p.top != to {
        var nb := Expand(net, p.top, s.costs[p.top], s.pending);
        if v == AsWritten && net.nodes[p.top].kind.OtherLocated? {
          assert p.rest[..|p.rest|] == p.rest;
        } else {
          var s0 := State(p.rest, s.costs, s.cameFrom, []);
          var t := Relax(nb, p.top, s0);
          assert RelaxCosts(nb, s0, t) && RelaxQueue(nb, s0, t);
        }
      }
    }
  }

  // ---------------------------------------------------------------------------------------------
  // Completeness of the corrected search

  /** Every recorded node is still queued, or it is not the destination and all its targets are
      recorded; the starts are recorded and `neighbours` is empty. */
  predicate ClosedInv(net: Network, from: Id, to: Id, s: State)
    requires WellFormed(net)
  {
    && s.pending == []
    && (forall k | 0 <= k < |net.spawnWarps| :: net.spawnWarps[k] in s.costs)
    && (forall n | n in s.costs :: IsPlaceId(net, n) && (n in s.queue || (n != to && Targets(net, n) <= s.costs.Keys)))
  }

  /** Expanding `i` from an empty `neighbours` list offers exactly its targets, each costing at
      least `i`'s own cost. */
  lemma ExpandFromEmpty(net: Network, i: Id, cost: real)
    requires WellFormed(net) && IsPlaceId(net, i)
    ensures var nb := Expand(net, i, cost, []);
            && Keys(nb) == Targets(net, i)
            && (forall k | 0 <= k < |nb| :: nb[k].cost >= cost)
  {
    ExpandCostsAtLeast(net, i, cost);
  }

  /** Every entry offered from an empty `neighbours` list costs at least the expanded node. */
  lemma ExpandCostsAtLeast(net: Network, i: Id, cost: real)
    requires WellFormed(net) && IsPlaceId(net, i)
    ensures forall k | 0 <= k < |Expand(net, i, cost, [])| :: Expand(net, i, cost, [])[k].cost >= cost
  {
    var es := Entries(Offers(net, i), cost);
    EntriesCostAtLeast(net, i, cost);
    var nb := PutAll([], es);
    assert Expand(net, i, cost, []) == nb;
    forall k | 0 <= k < |nb| ensures nb[k].cost >= cost {
      var j :| 0 <= j < |es| && es[j] == nb[k];
    }
  }

  /** What the corrected iteration that expands `i` computes. */
  lemma CorrectedStep(net: Network, from: Id, to: Id, s: State)
    requires WellFormed(net) && Inv(net, from, s) && s.pending == [] && |s.queue| > 0
    requires Extract(s.queue, s.costs).top != to
    ensures var p := Extract(s.queue, s.costs);
            var i := p.top;
            var nb := Expand(net, i, s.costs[i], []);
            && IsPlaceId(net, i)
            && Keys(nb) == Targets(net, i)
            && (forall k | 0 <= k < |nb| :: nb[k].cost >= s.costs[i])
            && Step(net, from, to, Corrected, s) == Next(Relax(nb, i, State(p.rest, s.costs, s.cameFrom, [])))
  {
    var i := Extract(s.queue, s.costs).top;
    assert i in s.costs;
    ExpandFromEmpty(net, i, s.costs[i]);
  }

  lemma StepClosed(net: Network, from: Id, to: Id, s: State)
    requires WellFormed(net) && Inv(net, from, s) && ClosedInv(net, from, to, s)
    ensures var r := Step(net, from, to, Corrected, s);
            (r.Next? ==> ClosedInv(net, from, to, r.state)) &&
            (r == Finished(NoSolution) ==> forall n | n in s.costs :: n != to && Targets(net, n) <= s.costs.Keys)
  {
    if |s.queue| > 0 {
      var p := Extract(s.queue, s.costs);
      if p.top != to {
        CorrectedStep(net, from, to, s);
        var nb := Expand(net, p.top, s.costs[p.top], []);
        RelaxClosed(net, from, to, s, p.rest, p.top, nb);
      }
    }
  }

  /** Relaxing the targets of `i` closes `i` and queues every newly recorded node. */
  lemma RelaxClosed(net: Network, from: Id, to: Id, s: State, rest: seq<Id>, i: Id, nb: seq<Entry>)
    requires WellFormed(net) && ClosedInv(net, from, to, s)
    requires i in s.queue && i != to && IsPlaceId(net, i)
    requires multiset(rest) + multiset{i} == multiset(s.queue)
    requires Keys(nb) == Targets(net, i)
    ensures ClosedInv(net, from, to, Relax(nb, i, State(rest, s.costs, s.cameFrom, [])))
  {
    var s0 := State(rest, s.costs, s.cameFrom, []);
    var t := Relax(nb, i, s0);
    assert RelaxCosts(nb, s0, t);
    RelaxQueued(s0, nb, i, t, s.queue);
    forall n | n in t.costs ensures IsPlaceId(net, n) {
      if n !in s.costs { TargetsArePlaces(net, i, n); }
    }
  }

  /** After relaxing from the extracted node `i`, every node queued before other than `i`, and
      every newly recorded node, is queued. */
  lemma RelaxQueued(s0: State, nb: seq<Entry>, i: Id, t: State, q: seq<Id>)
    requires multiset(s0.queue) + multiset{i} == multiset(q)
    requires RelaxCosts(nb, s0, t) && RelaxQueue(nb, s0, t)
    ensures forall n | n in t.costs && (n !in s0.costs || (n in q && n != i)) :: n in t.queue
  {
    forall n | n in t.costs && (n !in s0.costs || (n in q && n != i)) ensures n in t.queue {
      if n !in s0.costs {
        assert n in t.queue[|s0.queue|..];
        var k :| |s0.queue| <= k < |t.queue| && t.queue[k] == n;
      } else {
        assert n in multiset(q);
        assert multiset(q)[n] == multiset(s0.queue)[n];
        var k :| 0 <= k < |s0.queue| && s0.queue[k] == n;
        assert t.queue[..|s0.queue|][k] == n;
      }
    }
  }

  /** A chain of legs that starts in a set closed under taking legs stays in it. */
  lemma {:induction false} PathStaysIn(net: Network, p: seq<Id>, c: set<Id>, k: nat)
    requires WellFormed(net) && IsPath(net, p) && p[0] in c && k < |p|
    requires forall n | n in c :: IsPlaceId(net, n) && Targets(net, n) <= c
    ensures p[k] in c
  {
    if k > 0 {
      PathStaysIn(net, p, c, k - 1);
    }
  }

  /** Nothing outside a closed set of recorded nodes that holds every start is reachable. */
  lemma Unreachable(net: Network, from: Id, to: Id, c: set<Id>)
    requires WellFormed(net) && from in c
    requires forall k | 0 <= k < |net.spawnWarps| :: net.spawnWarps[k] in c
    requires forall n | n in c :: IsPlaceId(net, n) && n != to && Targets(net, n) <= c
    ensures !Reachable(net, from, to)
  {
    if Reachable(net, from, to) {
      var p :| IsPath(net, p) && IsStart(net, from, p[0]) && p[|p| - 1] == to;
      if p[0] != from {
        var k :| 0 <= k < |net.spawnWarps| && net.spawnWarps[k] == p[0];
      }
      PathStaysIn(net, p, c, |p| - 1);
    }
  }

  lemma {:induction false} RunComplete(net: Network, from: Id, to: Id, s: State)
    requires WellFormed(net) && Inv(net, from, s) && ClosedInv(net, from, to, s)
    ensures Run(net, from, to, Corrected, s) == NoSolution ==> !Reachable(net, from, to)
    decreases |net.nodes.Keys - s.costs.Keys|, |s.queue|
  {
    StepClosed(net, from, to, s);
    match Step(net, from, to, Corrected, s)
    case Finished(r) =>
      if r == NoSolution {
        Unreachable(net, from, to, s.costs.Keys);
      }
    case Next(t) =>
      ProgressDecreases(net, from, s, t);
      RunComplete(net, from, to, t);
  }

  lemma SeedClosed(net: Network, from: Id, to: Id)
    requires WellFormed(net) && IsPlaceId(net, from)
    ensures ClosedInv(net, from, to, Seed(net, from))
  {
    SeedInv(net, from);
    SeedQueued(net, from);
  }

  /** Every node the seeding records is queued. */
  lemma SeedQueued(net: Network, from: Id)
    requires WellFormed(net)
    ensures forall n | n in Seed(net, from).costs :: n in Seed(net, from).queue
  {
    var s := Seed(net, from);
    assert s.queue == [from] + net.spawnWarps;
  }

  /** The corrected search answers "No solution" only when nothing reaches the destination. */
  lemma NoSolutionOnlyIfUnreachable(net: Network, from: Id, to: Id)
    requires WellFormed(net) && IsPlaceId(net, from)
    ensures Dijkstra(net, from, to, Corrected) == NoSolution ==> !Reachable(net, from, to)
  {
    SeedInv(net, from);
    SeedClosed(net, from, to);
    RunComplete(net, from, to, Seed(net, from));
  }

  // ---------------------------------------------------------------------------------------------
  // The corrected reconstruction always ends

  /** Along `cameFrom`, predecessors lead to `from` or to nodes extracted earlier: `rank` numbers
      the extracted nodes in extraction order. */
  predicate Ranked(cf: map<Id, Pred>, from: Id, rank: map<Id, nat>) {
    forall n | n in cf && n != from ::
      cf[n].from == from || (cf[n].from in rank && (n in rank ==> rank[cf[n].from] < rank[n]))
  }

  /** The walk back from `fi` reaches `from` when `fi` is `from` or ranked and every node already
      left is ranked higher than `fi` (or not ranked at all). */
  lemma {:induction false} WalkEnds(cf: map<Id, Pred>, from: Id, fi: Id, visited: set<Id>, keys: set<Id>,
                                    rank: map<Id, nat>)
    requires Chained(cf, from, keys) && fi in keys && visited <= keys && Ranked(cf, from, rank)
    requires fi == from || fi in rank
    requires forall x | x in visited :: x != from && (fi != from && x in rank ==> rank[x] > rank[fi])
    ensures Walk(cf, from, fi, visited, keys).Some?
    decreases |keys - visited|
  {
    if fi != from {
      var p := cf[fi].from;
      assert |keys - (visited + {fi})| < |keys - visited| by {
        assert keys - (visited + {fi}) == (keys - visited) - {fi};
      }
      WalkEnds(cf, from, p, visited + {fi}, keys, rank);
    }
  }

  /** The reconstruction from a node that was never extracted ends. */
  lemma ReconstructEnds(cf: map<Id, Pred>, from: Id, to: Id, keys: set<Id>, rank: map<Id, nat>)
    requires Chained(cf, from, keys) && to in keys && Ranked(cf, from, rank) && to !in rank
    ensures Reconstruct(cf, from, to, keys).Route?
  {
    if to != from {
      assert |keys - {to}| < |keys - {}| by {
        assert keys - {to} == (keys - {}) - {to};
      }
      WalkEnds(cf, from, cf[to].from, {to}, keys, rank);
    }
  }

  /** The extracted nodes (`rank`, numbered below `c`) are recorded, are not the destination, and
      cost no more than any queued node; `cameFrom` is `Ranked`; `neighbours` is empty. */
  predicate RankInv(to: Id, from: Id, s: State, rank: map<Id, nat>, c: nat) {
    && s.pending == []
    && (forall d | d in rank :: d in s.costs && d != to && rank[d] < c)
    && (forall d, k | d in rank && 0 <= k < |s.queue| && s.queue[k] in s.costs ::
          s.costs[d] <= s.costs[s.queue[k]])
    && Ranked(s.cameFrom, from, rank)
  }

  /** The number `i` gets when it is extracted. */
  function RankAfter(rank: map<Id, nat>, i: Id, c: nat): (r: map<Id, nat>) {
    if i in rank then rank else rank[i := c]
  }

  /** Relaxing from the cheapest queued node `i` changes no extracted node, and every new or
      changed cost is at least `i`'s. */
  lemma RelaxFloor(s0: State, nb: seq<Entry>, i: Id, t: State, rank: map<Id, nat>)
    requires i in s0.costs && forall k | 0 <= k < |nb| :: nb[k].cost >= s0.costs[i]
    requires forall d | d in rank :: d in s0.costs && s0.costs[d] <= s0.costs[i]
    requires RelaxCosts(nb, s0, t) && RelaxPreds(nb, i, s0, t)
    ensures forall n | n in t.costs :: (n in s0.costs && t.costs[n] == s0.costs[n]) || t.costs[n] >= s0.costs[i]
    ensures forall d | d in rank :: t.costs[d] == s0.costs[d]
  {
    forall n | n in t.costs
      ensures (n in s0.costs && t.costs[n] == s0.costs[n]) || t.costs[n] >= s0.costs[i]
    {
      if n !in s0.costs || t.costs[n] < s0.costs[n] {
        var k :| 0 <= k < |nb| && nb[k].target == n && nb[k].cost == t.costs[n] && nb[k].text == t.cameFrom[n].text;
      }
    }
  }

  /** The extracted nodes, `i` included, are recorded and cost no more than `i`. */
  lemma RankedBelowTop(s: State, i: Id, rank: map<Id, nat>, c: nat, rank': map<Id, nat>)
    requires Costed(s.queue, s.costs) && i in s.queue
    requires forall d | d in rank :: d in s.costs
    requires forall d, k | d in rank && 0 <= k < |s.queue| && s.queue[k] in s.costs :: s.costs[d] <= s.costs[s.queue[k]]
    requires rank' == RankAfter(rank, i, c)
    ensures i in s.costs
    ensures forall d | d in rank' :: d in s.costs && s.costs[d] <= s.costs[i]
  {
    var k :| 0 <= k < |s.queue| && s.queue[k] == i;
  }

  /** After the relaxation, the extracted nodes still cost no more than any queued node. */
  lemma RelaxCheapestFirst(s: State, rest: seq<Id>, i: Id, nb: seq<Entry>, t: State, rank': map<Id, nat>)
    requires Costed(s.queue, s.costs) && i in s.costs
    requires multiset(rest) + multiset{i} == multiset(s.queue)
    requires forall k | 0 <= k < |s.queue| :: s.costs[i] <= s.costs[s.queue[k]]
    requires forall d | d in rank' :: d in s.costs && s.costs[d] <= s.costs[i]
    requires RelaxQueue(nb, State(rest, s.costs, s.cameFrom, []), t)
    requires t.costs.Keys >= s.costs.Keys
    requires forall n | n in t.costs :: (n in s.costs && t.costs[n] == s.costs[n]) || t.costs[n] >= s.costs[i]
    requires forall d | d in rank' :: t.costs[d] == s.costs[d]
    ensures forall d, k | d in rank' && 0 <= k < |t.queue| && t.queue[k] in t.costs ::
              t.costs[d] <= t.costs[t.queue[k]]
  {
    forall d, k | d in rank' && 0 <= k < |t.queue| && t.queue[k] in t.costs
      ensures t.costs[d] <= t.costs[t.queue[k]]
    {
      var n := t.queue[k];
      if k < |rest| {
        assert n == t.queue[..|rest|][k] == rest[k];
        assert n in multiset(s.queue);
        var j :| 0 <= j < |s.queue| && s.queue[j] == n;
      } else {
        assert n in t.queue[|rest|..];
      }
    }
  }

  /** After the relaxation, `cameFrom` is still `Ranked` once `i` is ranked. */
  lemma RelaxKeepsRanked(s: State, from: Id, rest: seq<Id>, i: Id, nb: seq<Entry>, t: State, rank': map<Id, nat>)
    requires (forall n | n in s.cameFrom :: n in s.costs) && Ranked(s.cameFrom, from, rank')
    requires i in rank' && forall d | d in rank' :: d in s.costs
    requires RelaxCosts(nb, State(rest, s.costs, s.cameFrom, []), t)
    requires RelaxPreds(nb, i, State(rest, s.costs, s.cameFrom, []), t)
    requires forall d | d in rank' :: t.costs[d] == s.costs[d]
    ensures Ranked(t.cameFrom, from, rank')
  {
    forall n | n in t.cameFrom && n != from
      ensures t.cameFrom[n].from == from ||
              (t.cameFrom[n].from in rank' && (n in rank' ==> rank'[t.cameFrom[n].from] < rank'[n]))
    {
      assert n in t.costs;
      if n in s.costs && t.costs[n] == s.costs[n] {
        assert t.cameFrom[n] == s.cameFrom[n];
      }
    }
  }

  /** Ranking one more node, numbered after all others, keeps `Ranked`. */
  lemma RankAfterRanked(cf: map<Id, Pred>, from: Id, rank: map<Id, nat>, i: Id, c: nat)
    requires Ranked(cf, from, rank) && forall d | d in rank :: rank[d] < c
    ensures Ranked(cf, from, RankAfter(rank, i, c))
  {
    var rank' := RankAfter(rank, i, c);
    assert forall d | d in rank :: d in rank' && rank'[d] == rank[d];
  }

  /** Ranking `i` next keeps every ranked node recorded, other than the destination, and numbered
      below the next number. */
  lemma RankAfterRecorded(to: Id, costs: map<Id, real>, costs': map<Id, real>, rank: map<Id, nat>, i: Id, c: nat)
    requires forall d | d in rank :: d in costs && d != to && rank[d] < c
    requires i in costs && i != to && costs.Keys <= costs'.Keys
    ensures forall d | d in RankAfter(rank, i, c) :: d in costs' && d != to && RankAfter(rank, i, c)[d] < c + 1
  {
  }

  /** Relaxing from the cheapest queued node `i` keeps `RankInv`, with `i` ranked next. */
  lemma RelaxRanked(net: Network, from: Id, to: Id, s: State, rest: seq<Id>, i: Id, nb: seq<Entry>,
                    rank: map<Id, nat>, c: nat)
    requires Inv(net, from, s) && RankInv(to, from, s, rank, c)
    requires |s.queue| > 0 && Extract(s.queue, s.costs) == Popped(i, rest) && i != to
    requires forall k | 0 <= k < |nb| :: nb[k].cost >= s.costs[i]
    ensures RankInv(to, from, Relax(nb, i, State(rest, s.costs, s.cameFrom, [])), RankAfter(rank, i, c), c + 1)
  {
    var s0 := State(rest, s.costs, s.cameFrom, []);
    var t := Relax(nb, i, s0);
    var rank' := RankAfter(rank, i, c);
    RankedBelowTop(s, i, rank, c, rank');
    assert RelaxCosts(nb, s0, t) && RelaxPreds(nb, i, s0, t) && RelaxQueue(nb, s0, t);
    RelaxFloor(s0, nb, i, t, rank');
    RelaxCheapestFirst(s, rest, i, nb, t, rank');
    RankAfterRanked(s.cameFrom, from, rank, i, c);
    RelaxKeepsRanked(s, from, rest, i, nb, t, rank');
    RankAfterRecorded(to, s.costs, t.costs, rank, i, c);
  }

  /** One corrected iteration that expands a node keeps `RankInv`, with that node ranked next. */
  lemma StepRanked(net: Network, from: Id, to: Id, s: State, rank: map<Id, nat>, c: nat)
    requires WellFormed(net) && Inv(net, from, s) && RankInv(to, from, s, rank, c)
    requires |s.queue| > 0 && Extract(s.queue, s.costs).top != to
    ensures Step(net, from, to, Corrected, s).Next?
    ensures RankInv(to, from, Step(net, from, to, Corrected, s).state,
                    RankAfter(rank, Extract(s.queue, s.costs).top, c), c + 1)
  {
    CorrectedStep(net, from, to, s);
    ExpandRanked(net, from, to, s, rank, c);
  }

  /** Expanding and relaxing from the extracted node keeps `RankInv`, with that node ranked next. */
  lemma ExpandRanked(net: Network, from: Id, to: Id, s: State, rank: map<Id, nat>, c: nat)
    requires WellFormed(net) && Inv(net, from, s) && RankInv(to, from, s, rank, c)
    requires |s.queue| > 0 && Extract(s.queue, s.costs).top != to
    ensures var p := Extract(s.queue, s.costs);
            var i := p.top;
            IsPlaceId(net, i) &&
            RankInv(to, from, Relax(Expand(net, i, s.costs[i], []), i, State(p.rest, s.costs, s.cameFrom, [])),
                    RankAfter(rank, i, c), c + 1)
  {
    var p := Extract(s.queue, s.costs);
    var i := p.top;
    assert i in s.costs && IsPlaceId(net, i);
    ExpandCostsAtLeast(net, i, s.costs[i]);
    RelaxRanked(net, from, to, s, p.rest, i, Expand(net, i, s.costs[i], []), rank, c);
  }

  /** A corrected iteration that ends the search does not end it in a reconstruction that never
      ends. */
  lemma FinishRanked(net: Network, from: Id, to: Id, s: State, rank: map<Id, nat>, c: nat)
    requires WellFormed(net) && Inv(net, from, s) && RankInv(to, from, s, rank, c)
    ensures Step(net, from, to, Corrected, s) != Finished(Diverges)
  {
    if |s.queue| > 0 && Extract(s.queue, s.costs).top == to {
      ReconstructEnds(s.cameFrom, from, to, s.costs.Keys, rank);
    }
  }

  lemma {:induction false} RunEnds(net: Network, from: Id, to: Id, s: State, rank: map<Id, nat>, c: nat)
    requires WellFormed(net) && Inv(net, from, s) && RankInv(to, from, s, rank, c)
    ensures Run(net, from, to, Corrected, s) != Diverges
    decreases |net.nodes.Keys - s.costs.Keys|, |s.queue|
  {
    FinishRanked(net, from, to, s, rank, c);
    match Step(net, from, to, Corrected, s)
    case Finished(_) =>
    case Next(t) =>
      assert |s.queue| > 0 && Extract(s.queue, s.costs).top != to;
      StepRanked(net, from, to, s, rank, c);
      ProgressDecreases(net, from, s, t);
      RunEnds(net, from, to, t, RankAfter(rank, Extract(s.queue, s.costs).top, c), c + 1);
  }

  /** The corrected reconstruction always ends. */
  lemma CorrectedNeverDiverges(net: Network, from: Id, to: Id)
    requires WellFormed(net) && IsPlaceId(net, from)
    ensures Dijkstra(net, from, to, Corrected) != Diverges
  {
    SeedInv(net, from);
    var s := Seed(net, from);
    assert RankInv(to, from, s, map[], 0);
    RunEnds(net, from, to, s, map[], 0);
  }

  /** The corrected search finds a route exactly when some chain of legs reaches the destination,
      and otherwise answers "No solution". */
  lemma CorrectedRouteIffReachable(net: Network, from: Id, to: Id)
    requires WellFormed(net) && IsPlaceId(net, from)
    ensures Dijkstra(net, from, to, Corrected).Route? <==> Reachable(net, from, to)
    ensures Dijkstra(net, from, to, Corrected) == NoSolution <==> !Reachable(net, from, to)
  {
    RouteOnlyIfReachable(net, from, to, Corrected);
    NoSolutionOnlyIfUnreachable(net, from, to);
    CorrectedNeverDiverges(net, from, to);
  }
}
