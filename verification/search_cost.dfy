/** What the corrected search's costs mean. A leg from `u` to `v` weighs the increment of the last
    `neighbours.set` call for `v` while `u` is expanded, since `Map.set` keeps only the last call
    for a key. With these weights, the cost the corrected search has recorded for `to` when it
    extracts it is no more than the start's seeded cost plus the weight of any chain of legs to `to`. */
module SearchCost {
  import opened Options
  import opened Transit
  import opened NeighbourMap
  import opened Neighbours
  import opened Queue
  import opened Search
  import opened SearchProofs

  // ---------------------------------------------------------------------------------------------
  // Leg and path weights, independently of the search

  /** The last offer for target `v` among the calls `os`. */
  function LastOffer(os: seq<Offer>, v: Id): (r: Offer)
    requires v in TargetsOf(os)
    ensures r in os && r.target == v
    decreases |os|
  {
    var n := |os|;
    if os[n - 1].target == v then os[n - 1]
    else
      assert v in TargetsOf(os[..n - 1]) by {
        var k :| 0 <= k < n && os[k].target == v;
        assert os[..n - 1][k] == os[k];
      }
      LastOffer(os[..n - 1], v)
  }

  /** Reading `v` after the calls `os` made at cost `cost` gives the last offer for `v`, at `cost`
      plus that offer's weight. */
  lemma {:induction false} LastOfferEntry(os: seq<Offer>, v: Id, cost: real)
    requires v in TargetsOf(os)
    ensures LastSet(Entries(os, cost), v) ==
            Some(Entry(v, cost + LastOffer(os, v).weight, LastOffer(os, v).text))
    decreases |os|
  {
    var n := |os|;
    var es := Entries(os, cost);
    if os[n - 1].target != v {
      var front := os[..n - 1];
      assert es[..n - 1] == Entries(front, cost);
      assert v in TargetsOf(front) by {
        var k :| 0 <= k < n && os[k].target == v;
        assert front[k] == os[k];
      }
      LastOfferEntry(front, v, cost);
    }
  }

  /** The weight of the leg from the place `u` to its target `v`. */
  function LegWeight(net: Network, u: Id, v: Id): (r: real)
    requires WellFormed(net) && IsPlaceId(net, u) && v in Targets(net, u)
    ensures r >= 0.0
  {
    OfferIncrements(net, u);
    var o := LastOffer(Offers(net, u), v);
    var k :| 0 <= k < |Offers(net, u)| && Offers(net, u)[k] == o;
    o.weight
  }

  /** The weight of the leg from `p[k]` to `p[k + 1]`. */
  ghost function Leg(net: Network, p: seq<Id>, k: nat): (r: real)
    requires WellFormed(net) && IsPath(net, p) && k < |p| - 1
    ensures r >= 0.0
  {
    LegWeight(net, p[k], p[k + 1])
  }

  /** The weights of the legs of the chain `p`, in order. */
  ghost function LegWeights(net: Network, p: seq<Id>): (r: seq<real>)
    requires WellFormed(net) && IsPath(net, p)
    ensures |r| == |p| - 1
    ensures forall k | 0 <= k < |r| :: r[k] == Leg(net, p, k) && r[k] >= 0.0
  {
    seq(|p| - 1, k requires 0 <= k < |p| - 1 => Leg(net, p, k))
  }

  /** The sum of the first `k` weights. */
  function Sum(ws: seq<real>, k: nat): real
    requires k <= |ws|
  {
    if k == 0 then 0.0 else Sum(ws, k - 1) + ws[k - 1]
  }

  /** The weight of all legs of the chain `p`. */
  ghost function PathWeight(net: Network, p: seq<Id>): real
    requires WellFormed(net) && IsPath(net, p)
  {
    Sum(LegWeights(net, p), |p| - 1)
  }

  /** The seeded cost of a start: `CHANGING_COST` for a spawn warp, 0 for `from` otherwise. */
  function StartCost(net: Network, x: Id): real {
    if x in net.spawnWarps then CHANGING_COST else 0.0
  }

  /** With no negative weight, a longer prefix sums to no less. */
  lemma {:induction false} SumGrows(ws: seq<real>, j: nat, k: nat)
    requires j <= k <= |ws|
    requires forall m | 0 <= m < |ws| :: ws[m] >= 0.0
    ensures Sum(ws, j) <= Sum(ws, k)
    decreases k - j
  {
    if j < k {
      SumGrows(ws, j, k - 1);
    }
  }

  // ---------------------------------------------------------------------------------------------
  // The invariant

  /** Every target of the recorded node `u` is recorded at no more than `u`'s cost plus the leg. */
  predicate Settled(net: Network, costs: map<Id, real>, u: Id)
    requires WellFormed(net) && IsPlaceId(net, u)
  {
    && u in costs
    && forall v | v in Targets(net, u) :: v in costs && costs[v] <= costs[u] + LegWeight(net, u, v)
  }

  /** Every start is recorded at no more than its seeded cost; every extracted node (`rank`) is
      settled; every recorded node not yet extracted is queued. */
  ghost predicate CheapInv(net: Network, from: Id, s: State, rank: map<Id, nat>)
    requires WellFormed(net)
  {
    && (forall x | IsStart(net, from, x) :: x in s.costs && s.costs[x] <= StartCost(net, x))
    && (forall u | u in rank :: IsPlaceId(net, u) && Settled(net, s.costs, u))
    && (forall n | n in s.costs :: n in rank || n in s.queue)
  }

  /** The seeded state satisfies `CheapInv` with nothing extracted. */
  lemma SeedCheap(net: Network, from: Id)
    requires WellFormed(net) && IsPlaceId(net, from)
    ensures CheapInv(net, from, Seed(net, from), map[])
  {
    var s := Seed(net, from);
    SeedQueued(net, from);
    forall x | IsStart(net, from, x) ensures x in s.costs && s.costs[x] <= StartCost(net, x) {
      if x in net.spawnWarps {
        var k :| 0 <= k < |net.spawnWarps| && net.spawnWarps[k] == x;
      }
    }
  }

  /** Relaxing from `i` records every target of `i` at no more than `i`'s cost plus the leg. */
  lemma ExpandLegs(net: Network, i: Id, cost: real, nb: seq<Entry>, s0: State, t: State)
    requires WellFormed(net) && IsPlaceId(net, i) && nb == Expand(net, i, cost, [])
    requires RelaxCosts(nb, s0, t)
    ensures forall v | v in Targets(net, i) :: v in t.costs && t.costs[v] <= cost + LegWeight(net, i, v)
  {
    var es := Entries(Offers(net, i), cost);
    assert nb == PutAll([], es);
    forall v | v in Targets(net, i) ensures v in t.costs && t.costs[v] <= cost + LegWeight(net, i, v) {
      GetPutAll([], es, v);
      LastOfferEntry(Offers(net, i), v, cost);
      var e := Get(nb, v).value;
      var k :| 0 <= k < |nb| && nb[k] == e;
    }
  }

  /** After the relaxation, the starts are still recorded within their seeded costs. */
  lemma RelaxKeepsStarts(net: Network, from: Id, s: State, nb: seq<Entry>, s0: State, t: State, rank: map<Id, nat>)
    requires WellFormed(net) && CheapInv(net, from, s, rank)
    requires s0.costs == s.costs && RelaxCosts(nb, s0, t)
    ensures forall x | IsStart(net, from, x) :: x in t.costs && t.costs[x] <= StartCost(net, x)
  {
  }

  /** After the relaxation, the extracted nodes, `i` now among them, are settled. */
  lemma RelaxSettles(net: Network, from: Id, s: State, i: Id, nb: seq<Entry>, s0: State, t: State,
                     rank: map<Id, nat>, rank': map<Id, nat>)
    requires WellFormed(net) && CheapInv(net, from, s, rank) && IsPlaceId(net, i)
    requires s0.costs == s.costs && RelaxCosts(nb, s0, t)
    requires i in s.costs
    requires forall v | v in Targets(net, i) :: v in t.costs && t.costs[v] <= s.costs[i] + LegWeight(net, i, v)
    requires rank'.Keys == rank.Keys + {i}
    requires forall d | d in rank' :: d in s.costs && t.costs[d] == s.costs[d]
    ensures forall u | u in rank' :: IsPlaceId(net, u) && Settled(net, t.costs, u)
  {
    forall u | u in rank' ensures IsPlaceId(net, u) && Settled(net, t.costs, u) {
      if u != i {
        assert u in rank && Settled(net, s.costs, u);
      }
    }
  }

  /** After the relaxation, every recorded node not extracted is queued. */
  lemma RelaxKeepsQueued(net: Network, from: Id, s: State, i: Id, nb: seq<Entry>, s0: State, t: State,
                         rank: map<Id, nat>, rank': map<Id, nat>)
    requires WellFormed(net) && CheapInv(net, from, s, rank)
    requires multiset(s0.queue) + multiset{i} == multiset(s.queue) && s0.costs == s.costs
    requires RelaxCosts(nb, s0, t) && RelaxQueue(nb, s0, t)
    requires rank'.Keys == rank.Keys + {i}
    ensures forall n | n in t.costs :: n in rank' || n in t.queue
  {
    RelaxQueued(s0, nb, i, t, s.queue);
  }

  /** Relaxing from `i`, which costs no less than any extracted node, keeps `CheapInv`, with `i`
      extracted too. */
  lemma RelaxCheap(net: Network, from: Id, s: State, rest: seq<Id>, i: Id, nb: seq<Entry>,
                   rank: map<Id, nat>, rank': map<Id, nat>)
    requires WellFormed(net) && CheapInv(net, from, s, rank) && IsPlaceId(net, i) && i in s.costs
    requires multiset(rest) + multiset{i} == multiset(s.queue)
    requires nb == Expand(net, i, s.costs[i], [])
    requires rank'.Keys == rank.Keys + {i}
    requires forall d | d in rank' :: d in s.costs && s.costs[d] <= s.costs[i]
    ensures CheapInv(net, from, Relax(nb, i, State(rest, s.costs, s.cameFrom, [])), rank')
  {
    var s0 := State(rest, s.costs, s.cameFrom, []);
    var t := Relax(nb, i, s0);
    ExpandCostsAtLeast(net, i, s.costs[i]);
    assert RelaxCosts(nb, s0, t) && RelaxPreds(nb, i, s0, t) && RelaxQueue(nb, s0, t);
    RelaxFloor(s0, nb, i, t, rank');
    ExpandLegs(net, i, s.costs[i], nb, s0, t);
    RelaxKeepsStarts(net, from, s, nb, s0, t, rank);
    RelaxSettles(net, from, s, i, nb, s0, t, rank, rank');
    RelaxKeepsQueued(net, from, s, i, nb, s0, t, rank, rank');
  }

  /** Expanding and relaxing from the extracted node keeps `CheapInv`, with that node extracted. */
  lemma ExpandCheap(net: Network, from: Id, to: Id, s: State, rank: map<Id, nat>, c: nat)
    requires WellFormed(net) && Inv(net, from, s) && RankInv(to, from, s, rank, c) && CheapInv(net, from, s, rank)
    requires |s.queue| > 0
    ensures var p := Extract(s.queue, s.costs);
            var i := p.top;
            IsPlaceId(net, i) &&
            CheapInv(net, from, Relax(Expand(net, i, s.costs[i], []), i, State(p.rest, s.costs, s.cameFrom, [])),
                     RankAfter(rank, i, c))
  {
    var p := Extract(s.queue, s.costs);
    var i := p.top;
    var rank' := RankAfter(rank, i, c);
    assert i in s.costs && IsPlaceId(net, i);
    assert rank'.Keys == rank.Keys + {i};
    RankedBelowTop(s, i, rank, c, rank');
    RelaxCheap(net, from, s, p.rest, i, Expand(net, i, s.costs[i], []), rank, rank');
  }

  /** One corrected iteration that expands a node keeps `CheapInv`, with that node extracted. */
  lemma StepCheap(net: Network, from: Id, to: Id, s: State, rank: map<Id, nat>, c: nat)
    requires WellFormed(net) && Inv(net, from, s) && RankInv(to, from, s, rank, c) && CheapInv(net, from, s, rank)
    requires |s.queue| > 0 && Extract(s.queue, s.costs).top != to
    ensures Step(net, from, to, Corrected, s).Next?
    ensures CheapInv(net, from, Step(net, from, to, Corrected, s).state,
                     RankAfter(rank, Extract(s.queue, s.costs).top, c))
  {
    CorrectedStep(net, from, to, s);
    ExpandCheap(net, from, to, s, rank, c);
  }

  // ---------------------------------------------------------------------------------------------
  // The bound at extraction

  /** The first position at or after `k` whose node has not been extracted. */
  function FirstOut(p: seq<Id>, rank: map<Id, nat>, k: nat): (m: nat)
    requires k < |p| && p[|p| - 1] !in rank
    ensures k <= m < |p| && p[m] !in rank
    ensures forall j | k <= j < m :: p[j] in rank
    decreases |p| - k
  {
    if p[k] !in rank then k else FirstOut(p, rank, k + 1)
  }

  /** Along a chain of extracted nodes from a start, each node is recorded at no more than the
      start's seeded cost plus the weight of the legs so far. */
  lemma {:induction false} PrefixBound(net: Network, from: Id, s: State, rank: map<Id, nat>, p: seq<Id>, k: nat)
    requires WellFormed(net) && CheapInv(net, from, s, rank)
    requires IsPath(net, p) && IsStart(net, from, p[0]) && k < |p|
    requires forall j | 0 <= j < k :: p[j] in rank
    ensures p[k] in s.costs && s.costs[p[k]] <= StartCost(net, p[0]) + Sum(LegWeights(net, p), k)
    decreases k
  {
    if k > 0 {
      PrefixBound(net, from, s, rank, p, k - 1);
      assert LegWeights(net, p)[k - 1] == Leg(net, p, k - 1);
      assert p[k - 1] in rank && Settled(net, s.costs, p[k - 1]);
      assert p[k] in Targets(net, p[k - 1]);
    }
  }

  /** When `to` is extracted, its recorded cost is no more than any start's seeded cost plus the
      weight of any chain of legs from that start to `to`. */
  lemma ExtractedBound(net: Network, from: Id, to: Id, s: State, rank: map<Id, nat>, c: nat, p: seq<Id>)
    requires WellFormed(net) && Inv(net, from, s) && RankInv(to, from, s, rank, c) && CheapInv(net, from, s, rank)
    requires |s.queue| > 0 && Extract(s.queue, s.costs).top == to
    requires IsPath(net, p) && IsStart(net, from, p[0]) && p[|p| - 1] == to
    ensures to in s.costs && s.costs[to] <= StartCost(net, p[0]) + PathWeight(net, p)
  {
    assert to !in rank;
    var m := FirstOut(p, rank, 0);
    PrefixBound(net, from, s, rank, p, m);
    assert p[m] in s.queue;
    var k :| 0 <= k < |s.queue| && s.queue[k] == p[m];
    SumGrows(LegWeights(net, p), m, |p| - 1);
  }

  // ---------------------------------------------------------------------------------------------
  // The whole search

  /** The state at the top of the iteration in which the loop from `s` returns. */
  function Last(net: Network, from: Id, to: Id, v: Variant, s: State): (r: State)
    requires WellFormed(net) && Inv(net, from, s)
    ensures Inv(net, from, r) && Step(net, from, to, v, r).Finished?
    ensures Run(net, from, to, v, s) == Step(net, from, to, v, r).outcome
    decreases |net.nodes.Keys - s.costs.Keys|, |s.queue|
  {
    match Step(net, from, to, v, s)
    case Finished(_) => s
    case Next(t) =>
      ProgressDecreases(net, from, s, t);
      Last(net, from, to, v, t)
  }

  /** The costs recorded when the corrected search returns. */
  function FinalCosts(net: Network, from: Id, to: Id): map<Id, real>
    requires WellFormed(net) && IsPlaceId(net, from)
  {
    SeedInv(net, from);
    Last(net, from, to, Corrected, Seed(net, from)).costs
  }

  /** From any state with the invariants, a route found by the corrected loop goes to a `to` whose
      recorded cost is within every chain's bound. */
  lemma {:induction false} RunCheap(net: Network, from: Id, to: Id, s: State, rank: map<Id, nat>, c: nat)
    requires WellFormed(net) && Inv(net, from, s) && RankInv(to, from, s, rank, c) && CheapInv(net, from, s, rank)
    ensures var l := Last(net, from, to, Corrected, s);
            Run(net, from, to, Corrected, s).Route? ==>
              to in l.costs &&
              forall p | IsPath(net, p) && IsStart(net, from, p[0]) && p[|p| - 1] == to ::
                l.costs[to] <= StartCost(net, p[0]) + PathWeight(net, p)
    decreases |net.nodes.Keys - s.costs.Keys|, |s.queue|
  {
    match Step(net, from, to, Corrected, s)
    case Finished(r) =>
      if r.Route? {
        assert |s.queue| > 0 && Extract(s.queue, s.costs).top == to;
        forall p | IsPath(net, p) && IsStart(net, from, p[0]) && p[|p| - 1] == to
          ensures s.costs[to] <= StartCost(net, p[0]) + PathWeight(net, p)
        {
          ExtractedBound(net, from, to, s, rank, c, p);
        }
      }
    case Next(t) =>
      assert |s.queue| > 0 && Extract(s.queue, s.costs).top != to;
      var i := Extract(s.queue, s.costs).top;
      StepRanked(net, from, to, s, rank, c);
      StepCheap(net, from, to, s, rank, c);
      ProgressDecreases(net, from, s, t);
      RunCheap(net, from, to, t, RankAfter(rank, i, c), c + 1);
  }

  /** When the corrected search finds a route, the cost it recorded for `to` is the least any chain
      of legs allows: no more than the start's seeded cost plus the chain's weight, for every
      start and every chain from it to `to`. */
  lemma CorrectedRouteIsCheapest(net: Network, from: Id, to: Id)
    requires WellFormed(net) && IsPlaceId(net, from)
    ensures Dijkstra(net, from, to, Corrected).Route? ==>
              to in FinalCosts(net, from, to) &&
              forall p | IsPath(net, p) && IsStart(net, from, p[0]) && p[|p| - 1] == to ::
                FinalCosts(net, from, to)[to] <= StartCost(net, p[0]) + PathWeight(net, p)
  {
    SeedInv(net, from);
    var s := Seed(net, from);
    assert RankInv(to, from, s, map[], 0);
    SeedCheap(net, from);
    RunCheap(net, from, to, s, map[], 0);
  }
}
