/** Two networks on which the search as written goes wrong, both because a `Town` ends its
    iteration with `continue`: its proximity entries are not relaxed in the town's own iteration
    (and never, when no later iteration reaches the relaxation loop), and they are left in
    `neighbours` for the next iteration, which relaxes them as if they were its own. */
module Findings {
  import opened Options
  import opened Transit
  import opened NeighbourMap
  import opened Neighbours
  import opened Queue
  import opened Search
  import opened SearchProofs
  import Display

  const Blank := Display.Fields(None, None, None, None)

  /** A located node with the given proximity links and no shared facility. */
  function Near(prox: seq<Proximity>): (r: Located) {
    Located(prox, [])
  }

  // ---------------------------------------------------------------------------------------------
  // A town's neighbours are not relaxed in its own iteration, and here no later iteration relaxes them

  /** Town 1 lies 8 blocks from town 2; there are no spawn warps. */
  const TwoTowns := Network(
    map[1 := Node(Blank, OtherLocated("Town", Near([Proximity(2, 8.0)]))),
        2 := Node(Blank, OtherLocated("Town", Near([])))],
    [])

  lemma TwoTownsWellFormed()
    ensures WellFormed(TwoTowns)
  {
    assert NodeOk(TwoTowns, TwoTowns.nodes[1]);
    assert NodeOk(TwoTowns, TwoTowns.nodes[2]);
  }

  lemma TwoTownsTargets()
    requires WellFormed(TwoTowns)
    ensures |Offers(TwoTowns, 1)| == 1 && Offers(TwoTowns, 1)[0].target == 2
    ensures Targets(TwoTowns, 1) == {2}
  {
    var net := TwoTowns;
    assert KindOffers(net, 1) == [];
    assert |ProximityOffers(net, [Proximity(2, 8.0)])| == 1;
  }

  /** The only iteration expands town 1, leaves its entry in `neighbours`, and empties the queue. */
  lemma TwoTownsRun()
    requires WellFormed(TwoTowns)
    ensures Dijkstra(TwoTowns, 1, 2, AsWritten) == NoSolution
  {
    var net := TwoTowns;
    SeedInv(net, 1);
    var s0 := Seed(net, 1);
    assert s0.queue == [1];
    assert Extract(s0.queue, s0.costs).top == 1 && Extract(s0.queue, s0.costs).rest == [];
    var step := Step(net, 1, 2, AsWritten, s0);
    assert step.Next? && step.state.queue == [];
    assert Step(net, 1, 2, AsWritten, step.state) == Finished(NoSolution);
    assert Run(net, 1, 2, AsWritten, step.state) == NoSolution;
    assert Run(net, 1, 2, AsWritten, s0) == NoSolution;
  }

  /** Town 2 is one leg from town 1, yet the search from 1 to 2 answers "No solution". */
  lemma TownNeighboursDropped()
    ensures WellFormed(TwoTowns) && IsPlaceId(TwoTowns, 1)
    ensures Reachable(TwoTowns, 1, 2)
    ensures Dijkstra(TwoTowns, 1, 2, AsWritten) == NoSolution
  {
    TwoTownsWellFormed();
    TwoTownsTargets();
    assert IsPath(TwoTowns, [1, 2]);
    TwoTownsRun();
  }

  /** With the correction, the same search finds the route. */
  lemma TownNeighboursKeptWhenCorrected()
    ensures WellFormed(TwoTowns) && IsPlaceId(TwoTowns, 1)
    ensures Dijkstra(TwoTowns, 1, 2, Corrected).Route?
  {
    TownNeighboursDropped();
    CorrectedRouteIffReachable(TwoTowns, 1, 2);
  }

  // ---------------------------------------------------------------------------------------------
  // A stale town entry makes the reconstruction loop forever

  /** Bus stop 1 lies 8 blocks from town 2 and 80 from bus stop 3. */
  const Stop1 := Node(Blank, Stop(Bus, 5, Near([Proximity(2, 8.0), Proximity(3, 80.0)]), []))

  /** Town 2 lies 8 blocks from bus stop 3. */
  const Town2 := Node(Blank, OtherLocated("Town", Near([Proximity(3, 8.0)])))

  /** Line 6 of company 5 runs from bus stop 3 to bus stop 4. */
  const Stop3 := Node(Blank, Stop(Bus, 5, Near([]), [Link(4, [Connection(6, None)])]))

  const Loop := Network(
    map[1 := Stop1, 2 := Town2, 3 := Stop3,
        4 := Node(Blank, Stop(Bus, 5, Near([]), [])),
        5 := Node(Blank, Company("BusCompany")),
        6 := Node(Blank, Line("BusLine", 5))],
    [])

  lemma LoopWellFormed()
    ensures WellFormed(Loop)
  {
    forall id | id in Loop.nodes ensures NodeOk(Loop, Loop.nodes[id]) {
      assert IsLineId(Loop, 6);
    }
  }

  /** What the search from 1 to 4 sees of a network: no spawn warps, and nodes 1, 2 and 3 of
      `Loop`. */
  predicate LoopShaped(net: Network) {
    && WellFormed(net) && net.spawnWarps == []
    && 1 in net.nodes && net.nodes[1] == Stop1
    && 2 in net.nodes && net.nodes[2] == Town2
    && 3 in net.nodes && net.nodes[3] == Stop3
  }

  lemma LoopIsLoopShaped()
    ensures LoopShaped(Loop)
  {
    LoopWellFormed();
  }

  /** The offers of stop 1: town 2 at weight 1 (8 blocks) and stop 3 at weight 10 (80 blocks). */
  predicate FirstOffersAre(os: seq<Offer>) {
    |os| == 2 && os[0].target == 2 && os[0].weight == 1.0 && os[1].target == 3 && os[1].weight == 10.0
  }

  /** The offers of town 2: stop 3 at weight 1. */
  predicate SecondOffersAre(os: seq<Offer>) {
    |os| == 1 && os[0].target == 3 && os[0].weight == 1.0
  }

  /** The offers of stop 3: stop 4 by line 6 at weight `WARP_COST`. */
  predicate ThirdOffersAre(os: seq<Offer>) {
    |os| == 1 && os[0].target == 4 && os[0].weight == 10.0
  }

  lemma FirstOffers(net: Network)
    requires LoopShaped(net)
    ensures IsPlaceId(net, 1) && FirstOffersAre(Offers(net, 1))
  {
    assert KindOffers(net, 1) == [];
  }

  lemma SecondOffers(net: Network)
    requires LoopShaped(net)
    ensures IsPlaceId(net, 2) && SecondOffersAre(Offers(net, 2))
  {
    assert KindOffers(net, 2) == [];
  }

  lemma ThirdOffers(net: Network)
    requires LoopShaped(net)
    ensures IsPlaceId(net, 3) && ThirdOffersAre(Offers(net, 3))
  {
    var links := [Link(4, [Connection(6, None)])];
    assert NodeOk(net, net.nodes[3]);
    assert LinksOk(net, links);
    assert IsPlaceId(net, links[0].target) && IsLineId(net, links[0].conns[0].line);
    assert LocatedOffers(net, Near([])) == [];
    assert LinkOffers(net, 3, links) == ConnsOffers(net, 3, 4, [Connection(6, None)]);
  }

  /** `neighbours` after expanding stop 1 at cost 0. */
  predicate FirstEntriesAre(nb: seq<Entry>) {
    |nb| == 2 && nb[0].target == 2 && nb[0].cost == 1.0 && nb[1].target == 3 && nb[1].cost == 10.0
  }

  /** `neighbours` after expanding town 2 at cost 1: the entry the town leaves behind. */
  predicate StaleEntryIs(nb: seq<Entry>) {
    |nb| == 1 && nb[0].target == 3 && nb[0].cost == 2.0
  }

  /** `neighbours` after expanding stop 3 at cost 10 on top of the stale entry. */
  predicate ThirdEntriesAre(nb: seq<Entry>) {
    |nb| == 2 && nb[0].target == 3 && nb[0].cost == 2.0 && nb[1].target == 4 && nb[1].cost == 20.0
  }

  /** The recorded costs once stops 2 and 3 have been queued. */
  const ThreeCosts := map[1 := 0.0, 2 := 1.0, 3 := 10.0]

  /** The state after the first iteration. */
  predicate AfterFirst(s: State) {
    s.queue == [2, 3] && s.pending == [] && s.costs == ThreeCosts
  }

  /** The state after the second iteration. */
  predicate AfterSecond(s: State) {
    s.queue == [3] && s.costs == ThreeCosts && StaleEntryIs(s.pending)
  }

  /** The state after the third iteration: stop 3 is its own predecessor. */
  predicate AfterThird(s: State) {
    s.queue == [4] && 3 in s.cameFrom && s.cameFrom[3].from == 3 && 4 in s.cameFrom && s.cameFrom[4].from == 3
  }

  /** The iteration that extracts `top` from a non-empty queue, when `top` is not the destination. */
  lemma StepExpands(net: Network, from: Id, to: Id, v: Variant, s: State, top: Id, rest: seq<Id>, nb: seq<Entry>)
    requires WellFormed(net) && Inv(net, from, s) && |s.queue| > 0
    requires Extract(s.queue, s.costs) == Popped(top, rest) && top != to
    requires nb == Expand(net, top, s.costs[top], s.pending)
    ensures Step(net, from, to, v, s) ==
              if v == AsWritten && net.nodes[top].kind.OtherLocated? then Next(State(rest, s.costs, s.cameFrom, nb))
              else Next(Relax(nb, top, State(rest, s.costs, s.cameFrom, [])))
  {
  }

  /** `set` calls on keys not yet present append, in order. */
  lemma {:induction false} PutAllFresh(m: seq<Entry>, es: seq<Entry>)
    requires Distinct(m) && Distinct(es)
    requires forall k | 0 <= k < |es| :: es[k].target !in Keys(m)
    ensures PutAll(m, es) == m + es
    decreases |es|
  {
    if |es| > 0 {
      FreshTail(m, es);
      PutAllFresh(Put(m, es[0]), es[1..]);
      AppendHead(m, es);
    }
  }

  /** Splitting off the head of the appended list. A lemma of its own rather than an assertion in
      `PutAllFresh`: stated there, the sequence equality costs the solver far more. */
  lemma AppendHead(m: seq<Entry>, es: seq<Entry>)
    requires |es| > 0
    ensures m + [es[0]] + es[1..] == m + es
  {
    assert es == [es[0]] + es[1..];
  }

  /** After the head of a list of entries for distinct new targets is put, the tail is still new. */
  lemma FreshTail(m: seq<Entry>, es: seq<Entry>)
    requires |es| > 0 && Distinct(m) && Distinct(es)
    requires forall k | 0 <= k < |es| :: es[k].target !in Keys(m)
    ensures Put(m, es[0]) == m + [es[0]]
    ensures PutAll(m, es) == PutAll(Put(m, es[0]), es[1..])
    ensures Distinct(es[1..])
    ensures forall k | 0 <= k < |es[1..]| :: es[1..][k].target !in Keys(Put(m, es[0]))
  {
    var tail := es[1..];
    assert Keys(Put(m, es[0])) == Keys(m) + {es[0].target};
    forall k | 0 <= k < |tail| ensures tail[k].target !in Keys(m) + {es[0].target} {
      assert tail[k] == es[k + 1];
    }
    forall j, k | 0 <= j < k < |tail| ensures tail[j].target != tail[k].target {
      assert tail[j] == es[j + 1] && tail[k] == es[k + 1];
    }
  }

  /** Expanding a node whose offers go to distinct targets from an empty `neighbours` map gives its
      entries in order, and on top of entries for other targets appends them. */
  lemma ExpandFresh(net: Network, i: Id, cost: real, pending: seq<Entry>)
    requires WellFormed(net) && IsPlaceId(net, i) && Distinct(pending)
    requires forall k | 0 <= k < |pending| :: IsPlaceId(net, pending[k].target)
    requires forall k | 0 <= k < |Offers(net, i)| :: Offers(net, i)[k].target !in Keys(pending)
    requires forall j, k | 0 <= j < k < |Offers(net, i)| :: Offers(net, i)[j].target != Offers(net, i)[k].target
    ensures Expand(net, i, cost, pending) == pending + Entries(Offers(net, i), cost)
  {
    var es := Entries(Offers(net, i), cost);
    assert Distinct(es);
    assert forall k | 0 <= k < |es| :: es[k].target !in Keys(pending);
    PutAllFresh(pending, es);
  }

  /** Appending to the empty list. A lemma of its own rather than an assertion in the expansion
      lemmas: stated there, the sequence equality costs the solver far more. */
  lemma EmptyAppend<T>(s: seq<T>)
    ensures [] + s == s
  {
  }

  lemma RelaxPair(e0: Entry, e1: Entry, i: Id, s: State)
    ensures Relax([e0, e1], i, s) == RelaxOne(e1, i, RelaxOne(e0, i, s))
  {
    assert [e0, e1][1..] == [e1];
    assert Relax([e0, e1], i, s) == Relax([e1], i, RelaxOne(e0, i, s));
    RelaxSingle(e1, i, RelaxOne(e0, i, s));
  }

  lemma RelaxSingle(e: Entry, i: Id, s: State)
    ensures Relax([e], i, s) == RelaxOne(e, i, s)
  {
    assert [e][1..] == [];
  }

  /** Popping a one-element queue. */
  lemma ExtractSingle(x: Id, costs: map<Id, real>)
    requires x in costs
    ensures Extract([x], costs) == Popped(x, [])
  {
    assert SortDesc([x], costs) == [x];
  }

  /** Stop 1's expansion puts town 2 at cost 1 and stop 3 at cost 10. */
  lemma FirstExpansion(net: Network)
    requires WellFormed(net) && IsPlaceId(net, 1) && FirstOffersAre(Offers(net, 1))
    ensures FirstEntriesAre(Expand(net, 1, 0.0, []))
  {
    ExpandFresh(net, 1, 0.0, []);
    EmptyAppend(Entries(Offers(net, 1), 0.0));
  }

  /** Expanding stop 1 records town 2 at cost 1 and stop 3 at cost 10. */
  lemma LoopFirst(net: Network, s: State)
    requires LoopShaped(net) && Inv(net, 1, s)
    requires s.queue == [1] && s.costs == map[1 := 0.0] && s.pending == []
    ensures Step(net, 1, 4, AsWritten, s).Next? && AfterFirst(Step(net, 1, 4, AsWritten, s).state)
  {
    FirstOffers(net);
    FirstExpansion(net);
    var nb := Expand(net, 1, 0.0, []);
    ExtractSingle(1, s.costs);
    StepExpands(net, 1, 4, AsWritten, s, 1, [], nb);
    FirstRelaxation(nb, s.costs, s.cameFrom);
  }

  /** Relaxing stop 1's two entries records both targets and queues them in order. */
  lemma FirstRelaxation(nb: seq<Entry>, costs: map<Id, real>, cf: map<Id, Pred>)
    requires FirstEntriesAre(nb) && costs == map[1 := 0.0]
    ensures AfterFirst(Relax(nb, 1, State([], costs, cf, [])))
  {
    assert nb == [nb[0], nb[1]];
    RelaxPair(nb[0], nb[1], 1, State([], costs, cf, []));
  }

  /** Town 2's expansion puts stop 3 at cost 2. */
  lemma SecondExpansion(net: Network)
    requires WellFormed(net) && IsPlaceId(net, 2) && SecondOffersAre(Offers(net, 2))
    ensures StaleEntryIs(Expand(net, 2, 1.0, []))
  {
    ExpandFresh(net, 2, 1.0, []);
    EmptyAppend(Entries(Offers(net, 2), 1.0));
  }

  /** Town 2, the cheapest, is extracted; its entry for stop 3 at cost 2 stays in `neighbours`. */
  lemma LoopSecond(net: Network, s: State)
    requires LoopShaped(net) && Inv(net, 1, s) && AfterFirst(s)
    ensures Step(net, 1, 4, AsWritten, s).Next? && AfterSecond(Step(net, 1, 4, AsWritten, s).state)
  {
    SecondOffers(net);
    SecondExpansion(net);
    ExtractCheaper(s.costs);
    assert s.costs[2] == 1.0;
    StepExpands(net, 1, 4, AsWritten, s, 2, [3], Expand(net, 2, 1.0, []));
  }

  lemma ExtractCheaper(costs: map<Id, real>)
    requires costs == ThreeCosts
    ensures Extract([2, 3], costs) == Popped(2, [3])
  {
    assert SortDesc([2, 3], costs) == [3, 2];
  }

  /** Stop 3's expansion keeps the stale entry first and appends stop 4 at cost 20. */
  lemma ThirdExpansion(net: Network, pending: seq<Entry>)
    requires WellFormed(net) && IsPlaceId(net, 3) && ThirdOffersAre(Offers(net, 3)) && StaleEntryIs(pending)
    requires Distinct(pending) && forall k | 0 <= k < |pending| :: IsPlaceId(net, pending[k].target)
    ensures ThirdEntriesAre(Expand(net, 3, 10.0, pending))
  {
    var es := Entries(Offers(net, 3), 10.0);
    assert 4 !in Keys(pending);
    ExpandFresh(net, 3, 10.0, pending);
    StaleThenLine(pending, es);
  }

  /** The stale entry followed by the line entry. */
  lemma StaleThenLine(pending: seq<Entry>, es: seq<Entry>)
    requires StaleEntryIs(pending) && |es| == 1 && es[0].target == 4 && es[0].cost == 20.0
    ensures ThirdEntriesAre(pending + es)
  {
  }

  /** Stop 3 is extracted; relaxing the stale entry records stop 3 as its own predecessor at cost
      2, and its line records stop 4 with predecessor 3. */
  lemma LoopThird(net: Network, s: State)
    requires LoopShaped(net) && Inv(net, 1, s) && AfterSecond(s)
    ensures Step(net, 1, 4, AsWritten, s).Next? && AfterThird(Step(net, 1, 4, AsWritten, s).state)
  {
    ThirdOffers(net);
    ThirdExpansion(net, s.pending);
    var nb := Expand(net, 3, 10.0, s.pending);
    ExtractSingle(3, s.costs);
    StepExpands(net, 1, 4, AsWritten, s, 3, [], nb);
    ThirdRelaxation(nb, s.costs, s.cameFrom);
  }

  /** Relaxing the stale entry and stop 3's own entry: the stale entry is cheaper than stop 3's
      recorded cost, so stop 3 becomes its own predecessor. */
  lemma ThirdRelaxation(nb: seq<Entry>, costs: map<Id, real>, cf: map<Id, Pred>)
    requires ThirdEntriesAre(nb) && costs == ThreeCosts
    ensures AfterThird(Relax(nb, 3, State([], costs, cf, [])))
  {
    assert nb == [nb[0], nb[1]];
    RelaxPair(nb[0], nb[1], 3, State([], costs, cf, []));
  }

  /** The walk back from 4 goes 4, 3, 3, ...: it comes back to 3 without meeting 1. */
  lemma WalkCycles(cf: map<Id, Pred>, keys: set<Id>)
    requires Chained(cf, 1, keys) && 4 in keys
    requires 3 in cf && cf[3].from == 3 && 4 in cf && cf[4].from == 3
    ensures Reconstruct(cf, 1, 4, keys) == Diverges
  {
    assert Walk(cf, 1, 3, {} + {4} + {3}, keys) == None;
    assert Walk(cf, 1, 3, {} + {4}, keys) == None;
  }

  /** Stop 4 is extracted and its route is reconstructed. */
  lemma LoopFourth(net: Network, s: State)
    requires WellFormed(net) && Inv(net, 1, s) && AfterThird(s)
    ensures Step(net, 1, 4, AsWritten, s) == Finished(Diverges)
  {
    ExtractSingle(4, s.costs);
    WalkCycles(s.cameFrom, s.costs.Keys);
  }

  /** The four iterations, on any network whose nodes 1, 2 and 3 are those of `Loop`. */
  lemma LoopRun(net: Network)
    requires LoopShaped(net)
    ensures Dijkstra(net, 1, 4, AsWritten) == Diverges
  {
    SeedInv(net, 1);
    var s0 := Seed(net, 1);
    assert s0.costs == map[1 := 0.0];
    LoopFirst(net, s0);
    var s1 := Step(net, 1, 4, AsWritten, s0).state;
    LoopSecond(net, s1);
    var s2 := Step(net, 1, 4, AsWritten, s1).state;
    LoopThird(net, s2);
    var s3 := Step(net, 1, 4, AsWritten, s2).state;
    LoopFourth(net, s3);
    assert Run(net, 1, 4, AsWritten, s3) == Diverges;
    assert Run(net, 1, 4, AsWritten, s2) == Diverges;
    assert Run(net, 1, 4, AsWritten, s1) == Diverges;
    assert Run(net, 1, 4, AsWritten, s0) == Diverges;
  }

  /** Stop 1 reaches stop 3 by a proximity hop, and stop 3 reaches stop 4 by line 6. */
  lemma LoopReachable(net: Network)
    requires LoopShaped(net)
    ensures Reachable(net, 1, 4)
  {
    FirstOffers(net);
    ThirdOffers(net);
    InTargets(net, 1, 1);
    InTargets(net, 3, 0);
    StartReachable(net, 1, 1);
    ReachableStep(net, 1, 1, 3);
    ReachableStep(net, 1, 3, 4);
  }

  /** The target of an offer is one of the node's targets, and a place. */
  lemma InTargets(net: Network, n: Id, k: nat)
    requires WellFormed(net) && IsPlaceId(net, n) && k < |Offers(net, n)|
    ensures Offers(net, n)[k].target in Targets(net, n) && IsPlaceId(net, Offers(net, n)[k].target)
  {
    OfferIncrements(net, n);
  }

  /** Stop 4 is reachable from stop 1, yet the search from 1 to 4 never returns: a stale entry
      left by town 2 makes stop 3 its own predecessor. */
  lemma StaleTownEntryHangs()
    ensures WellFormed(Loop) && IsPlaceId(Loop, 1)
    ensures Reachable(Loop, 1, 4)
    ensures Dijkstra(Loop, 1, 4, AsWritten) == Diverges
  {
    LoopIsLoopShaped();
    LoopReachable(Loop);
    LoopRun(Loop);
  }

  /** With the correction, the same search finds the route. */
  lemma StaleTownEntryHarmlessWhenCorrected()
    ensures WellFormed(Loop) && IsPlaceId(Loop, 1)
    ensures Dijkstra(Loop, 1, 4, Corrected).Route?
  {
    StaleTownEntryHangs();
    CorrectedRouteIffReachable(Loop, 1, 4);
  }
}
