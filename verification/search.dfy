/** `dijkstra(from, to)`: seeding, the extraction/expansion/relaxation loop, and the path
    reconstruction. One iteration of the `while` loop is `Step`; `Run` iterates it. */
module Search {
  import opened Options
  import opened Transit
  import opened Legs
  import opened NeighbourMap
  import opened Neighbours
  import opened Queue

  /** A `cameFrom` value: the predecessor and the text of the leg from it. */
  datatype Pred = Pred(from: Id, text: Option<Leg>)

  /** The search's variables between iterations: the queue `q`, the maps `costs` and `cameFrom`,
      and the `neighbours` map, which is only empty between iterations when the last iteration
      cleared it. */
  datatype State = State(queue: seq<Id>, costs: map<Id, real>, cameFrom: map<Id, Pred>, pending: seq<Entry>)

  /** The result of a search: the legs of the route; "No solution"; or a reconstruction that
      never ends, because the predecessor chain from `to` runs into a cycle that avoids `from`. */
  datatype Outcome = Route(legs: seq<Leg>) | NoSolution | Diverges

  /** `AsWritten` is the source: a node of a kind without a `case` (`Town`) ends its iteration
      with `continue`, before relaxation and before `neighbours.clear()`. `Corrected` relaxes such
      a node's proximity and shared-facility entries like those of any other located node. */
  datatype Variant = AsWritten | Corrected

  datatype StepResult = Next(state: State) | Finished(outcome: Outcome)

  // ---------------------------------------------------------------------------------------------
  // Seeding

  /** What the spawn-warp loop over `ws` does to `s`, giving `r`: every warp is queued, costs
      `CHANGING_COST` and is reached from `from` by taking the warp; nothing else changes. */
  ghost predicate SeedContract(net: Network, from: Id, ws: seq<Id>, s: State, r: State)
    requires forall k | 0 <= k < |ws| :: ws[k] in net.nodes
  {
    && r.queue == s.queue + ws && r.pending == s.pending
    && (forall x :: x in r.costs <==> x in s.costs || x in ws)
    && (forall x :: x in r.cameFrom <==> x in s.cameFrom || x in ws)
    && (forall k | 0 <= k < |ws| ::
          r.costs[ws[k]] == CHANGING_COST &&
          r.cameFrom[ws[k]] == WarpPred(net, from, ws[k]))
    && (forall x | x in s.costs && x !in ws :: r.costs[x] == s.costs[x])
    && (forall x | x in s.cameFrom && x !in ws :: r.cameFrom[x] == s.cameFrom[x])
  }

  /** `cameFrom.set(sw, [from, "Take spawn warp ..."])`. */
  function WarpPred(net: Network, from: Id, sw: Id): (r: Pred)
    requires sw in net.nodes
  {
    Pred(from, Some(TakeSpawnWarp(NameText(net.nodes[sw].disp.name))))
  }

  /** The `for (const sw of gd.spawnWarps)` loop over the warps `ws`. */
  function SeedWarps(net: Network, from: Id, ws: seq<Id>, s: State): (r: State)
    requires forall k | 0 <= k < |ws| :: ws[k] in net.nodes
    ensures SeedContract(net, from, ws, s, r)
    decreases |ws|
  {
    if |ws| == 0 then s
    else
      var sw := ws[0];
      var s1 := State(s.queue + [sw], s.costs[sw := CHANGING_COST], s.cameFrom[sw := WarpPred(net, from, sw)], s.pending);
      var r := SeedWarps(net, from, ws[1..], s1);
      SeedWarpsStep(net, from, ws, s, r);
      r
  }

  lemma SeedWarpsStep(net: Network, from: Id, ws: seq<Id>, s: State, r: State)
    requires |ws| > 0 && forall k | 0 <= k < |ws| :: ws[k] in net.nodes
    requires SeedContract(net, from, ws[1..], State(s.queue + [ws[0]], s.costs[ws[0] := CHANGING_COST],
                                                     s.cameFrom[ws[0] := WarpPred(net, from, ws[0])], s.pending), r)
    ensures SeedContract(net, from, ws, s, r)
  {
    var sw := ws[0];
    var tail := ws[1..];
    assert ws == [ws[0]] + tail;
    forall k | 0 <= k < |ws|
      ensures r.costs[ws[k]] == CHANGING_COST && r.cameFrom[ws[k]] == WarpPred(net, from, ws[k])
    {
      if k > 0 {
        assert ws[k] == tail[k - 1];
      } else if sw in tail {
        var j :| 0 <= j < |tail| && tail[j] == sw;
      }
    }
  }

  /** The state before the loop: `from` at cost 0 (unless it is itself a spawn warp), every spawn
      warp at `CHANGING_COST` reached from `from`, and the queue `from` followed by the warps. */
  function Seed(net: Network, from: Id): (s: State)
    requires WellFormed(net)
    ensures s.queue == [from] + net.spawnWarps && s.pending == []
    ensures forall n :: n in s.costs <==> n == from || n in net.spawnWarps
    ensures forall n :: n in s.cameFrom <==> n in net.spawnWarps
    ensures from !in net.spawnWarps ==> s.costs[from] == 0.0
    ensures forall k | 0 <= k < |net.spawnWarps| ::
              var sw := net.spawnWarps[k];
              s.costs[sw] == CHANGING_COST &&
              s.cameFrom[sw] == WarpPred(net, from, sw)
  {
    SeedWarps(net, from, net.spawnWarps, State([from], map[from := 0.0], map[], []))
  }

  // ---------------------------------------------------------------------------------------------
  // Relaxation

  /** What relaxing the entries `es` from node `i` does to the state `s`, giving `r`. */
  ghost predicate RelaxContract(es: seq<Entry>, i: Id, s: State, r: State) {
    RelaxCosts(es, s, r) && RelaxPreds(es, i, s, r) && RelaxQueue(es, s, r)
  }

  /** Every target gets a recorded cost no higher than any entry offered for it, and recorded
      costs never increase. */
  predicate RelaxCosts(es: seq<Entry>, s: State, r: State) {
    && r.pending == s.pending
    && r.costs.Keys == s.costs.Keys + Keys(es)
    && (forall n | n in s.costs :: r.costs[n] <= s.costs[n])
    && (forall k | 0 <= k < |es| :: r.costs[es[k].target] <= es[k].cost)
  }

  /** A cost and its predecessor change only together, when an entry is strictly cheaper; the new
      predecessor is then `i`, and the cost and leg are those of an entry for the node. */
  predicate RelaxPreds(es: seq<Entry>, i: Id, s: State, r: State)
    requires RelaxCosts(es, s, r)
  {
    && (forall n | n in s.costs && r.costs[n] == s.costs[n] ::
          (n in r.cameFrom <==> n in s.cameFrom) && (n in s.cameFrom ==> r.cameFrom[n] == s.cameFrom[n]))
    && (forall n | n in r.costs && (n !in s.costs || r.costs[n] < s.costs[n]) ::
          n in r.cameFrom && r.cameFrom[n].from == i &&
          exists k | 0 <= k < |es| :: es[k].target == n && es[k].cost == r.costs[n] && es[k].text == r.cameFrom[n].text)
    && (forall n | n in r.cameFrom :: n in s.cameFrom || n in Keys(es))
  }

  /** The queue only grows, by the targets that had no recorded cost, each pushed once. */
  ghost predicate RelaxQueue(es: seq<Entry>, s: State, r: State) {
    && |r.queue| >= |s.queue| && r.queue[..|s.queue|] == s.queue
    && NoDuplicates(r.queue[|s.queue|..])
    && (forall x :: x in r.queue[|s.queue|..] <==> x in Keys(es) && x !in s.costs)
  }

  predicate NoDuplicates(q: seq<Id>) {
    forall j, k | 0 <= j < k < |q| :: q[j] != q[k]
  }

  /** The state after relaxing the first entry alone. */
  function RelaxOne(e: Entry, i: Id, s: State): (r: State) {
    var q := if e.target in s.costs then s.queue else s.queue + [e.target];
    if e.target !in s.costs || e.cost < s.costs[e.target] then
      State(q, s.costs[e.target := e.cost], s.cameFrom[e.target := Pred(i, e.text)], s.pending)
    else
      State(q, s.costs, s.cameFrom, s.pending)
  }

  /** `for (const [ni, {cost: newCost, text}] of neighbours)`: push `ni` when it has no recorded
      cost yet; record the new cost and predecessor `i` when it is strictly lower. */
  function Relax(es: seq<Entry>, i: Id, s: State): (r: State)
    ensures RelaxContract(es, i, s, r)
    decreases |es|
  {
    if |es| == 0 then s
    else
      var r := Relax(es[1..], i, RelaxOne(es[0], i, s));
      RelaxStepCosts(es, i, s, r);
      RelaxStepPreds(es, i, s, r);
      RelaxStepQueue(es, i, s, r);
      r
  }

  lemma RelaxStepCosts(es: seq<Entry>, i: Id, s: State, r: State)
    requires |es| > 0
    requires RelaxCosts(es[1..], RelaxOne(es[0], i, s), r)
    ensures RelaxCosts(es, s, r)
  {
    var tail := es[1..];
    KeysCons(es);
    forall k | 0 <= k < |es| ensures r.costs[es[k].target] <= es[k].cost {
      if k > 0 { assert es[k] == tail[k - 1]; }
    }
  }

  lemma RelaxStepPreds(es: seq<Entry>, i: Id, s: State, r: State)
    requires |es| > 0
    requires RelaxCosts(es[1..], RelaxOne(es[0], i, s), r)
    requires RelaxPreds(es[1..], i, RelaxOne(es[0], i, s), r)
    requires RelaxCosts(es, s, r)
    ensures RelaxPreds(es, i, s, r)
  {
    RelaxStepKept(es, i, s, r);
    RelaxStepChanged(es, i, s, r);
    KeysCons(es);
  }

  /** An unchanged cost keeps its predecessor through the whole relaxation. */
  lemma RelaxStepKept(es: seq<Entry>, i: Id, s: State, r: State)
    requires |es| > 0
    requires RelaxCosts(es[1..], RelaxOne(es[0], i, s), r)
    requires RelaxPreds(es[1..], i, RelaxOne(es[0], i, s), r)
    requires RelaxCosts(es, s, r)
    ensures forall n | n in s.costs && r.costs[n] == s.costs[n] ::
              (n in r.cameFrom <==> n in s.cameFrom) && (n in s.cameFrom ==> r.cameFrom[n] == s.cameFrom[n])
  {
  }

  /** A lowered or new cost comes with predecessor `i` and the leg of an entry for the node. */
  lemma RelaxStepChanged(es: seq<Entry>, i: Id, s: State, r: State)
    requires |es| > 0
    requires RelaxCosts(es[1..], RelaxOne(es[0], i, s), r)
    requires RelaxPreds(es[1..], i, RelaxOne(es[0], i, s), r)
    requires RelaxCosts(es, s, r)
    ensures forall n | n in r.costs && (n !in s.costs || r.costs[n] < s.costs[n]) ::
              n in r.cameFrom && r.cameFrom[n].from == i &&
              exists k | 0 <= k < |es| :: es[k].target == n && es[k].cost == r.costs[n] && es[k].text == r.cameFrom[n].text
  {
    var e := es[0];
    var tail := es[1..];
    var s1 := RelaxOne(e, i, s);
    forall n | n in r.costs && (n !in s.costs || r.costs[n] < s.costs[n])
      ensures n in r.cameFrom && r.cameFrom[n].from == i &&
              exists k | 0 <= k < |es| :: es[k].target == n && es[k].cost == r.costs[n] && es[k].text == r.cameFrom[n].text
    {
      if n !in s1.costs || r.costs[n] < s1.costs[n] {
        var k :| 0 <= k < |tail| && tail[k].target == n && tail[k].cost == r.costs[n] && tail[k].text == r.cameFrom[n].text;
        assert es[k + 1] == tail[k];
      } else {
        assert n == e.target;
        assert es[0].target == n && es[0].cost == r.costs[n] && es[0].text == r.cameFrom[n].text;
      }
    }
  }

  lemma RelaxStepQueue(es: seq<Entry>, i: Id, s: State, r: State)
    requires |es| > 0
    requires RelaxQueue(es[1..], RelaxOne(es[0], i, s), r)
    ensures RelaxQueue(es, s, r)
  {
    var e := es[0];
    var tail := es[1..];
    var s1 := RelaxOne(e, i, s);
    KeysCons(es);
    assert r.queue[..|s.queue|] == s.queue by {
      assert r.queue[..|s1.queue|] == s1.queue;
      assert s1.queue[..|s.queue|] == s.queue;
    }
    if e.target !in s.costs {
      assert r.queue[|s.queue|..] == [e.target] + r.queue[|s1.queue|..];
    } else {
      assert r.queue[|s.queue|..] == r.queue[|s1.queue|..];
    }
  }

  // ---------------------------------------------------------------------------------------------
  // Reconstruction

  /** Every recorded node but `from` has a predecessor, and predecessors are recorded nodes. */
  predicate Chained(cf: map<Id, Pred>, from: Id, keys: set<Id>) {
    forall n | n in keys :: n != from ==> n in cf && cf[n].from in keys
  }

  /** The `while (fi !== from)` loop from `fi`, having already visited `visited`: the narrated legs
      from `from` to `fi` in forward order, or `None` when the walk comes back to a visited node,
      from where it cycles forever without meeting `from`. */
  function Walk(cf: map<Id, Pred>, from: Id, fi: Id, visited: set<Id>, keys: set<Id>): (r: Option<seq<Leg>>)
    requires Chained(cf, from, keys) && fi in keys && visited <= keys
    decreases |keys - visited|
  {
    if fi == from then Some([])
    else if fi in visited then None
    else
      var p := cf[fi];
      assert |keys - (visited + {fi})| < |keys - visited| by {
        assert keys - (visited + {fi}) == (keys - visited) - {fi};
      }
      match Walk(cf, from, p.from, visited + {fi}, keys)
      case None => None
      case Some(legs) => Some(legs + (if p.text.Some? then [p.text.value] else []))
  }

  /** The outcome once `to` is extracted. */
  function Reconstruct(cf: map<Id, Pred>, from: Id, to: Id, keys: set<Id>): (r: Outcome)
    requires Chained(cf, from, keys) && to in keys
  {
    match Walk(cf, from, to, {}, keys)
    case Some(legs) => Route(legs)
    case None => Diverges
  }

  // ---------------------------------------------------------------------------------------------
  // The loop

  /** What holds of the search's variables at the top of every iteration. */
  predicate Inv(net: Network, from: Id, s: State) {
    && from in s.costs
    && Costed(s.queue, s.costs)
    && (forall n | n in s.costs :: IsPlaceId(net, n))
    && (forall k | 0 <= k < |s.pending| :: IsPlaceId(net, s.pending[k].target))
    && Distinct(s.pending)
    && (forall n | n in s.cameFrom :: n in s.costs)
    && Chained(s.cameFrom, from, s.costs.Keys)
  }

  /** Each iteration either records a new node or shortens the queue. */
  predicate Progress(s: State, t: State) {
    s.costs.Keys <= t.costs.Keys && (t.costs.Keys == s.costs.Keys ==> |t.queue| < |s.queue|)
  }

  /** The `neighbours` map after expanding node `i` at cost `cost`: the calls are made on top of
      whatever the map still holds. */
  function Expand(net: Network, i: Id, cost: real, pending: seq<Entry>): (nb: seq<Entry>)
    requires WellFormed(net) && IsPlaceId(net, i) && Distinct(pending)
    requires forall k | 0 <= k < |pending| :: IsPlaceId(net, pending[k].target)
    ensures Distinct(nb)
    ensures Keys(nb) == Keys(pending) + TargetsOf(Offers(net, i))
    ensures forall k | 0 <= k < |nb| :: IsPlaceId(net, nb[k].target)
  {
    var es := Entries(Offers(net, i), cost);
    OfferIncrements(net, i);
    var nb := PutAll(pending, es);
    assert forall k | 0 <= k < |nb| :: nb[k].target in Keys(nb);
    nb
  }

  /** One iteration of the `while` loop. */
  function Step(net: Network, from: Id, to: Id, v: Variant, s: State): (r: StepResult)
    requires WellFormed(net) && Inv(net, from, s)
    ensures r.Next? ==> Inv(net, from, r.state) && Progress(s, r.state)
  {
    if |s.queue| == 0 then Finished(NoSolution)
    else
      var p := Extract(s.queue, s.costs);
      var i := p.top;
      if i == to then Finished(Reconstruct(s.cameFrom, from, to, s.costs.Keys))
      else
        var nb := Expand(net, i, s.costs[i], s.pending);
        if v == AsWritten && net.nodes[i].kind.OtherLocated? then
          Next(State(p.rest, s.costs, s.cameFrom, nb))
        else
          var t := Relax(nb, i, State(p.rest, s.costs, s.cameFrom, []));
          RelaxInv(net, from, s, p.rest, i, nb, t);
          Next(t)
  }

  /** Relaxation from a recorded node keeps the invariant and makes progress. */
  lemma RelaxInv(net: Network, from: Id, s: State, rest: seq<Id>, i: Id, nb: seq<Entry>, t: State)
    requires Inv(net, from, s) && i in s.costs
    requires |rest| < |s.queue| && Costed(rest, s.costs)
    requires forall k | 0 <= k < |nb| :: IsPlaceId(net, nb[k].target)
    requires t == Relax(nb, i, State(rest, s.costs, s.cameFrom, []))
    ensures Inv(net, from, t) && Progress(s, t)
  {
    var s0 := State(rest, s.costs, s.cameFrom, []);
    assert RelaxCosts(nb, s0, t) && RelaxPreds(nb, i, s0, t) && RelaxQueue(nb, s0, t);
    RelaxInvCosts(net, s0, nb, t);
    RelaxInvQueue(s0, nb, t);
    RelaxInvChained(from, i, s0, nb, t);
    RelaxProgress(s0, nb, t);
  }

  /** Relaxation that records no new node pushes nothing. */
  lemma RelaxProgress(s0: State, nb: seq<Entry>, t: State)
    requires RelaxCosts(nb, s0, t) && RelaxQueue(nb, s0, t)
    ensures s0.costs.Keys <= t.costs.Keys
    ensures t.costs.Keys == s0.costs.Keys ==> |t.queue| == |s0.queue|
  {
    if |t.queue| > |s0.queue| {
      var x := t.queue[|s0.queue|];
      assert x in t.queue[|s0.queue|..];
      assert x in t.costs && x !in s0.costs;
    }
  }

  lemma RelaxInvCosts(net: Network, s0: State, nb: seq<Entry>, t: State)
    requires forall n | n in s0.costs :: IsPlaceId(net, n)
    requires forall k | 0 <= k < |nb| :: IsPlaceId(net, nb[k].target)
    requires RelaxCosts(nb, s0, t)
    ensures forall n | n in t.costs :: IsPlaceId(net, n)
  {
    forall n | n in t.costs ensures IsPlaceId(net, n) {
      if n !in s0.costs {
        var k :| 0 <= k < |nb| && nb[k].target == n;
      }
    }
  }

  lemma RelaxInvQueue(s0: State, nb: seq<Entry>, t: State)
    requires Costed(s0.queue, s0.costs)
    requires RelaxCosts(nb, s0, t) && RelaxQueue(nb, s0, t)
    ensures Costed(t.queue, t.costs)
  {
    forall k | 0 <= k < |t.queue| ensures t.queue[k] in t.costs {
      if k < |s0.queue| {
        assert t.queue[k] == t.queue[..|s0.queue|][k];
      } else {
        assert t.queue[k] == t.queue[|s0.queue|..][k - |s0.queue|];
      }
    }
  }

  lemma RelaxInvChained(from: Id, i: Id, s0: State, nb: seq<Entry>, t: State)
    requires i in s0.costs && from in s0.costs
    requires forall n | n in s0.cameFrom :: n in s0.costs
    requires Chained(s0.cameFrom, from, s0.costs.Keys)
    requires RelaxCosts(nb, s0, t) && RelaxPreds(nb, i, s0, t)
    ensures forall n | n in t.cameFrom :: n in t.costs
    ensures Chained(t.cameFrom, from, t.costs.Keys)
  {
    forall n | n in t.costs && n != from ensures n in t.cameFrom && t.cameFrom[n].from in t.costs {
      if !(n in s0.costs && t.costs[n] == s0.costs[n]) {
        assert t.cameFrom[n].from == i;
      }
    }
  }

  /** The number of nodes not yet recorded shrinks when a node is recorded. */
  lemma FewerUnrecorded(all: set<Id>, a: set<Id>, b: set<Id>)
    requires a <= b <= all && a != b
    ensures |all - b| < |all - a|
  {
    CardDiff(all, a);
    CardDiff(all, b);
    CardDiff(b, a);
    assert b - a != {};
    assert |b - a| != 0;
  }

  lemma CardDiff(all: set<Id>, a: set<Id>)
    requires a <= all
    ensures |all - a| == |all| - |a|
  {
    assert all == (all - a) + a;
    assert (all - a) * a == {};
  }

  /** `Progress` is a lexicographic decrease of the loop's measure. */
  lemma ProgressDecreases(net: Network, from: Id, s: State, t: State)
    requires Inv(net, from, s) && Inv(net, from, t) && Progress(s, t)
    ensures var all := net.nodes.Keys;
            |all - t.costs.Keys| < |all - s.costs.Keys| ||
            (|all - t.costs.Keys| == |all - s.costs.Keys| && |t.queue| < |s.queue|)
  {
    forall n | n in s.costs.Keys ensures n in net.nodes.Keys { assert IsPlaceId(net, n); }
    forall n | n in t.costs.Keys ensures n in net.nodes.Keys { assert IsPlaceId(net, n); }
    if t.costs.Keys != s.costs.Keys {
      FewerUnrecorded(net.nodes.Keys, s.costs.Keys, t.costs.Keys);
    }
  }

  /** The loop from state `s` on, until it returns. */
  function Run(net: Network, from: Id, to: Id, v: Variant, s: State): (r: Outcome)
    requires WellFormed(net) && Inv(net, from, s)
    decreases |net.nodes.Keys - s.costs.Keys|, |s.queue|
  {
    match Step(net, from, to, v, s)
    case Finished(r) => r
    case Next(t) =>
      ProgressDecreases(net, from, s, t);
      Run(net, from, to, v, t)
  }

  /** The seeded state satisfies the loop invariant. */
  lemma SeedInv(net: Network, from: Id)
    requires WellFormed(net) && IsPlaceId(net, from)
    ensures Inv(net, from, Seed(net, from))
  {
    var s := Seed(net, from);
    forall k | 0 <= k < |s.queue| ensures s.queue[k] in s.costs {
      if k > 0 { assert s.queue[k] == net.spawnWarps[k - 1]; }
    }
    forall n | n in s.costs ensures IsPlaceId(net, n) {
      if n != from {
        var k :| 0 <= k < |net.spawnWarps| && net.spawnWarps[k] == n;
      }
    }
  }

  /** `dijkstra(from, to)` over the search variant `v`. */
  function Dijkstra(net: Network, from: Id, to: Id, v: Variant): (r: Outcome)
    requires WellFormed(net) && IsPlaceId(net, from)
  {
    SeedInv(net, from);
    Run(net, from, to, v, Seed(net, from))
  }
}
