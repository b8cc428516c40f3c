/** `dijkstra(from, to)` as the source writes it: a `while` loop over mutable variables, with the
    relaxation and the reconstruction as inner loops. Each is proved to compute what the
    functional model in `Search` computes. */
module SearchLoop {
  import opened Options
  import opened Transit
  import opened Legs
  import opened NeighbourMap
  import opened Queue
  import opened Search

  /** `s` in reverse order. */
  function Reverse<T>(s: seq<T>): (r: seq<T>)
    ensures |r| == |s|
    ensures forall k | 0 <= k < |s| :: r[k] == s[|s| - 1 - k]
  {
    if |s| == 0 then [] else [s[|s| - 1]] + Reverse(s[..|s| - 1])
  }

  /** The outcome of the reconstruction once the walk from the current node yields `w` and the
      legs in `output` have already been pushed. */
  function Resume(w: Option<seq<Leg>>, output: seq<Leg>): (r: Outcome) {
    match w
    case None => Diverges
    case Some(legs) => Route(legs + Reverse(output))
  }

  /** One step back from `fi` leaves the outcome unchanged once its leg, if any, is pushed. */
  lemma ResumeStep(cf: map<Id, Pred>, from: Id, fi: Id, visited: set<Id>, keys: set<Id>, output: seq<Leg>)
    requires Chained(cf, from, keys) && fi in keys && visited <= keys && fi != from && fi !in visited
    ensures cf[fi].from in keys && |keys - (visited + {fi})| < |keys - visited|
    ensures Resume(Walk(cf, from, fi, visited, keys), output) ==
            Resume(Walk(cf, from, cf[fi].from, visited + {fi}, keys),
                   output + (if cf[fi].text.Some? then [cf[fi].text.value] else []))
  {
    assert keys - (visited + {fi}) == (keys - visited) - {fi};
    var p := cf[fi];
    if p.text.Some? {
      assert Reverse(output + [p.text.value]) == [p.text.value] + Reverse(output);
    } else {
      assert output + [] == output;
    }
  }

  /** `while (fi !== from) { ... if (text) output.push(text) }; return output.reverse()`. A walk
      that comes back to a node it has already left never reaches `from`: the source loops
      forever there, and this method reports `Diverges`. */
  method Backtrack(cf: map<Id, Pred>, from: Id, to: Id, keys: set<Id>) returns (r: Outcome)
    requires Chained(cf, from, keys) && to in keys
    ensures r == Reconstruct(cf, from, to, keys)
  {
    var output: seq<Leg> := [];
    var fi := to;
    var visited: set<Id> := {};
    while fi != from
      invariant fi in keys && visited <= keys
      invariant Reconstruct(cf, from, to, keys) == Resume(Walk(cf, from, fi, visited, keys), output)
      decreases |keys - visited|
    {
      if fi in visited {
        return Diverges;
      }
      var p := cf[fi];
      ResumeStep(cf, from, fi, visited, keys, output);
      visited := visited + {fi};
      fi := p.from;
      if p.text.Some? {
        output := output + [p.text.value];
      }
    }
    return Route(Reverse(output));
  }

  /** The `for (const [ni, ...] of neighbours)` loop: `q.push(ni)` for a node without a cost,
      `cameFrom.set` and `costs.set` for a strictly cheaper one. */
  method RelaxLoop(es: seq<Entry>, i: Id, s: State) returns (r: State)
    ensures r == Relax(es, i, s)
  {
    var q := s.queue;
    var costs := s.costs;
    var cameFrom := s.cameFrom;
    var k := 0;
    while k < |es|
      invariant 0 <= k <= |es|
      invariant Relax(es[k..], i, State(q, costs, cameFrom, s.pending)) == Relax(es, i, s)
    {
      var e := es[k];
      RelaxFrom(es, k, i, State(q, costs, cameFrom, s.pending));
      if e.target !in costs {
        q := q + [e.target];
      }
      if e.target !in costs || e.cost < costs[e.target] {
        cameFrom := cameFrom[e.target := Pred(i, e.text)];
        costs := costs[e.target := e.cost];
      }
      k := k + 1;
    }
    r := State(q, costs, cameFrom, s.pending);
  }

  /** Relaxing the entries from position `k` on relaxes entry `k`, then the rest. */
  lemma RelaxFrom(es: seq<Entry>, k: nat, i: Id, st: State)
    requires k < |es|
    ensures Relax(es[k..], i, st) == Relax(es[k + 1..], i, RelaxOne(es[k], i, st))
  {
    assert es[k..][1..] == es[k + 1..];
  }

  /** The whole search: seeding, then one `Step` per iteration until one returns. */
  method DijkstraLoop(net: Network, from: Id, to: Id, v: Variant) returns (r: Outcome)
    requires WellFormed(net) && IsPlaceId(net, from)
    ensures r == Dijkstra(net, from, to, v)
  {
    SeedInv(net, from);
    var s := Seed(net, from);
    while true
      invariant Inv(net, from, s)
      invariant Run(net, from, to, v, s) == Dijkstra(net, from, to, v)
      decreases |net.nodes.Keys - s.costs.Keys|, |s.queue|
    {
      if |s.queue| == 0 {
        return NoSolution;
      }
      var p := Extract(s.queue, s.costs);
      var i := p.top;
      if i == to {
        r := Backtrack(s.cameFrom, from, to, s.costs.Keys);
        return;
      }
      var nb := Expand(net, i, s.costs[i], s.pending);
      var t;
      if v == AsWritten && net.nodes[i].kind.OtherLocated? {
        t := State(p.rest, s.costs, s.cameFrom, nb);
      } else {
        t := RelaxLoop(nb, i, State(p.rest, s.costs, s.cameFrom, []));
      }
      assert Step(net, from, to, v, s) == Next(t);
      ProgressDecreases(net, from, s, t);
      s := t;
    }
  }
}
