/** Per-kind neighbour generation (the body of the search loop between extraction and relaxation).
    An `Offer` is one `neighbours.set` call, with the cost written as an increment over the
    expanded node's cost; `Offers` lists the calls for one node in the order the source makes them. */
module Neighbours {
  import opened Options
  import opened Strings
  import opened Transit
  import opened Display
  import opened Legs
  import opened NeighbourMap

  /** One `neighbours.set(target, {cost: cost + weight, text})` call. */
  datatype Offer = Offer(target: Id, weight: real, text: Option<Leg>)

  /** The targets of a list of offers: the counterpart for offers of `NeighbourMap.Keys` for entries,
      and `Entries` carries one to the other. */
  function TargetsOf(os: seq<Offer>): (r: set<Id>) {
    set k | 0 <= k < |os| :: os[k].target
  }

  /** The targets of consecutive calls are the targets of each part. */
  lemma TargetsConcat(a: seq<Offer>, b: seq<Offer>)
    ensures TargetsOf(a + b) == TargetsOf(a) + TargetsOf(b)
  {
    var ab := a + b;
    forall x | x in TargetsOf(a) + TargetsOf(b) ensures x in TargetsOf(ab) {
      if x in TargetsOf(a) {
        var k :| 0 <= k < |a| && a[k].target == x;
        assert ab[k] == a[k];
      } else {
        var k :| 0 <= k < |b| && b[k].target == x;
        assert ab[|a| + k] == b[k];
      }
    }
    forall x | x in TargetsOf(ab) ensures x in TargetsOf(a) + TargetsOf(b) {
      var k :| 0 <= k < |ab| && ab[k].target == x;
      if k < |a| { assert ab[k] == a[k]; } else { assert ab[k] == b[k - |a|]; }
    }
  }

  /** The display string of a node. */
  function Show(net: Network, id: Id): (r: string)
    requires id in net.nodes
  {
    DisplayNode(net.nodes[id].disp)
  }

  /** The name of a company (`.name`). */
  function CompanyName(net: Network, id: Id): (r: string)
    requires id in net.nodes
  {
    NameText(net.nodes[id].disp.name)
  }

  // ---------------------------------------------------------------------------------------------
  // Located nodes: proximity and shared facilities

  /** One offer per proximity entry, in order: `distance / FLYING_MPS` to the neighbour. */
  function ProximityOffers(net: Network, prox: seq<Proximity>): (r: seq<Offer>)
    requires forall k | 0 <= k < |prox| :: IsPlaceId(net, prox[k].target)
    ensures |r| == |prox|
    ensures forall k | 0 <= k < |r| ::
              r[k].target == prox[k].target && r[k].weight == prox[k].distance / FLYING_MPS && r[k].text.Some?
    decreases |prox|
  {
    if |prox| == 0 then []
    else
      var p := prox[0];
      assert IsPlaceId(net, p.target);
      var n := net.nodes[p.target];
      [Offer(p.target, p.distance / FLYING_MPS, Some(Fly(p.distance, TypeName(n), DisplayNode(n.disp))))] +
      ProximityOffers(net, prox[1..])
  }

  /** One offer per shared-facility id, in order, at `CHANGING_COST`. */
  function FacilityOffers(net: Network, sf: seq<Id>): (r: seq<Offer>)
    requires forall k | 0 <= k < |sf| :: IsFacilityId(net, sf[k])
    ensures |r| == |sf|
    ensures forall k | 0 <= k < |r| :: r[k].target == sf[k] && r[k].weight == CHANGING_COST && r[k].text.Some?
    decreases |sf|
  {
    if |sf| == 0 then []
    else
      assert IsFacilityId(net, sf[0]);
      var n := net.nodes[sf[0]];
      [Offer(sf[0], CHANGING_COST,
             Some(ChangeTo(TypeName(n), CompanyName(net, n.kind.company), DisplayNode(n.disp))))] +
      FacilityOffers(net, sf[1..])
  }

  /** The offers every expanded node but a gate makes before its kind is looked at. */
  function LocatedOffers(net: Network, loc: Located): (r: seq<Offer>)
    requires LocatedOk(net, loc)
  {
    ProximityOffers(net, loc.proximity) + FacilityOffers(net, loc.sharedFacility)
  }

  // ---------------------------------------------------------------------------------------------
  // Airports and gates

  /** "Go to gate <code>" when the gate's code is truthy, no text otherwise. */
  function GateText(net: Network, g: Id): (r: Option<Leg>)
    requires IsGateId(net, g)
    ensures r.Some? <==> net.nodes[g].disp.code.Some? && net.nodes[g].disp.code.value != ""
  {
    var c := net.nodes[g].disp.code;
    if c.Some? && c.value != "" then Some(GoToGate(c.value)) else None
  }

  /** An airport offers each of its gates at `AIRPORT_TO_GATE_COST`. */
  function AirportOffers(net: Network, gates: seq<Id>): (r: seq<Offer>)
    requires forall k | 0 <= k < |gates| :: IsGateId(net, gates[k])
    ensures |r| == |gates|
    ensures forall k | 0 <= k < |r| :: r[k].target == gates[k] && r[k].weight == AIRPORT_TO_GATE_COST
    decreases |gates|
  {
    if |gates| == 0 then []
    else [Offer(gates[0], AIRPORT_TO_GATE_COST, GateText(net, gates[0]))] + AirportOffers(net, gates[1..])
  }

  /** A gate offers every other gate of its airport at `AIRPORT_TO_GATE_COST`, skipping itself. */
  function SiblingOffers(net: Network, i: Id, gates: seq<Id>): (r: seq<Offer>)
    requires forall k | 0 <= k < |gates| :: IsGateId(net, gates[k])
    ensures TargetsOf(r) == (set k | 0 <= k < |gates| :: gates[k]) - {i}
    ensures forall k | 0 <= k < |r| :: r[k].weight == AIRPORT_TO_GATE_COST
    decreases |gates|
  {
    if |gates| == 0 then []
    else
      var rest := SiblingOffers(net, i, gates[1..]);
      var r := if gates[0] == i then rest
               else [Offer(gates[0], AIRPORT_TO_GATE_COST, GateText(net, gates[0]))] + rest;
      assert (set k | 0 <= k < |gates| :: gates[k]) == {gates[0]} + (set k | 0 <= k < |gates[1..]| :: gates[1..][k]) by {
        forall k | 0 <= k < |gates|
          ensures gates[k] in {gates[0]} + (set k | 0 <= k < |gates[1..]| :: gates[1..][k])
        {
          if k > 0 { assert gates[1..][k - 1] == gates[k]; }
        }
      }
      assert TargetsOf(r) == (if gates[0] == i then {} else {gates[0]}) + TargetsOf(rest) by {
        if gates[0] != i {
          forall x | x in TargetsOf(rest) ensures x in TargetsOf(r) {
            var k :| 0 <= k < |rest| && rest[k].target == x;
            assert r[k + 1].target == x;
          }
          forall x | x in TargetsOf(r) ensures x == gates[0] || x in TargetsOf(rest) {
            var k :| 0 <= k < |r| && r[k].target == x;
            if k > 0 { assert rest[k - 1].target == x; }
          }
          assert r[0].target == gates[0];
        }
      }
      r
  }

  /** The flight leg from gate `i` (whose code is `fromCode`) to gate `g2` on flight `f`. */
  function FlightText(net: Network, fromCode: Option<string>, f: Id, g2: Id): (r: Leg)
    requires IsFlightId(net, f) && IsGateId(net, g2) && WellFormed(net)
  {
    var flight := net.nodes[f];
    var gate2 := net.nodes[g2];
    assert NodeOk(net, gate2);
    TakeFlight(fromCode, CompanyName(net, flight.kind.airline), Join(flight.disp.codes.value, "/"),
               Show(net, gate2.kind.airport), gate2.disp.code)
  }

  /** One flight's hops from gate `i`: every other gate of the flight at `WARP_COST`. */
  function HopOffers(net: Network, i: Id, fromCode: Option<string>, f: Id, gates: seq<Id>): (r: seq<Offer>)
    requires WellFormed(net) && IsFlightId(net, f)
    requires forall k | 0 <= k < |gates| :: IsGateId(net, gates[k])
    ensures forall k | 0 <= k < |r| :: r[k].target != i && r[k].target in gates && r[k].weight == WARP_COST
    ensures forall k | 0 <= k < |gates| && gates[k] != i :: Offer(gates[k], WARP_COST, Some(FlightText(net, fromCode, f, gates[k]))) in r
    decreases |gates|
  {
    if |gates| == 0 then []
    else
      var rest := HopOffers(net, i, fromCode, f, gates[1..]);
      if gates[0] == i then rest
      else [Offer(gates[0], WARP_COST, Some(FlightText(net, fromCode, f, gates[0])))] + rest
  }

  /** One flight's hops go to exactly its gates other than `i`. */
  lemma HopTargets(net: Network, i: Id, fromCode: Option<string>, f: Id, gates: seq<Id>)
    requires WellFormed(net) && IsFlightId(net, f)
    requires forall k | 0 <= k < |gates| :: IsGateId(net, gates[k])
    ensures TargetsOf(HopOffers(net, i, fromCode, f, gates)) == (set g | g in gates) - {i}
  {
    var r := HopOffers(net, i, fromCode, f, gates);
    forall g | g in gates && g != i ensures g in TargetsOf(r) {
      var k :| 0 <= k < |gates| && gates[k] == g;
      var o := Offer(gates[k], WARP_COST, Some(FlightText(net, fromCode, f, gates[k])));
      assert o in r;
      var j :| 0 <= j < |r| && r[j] == o;
    }
  }

  /** The gates of the flights `flights`. */
  function FlightGates(net: Network, flights: seq<Id>): (r: set<Id>)
    requires forall k | 0 <= k < |flights| :: IsFlightId(net, flights[k])
  {
    set m, g | 0 <= m < |flights| && IsFlightId(net, flights[m]) && g in net.nodes[flights[m]].kind.gates :: g
  }

  /** The gates of a non-empty list of flights: the first flight's and the others'. */
  lemma FlightGatesCons(net: Network, flights: seq<Id>)
    requires |flights| > 0 && forall k | 0 <= k < |flights| :: IsFlightId(net, flights[k])
    ensures FlightGates(net, flights) ==
            (set g | g in net.nodes[flights[0]].kind.gates) + FlightGates(net, flights[1..])
  {
    var tail := flights[1..];
    forall g | g in FlightGates(net, flights)
      ensures g in net.nodes[flights[0]].kind.gates || g in FlightGates(net, tail)
    {
      var m :| 0 <= m < |flights| && g in net.nodes[flights[m]].kind.gates;
      if m > 0 { assert flights[m] == tail[m - 1]; }
    }
    forall g | g in net.nodes[flights[0]].kind.gates ensures g in FlightGates(net, flights) {
      assert IsFlightId(net, flights[0]);
    }
    forall g | g in FlightGates(net, tail) ensures g in FlightGates(net, flights) {
      var m :| 0 <= m < |tail| && g in net.nodes[tail[m]].kind.gates;
      assert tail[m] == flights[m + 1];
    }
  }

  /** The hops of all flights serving gate `i`, flight by flight: exactly the flights' gates other
      than `i`, each at `WARP_COST`. */
  function FlightOffers(net: Network, i: Id, fromCode: Option<string>, flights: seq<Id>): (r: seq<Offer>)
    requires WellFormed(net)
    requires forall k | 0 <= k < |flights| :: IsFlightId(net, flights[k])
    ensures forall k | 0 <= k < |r| :: r[k].target != i && IsGateId(net, r[k].target) && r[k].weight == WARP_COST
    ensures TargetsOf(r) == FlightGates(net, flights) - {i}
    decreases |flights|
  {
    if |flights| == 0 then []
    else
      assert IsFlightId(net, flights[0]);
      var f := net.nodes[flights[0]];
      assert NodeOk(net, f);
      var hops := HopOffers(net, i, fromCode, flights[0], f.kind.gates);
      var rest := FlightOffers(net, i, fromCode, flights[1..]);
      HopTargets(net, i, fromCode, flights[0], f.kind.gates);
      TargetsConcat(hops, rest);
      FlightGatesCons(net, flights);
      hops + rest
  }

  /** The gates of gate `i`'s own airport. */
  function AirportGates(net: Network, i: Id): (r: seq<Id>)
    requires WellFormed(net) && IsGateId(net, i)
    ensures forall k | 0 <= k < |r| :: IsGateId(net, r[k])
  {
    assert NodeOk(net, net.nodes[i]);
    var airport := net.nodes[net.nodes[i].kind.airport];
    assert NodeOk(net, airport);
    airport.kind.gates
  }

  /** The flights serving gate `i`. */
  function GateFlights(net: Network, i: Id): (r: seq<Id>)
    requires WellFormed(net) && IsGateId(net, i)
    ensures forall k | 0 <= k < |r| :: IsFlightId(net, r[k])
  {
    assert NodeOk(net, net.nodes[i]);
    net.nodes[i].kind.flights
  }

  /** A gate's sibling offers go to other gates of its airport, its flight offers to other gates of
      its flights. */
  lemma GatePartsTargets(net: Network, i: Id, siblings: seq<Offer>, fl: seq<Offer>)
    requires WellFormed(net) && IsGateId(net, i)
    requires siblings == SiblingOffers(net, i, AirportGates(net, i))
    requires fl == FlightOffers(net, i, net.nodes[i].disp.code, GateFlights(net, i))
    ensures forall k | 0 <= k < |siblings| ::
              siblings[k].target in AirportGates(net, i) && siblings[k].target != i &&
              siblings[k].weight == AIRPORT_TO_GATE_COST
    ensures forall k | 0 <= k < |fl| :: fl[k].target in FlightGates(net, GateFlights(net, i)) && fl[k].target != i
  {
    forall k | 0 <= k < |siblings| ensures siblings[k].target in AirportGates(net, i) {
      assert siblings[k].target in TargetsOf(siblings);
    }
    forall k | 0 <= k < |fl| ensures fl[k].target in FlightGates(net, GateFlights(net, i)) {
      assert fl[k].target in TargetsOf(fl);
    }
  }

  /** Sibling offers at `AIRPORT_TO_GATE_COST` to gates in `ag`, followed by flight offers at
      `WARP_COST` to gates in `fg`: each offer is of one of the two sorts. */
  lemma GateTailOffers(i: Id, siblings: seq<Offer>, fl: seq<Offer>, t: seq<Offer>, ag: seq<Id>, fg: set<Id>)
    requires t == siblings + fl
    requires forall k | 0 <= k < |siblings| ::
               siblings[k].weight == AIRPORT_TO_GATE_COST && siblings[k].target in ag && siblings[k].target != i
    requires forall k | 0 <= k < |fl| :: fl[k].weight == WARP_COST && fl[k].target in fg && fl[k].target != i
    ensures forall k | 0 <= k < |t| ::
              || (t[k].weight == AIRPORT_TO_GATE_COST && t[k].target in ag && t[k].target != i)
              || (t[k].weight == WARP_COST && t[k].target in fg && t[k].target != i)
  {
    forall k | 0 <= k < |t|
      ensures || (t[k].weight == AIRPORT_TO_GATE_COST && t[k].target in ag && t[k].target != i)
              || (t[k].weight == WARP_COST && t[k].target in fg && t[k].target != i)
    {
      if k < |siblings| { assert t[k] == siblings[k]; } else { assert t[k] == fl[k - |siblings|]; }
    }
  }

  /** Together, the offers after the first go to exactly the other gates of the airport and flights. */
  lemma GateTailTargets(net: Network, i: Id, siblings: seq<Offer>, fl: seq<Offer>)
    requires WellFormed(net) && IsGateId(net, i)
    requires siblings == SiblingOffers(net, i, AirportGates(net, i))
    requires fl == FlightOffers(net, i, net.nodes[i].disp.code, GateFlights(net, i))
    ensures TargetsOf(siblings + fl) == ((set g | g in AirportGates(net, i)) + FlightGates(net, GateFlights(net, i))) - {i}
  {
    var ag := AirportGates(net, i);
    TargetsConcat(siblings, fl);
    assert (set k | 0 <= k < |ag| :: ag[k]) == (set g | g in ag) by {
      forall g | g in ag ensures g in (set k | 0 <= k < |ag| :: ag[k]) {
        var k :| 0 <= k < |ag| && ag[k] == g;
      }
    }
  }

  /** A gate's offers: back to its airport at no cost and without text, then its sibling gates at
      `AIRPORT_TO_GATE_COST`, then the gates its flights go to at `WARP_COST`. The later offers go to
      exactly the other gates of its airport and of its flights. */
  function GateOffers(net: Network, i: Id): (r: seq<Offer>)
    requires WellFormed(net) && IsGateId(net, i)
    ensures |r| >= 1 && r[0] == Offer(net.nodes[i].kind.airport, 0.0, None)
    ensures forall k | 1 <= k < |r| :: r[k].target != i && IsGateId(net, r[k].target)
    ensures forall k | 1 <= k < |r| ::
              || (r[k].weight == AIRPORT_TO_GATE_COST && r[k].target in AirportGates(net, i))
              || (r[k].weight == WARP_COST && r[k].target in FlightGates(net, GateFlights(net, i)))
    ensures TargetsOf(r[1..]) == ((set g | g in AirportGates(net, i)) + FlightGates(net, GateFlights(net, i))) - {i}
  {
    var siblings := SiblingOffers(net, i, AirportGates(net, i));
    var fl := FlightOffers(net, i, net.nodes[i].disp.code, GateFlights(net, i));
    var t := siblings + fl;
    GatePartsTargets(net, i, siblings, fl);
    GateTailOffers(i, siblings, fl, t, AirportGates(net, i), FlightGates(net, GateFlights(net, i)));
    GateTailTargets(net, i, siblings, fl);
    var r := [Offer(net.nodes[i].kind.airport, 0.0, None)] + t;
    assert r[1..] == t;
    assert forall k | 1 <= k < |r| :: r[k] == t[k - 1];
    r
  }

  // ---------------------------------------------------------------------------------------------
  // Bus stops, rail stations and sea stops

  /** A record is skipped when it is one-way and its direction is the node being expanded. */
  predicate Blocked(c: Connection, i: Id) {
    c.direction.Some? && c.direction.value.oneWay && c.direction.value.direction == i
  }

  /** The direction label: the backward label when the record's direction is the node being
      expanded, the forward label otherwise; "" when the chosen label or the direction is absent. */
  function ChosenLabel(c: Connection, i: Id): (r: string) {
    match c.direction
    case None => ""
    case Some(d) => (if d.direction == i then d.backwardLabel else d.forwardLabel).GetOr("")
  }

  /** A non-empty label is shown as "(label) ". */
  function LabelText(c: Connection, i: Id): (r: string)
    ensures ChosenLabel(c, i) == "" <==> r == ""
    ensures r != "" ==> r == "(" + ChosenLabel(c, i) + ") "
  {
    var l := ChosenLabel(c, i);
    if l == "" then "" else "(" + l + ") "
  }

  /** The offer a usable record makes: the neighbour at `WARP_COST`, narrated with the line's
      company, the line, the direction label and the neighbour. */
  function ConnOffer(net: Network, i: Id, target: Id, c: Connection): (r: Offer)
    requires IsPlaceId(net, target) && IsLineId(net, c.line)
  {
    var line := net.nodes[c.line];
    Offer(target, WARP_COST,
          Some(TakeLine(CompanyName(net, line.kind.company), DisplayNode(line.disp), LabelText(c, i), Show(net, target))))
  }

  /** The offers of the records towards one neighbour, skipping blocked ones. */
  function ConnsOffers(net: Network, i: Id, target: Id, conns: seq<Connection>): (r: seq<Offer>)
    requires IsPlaceId(net, target)
    requires forall j | 0 <= j < |conns| :: IsLineId(net, conns[j].line)
    ensures forall k | 0 <= k < |r| :: r[k].target == target && r[k].weight == WARP_COST
    decreases |conns|
  {
    if |conns| == 0 then []
    else
      var rest := ConnsOffers(net, i, target, conns[1..]);
      if Blocked(conns[0], i) then rest else [ConnOffer(net, i, target, conns[0])] + rest
  }

  /** The offers of a stop's whole `connections` record, neighbour by neighbour. */
  function LinkOffers(net: Network, i: Id, links: seq<Link>): (r: seq<Offer>)
    requires LinksOk(net, links)
    ensures forall k | 0 <= k < |r| :: IsPlaceId(net, r[k].target) && r[k].weight == WARP_COST
    decreases |links|
  {
    if |links| == 0 then []
    else
      var head := ConnsOffers(net, i, links[0].target, links[0].conns);
      var rest := LinkOffers(net, i, links[1..]);
      assert forall k | 0 <= k < |rest| :: IsPlaceId(net, rest[k].target);
      head + rest
  }

  /** A usable record of the `connections` list (position `k`, record `j`). */
  predicate UsableAt(i: Id, links: seq<Link>, k: int, j: int) {
    0 <= k < |links| && 0 <= j < |links[k].conns| && !Blocked(links[k].conns[j], i)
  }

  /** The one-way filter for one neighbour: an offer is made exactly for each record that is not
      blocked. */
  lemma {:induction false} ConnsOffersIff(net: Network, i: Id, target: Id, conns: seq<Connection>, o: Offer)
    requires IsPlaceId(net, target)
    requires forall j | 0 <= j < |conns| :: IsLineId(net, conns[j].line)
    ensures o in ConnsOffers(net, i, target, conns) <==>
            exists j | 0 <= j < |conns| :: !Blocked(conns[j], i) && o == ConnOffer(net, i, target, conns[j])
    decreases |conns|
  {
    if |conns| > 0 {
      ConnsOffersIff(net, i, target, conns[1..], o);
      if exists j | 0 <= j < |conns[1..]| :: !Blocked(conns[1..][j], i) && o == ConnOffer(net, i, target, conns[1..][j]) {
        var j :| 0 <= j < |conns[1..]| && !Blocked(conns[1..][j], i) && o == ConnOffer(net, i, target, conns[1..][j]);
        assert conns[j + 1] == conns[1..][j];
      }
      if exists j | 0 <= j < |conns| :: !Blocked(conns[j], i) && o == ConnOffer(net, i, target, conns[j]) {
        var j :| 0 <= j < |conns| && !Blocked(conns[j], i) && o == ConnOffer(net, i, target, conns[j]);
        if j > 0 {
          assert conns[1..][j - 1] == conns[j];
        }
      }
    }
  }

  /** The one-way filter, identically for bus, rail and sea: a stop offers a connection exactly
      for every record of its `connections` that is not one-way towards the stop itself. */
  lemma OneWayFilter(net: Network, i: Id, links: seq<Link>, o: Offer)
    requires LinksOk(net, links)
    ensures o in LinkOffers(net, i, links) <==>
            exists k, j | UsableAt(i, links, k, j) :: o == ConnOffer(net, i, links[k].target, links[k].conns[j])
  {
    OneWayOffersUsable(net, i, links, o);
    UsableOffered(net, i, links, o);
  }

  /** Every offer of a stop's links comes from a usable connection. */
  lemma {:induction false} OneWayOffersUsable(net: Network, i: Id, links: seq<Link>, o: Offer)
    requires LinksOk(net, links)
    ensures o in LinkOffers(net, i, links) ==>
            exists k, j | UsableAt(i, links, k, j) :: o == ConnOffer(net, i, links[k].target, links[k].conns[j])
    decreases |links|
  {
    if |links| > 0 && o in LinkOffers(net, i, links) {
      var head := ConnsOffers(net, i, links[0].target, links[0].conns);
      assert LinkOffers(net, i, links) == head + LinkOffers(net, i, links[1..]);
      ConnsOffersIff(net, i, links[0].target, links[0].conns, o);
      if o in head {
        var j :| 0 <= j < |links[0].conns| && !Blocked(links[0].conns[j], i) && o == ConnOffer(net, i, links[0].target, links[0].conns[j]);
        assert UsableAt(i, links, 0, j);
      } else {
        OneWayOffersUsable(net, i, links[1..], o);
        var k, j :| UsableAt(i, links[1..], k, j) && o == ConnOffer(net, i, links[1..][k].target, links[1..][k].conns[j]);
        assert links[k + 1] == links[1..][k];
        assert UsableAt(i, links, k + 1, j);
      }
    }
  }

  /** Every usable connection of a stop's links is offered. */
  lemma {:induction false} UsableOffered(net: Network, i: Id, links: seq<Link>, o: Offer)
    requires LinksOk(net, links)
    ensures (exists k, j | UsableAt(i, links, k, j) :: o == ConnOffer(net, i, links[k].target, links[k].conns[j])) ==>
            o in LinkOffers(net, i, links)
    decreases |links|
  {
    if exists k, j | UsableAt(i, links, k, j) :: o == ConnOffer(net, i, links[k].target, links[k].conns[j]) {
      var k, j :| UsableAt(i, links, k, j) && o == ConnOffer(net, i, links[k].target, links[k].conns[j]);
      var head := ConnsOffers(net, i, links[0].target, links[0].conns);
      assert LinkOffers(net, i, links) == head + LinkOffers(net, i, links[1..]);
      if k == 0 {
        ConnsOffersIff(net, i, links[0].target, links[0].conns, o);
      } else {
        assert links[1..][k - 1] == links[k];
        assert UsableAt(i, links[1..], k - 1, j);
        UsableOffered(net, i, links[1..], o);
      }
    }
  }

  // ---------------------------------------------------------------------------------------------
  // All offers of one node

  /** The offers that depend on the node's kind (the `switch`). A spawn warp and any other located
      kind make none; the remaining kinds are never expanded. */
  function KindOffers(net: Network, i: Id): (r: seq<Offer>)
    requires WellFormed(net) && IsPlaceId(net, i)
  {
    var n := net.nodes[i];
    assert NodeOk(net, n);
    match n.kind
    case AirAirport(_, gates) => AirportOffers(net, gates)
    case AirGate(_, _) => GateOffers(net, i)
    case Stop(_, _, _, links) => LinkOffers(net, i, links)
    case SpawnWarp(_) => []
    case OtherLocated(_, _) => []
  }

  /** Every `neighbours.set` call made while expanding node `i`, in order: a non-gate first offers
      its proximity and shared-facility neighbours, then the offers of its kind follow. */
  function Offers(net: Network, i: Id): (r: seq<Offer>)
    requires WellFormed(net) && IsPlaceId(net, i)
  {
    var n := net.nodes[i];
    assert NodeOk(net, n);
    (if n.kind.AirGate? then [] else LocatedOffers(net, n.kind.LocOf())) + KindOffers(net, i)
  }

  /** The entries the calls put into `neighbours` when the expanded node's cost is `cost`. */
  function Entries(os: seq<Offer>, cost: real): (r: seq<Entry>)
    ensures |r| == |os|
    ensures forall k | 0 <= k < |r| :: r[k] == Entry(os[k].target, cost + os[k].weight, os[k].text)
    ensures Keys(r) == TargetsOf(os)
    ensures (forall k | 0 <= k < |os| :: os[k].weight >= 0.0) ==> forall k | 0 <= k < |r| :: r[k].cost >= cost
  {
    var r := seq(|os|, k requires 0 <= k < |os| => Entry(os[k].target, cost + os[k].weight, os[k].text));
    assert Keys(r) == TargetsOf(os) by {
      assert forall k | 0 <= k < |r| :: r[k].target == os[k].target;
    }
    r
  }

  // ---------------------------------------------------------------------------------------------
  // Properties of the generated offers

  /** Which increment an offer of node `i` carries: a proximity hop `distance / FLYING_MPS`, a
      shared facility `CHANGING_COST`, airport-to-gate or sibling gate `AIRPORT_TO_GATE_COST`,
      gate-to-own-airport 0, a flight hop or a line connection `WARP_COST`. */
  predicate KnownIncrement(net: Network, i: Id, o: Offer)
    requires IsPlaceId(net, i)
  {
    var n := net.nodes[i];
    || (n.kind.IsLocated() && exists p | p in n.kind.LocOf().proximity :: o.target == p.target && o.weight == p.distance / FLYING_MPS)
    || (n.kind.IsLocated() && o.weight == CHANGING_COST && o.target in n.kind.LocOf().sharedFacility)
    || (n.kind.AirAirport? && o.weight == AIRPORT_TO_GATE_COST && o.target in n.kind.gates)
    || (n.kind.AirGate? && o.weight == 0.0 && o.target == n.kind.airport)
    || (n.kind.AirGate? && o.weight == AIRPORT_TO_GATE_COST && o.target != i &&
        IsAirportId(net, n.kind.airport) && o.target in net.nodes[n.kind.airport].kind.gates)
    || (n.kind.AirGate? && o.weight == WARP_COST && o.target != i &&
        exists m | 0 <= m < |n.kind.flights| ::
          IsFlightId(net, n.kind.flights[m]) && o.target in net.nodes[n.kind.flights[m]].kind.gates)
    || (n.kind.Stop? && o.weight == WARP_COST && exists k | 0 <= k < |n.kind.links| :: o.target == n.kind.links[k].target)
  }

  /** The offers of the located part carry proximity or shared-facility increments. */
  lemma LocatedIncrements(net: Network, i: Id)
    requires WellFormed(net) && IsPlaceId(net, i) && net.nodes[i].kind.IsLocated()
    ensures var loc := net.nodes[i].kind.LocOf();
            forall k | 0 <= k < |LocatedOffers(net, loc)| ::
              KnownIncrement(net, i, LocatedOffers(net, loc)[k]) && LocatedOffers(net, loc)[k].weight >= 0.0 &&
              IsPlaceId(net, LocatedOffers(net, loc)[k].target)
  {
    var n := net.nodes[i];
    assert NodeOk(net, n);
    var loc := n.kind.LocOf();
    var prox := ProximityOffers(net, loc.proximity);
    var sf := FacilityOffers(net, loc.sharedFacility);
    forall k | 0 <= k < |prox|
      ensures KnownIncrement(net, i, prox[k]) && prox[k].weight >= 0.0 && IsPlaceId(net, prox[k].target)
    {
      assert loc.proximity[k] in loc.proximity;
    }
    forall k | 0 <= k < |sf|
      ensures KnownIncrement(net, i, sf[k]) && sf[k].weight >= 0.0 && IsPlaceId(net, sf[k].target)
    {
      assert IsFacilityId(net, loc.sharedFacility[k]);
    }
  }

  /** Every offer a node makes goes to a place and costs a known, non-negative increment, so every
      candidate cost is at least the expanded node's cost. */
  lemma OfferIncrements(net: Network, i: Id)
    requires WellFormed(net) && IsPlaceId(net, i)
    ensures forall k | 0 <= k < |Offers(net, i)| ::
              KnownIncrement(net, i, Offers(net, i)[k]) && Offers(net, i)[k].weight >= 0.0 &&
              IsPlaceId(net, Offers(net, i)[k].target)
  {
    var n := net.nodes[i];
    assert NodeOk(net, n);
    var located := if n.kind.AirGate? then [] else LocatedOffers(net, n.kind.LocOf());
    var kind := KindOffers(net, i);
    assert Offers(net, i) == located + kind;
    if !n.kind.AirGate? {
      LocatedIncrements(net, i);
    }
    forall k | 0 <= k < |kind|
      ensures KnownIncrement(net, i, kind[k]) && kind[k].weight >= 0.0 && IsPlaceId(net, kind[k].target)
    {
      match n.kind
      case AirAirport(_, gates) =>
        assert gates[k] in gates;
      case AirGate(_, flights) =>
        if k == 0 {
          assert IsAirportId(net, n.kind.airport);
        } else if kind[k].weight == WARP_COST {
          assert kind[k].target in FlightGates(net, flights);
          var m :| 0 <= m < |flights| && kind[k].target in net.nodes[flights[m]].kind.gates;
        }
      case Stop(_, _, _, links) =>
        OneWayOffersUsable(net, i, links, kind[k]);
        assert kind[k] in LinkOffers(net, i, links);
      case SpawnWarp(_) =>
      case OtherLocated(_, _) =>
    }
  }

  /** A gate never offers itself: its sibling and flight offers skip it, and its first offer goes
      to its airport, which is not a gate. */
  lemma GateNeverTargetsItself(net: Network, i: Id)
    requires WellFormed(net) && IsGateId(net, i)
    ensures forall k | 0 <= k < |Offers(net, i)| :: Offers(net, i)[k].target != i
  {
    assert NodeOk(net, net.nodes[i]);
    assert Offers(net, i) == GateOffers(net, i);
  }

  /** The direction label seen from each end of a record whose direction is `b`: departing from
      `b` shows the backward label, departing from anywhere else the forward label. A one-way record
      is never used from `b`, so it only ever shows its forward label. */
  lemma DirectionLabelChoice(c: Connection, a: Id, b: Id)
    requires c.direction.Some? && c.direction.value.direction == b && a != b
    ensures ChosenLabel(c, a) == c.direction.value.forwardLabel.GetOr("")
    ensures ChosenLabel(c, b) == c.direction.value.backwardLabel.GetOr("")
    ensures c.direction.value.oneWay ==> Blocked(c, b) && !Blocked(c, a)
  {
  }

  /** The entries made for a node expanded at `cost` all cost at least `cost`. */
  lemma EntriesCostAtLeast(net: Network, i: Id, cost: real)
    requires WellFormed(net) && IsPlaceId(net, i)
    ensures forall k | 0 <= k < |Entries(Offers(net, i), cost)| :: Entries(Offers(net, i), cost)[k].cost >= cost
  {
    OfferIncrements(net, i);
  }
}
