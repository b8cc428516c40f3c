/** The transit network the search runs over: an immutable map from node id to node,
    plus the list of spawn warps. Every edge is implicit in the fields of the nodes. */
module Transit {
  import opened Options
  import Display

  /** Node identifiers (`node.i`; string keys of the source's records are parsed back to numbers). */
  type Id = int

  /** Extra cost of walking from an airport to one of its gates, or between sibling gates. */
  const AIRPORT_TO_GATE_COST: real := 20.0
  /** Cost of a flight hop and of a bus, rail or sea connection. */
  const WARP_COST: real := 10.0
  /** Flying speed in blocks per second: a proximity link of `d` blocks costs `d / FLYING_MPS`. */
  const FLYING_MPS: real := 8.0
  /** Cost of changing to a shared-facility node, and the seeded cost of every spawn warp. */
  const CHANGING_COST: real := 10.0

  /** A direction descriptor of a connection record. */
  datatype Direction = Direction(
    oneWay: bool,
    direction: Id,
    forwardLabel: Option<string>,
    backwardLabel: Option<string>)

  /** One connection record: the line serving it and its optional direction. */
  datatype Connection = Connection(line: Id, direction: Option<Direction>)

  /** One entry of a stop's `connections` record: the neighbouring stop and the records towards it. */
  datatype Link = Link(target: Id, conns: seq<Connection>)

  /** One entry of a located node's `proximity` record. */
  datatype Proximity = Proximity(target: Id, distance: real)

  /** The fields every located node has. */
  datatype Located = Located(proximity: seq<Proximity>, sharedFacility: seq<Id>)

  /** Bus stops, rail stations and sea stops are handled by the same code. */
  datatype Mode = Bus | Rail | Sea

  /** The kinds of node the search distinguishes. `OtherLocated` stands for any further located
      kind (a `Town`); `Line` and `Company` are the lines and operators connection records refer to. */
  datatype Kind =
    | AirAirport(loc: Located, gates: seq<Id>)
    | AirGate(airport: Id, flights: seq<Id>)
    | AirFlight(airline: Id, gates: seq<Id>)
    | Stop(mode: Mode, company: Id, loc: Located, links: seq<Link>)
    | SpawnWarp(loc: Located)
    | OtherLocated(typeName: string, loc: Located)
    | Line(typeName: string, company: Id)
    | Company(typeName: string)
  {
    /** Located nodes: everything the search casts to `Located` (every popped kind but a gate). */
    predicate IsLocated() {
      AirAirport? || Stop? || SpawnWarp? || OtherLocated?
    }

    /** Nodes the search can reach and expand. */
    predicate IsPlace() {
      IsLocated() || AirGate?
    }

    /** The located part of a located node. */
    function LocOf(): (r: Located)
      requires IsLocated()
    {
      match this
      case AirAirport(loc, _) => loc
      case Stop(_, _, loc, _) => loc
      case SpawnWarp(loc) => loc
      case OtherLocated(_, loc) => loc
    }
  }

  /** A node: its display fields and its kind. */
  datatype Node = Node(disp: Display.Fields, kind: Kind)

  /** The network: all nodes by id, and the ids of the spawn warps (`gd.spawnWarps`). */
  datatype Network = Network(nodes: map<Id, Node>, spawnWarps: seq<Id>)

  /** The node's `type` tag as it appears in leg texts. */
  function TypeName(n: Node): (r: string) {
    match n.kind
    case AirAirport(_, _) => "AirAirport"
    case AirGate(_, _) => "AirGate"
    case AirFlight(_, _) => "AirFlight"
    case Stop(mode, _, _, _) => (match mode case Bus => "BusStop" case Rail => "RailStation" case Sea => "SeaStop")
    case SpawnWarp(_) => "SpawnWarp"
    case OtherLocated(t, _) => t
    case Line(t, _) => t
    case Company(t) => t
  }

  /** A nullable string field as a template string renders it. */
  function NameText(o: Option<string>): (r: string) {
    o.GetOr("null")
  }

  predicate IsPlaceId(net: Network, id: Id) {
    id in net.nodes && net.nodes[id].kind.IsPlace()
  }

  predicate IsAirportId(net: Network, id: Id) {
    id in net.nodes && net.nodes[id].kind.AirAirport?
  }

  predicate IsGateId(net: Network, id: Id) {
    id in net.nodes && net.nodes[id].kind.AirGate?
  }

  predicate IsCompanyId(net: Network, id: Id) {
    id in net.nodes && net.nodes[id].kind.Company?
  }

  /** A flight the code can read: its airline exists and it has a `codes` list. */
  predicate IsFlightId(net: Network, id: Id) {
    id in net.nodes && net.nodes[id].kind.AirFlight? && net.nodes[id].disp.codes.Some? &&
    IsCompanyId(net, net.nodes[id].kind.airline)
  }

  /** A line whose company exists. */
  predicate IsLineId(net: Network, id: Id) {
    id in net.nodes && net.nodes[id].kind.Line? && IsCompanyId(net, net.nodes[id].kind.company)
  }

  /** A shared-facility target: a stop or station whose company exists (the code reads its `company`). */
  predicate IsFacilityId(net: Network, id: Id) {
    id in net.nodes && net.nodes[id].kind.Stop? && IsCompanyId(net, net.nodes[id].kind.company)
  }

  /** The references of a located node resolve: proximity targets are places at a non-negative
      distance, shared-facility targets are stops with a company. */
  predicate LocatedOk(net: Network, loc: Located) {
    && (forall k | 0 <= k < |loc.proximity| ::
          IsPlaceId(net, loc.proximity[k].target) && loc.proximity[k].distance >= 0.0)
    && (forall k | 0 <= k < |loc.sharedFacility| :: IsFacilityId(net, loc.sharedFacility[k]))
  }

  /** The references of a connection list resolve: targets are places, lines have companies. */
  predicate LinksOk(net: Network, links: seq<Link>) {
    forall k | 0 <= k < |links| ::
      IsPlaceId(net, links[k].target) &&
      forall j | 0 <= j < |links[k].conns| :: IsLineId(net, links[k].conns[j].line)
  }

  /** Every id a node refers to resolves to a node of the kind the code expects there. */
  predicate NodeOk(net: Network, n: Node) {
    match n.kind
    case AirAirport(loc, gates) =>
      LocatedOk(net, loc) && forall k | 0 <= k < |gates| :: IsGateId(net, gates[k])
    case AirGate(airport, flights) =>
      IsAirportId(net, airport) && forall k | 0 <= k < |flights| :: IsFlightId(net, flights[k])
    case AirFlight(airline, gates) =>
      forall k | 0 <= k < |gates| :: IsGateId(net, gates[k])
    case Stop(_, _, loc, links) => LocatedOk(net, loc) && LinksOk(net, links)
    case SpawnWarp(loc) => LocatedOk(net, loc)
    case OtherLocated(_, loc) => LocatedOk(net, loc)
    case Line(_, _) => true
    case Company(_) => true
  }

  /** A well-formed network: no dangling or mistyped reference anywhere, and every listed
      spawn warp is a spawn-warp node. The source dereferences every lookup with `!`. */
  predicate WellFormed(net: Network) {
    && (forall id | id in net.nodes :: NodeOk(net, net.nodes[id]))
    && (forall k | 0 <= k < |net.spawnWarps| ::
          net.spawnWarps[k] in net.nodes && net.nodes[net.spawnWarps[k]].kind.SpawnWarp?)
  }
}
