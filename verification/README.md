# slowroute: route search over the transit network, in Dafny

This project models the route finder of the slowroute web page (`src/main.ts`). The page offers
two drop-downs of places and a "Go" button. A click shows "Already there" when both choices are
the same place. Otherwise it runs `dijkstra(from, to)` and shows the resulting legs joined by
`<br>`, or "No solution".

The model has these parts:

- **`Transit`** is the network. It is an immutable map from node id to node, plus the list of
  spawn warps. Nodes are airports, gates, flights, bus/rail/sea stops, spawn warps, other located
  places (towns), lines and companies. It also holds the four cost constants of lines 91-94.
  `WellFormed` states what the source assumes of its data: every id it looks up exists, and the
  node it finds has the fields the code reads from it. It also asks that every proximity target
  lie at a `distance` of at least 0, which the source does not check. The proofs that costs
  never fall along the search (`Neighbours.EntriesCostAtLeast`, `SearchProofs.StepRanked`,
  `SearchProofs.CorrectedNeverDiverges`, `SearchCost`) rest on it.
- **`Display`** is `displayNode`.
- **`Legs`** holds the legs of an itinerary as a datatype. `Render` produces each leg's text.
- **`NeighbourMap`** is the insertion-ordered `neighbours` map. A `set` on a key that is already
  present overwrites that entry in place.
- **`Neighbours`** is the per-kind neighbour generation: every `neighbours.set` call made while
  a node is expanded, in order.
- **`Queue`** is the sort-and-pop extraction.
- **`Search`** is the search itself:
  - `Seed` is the state before the loop.
  - `Step` is one iteration of the `while` loop.
  - `Relax` is the relaxation loop.
  - `Walk` and `Reconstruct` are the path reconstruction.
  - `Run` and `Dijkstra` run the whole search.
- **`SearchLoop`** holds the same search as imperative methods with loop invariants, proved equal
  to the functional definitions.
- **`SearchProofs`** proves what the search finds. It defines reachability as a chain of legs from
  `from` or from a spawn warp.
- **`SearchCost`** proves that the corrected search's cost for the destination is the least that
  any chain of legs allows.
- **`Handler`** is the click handler.
- **`Findings`** holds concrete networks on which the search as written goes wrong.

`Variant` chooses between two searches:

- `AsWritten` is the code as it stands. A node kind without a `case` (a town) leaves its
  iteration with `continue`. That skips both the relaxation and `neighbours.clear()`.
- `Corrected` relaxes such a node's entries like those of any other located node.

The two variants differ in nothing else. See "## Findings".

Some facts about `src/main.ts` that shape the model:

- The search state is the queue, the costs and `cameFrom`, plus the `neighbours` map.
- Flights, bus, rail and sea connections, proximity hops and shared facilities are all followed. Nothing filters them by mode.
- A flight hop and a bus, rail or sea connection always cost `WARP_COST`, whatever the distance.
- A located node's proximity hop costs exactly `distance / FLYING_MPS`.
- A spawn warp is seeded at cost `CHANGING_COST`.
- The page shows only the legs. There is no total-time line and no warning line.

## Model

| member | source | states |
|---|---|---|
| Display.DisplayNode | src/main.ts:27-46 | The three forms: "name (codes)" when there is a name and codes other than just `[name]`; the codes joined by "/" when there is no name; the bare name otherwise |
| Display.DisplayEmptyIff | src/main.ts:33-45 | The display is empty exactly when there is no name and the codes are none or one empty code |
| Display.DisplayRecoversParts | src/main.ts:33-40 | A "name (codes)" display starts with the name, and splitting its bracketed part at "/" gives back the code list when no code contains "/" |
| Display.FieldFallbacks | src/main.ts:33-34 | A present `codes` list wins over `code` even when empty; a falsy `code` gives no codes; a present `names` list wins over `name` |
| Legs.Round | src/main.ts:136 | `Math.round`: the result is within one half of the distance, with halves rounded up |
| Legs.Render | src/main.ts:105-208 | Every leg's text is non-empty |
| NeighbourMap.Put | src/main.ts:134-137 | `Map.set`: a new key is appended at the end; an existing key keeps its position and gets the new value; keys stay distinct |
| NeighbourMap.GetPut | src/main.ts:134-137 | After a `set`, reading the key set gives the new entry; every other key reads as before |
| NeighbourMap.GetPutAll | src/main.ts:130-266 | After a series of `set` calls, a key reads as the LAST call for it (a later call overwrites, no minimum is taken), or as before if no call was for it |
| NeighbourMap.PutAllSnoc | src/main.ts:130-266 | The calls are applied one by one, in order |
| Neighbours.ProximityOffers | src/main.ts:132-138 | One offer per proximity entry, in order, to that neighbour, at weight `distance / FLYING_MPS`, with a text |
| Neighbours.FacilityOffers | src/main.ts:139-145 | One offer per shared facility, in order, at weight `CHANGING_COST`, with a text |
| Neighbours.GateText | src/main.ts:152-155 | A gate offer has a text exactly when the gate's code is present and non-empty |
| Neighbours.AirportOffers | src/main.ts:149-158 | An airport offers each of its gates, in order, at `AIRPORT_TO_GATE_COST` |
| Neighbours.SiblingOffers | src/main.ts:162-169 | A gate offers exactly the other gates of its airport, never itself, each at `AIRPORT_TO_GATE_COST` |
| Neighbours.HopOffers | src/main.ts:172-185 | A flight's hops from gate `i` go to exactly the flight's other gates, each at `WARP_COST` and with the flight text |
| Neighbours.HopTargets | src/main.ts:172-175 | The targets of one flight's hops from gate `i` are exactly the flight's gates other than `i` |
| Neighbours.FlightOffers | src/main.ts:170-186 | The flight hops from gate `i` go to exactly the gates of its flights other than `i`, every one at `WARP_COST` |
| Neighbours.GateOffers | src/main.ts:159-187 | A gate first offers its own airport at weight 0 and without text. Every later offer goes to another gate: a gate of its own airport at `AIRPORT_TO_GATE_COST`, or a gate of one of its flights at `WARP_COST`. Together the later offers go to exactly the other gates of its airport and of its flights |
| Neighbours.LabelText | src/main.ts:201-205 | The direction label is empty exactly when the chosen label is; otherwise it is "(label) " |
| Neighbours.DirectionLabelChoice | src/main.ts:201-205 | Seen from the record's direction end, a record shows the backward label, from elsewhere the forward label; a one-way record is skipped at its direction end and used elsewhere |
| Neighbours.ConnsOffers | src/main.ts:192-210 | Every offer of the records towards one neighbour goes to that neighbour at `WARP_COST` |
| Neighbours.ConnsOffersIff | src/main.ts:193-198 | For one neighbour, an offer is made exactly for each record that is not one-way towards the expanded node |
| Neighbours.LinkOffers | src/main.ts:188-212 | Every offer of a stop's connections goes to a place at `WARP_COST` |
| Neighbours.OneWayFilter | src/main.ts:188-262 | The same for bus, rail and sea: a stop offers a connection exactly for the records that are not one-way towards the stop itself |
| Neighbours.OneWayOffersUsable | src/main.ts:193-198 | Every offer comes from a record that the one-way test lets through |
| Neighbours.UsableOffered | src/main.ts:193-198 | Every record that the one-way test lets through is offered |
| Neighbours.Entries | src/main.ts:134-135 | Each `set` call records the target at the current cost plus the offer's weight, with the offer's text. The entries' keys are exactly the offers' targets, and with non-negative weights no entry costs less than the expanded node |
| Neighbours.OfferIncrements | src/main.ts:130-266 | Every offer goes to a place, and its increment matches the edge it follows. A proximity hop costs `distance / 8` to that proximity neighbour. A shared facility costs 10. An airport's own gate costs 20. A gate's own airport costs 0, another gate of that airport 20, and another gate of one of its flights 10. A stop's connection costs 10 to one of its listed neighbours. No increment is negative |
| Neighbours.GateNeverTargetsItself | src/main.ts:159-187 | A gate never offers itself |
| Neighbours.EntriesCostAtLeast | src/main.ts:130-266 | Every candidate cost is at least the expanded node's cost |
| Queue.InsertSorted | src/main.ts:113 | Insertion keeps the queue in descending cost order |
| Queue.SortDesc | src/main.ts:113 | The sort is a permutation of the queue in descending cost order |
| Queue.Extract | src/main.ts:113 | The popped id was queued and costs no more than any queued id; the rest is the queue without it |
| Queue.ExtractLastMinimum | src/main.ts:113 | Ties: the popped id is the one at the LAST queue position that holds a minimal cost |
| Search.SeedWarps | src/main.ts:104-108 | Every spawn warp is queued in order, costs `CHANGING_COST` and is reached from `from` by "Take spawn warp to <name>"; nothing else changes |
| Search.Seed | src/main.ts:98-108 | The queue is `from` followed by the spawn warps; exactly `from` and the warps have costs; exactly the warps have predecessors; `from` costs 0 unless it is itself a warp |
| Search.Relax | src/main.ts:269-276 | Recorded costs never increase; a cost and a predecessor change only together and only for a strictly cheaper entry, and the new predecessor is the expanded node; only targets with no recorded cost are pushed, each once |
| Search.Expand | src/main.ts:128-267 | The `neighbours` map afterwards holds the keys left over plus the targets of every offer, each once |
| Search.Step | src/main.ts:112-278 | An iteration that does not return keeps the loop invariant, and either records a new node or shortens the queue |
| Search.ProgressDecreases | src/main.ts:112 | That progress is a decrease of the loop's measure, so the `while` loop ends |
| Search.SeedInv | src/main.ts:98-108 | The seeded state satisfies the loop invariant |
| SearchProofs.StepPushesOnlyNew | src/main.ts:271 | An iteration pushes only ids with no recorded cost, each once, and records them, so no id is pushed by two iterations |
| SearchLoop.Backtrack | src/main.ts:116-126 | The `while (fi !== from)` walk collects the non-empty labels and reverses them, which is `Reconstruct` |
| SearchLoop.ResumeStep | src/main.ts:119-122 | One step back along `cameFrom` pushes that step's label, if any, and leaves the final outcome unchanged |
| SearchLoop.RelaxLoop | src/main.ts:269-276 | The relaxation loop computes `Relax` |
| SearchLoop.DijkstraLoop | src/main.ts:96-281 | The imperative search computes `Dijkstra` |
| SearchProofs.ReachableStep | src/main.ts:269-276 | A target of a reachable place is reachable |
| SearchProofs.StepSound | src/main.ts:112-278 | An iteration records only reachable nodes and leaves only reachable nodes in `neighbours` |
| SearchProofs.RouteOnlyIfReachable | src/main.ts:96-281 | In both variants, a route is found only to a destination that some chain of legs reaches |
| SearchProofs.StepClosed | src/main.ts:112-278 | In the corrected search, every recorded node is still queued, or it is not the destination and all its targets are recorded |
| SearchProofs.NoSolutionOnlyIfUnreachable | src/main.ts:280 | The corrected search answers "No solution" only when no chain of legs reaches the destination |
| SearchProofs.WalkEnds | src/main.ts:119-124 | The walk back ends at `from` when each predecessor was extracted before its successor |
| SearchProofs.StepRanked | src/main.ts:113-126 | In the corrected search, extracted nodes cost no more than queued ones, and every predecessor was extracted earlier |
| SearchProofs.CorrectedNeverDiverges | src/main.ts:116-126 | The corrected search's reconstruction always ends |
| SearchProofs.CorrectedRouteIffReachable | src/main.ts:96-281 | The corrected search finds a route exactly when the destination is reachable, and answers "No solution" exactly when it is not |
| SearchCost.LastOfferEntry | src/main.ts:130-266 | After an expansion at cost `c`, a target's entry holds `c` plus the increment of the last `set` call for that target |
| SearchCost.LegWeight | src/main.ts:130-266 | A leg's weight, the increment of the last `set` call for its target, is never negative |
| SearchCost.SeedCheap | src/main.ts:98-108 | Before the loop, `from` is recorded at 0 or less unless it is a warp, every warp at `CHANGING_COST` or less, and every recorded node is queued |
| SearchCost.ExpandLegs | src/main.ts:128-277 | After the relaxation from `i`, every target of `i` is recorded at no more than `i`'s cost plus the leg's weight |
| SearchCost.RelaxCheap | src/main.ts:269-276 | The relaxation from the cheapest queued node keeps the starts within their seeded costs, settles that node, and leaves every recorded node not yet extracted queued |
| SearchCost.StepCheap | src/main.ts:112-278 | One corrected iteration keeps the same three facts, with the popped node extracted |
| SearchCost.PrefixBound | src/main.ts:112-278 | Along a chain of extracted nodes from a start, each node's recorded cost is at most the start's seeded cost plus the weight of the legs so far |
| SearchCost.ExtractedBound | src/main.ts:113-116 | When the destination is popped, its recorded cost is at most any start's seeded cost plus the weight of any chain of legs from it to the destination |
| SearchCost.RunCheap | src/main.ts:112-281 | From any iteration, a route found by the corrected loop comes with a recorded cost for the destination within every chain's bound |
| SearchCost.CorrectedRouteIsCheapest | src/main.ts:96-281 | When the corrected search finds a route, the destination's cost is no more than a start's seeded cost plus the weight of any chain of legs from that start |
| Handler.Lines | src/main.ts:292 | One non-empty line per leg |
| Handler.OnClick | src/main.ts:283-293 | Equal ids show "Already there"; otherwise the page shows "No solution" exactly when the search finds none, and shows nothing exactly when the reconstruction never ends |
| Handler.RouteNeverReadsNoSolution | src/main.ts:280-292 | A found route never reads "No solution", so that text identifies a failed search |
| Handler.CorrectedClickAnswers | src/main.ts:283-293 | With the corrected search, every click shows a text, and for distinct ids that text is "No solution" exactly when the destination is unreachable |
| Findings.TwoTownsRun | src/main.ts:265-266 | From town 1, whose only neighbour is town 2, the search as written answers "No solution" |
| Findings.TownNeighboursDropped | src/main.ts:265-266 | Town 2 is reachable from town 1, yet the search as written answers "No solution" |
| Findings.TownNeighboursKeptWhenCorrected | src/main.ts:263-266 | The corrected search finds the route from town 1 to town 2 |
| Findings.WalkCycles | src/main.ts:119-124 | When the destination's predecessor is its own predecessor, the walk back never reaches `from` |
| Findings.LoopRun | src/main.ts:112-278 | The four iterations of the search from stop 1 to stop 4, ending in a reconstruction that never ends |
| Findings.StaleTownEntryHangs | src/main.ts:265-277 | Stop 4 is reachable from stop 1, yet the search as written never returns |
| Findings.StaleTownEntryHarmlessWhenCorrected | src/main.ts:263-277 | The corrected search finds the route from stop 1 to stop 4 |

## Left out

- The page itself is not modelled: the element lookups (lines 18-23), the option list and its `localeCompare` sort (lines 48-89), and the `innerHTML` writes. `Handler.OnClick` returns the text the page would show.
- The network load `GD.getNoSources()` (line 25) becomes a `Network` parameter.
- The typed accessors of `gatelogue-types` become one untyped lookup. The code uses `gd.busCompany` and `gd.busLine` for rail and sea lines and `gd.railStation` for sea stops (lines 63, 68, 224-225, 241, 249-250). `WellFormed` asks only for the fields the code reads, not for the type an accessor's name gives. What those accessors return for a node of another type is decided in `gatelogue-types`, which is not part of this model.
- `WellFormed` is required rather than modelled. When an id the source looks up is missing, the lookup gives `undefined`, and the property access after it throws. That crash is not modelled.
- IsFacilityId: only a bus stop, rail station or sea stop with a company may be a shared-facility target. An airport, a town or a spawn warp listed in `shared_facility` has no `company` field, so the lookup of its company at line 143 finds no node, and the `.name` access after it throws. Networks with such an entry are excluded by `WellFormed`, and that crash is not modelled.
- `parseInt` of the selected values (lines 285-286) is not modelled; the handler receives the ids.
- `console.log` (line 123) is not modelled.
- Costs are exact reals, not IEEE doubles.
- `Legs.Round` works on an exact real distance.
- `Infinity` at line 270 is modelled as "no recorded cost".
- The order of `Object.entries` over `proximity` and `connections` is not modelled: the model takes the entries in the order the node lists them. JavaScript lists integer-like keys in ascending order.
- JavaScript's sort is stable; the model's insertion sort is stable too. `Queue.ExtractLastMinimum` states the resulting tie-break.
- SearchLoop.Backtrack: where the source's `while (fi !== from)` loop runs forever, the method returns `Diverges`. That is when the walk comes back to a node it has already left. `Handler.OnClick` turns this into `Hung`: nothing is ever shown.
- SearchCost.CorrectedRouteIsCheapest: bounds the cost recorded for the destination when it is popped. It does not prove that the weights of the legs shown add up to that cost.
- Flights, lines and companies are never expanded: they are never recorded, so they never come out of the queue.

## Findings

| source | as written | input that shows it | evidently intended | confidence | as-written member | corrected member |
|---|---|---|---|---|---|---|
| src/main.ts:265-266 | A town reaches `default: continue`, so its located entries are not relaxed in the town's own iteration. When no later iteration reaches the relaxation loop, as in the input shown, they are never relaxed and the search answers "No solution" | Towns 1 and 2, 8 blocks apart, no spawn warps; search from 1 to 2 answers "No solution" | A town's located neighbours are relaxed like those of a spawn warp (`break`), so a reachable destination is found | not executed | Findings.TownNeighboursDropped | SearchProofs.CorrectedRouteIffReachable |
| src/main.ts:265-277 | The same `continue` skips `neighbours.clear()`. The town's entries are relaxed in the next iteration with the next node as predecessor, which can make a node its own predecessor. The walk back at lines 119-124 then never ends | Stop 1 is 8 blocks from town 2 and 80 from stop 3; town 2 is 8 blocks from stop 3; stop 3 reaches stop 4 by a bus line. Search from 1 to 4: stop 3 becomes its own predecessor and the page hangs | `neighbours` is cleared every iteration, and every reconstruction ends | not executed | Findings.StaleTownEntryHangs | SearchProofs.CorrectedNeverDiverges |
