# Rolling-stock circulation network of the Retiro–Tigre line

The repository plans how many train units ("rolling stock", RS) the
Retiro–Tigre line needs. It reads a timetable of services. Each service has a
departure stop, an arrival stop and a passenger demand. From the timetable it
builds a time-expanded event network, hands it to a min-cost-flow solver,
and reads each train's route and overnight station off the resulting flow.

The network has these parts:

- Every departure or arrival is a node.
- A **trip edge** ("tren") carries the units that serve a train. Its lower
  bound is `ceil(demand / capacity)` and its upper bound is `max_rs`.
- **Transfer edges** ("traspaso") join consecutive events of one station, in
  time order.
- One **overnight edge** ("trasnoche") per station goes from the station's
  last event of the day back to its first.

The model covers two builders of this network:

- `src/prueba.py` keys nodes by event tuples `(time, station, type[, units])`.
  It hard-codes the two stations `Retiro` / not-`Retiro`. It builds three
  variants:
  - a circulation with the bounds on the trip edges;
  - a min-cost network with the lower bound moved into the node demands;
  - the same min-cost network with one station's overnight edge capped.
- `src/main.py` names nodes `<id>_D` / `<id>_A`. It groups events by the
  stations listed in the instance, and prices each overnight edge with the
  station's `cost_per_unit`. After the solver returns, it walks the flow
  dictionary to report each service's route and overnight station.

A `networkx.DiGraph` is a value here, `DiGraph.Graph`. It holds the node
insertion order, the node attribute dictionaries and the edge attribute
dictionaries. `add_node` and `add_edge` are `DiGraph.AddNode` and
`DiGraph.AddEdge`. Both merge attributes the way Python's `dict.update` does.

Each builder loop is a Dafny method that reassigns a local graph. Its
postcondition says the result equals running a list of graph calls (`Op`s)
from the empty graph. The lemmas about those calls then state what the
network contains:

- its nodes and their demands;
- which pairs are edges;
- the attributes of each transfer, trip and overnight edge;
- the total demand;
- the exact conditions under which a build fails.

Python crashes become `Err` results:

- a service with fewer than two stops (`IndexError`);
- a station missing from `stations` (`KeyError`);
- a station without a `cost_per_unit` (`KeyError`);
- an empty `retiro` or `tigre` list (`IndexError`);
- a flow-dictionary node missing from the graph (`KeyError`).

Modules:

- `Wrappers`: `Option` and `Result`.
- `Sequences`, `StableSort`, `Sums`: distinctness, order-keeping
  deduplication, Python's stable `sorted`, and sums.
- `Timetable`: services, stops, `rs_info`, and the ceiling division.
- `DiGraph`: the graph value and its calls.
- `PruebaEvents`, `PruebaNetwork`, `PruebaFacts`, `PruebaFindings`:
  `src/prueba.py`.
- `MainNetwork`, `MainSteps`, `MainLinks`, `MainFacts`: network
  construction in `src/main.py`.
- `MainExtraction`: route and overnight extraction in `src/main.py`.

## Model

| member | source | states |
|---|---|---|
| Timetable.FirstShort | src/prueba.py:69-74 | None exactly when every service has at least the two stops a trip edge reads; otherwise names the first service that has fewer |
| Timetable.FirstShortAt | src/prueba.py:69-74 | the service reported is the first one, in timetable order, with fewer than two stops |
| Timetable.CeilDiv | src/prueba.py:70 | the result r is the least integer with a <= r*b: (r-1)*b < a <= r*b |
| Timetable.CeilDivIsCeiling | src/main.py:28 | CeilDiv(a, b) is math.ceil of the real quotient a/b: a/b <= r and r-1 < a/b |
| Timetable.RequiredUnits | src/main.py:28-29 | the number of units a service needs is the least u with demand <= u*capacity |
| PruebaEvents.CreateTuple | src/prueba.py:7-8 | keeps the stop's time, station and type; the unit count is the ceiling of demand/capacity |
| PruebaEvents.CreateTupleCirc | src/prueba.py:10-11 | keeps the stop's time, station and type, with no unit count |
| PruebaEvents.OrderByTimeSorts | src/prueba.py:21-22 | the sorted list is ordered by time, is a permutation of the input, and keeps the input order among equal times (Python's stable sort) |
| StableSort.SortByCorrect | src/prueba.py:21-22 | sorting by a key yields a key-ordered permutation that keeps the relative order of elements with equal keys |
| StableSort.InsertPermutes | src/prueba.py:22 | inserting one element adds exactly that element to the multiset |
| StableSort.InsertSorted | src/prueba.py:22 | inserting into a sorted list keeps it sorted |
| StableSort.InsertWithKey | src/prueba.py:22 | insertion places the new element before every existing element with the same key |
| PruebaEvents.StopTuples | src/prueba.py:39-40 | one tuple per stop of a service |
| PruebaEvents.CollectEvents | src/prueba.py:38-44 | the cleaning loop's `nodos` is every stop's tuple in timetable order; `retiro` and `tigre` are its Retiro and non-Retiro tuples, in that order |
| PruebaEvents.CollectStops | src/prueba.py:39-44 | the inner loop appends one service's tuples to `nodos` and keeps `retiro`/`tigre` the Retiro/non-Retiro sublists of `nodos` |
| PruebaEvents.StationPartition | src/prueba.py:96-103 | `retiro` and `tigre` split the tuples: together they form the same multiset, and a tuple is in `retiro` exactly when it is at Retiro |
| PruebaEvents.AllTuplesMembers | src/prueba.py:96-103 | a tuple is collected exactly when it is the tuple of some stop of some service |
| PruebaEvents.AllTuplesDemandZero | src/prueba.py:114-124 | if every service departs before it arrives, the signed unit demands of all collected tuples, counted with repetition, add up to 0 |
| PruebaNetwork.AddNodes | src/prueba.py:114-124 | the node loop over a station list performs exactly one add_node per tuple, with its signed demand |
| PruebaNetwork.AddTransfers | src/prueba.py:129-133 | the transfer loop adds one edge from each tuple of a list to the next |
| PruebaNetwork.AddTrips | src/prueba.py:137-141 | the trip loop adds one edge per service between its first two stops' tuples; it fails on the first service with fewer than two stops |
| PruebaNetwork.SortedStationLists | src/prueba.py:96-107 | returns the sorted `retiro` and `tigre` lists of the timetable |
| PruebaNetwork.NodesAndTransfers | src/prueba.py:110-133 | the graph after the node and transfer loops, from the empty graph |
| PruebaNetwork.NetworkOpsInBatches | src/prueba.py:110-146 | the graph calls of one modelling function run as four phases: nodes and transfers, trips, then the two overnight edges |
| PruebaNetwork.BuildNetwork | src/prueba.py:96-146 | the shared build of all three variants equals the network specification PruebaGraph, including its errors |
| PruebaNetwork.ModelCirculation | src/prueba.py:27-79 | main_modelado_circulacion builds PruebaGraph's circulation network |
| PruebaNetwork.ModelCostMin | src/prueba.py:87-146 | main_modelado_cost_min builds PruebaGraph's min-cost network |
| PruebaNetwork.ModelCostMinRestricted | src/prueba.py:159-223 | main_modelado_cost_min_restricciones builds PruebaGraph's restricted network |
| PruebaFacts.NodeOpsRun | src/prueba.py:114-124 | after the node loops the graph holds each tuple once, in first-seen order, each with its own demand |
| PruebaFacts.CycleEdgePairs | src/prueba.py:129-146 | a station list's transfer edges plus its overnight edge are exactly the cycle through the list in time order |
| PruebaFacts.PruebaBuilt | src/prueba.py:137-146 | a successful build had no short service, and is the run of its node, transfer, trip and overnight calls |
| PruebaFacts.ListsSplitTuples | src/prueba.py:96-107 | the sorted `retiro` and `tigre` lists together are a permutation of all tuples, split by station |
| PruebaFacts.ListsStations | src/prueba.py:100-103 | every tuple of `retiro` is at Retiro and no tuple of `tigre` is |
| PruebaFacts.EdgePairsTrips | src/prueba.py:137-141 | the trip calls name exactly the services' departure/arrival tuple pairs |
| PruebaFacts.PruebaNodes | src/prueba.py:114-124 | the nodes are exactly the collected tuples, in the order they were added, and each carries the demand of its tuple |
| PruebaFacts.PruebaEdges | src/prueba.py:129-146 | the edges are exactly the Retiro cycle, the non-Retiro cycle and the trip pairs |
| PruebaFacts.PruebaOvernight | src/prueba.py:78-79 | each station list's last tuple has an edge back to its first, with that variant's overnight attributes |
| PruebaFacts.RestrictedOvernight | src/prueba.py:217-223 | the overnight edge at `sede` has capacity `restriccion`, stored as given (int or float); the other station's has 1e10; both have weight 1 |
| PruebaFacts.OvernightEdgeCap | src/prueba.py:217-223 | which overnight edge `restriccion` caps depends only on whether `sede` is "Retiro" |
| PruebaFacts.CrossingTripIsLast | src/prueba.py:137-146 | a trip between the two station lists is the last call on its pair, unless a later service repeats that pair |
| PruebaFacts.PruebaTripAttrs | src/prueba.py:137-141 | a service whose trip crosses stations, and which no later service repeats, keeps its trip attributes on that edge |
| PruebaFacts.PruebaTrip | src/prueba.py:69-141 | circulation trip edges (lines 69-74) carry bounds [ceil(d/cap), max_rs] and weight 0; min-cost trip edges (lines 137-141) carry weight 0 and capacity max_rs - d/cap |
| PruebaFacts.PruebaTransfer | src/prueba.py:62-205 | consecutive tuples of a sorted station list are joined by an edge with the transfer attributes: lower bound 0, weight 0, capacity 1e10 in the circulation (lines 62-65); weight 0, capacity 1e10 in the min-cost variant (lines 129-133) and in the restricted one (lines 201-205) |
| PruebaFacts.TripSlackExact | src/prueba.py:141 | an integer flow x fits the min-cost trip capacity exactly when the required units plus x stay within max_rs |
| PruebaFacts.PruebaTotalDemand | src/prueba.py:114-124 | total node demand is the sum over the distinct tuples, each counted once |
| PruebaFacts.PruebaBalanced | src/prueba.py:114-124 | if services depart before they arrive and no two events share a tuple, node demands sum to 0 |
| PruebaFindings.MergedDepartureUnbalanced | src/prueba.py:96-124 | two services leaving Retiro at the same time build a min-cost network whose demands sum to -1 |
| MainNetwork.RunServiceOps | src/main.py:25-38 | one service's calls add its departure node, its arrival node and the train edge between them |
| MainNetwork.AddService | src/main.py:21-38 | one pass of the service loop performs that service's two add_node calls and its add_edge call |
| MainNetwork.AddServices | src/main.py:20-38 | the service loop fails on the first service with fewer than two stops; otherwise it makes every service's calls, in order |
| MainNetwork.ServicesReadable | src/main.py:42-43 | every node the service loop adds carries a station and a time |
| MainNetwork.GroupByStation | src/main.py:41-43 | groups the nodes' (name, time) entries by station, in node order; fails on a node whose station is not listed |
| MainNetwork.GroupKeys | src/main.py:41 | a successful grouping has exactly the listed stations as keys |
| MainNetwork.AddChain | src/main.py:48-55 | one station's transfer loop adds an edge between each consecutive pair of entries |
| MainNetwork.SortAndAddTransfers | src/main.py:45-55 | each station's list is sorted stably by time, and the transfer edges follow the sorted lists |
| MainNetwork.AddOvernights | src/main.py:58-69 | adds each non-empty station's overnight edge; fails on the first such station without a cost |
| MainNetwork.BuildMainNetwork | src/main.py:20-69 | the whole construction equals the network specification MainGraph, including its errors |
| MainSteps.NamesDiffer | src/main.py:25-26 | a departure name never equals an arrival name, and a name identifies its service |
| MainSteps.EventNamesMembers | src/main.py:25-29 | a node name is added exactly when it is the `_D` or `_A` name of some service |
| MainSteps.ServicesGraphShape | src/main.py:20-38 | with distinct ids, each service has its own two nodes carrying its station, time and ±units, and the only edges are the train edges |
| MainSteps.ServiceDemandsCancel | src/main.py:28-29 | each service's departure and arrival demands cancel, so the node demands sum to 0 |
| MainSteps.GroupOk | src/main.py:41-43 | grouping succeeds exactly when every event's station is listed |
| MainSteps.GroupLists | src/main.py:42-43 | each station's group lists that station's events, in node order |
| MainSteps.AtStationDistinct | src/main.py:42-43 | a station's group never lists a node twice |
| MainSteps.StationListFacts | src/main.py:45-47 | a station's sorted list is time-ordered, a permutation of its group, stable among equal times, and holds exactly that station's events |
| MainSteps.OvernightCallsOk | src/main.py:58-68 | the overnight loop succeeds exactly when every station with events has a cost |
| MainLinks.LinksWithinStations | src/main.py:45-69 | every transfer or overnight call joins two events of one station |
| MainLinks.LinksKeepNodes | src/main.py:45-69 | the transfer and overnight calls add no node and change no node attribute |
| MainLinks.LinksSpareCrossing | src/main.py:45-69 | an edge between two stations is neither created nor changed by the transfer and overnight calls |
| MainLinks.TransferEdge | src/main.py:48-55 | consecutive events of a station end joined by an edge with lower 0, upper inf and cost 0 |
| MainLinks.OvernightEdge | src/main.py:58-69 | a station with events has a cost, and its last event ends joined to its first with lower 0, upper 1e10 and that cost |
| MainFacts.MainGraphUnfold | src/main.py:20-69 | a successful build is the service graph followed by the transfer and overnight calls on the sorted station lists |
| MainFacts.MainNodes | src/main.py:20-29 | the built network has exactly the services' `_D`/`_A` nodes, in order, each with its stop's station and time and ±required units |
| MainFacts.MainBalanced | src/main.py:28-29 | the node demands of the built network sum to 0 |
| MainFacts.MainTrainEdge | src/main.py:32-38 | every service has its train edge; when its two stops are at different stations, the edge keeps lower ceil(d/cap), upper max_rs and cost 0 |
| MainFacts.MainEdges | src/main.py:32-69 | every edge is a service's train edge or joins two events of one station |
| MainFacts.MainStationEdges | src/main.py:45-69 | the edges besides the train edges are exactly, for each listed station, those from each event of its time-ordered list to the next and the one from its last event back to its first; every one of those is present and no other edge exists |
| MainFacts.MainStationCycle | src/main.py:45-69 | a listed station's events, in time order, are linked by transfer edges and closed by an overnight edge carrying the station's cost |
| MainFacts.MainStationList | src/main.py:41-47 | a station's list is time-ordered, has no repeats, and holds exactly the nodes at that station |
| MainFacts.StationListVisited | src/main.py:58-59 | a station's list is non-empty exactly when some service stops there |
| MainFacts.MainGraphOk | src/main.py:20-69 | the build succeeds exactly when every service has two stops, every stop's station is listed, and every visited listed station has a cost |
| MainExtraction.CollectOk | src/main.py:97-101 | appending stations without repeats fails exactly on a node with no station, and otherwise yields the read stations deduplicated in first-seen order |
| MainExtraction.CollectErr | src/main.py:98-101 | a failure names the first node read that has no station |
| MainExtraction.RouteReadsMembers | src/main.py:95-101 | a node's station is read exactly when the node is the tail or the head of a selected positive-flow entry |
| MainExtraction.RouteStations | src/main.py:95-101 | the route succeeds exactly when every selected positive-flow edge's ends have stations; it has no repeats; it holds exactly those stations |
| MainExtraction.ScanTail | src/main.py:97-101 | the inner loop over one tail's destinations appends the stations of the tail and of each positive-flow head |
| MainExtraction.Route | src/main.py:95-101 | the `recorrido` loop computes RouteOf, errors included |
| MainExtraction.RouteSkipsUnselected | src/main.py:96 | a flow entry whose tail is not selected leaves the route unchanged |
| MainExtraction.PrefixRouteLeaks | src/main.py:96 | with the `startswith` test, service "1" picks up the flow of node "10_D", so its route gains stations of service "10" |
| MainExtraction.OwnNodesDiffer | src/main.py:91-92 | another service's `_D` or `_A` node is never one of this service's own nodes |
| MainExtraction.OwnRouteIgnoresOthers | src/main.py:96 | with the own-node test, flow on another service's nodes never changes a service's route |
| MainExtraction.FirstOwnHeadFacts | src/main.py:105-108 | the inner loop stops at the first positive-flow edge between the service's two nodes, and finds none exactly when there is none |
| MainExtraction.NightNone | src/main.py:104-108 | no overnight station is recorded exactly when no positive-flow edge joins the service's two nodes |
| MainExtraction.NightSome | src/main.py:104-108 | a recorded overnight station is the head station of some positive-flow edge between the service's two nodes |
| MainExtraction.NightLastWins | src/main.py:104-108 | the outer loop has no break, so the last tail with a matching edge decides the overnight station |
| MainExtraction.NightErrSticks | src/main.py:107 | once a missing head station aborts the scan, the result stays that error |
| MainExtraction.Overnight | src/main.py:103-108 | the `trasnoche` loops compute NightOf, errors included |
| MainExtraction.ReportParts | src/main.py:95-108 | a service's read-back succeeds exactly when its route scan and its overnight scan both do, and then holds both results |
| MainExtraction.ReportsOk | src/main.py:86-108 | the per-service reports exist exactly when every service's route and overnight scans succeed; with `StartsWithId` the route scan selects tails by `startswith`, as written |
| MainExtraction.ReportsInOrder | src/main.py:86-108 | there is one report per service, in timetable order, each being that service's route (tails selected by `startswith` under `StartsWithId`) and overnight station |
| MainExtraction.ExtractReports | src/main.py:86-108 | the per-service loop computes ReportsOf, stopping at the first failing service; `StartsWithId` is the `startswith` test as written, `OwnNodes` the corrected one |
| MainExtraction.PrefixReportLeaks | src/main.py:94-101 | as written, service "1"'s report gains the stations of service "10"'s flow; with the own-node test its route stays empty |
| DiGraph.AddNodeFacts | src/main.py:28-29 | add_node adds or merges one node, leaves edges and other nodes alone, and preserves the representation invariant |
| DiGraph.AddEdgeFacts | src/main.py:32-38 | add_edge adds or merges one edge, creates its missing ends without attributes, leaves the rest alone, and preserves the invariant |
| DiGraph.RunLastEdgeWins | src/prueba.py:62-79 | when calls repeat an edge, the attributes of the last call are present on it |
| DiGraph.RunUntouched | src/main.py:45-69 | a pair that no call names keeps its edge, or its absence, unchanged |
| DiGraph.RunValid | src/main.py:20-69 | any sequence of add_node/add_edge calls preserves the representation invariant |
| Sequences.DedupFacts | src/prueba.py:114-124 | the node order networkx keeps for repeated add_node calls has no repeats and exactly the added members |
| Sums.SumByPermutation | src/prueba.py:114-124 | a sum of demands does not depend on the order of the terms |

## Left out

- The flow solver (`nx.capacity_scaling`) is left out. So are `nx.is_connected`, drawing and node positions (`positions`, `nx.draw`, `plt`), JSON loading and every `print`. The solver's flow dictionary enters the extraction part as a parameter.
- The flow dictionary is a sequence of (tail, [(head, flow)]) pairs in dictionary order. The model does not require its keys to be distinct.
- `if trasnoche_station:` at the printing step is left out. It reads an empty station name as no overnight station.
- Floats: `1e10` is the exact real 10^10 and `float('inf')` is a separate `Infinity` value. `d / capacity` is an exact rational. Binary rounding is not modelled.
- `capacity` is a precondition (`> 0`): a zero capacity makes the source divide by zero.
- `lower`, `upper`, `lower_bound`, `upper_bound`, `capacity` and `weight` are stored as attributes. Their meaning as flow constraints belongs to the solver and is not modelled.
- The `color` attribute and the misspelt `capicity` keyword are stored like other keys. The circulation's overnight calls therefore pass no `capacity`; an overnight edge that is also a transfer edge keeps the transfer's.
- A graph is a value, so networkx's in-place mutation and shared references are not modelled.
- MainFacts.MainNodes: like every theorem in MainFacts, it requires distinct service ids. The source reads services from a JSON object, whose keys are distinct; here the timetable is a sequence.
- MainFacts.MainTrainEdge: the attributes are stated only when the two stops are at different stations. At one station, a transfer call on the same pair merges `upper=inf` into the train edge.
- PruebaFacts.PruebaTripAttrs and PruebaFacts.PruebaTrip: stated only for a service whose trip crosses stations and whose pair no later service repeats. Otherwise a later trip call on the same tuple pair, or an overnight call whose (last, first) pair is the trip's pair, merges other attributes into the edge. The transfer calls run before the trips and cannot.
- PruebaFacts.PruebaTransfer: stated only for a consecutive pair that no trip call names and that is not its list's own (last, first) overnight pair. Those later calls merge their attributes into the edge.
- The original JSON carries more fields than the model reads (such as extra `demand` entries and stop metadata). Only `time`, `station`, `type`, `demand[0]`, `rs_info.capacity`, `rs_info.max_rs`, `stations` and `cost_per_unit` are modelled.
- tools/instance_converter.py is not part of this model.

## Findings

| source | as written | input that shows it | evidently intended | confidence | as-written member | corrected member |
|---|---|---|---|---|---|---|
| src/prueba.py:96-124 | nodes are keyed by the tuple (time, station, type, units), so two identical events of different services become one node, and `add_node` overwrites its demand instead of adding to it | services "1" (Retiro 0 → Tigre 10) and "2" (Retiro 0 → Tigre 20), demand 100 each, capacity 100: one departure node at +1 and two arrivals at -1, total demand -1, so min-cost flow has no feasible solution | one node per service event, as src/main.py:25-29 does, so demands balance | not executed | PruebaFindings.MergedDepartureUnbalanced | MainFacts.MainBalanced |
| src/main.py:96 | the route of service `service_id` collects the flow of every node whose name merely starts with `service_id` | services "1" and "10": flow on "10_D" → "10_A" adds Tigre and Retiro to service "1"'s route (ExtractReports with `StartsWithId`) | only the service's own nodes `<id>_D` and `<id>_A` (ExtractReports with `OwnNodes`) | not executed | MainExtraction.PrefixReportLeaks | MainExtraction.OwnRouteIgnoresOthers |
