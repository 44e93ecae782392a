# FlooNoC and cluster event unit: verified model

This project models the protocol, graph and state-machine logic of the FlooNoC network-on-chip and of the
cluster peripherals around it, and proves what they promise. `dafny verify dfyconfig.toml` checks all of it.

**Routing tables** (`Topology`, `RoutingTables`, `Bfs`, `BfsOrder`, `ShortestPath`, `UpDown`,
`UpDownDeadlock`, `UpDownRing`, `DimensionOrder`, `Walks`, `CheckRoutes`, `FindCycle`, `Deadlock`). The
generators are breadth-first search, Up\*/Down\* and dimension order; each returns next-hop tables.
`check_routes` walks every route and searches the channel dependency graph for cycles. Proved: the search is
exact; the checker accepts exactly the tables that deliver and cannot deadlock; acyclic dependencies are
exactly what rules out a circular wait of wormhole packets; each generator succeeds exactly when it should
and delivers every packet, along shortest routes, first hops of shortest legal routes (of equally short
ones, the first in link order), or axis by axis. Dimension order cannot deadlock on any topology. `up_down`
can: `UpDownRing` gives a network on which it always does, and `UpDownDeadlock` what causes it and when it
cannot happen.

**Routers and network interfaces** (`Arbiter`, `WormholeArbiter`, `Router`, `RouterRuns`, `RouterPorts`,
`NetworkRuns`, `LinkFlow`, `XyRouting`, `NiQueue`, `BurstSplit`, `WriteAck`). A router cycle is proved equal
to a step function, and over whole runs no flit is lost, duplicated, reordered or mixed into another packet,
every flit leaves through the port of its route, up to a whole network of routers, no full input is sent to,
and waiting is bounded. Bursts are split without gap or overlap, and a write burst gets exactly one
acknowledgement.

**Collectives** (`Bits`, `Multicast`, `ForkJoin`, `Reductions`, `ReductionRuns`). The multicast tree reaches
each member once; a forked request completes once, with the sum, maximum or AND of all answers; write
reductions commit the same data in every order of arrival.

**Event unit and debug unit** (`Ring`, `Dispatch`, `DispatchRuns`, `EventUnit`, `DebugBurst`). The dispatch
ring refines an unbounded log; the mutually recursive wake-up path ends, leaves no core asleep on a pending
event and wakes no other; a debug read burst fed to a write burst reproduces the data, and damage within 32
bits in a row is reported.

Each method with a loop or with state is proved against a function or predicate on values (`CycleStep`,
`Issue`, `Pushing`, `Shift`, ...), and the lemmas about runs speak of those. Request masks, event masks and
core masks are sets of bit numbers. A place where the code ends the simulation (`fatal`, a failing `assert`)
is a precondition. Assumptions: memory-map entries are disjoint where a lemma says so, addresses do not wrap
around, a write burst stays in one entry, beat sizes are positive, targets answer in the order of
submission, and all interrupt masks of the event unit are zero.

Where the code and its comments differ, the model follows the code. The comments on packet framing in
`enqueue_router_req` pair a first flit with every tail; in the code the flit after the end of an entry is
marked first only if the node changes (`FirstMarksNewNode`). Routers only look at tails, so packets are not
affected. `dimension_order` does not check that positions are different; `AxesSeparate` shows that it
refuses such inputs all the same. `up_down` is described as deadlock free on any topology, and is what
`check_routes` recommends when it refuses tables; but each entry starts a legal route afresh, the walks made
of them may go up after going down, and on some networks they close a dependency cycle (`UpDownDeadlocks`).

## Model

| member | source | states |
|---|---|---|
| `Topology.Topology.AddRouter` | pulp/floonoc_v2/floonoc_v2_routing.py:82-100 | refuses a used or negative ID and changes nothing then; otherwise the router, its coordinates and nothing else are added |
| `Topology.Topology.AddNi` | pulp/floonoc_v2/floonoc_v2_routing.py:89-100 | same for an NI |
| `Topology.Topology.AddLink` | pulp/floonoc_v2/floonoc_v2_routing.py:102-114 | succeeds exactly for two known, different, not yet linked nodes that are not both NIs, and records both directions at the end of the two lists |
| `Topology.Topology.SetPortOrder` | pulp/floonoc_v2/floonoc_v2_routing.py:116-126 | succeeds exactly for a permutation of the neighbours, and reorders only that node |
| `Topology.NiRouterIsRouter` | pulp/floonoc_v2/floonoc_v2_routing.py:137-143 | the single neighbour of an NI is a router that has the NI as a neighbour |
| `Topology.WithLinkValid` | pulp/floonoc_v2/floonoc_v2_routing.py:102-114 | adding a link keeps every link recorded once in both directions and no two NIs linked |
| `FindCycle.FindCycle` | pulp/floonoc_v2/floonoc_v2_routing.py:462-492 | returns None if and only if the graph has no cycle, with a rank that every edge lowers as a witness; otherwise the list is a cycle of the graph that repeats no channel; terminates |
| `FindCycle.Visit` | pulp/floonoc_v2/floonoc_v2_routing.py:471-491 | the iterative three-colour search from one root: every finished node is ranked above its successors, or a cycle is found |
| `FindCycle.CollectCycle` | pulp/floonoc_v2/floonoc_v2_routing.py:484-487 | the stack frames from the grey successor up are a cycle |
| `Digraph.RankedIsAcyclic` | pulp/floonoc_v2/floonoc_v2_routing.py:462-492 | a graph in which every edge lowers a rank has no cycle |
| `Digraph.SimpleCycle` | pulp/floonoc_v2/floonoc_v2_routing.py:462-492 | every closed walk contains a cycle that visits no node twice |
| `Walks.DeliveredIsUnique` | pulp/floonoc_v2/floonoc_v2_routing.py:425-446 | a table allows one delivered walk per pair of NIs |
| `Walks.DeliveredIsSimple` | pulp/floonoc_v2/floonoc_v2_routing.py:425-446 | a delivered walk visits no node twice |
| `Walks.GuardFindsLoop` | pulp/floonoc_v2/floonoc_v2_routing.py:440-446 | the length guard fires only on a walk that repeats a node, and such a packet is never delivered (pigeonhole) |
| `CheckRoutes.AllPairsExact` | pulp/floonoc_v2/floonoc_v2_routing.py:425-428 | the two loops visit every ordered pair of distinct NIs and nothing else |
| `CheckRoutes.DepsExact` | pulp/floonoc_v2/floonoc_v2_routing.py:447-448 | the graph built by insertion is exactly the relation "some route takes channel b right after channel a" |
| `CheckRoutes.WalkRoute` | pulp/floonoc_v2/floonoc_v2_routing.py:429-446 | one packet: returns its delivered walk, or an error exactly when it is never delivered |
| `CheckRoutes.CheckRoutes` | pulp/floonoc_v2/floonoc_v2_routing.py:413-459 | accepts if and only if every packet is delivered and, unless deadlocks are allowed, the channel dependency graph is acyclic; returns one simple path per pair in order; every error is real, and is a deadlock exactly when all packets are delivered |
| `CheckRoutes.RoutesAreWalks` | pulp/floonoc_v2/floonoc_v2_routing.py:425-446 | the routes returned are all the delivered walks between NIs and nothing else |
| `Deadlock.NoDeadlock` | pulp/floonoc_v2/floonoc_v2_routing.py:414-420 | with acyclic dependencies, in every wormhole state where packets hold consecutive channels of their routes, some packet can advance |
| `Deadlock.CycleDeadlocks` | pulp/floonoc_v2/floonoc_v2_routing.py:454-458 | conversely, around a dependency cycle there is a well-formed state, one packet per channel, in which nobody can advance; that it arises from an empty network is not stated |
| `Deadlock.DeadlockFreeExactly` | pulp/floonoc_v2/floonoc_v2_routing.py:414-459 | a set of routes has no stuck state if and only if its channel dependency graph is acyclic |
| `Deadlock.StepKeeps` | pulp/floonoc_v2/floonoc_v2_routing.py:414-420 | advancing, releasing and ejecting keep a state well formed |
| `Deadlock.RunsAreBounded` | pulp/floonoc_v2/floonoc_v2_routing.py:414-420 | every run of packets in flight ends |
| `Deadlock.OnlyEmptyIsFinal` | pulp/floonoc_v2/floonoc_v2_routing.py:414-420 | a run on acyclic routes can only end with every packet ejected |
| `Deadlock.NoneArisesStuck` | pulp/floonoc_v2/floonoc_v2_routing.py:414-420 | from the empty network on, with new packets entering at any time, every state is well formed, and on acyclic routes none is stuck |
| `Deadlock.PlaceableArises` | pulp/floonoc_v2/floonoc_v2_routing.py:414-420 | a state arises from the empty network if each packet in turn finds its way to its place free |
| `Deadlock.CircleArises` | pulp/floonoc_v2/floonoc_v2_routing.py:454-458 | packets that reach back to their sources, hold no channel in common and wait for each other in a circle are a deadlock that arises from the empty network |
| `RoutingTables.TablesFromFirstHops` | pulp/floonoc_v2/floonoc_v2_routing.py:155-175 | succeeds exactly when every NI has one router and every router has a first hop towards each of them; the entries are those first hops, or the NI itself |
| `RoutingTables.TablesDescend` | pulp/floonoc_v2/floonoc_v2_routing.py:155-175 | first hops that follow links and lower a measure make tables that lower it at every hop |
| `ShortestPath.Search` | pulp/floonoc_v2/floonoc_v2_routing.py:181-193 | breadth-first search from one router: for exactly the connected routers, the hop recorded is the first neighbour in link order that starts a shortest path |
| `ShortestPath.ShortestPathTables` | pulp/floonoc_v2/floonoc_v2_routing.py:178-194 | returns tables if and only if every NI is reachable or there is no router; every packet is delivered, every delivered walk is a path of minimum length, and of equally short ones each entry takes the first in link order |
| `ShortestPath.ShortestDescends` | pulp/floonoc_v2/floonoc_v2_routing.py:178-194 | following the tables lowers the distance to the target by one at each hop |
| `Bfs.HopIsShortest` | pulp/floonoc_v2/floonoc_v2_routing.py:183-193 | the inherited first hop of a node starts a shortest path to it |
| `BfsOrder.InheritedIsBest` | pulp/floonoc_v2/floonoc_v2_routing.py:188-193 | the hop a node inherits is the first in link order of all that start a shortest path to it, as each level waits in the order of its hops |
| `BfsOrder.OrderDiscover` | pulp/floonoc_v2/floonoc_v2_routing.py:188-193 | discovering a node keeps each level of the queue in that order |
| `Topology.RoutersInOrder` | pulp/floonoc_v2/floonoc_v2_routing.py:145-147 | the router neighbours of a node are listed in the order of its links |
| `UpDown.BfsLevels` | pulp/floonoc_v2/floonoc_v2_routing.py:197-209 | levels are exact distances from the root; refused exactly when some router is not connected to it |
| `UpDown.SearchUpDown` | pulp/floonoc_v2/floonoc_v2_routing.py:221-238 | the search over (node, gone down): exactly the routers with a legal route are recorded, each with the first neighbour in link order that starts a shortest one |
| `UpDown.RecordedIsFirst` | pulp/floonoc_v2/floonoc_v2_routing.py:223-235 | although a router is recorded through one of two places, gone down or not, no neighbour earlier in link order starts a route as short |
| `UpDown.RouteIsPath` | pulp/floonoc_v2/floonoc_v2_routing.py:212-235 | every route that never goes up after going down is a path of the search space |
| `UpDown.PathIsRoute` | pulp/floonoc_v2/floonoc_v2_routing.py:212-235 | every path of the search space is such a route |
| `UpDown.AlwaysLegalRoute` | pulp/floonoc_v2/floonoc_v2_routing.py:212-240 | on a connected network every router has a legal route to every other one (up the tree, then down) |
| `UpDown.HopGetsCloser` | pulp/floonoc_v2/floonoc_v2_routing.py:229-238 | a first hop lowers the legal distance to the target, although the next router starts afresh |
| `UpDown.UpDownDelivers` | pulp/floonoc_v2/floonoc_v2_routing.py:243-246 | tables whose entries start shortest legal routes deliver every packet without a loop |
| `UpDown.UpDownTables` | pulp/floonoc_v2/floonoc_v2_routing.py:243-246 | returns tables if and only if the network is connected to the root and every NI has one router; the entries are the first in link order that start shortest legal routes, and every packet is delivered |
| `UpDown.LegalRoutesAcyclic` | pulp/floonoc_v2/floonoc_v2_routing.py:218-219 | any set of legal routes has an acyclic channel dependency graph |
| `UpDownRing.UpDownDeadlocks` | pulp/floonoc_v2/floonoc_v2_routing.py:40-41 | the promise fails: on a network of ten routers with root 0, whatever the order of its links, all tables whose entries start shortest legal routes have a dependency cycle, and a deadlock arises from the empty network |
| `UpDownRing.RingIsRefused` | pulp/floonoc_v2/floonoc_v2_routing.py:450-459 | `up_down` returns tables for that network, and `check_routes` refuses them as able to deadlock |
| `UpDownDeadlock.LegalExactly` | pulp/floonoc_v2/floonoc_v2_routing.py:212-246 | all walks of the tables are legal if and only if no entry, where a packet meets it, goes up out of a router that another entry for the same NI enters going down |
| `UpDownDeadlock.CycleTurnsUp` | pulp/floonoc_v2/floonoc_v2_routing.py:414-459 | every dependency cycle of any tables contains such a turn, met by some packet |
| `UpDownDeadlock.NoTurnsDeadlockFree` | pulp/floonoc_v2/floonoc_v2_routing.py:40-41 | tables without such a turn cannot deadlock |
| `UpDownDeadlock.TreeDeadlockFree` | pulp/floonoc_v2/floonoc_v2_routing.py:40-41 | when no router has two links towards the root, no tables at all have such a turn, so none deadlock |
| `UpDownRing.TurnWithoutDeadlock` | pulp/floonoc_v2/floonoc_v2_routing.py:40-41 | a turn need not close a cycle: the same network with two NIs has one, met by a packet, and cannot deadlock |
| `UpDownRing.TurnIsAccepted` | pulp/floonoc_v2/floonoc_v2_routing.py:450-459 | and there `check_routes` accepts what `up_down` returns |
| `DimensionOrder.NextPosition` | pulp/floonoc_v2/floonoc_v2_routing.py:288-293 | the next position is one step along the first axis of the order that differs; fails exactly when a position lacks an axis that is needed |
| `DimensionOrder.LocateRouters` | pulp/floonoc_v2/floonoc_v2_routing.py:277-282 | every router is found at its position, and refused without one |
| `DimensionOrder.AxesSeparate` | pulp/floonoc_v2/floonoc_v2_routing.py:283-302 | whenever hops exist for all pairs, two different routers differ on a listed axis, although the code never checks that |
| `DimensionOrder.RoutesAreMinimal` | pulp/floonoc_v2/floonoc_v2_routing.py:269-304 | a delivered route takes exactly the Manhattan distance in router hops |
| `DimensionOrder.AxesInOrder` | pulp/floonoc_v2/floonoc_v2_routing.py:269-304 | a route never returns to an earlier axis of the order |
| `DimensionOrder.DimensionDeadlockFree` | pulp/floonoc_v2/floonoc_v2_routing.py:269-304 | the dependencies of all routes are acyclic, for any axis order and topology |
| `DimensionOrder.DimensionDelivers` | pulp/floonoc_v2/floonoc_v2_routing.py:269-304 | every packet is delivered |
| `DimensionOrder.DimensionOrder` | pulp/floonoc_v2/floonoc_v2_routing.py:269-304 | returns exactly when every router has a position and a linked router one step towards every other router, or there is no router; what it returns for routers `check_routes` accepts |
| `XyRouting.NodeIdRoundTrip` | pulp/floonoc_v2/floonoc_v2.hpp:42-57 | packing a mesh position into a node ID loses nothing |
| `XyRouting.HopIsCloser` | pulp/floonoc_v2/floonoc_router_v2.cpp:306-357 | each hop goes through the port that faces it, is one closer to the NI, and stays among the routers until it arrives |
| `XyRouting.XyDelivers` | pulp/floonoc_v2/floonoc_router_v2.cpp:306-387 | from any router every interior or non-corner border NI is reached, in as many hops as the Manhattan distance |
| `XyRouting.XyDeadlockFree` | pulp/floonoc_v2/floonoc_router_v2.cpp:331-355 | links are taken in one order by all XY routes, so they cannot wait for each other in a circle |
| `XyRouting.VersionsAgree` | pulp/floonoc/floonoc_router.cpp:222-259 | the v1 rule takes the same hop as the v2 rule at every router, when routers span columns 1 to dim_x - 2 |
| `XyRouting.VersionsAgreeOutwards` | pulp/floonoc/floonoc_router.cpp:224-233 | same for targets outside the mesh, through the port of their direction |
| `Arbiter.ArbSelect` | pulp/floonoc_v2/floonoc_router_v2.cpp:256-273 | the loop walks the tree to the leaf that the recursive definition selects |
| `Arbiter.SelectIsNearest` | pulp/floonoc_v2/floonoc_router_v2.cpp:256-273 | the tree selects the request whose number differs least, as an exclusive or, from the priority |
| `Arbiter.SelectPicks` | pulp/floonoc_v2/floonoc_router_v2.cpp:256-273 | a request is always selected, and the priority input when it requests |
| `Arbiter.ArbNext` | pulp/floonoc_v2/floonoc_router_v2.cpp:275-287 | the two loops compute the first request above the priority, else the first one up to it |
| `Arbiter.NextPassesNobody` | pulp/floonoc_v2/floonoc_router_v2.cpp:275-287 | the new priority is a request and brings every other request strictly closer on the circle |
| `WormholeArbiter.StepKeepsOk` | pulp/floonoc_v2/floonoc_router_v2.cpp:204-239 | the locked request vector is the latched one, and an arbiter is unlocked only when idle or right after a tail |
| `WormholeArbiter.IdleIsNoop` | pulp/floonoc_v2/floonoc_router_v2.cpp:208-212 | the shortcut for an idle arbiter leaves out nothing |
| `WormholeArbiter.HoldsUntilTail` | pulp/floonoc_v2/floonoc_router_v2.cpp:204-239 | an output stays with an input from a flit that is no tail until its tail |
| `WormholeArbiter.WorkConserving` | pulp/floonoc_v2/floonoc_router_v2.cpp:213-233 | an output with room passes a flit whenever its holder, or any input if it has none, offers one |
| `WormholeArbiter.WaitShrinks` | pulp/floonoc_v2/floonoc_router_v2.cpp:204-239 | no cycle pushes a waiting input back, and every tail of another input brings it closer |
| `WormholeArbiter.BoundedWaiting` | pulp/floonoc_v2/floonoc_router_v2.cpp:204-239 | however long an input waits for an output, at most nb_ports other packets go first |
| `Router.RouterV2.constructor` | pulp/floonoc_v2/floonoc_router_v2.cpp:46-88 | capacities are queue size plus link stages; the arbitration trees have the fewest levels that reach every port |
| `Router.RouterV2.LinkReq` | pulp/floonoc_v2/floonoc_router_v2.cpp:118-137 | appends the flit and reports whether the input is now full |
| `Router.RouterV2.SendHeads` | pulp/floonoc_v2/floonoc_router_v2.cpp:153-170 | head flits leave unless stalled, invisible or freed in this very cycle; a full next node stalls the output |
| `Router.RouterV2.Arbitrate` | pulp/floonoc_v2/floonoc_router_v2.cpp:204-239 | one arbiter update, idle shortcut included, is the step function of the arbiter |
| `Router.RouterV2.FsmHandler` | pulp/floonoc_v2/floonoc_router_v2.cpp:139-254 | one cycle of the whole router equals the pointwise step of every queue, arbiter and stall flag; the flits sent, the senders released and the pending flag are exact |
| `Router.CycleKeepsValid` | pulp/floonoc_v2/floonoc_router_v2.cpp:139-254 | input queues stay within capacity, output FIFOs within two flits, arbiters consistent |
| `Router.QuietIsNoop` | pulp/floonoc_v2/floonoc_router_v2.cpp:241-253 | a router that does not ask for another cycle would not change in it |
| `RouterRuns.AllRunsKeepInv` | pulp/floonoc_v2/floonoc_router_v2.cpp:118-254 | in every run: senders hold off exactly when the input is full; arrived flits are the taken ones then the queued ones; granted flits are the sent ones then the queued ones; each output got from each input exactly what was routed to it, in order |
| `RouterRuns.TickConserves` | pulp/floonoc_v2/floonoc_router_v2.cpp:213-223 | a cycle keeps, for each input and output, that the output got exactly what the input had for it |
| `RouterRuns.TickKeepsOpen` | pulp/floonoc_v2/floonoc_router_v2.cpp:195-239 | in the middle of a packet the output belongs to the packet's input, and no other output takes its flits |
| `RouterRuns.LinksCarryWholePackets` | pulp/floonoc_v2/floonoc_router_v2.cpp:195-239 | on every link of every run, two flits with no tail between them come from one input and one packet |
| `RouterPorts.AllRunsPortsRight` | pulp/floonoc_v2/floonoc_router_v2.cpp:289-357 | in every run, each flit granted to an output is one whose table entry is that port; of an XY router, it is the local port exactly at the destination, and otherwise one hop closer, along the row first |
| `RouterPorts.LinksAreRight` | pulp/floonoc_v2/floonoc_router_v2.cpp:153-184 | the same of every flit put on a link |
| `RouterPorts.PortFollowsXyRoute` | pulp/floonoc_v2/floonoc_router_v2.cpp:306-387 | in a grid, the port a router chooses leads to the next position of the XY route |
| `RouterPorts.OnlyPort` | pulp/floonoc_v2/floonoc_router_v2.cpp:306-357 | no two ports of an XY router lead to the same NI |
| `NetworkRuns.PortTable` | pulp/floonoc_v2/floonoc_v2.py:932-942 | the port of each destination faces the next hop of its table entry; fails exactly when a next hop is no neighbour |
| `NetworkRuns.NetworkKeepsInv` | pulp/floonoc_v2/floonoc_router_v2.cpp:118-254 | in every run of a whole network with delivering tables, every flit at every router and on every link is on the delivered walk of its packet, and every router keeps its invariants |
| `NetworkRuns.OnlyOwnFlits` | pulp/floonoc_v2/floonoc_router_v2.cpp:118-254 | in every run, the link from a router to an NI carries no flit but those addressed to that NI |
| `LinkFlow.NeverOverflows` | pulp/floonoc_v2/floonoc_router_v2.cpp:118-137 | in every run of a link into a router, from a router or an NI, the sender is stalled exactly while the input is full, and every flit sent finds room |
| `LinkFlow.StalledSendsNothing` | pulp/floonoc_v2/floonoc_router_v2.cpp:153-170 | a stalled sender sends nothing |
| `LinkFlow.SendsAfterRelease` | pulp/floonoc_v2/floonoc_router_v2.cpp:359-365 | a released sender sends in a later cycle only |
| `LinkFlow.OneFlitPerCycle` | pulp/floonoc_v2/floonoc_network_interface_v2.cpp:91-108 | an NI puts at most one flit per cycle on its link, however often it tries |
| `NiQueue.NetworkQueue.Reserve` | pulp/floonoc_v2/floonoc_network_interface_v2.cpp:59-67 | room exactly below the depth; otherwise the producer is owed a notification |
| `NiQueue.NetworkQueue.NextInput` | pulp/floonoc_v2/floonoc_network_interface_v2.cpp:69-89 | the loop finds the input of the specification: the locked one, else the first with a flit from the priority on |
| `NiQueue.NetworkQueue.SendRouterReq` | pulp/floonoc_v2/floonoc_network_interface_v2.cpp:350-398 | the head flit leaves, the lock and the priority follow the packet, and the producer owed a notification gets it with the first room |
| `NiQueue.NetworkQueue.Check` | pulp/floonoc_v2/floonoc_network_interface_v2.cpp:91-108 | at most one flit per cycle, none while stalled or in the cycle of the release |
| `NiQueue.ScanIsFirst` | pulp/floonoc_v2/floonoc_network_interface_v2.cpp:75-87 | the scan passes over no input that has a flit |
| `NiQueue.EventKeepsInv` | pulp/floonoc_v2/floonoc_network_interface_v2.cpp:69-116 | flits of each input appear on the link once and in order, and the link belongs to the input of an unfinished packet |
| `NiQueue.LinkIsUnmixed` | pulp/floonoc_v2/floonoc_network_interface_v2.cpp:69-116 | in every run the link never mixes two packets between tails |
| `NiQueue.InputWaitsBounded` | pulp/floonoc_v2/floonoc_network_interface_v2.cpp:350-361 | while an input waits, at most one packet of each other input starts |
| `NiQueue.OwedUntilRoom` | pulp/floonoc_v2/floonoc_network_interface_v2.cpp:59-67 | a denied producer stays owed until its input has room, and is never told without room |
| `BurstSplit.EnqueueRouterReq` | pulp/floonoc_v2/floonoc_network_interface_v2.cpp:157-293 | the loop pushes the flits of the recursive split, and counts the bytes of silent beats |
| `BurstSplit.SplitCovers` | pulp/floonoc_v2/floonoc_network_interface_v2.cpp:170-290 | the flits tile the bytes up to the first unmapped address, without gap or overlap |
| `BurstSplit.SplitIsWhole` | pulp/floonoc_v2/floonoc_network_interface_v2.cpp:219-225 | the burst is sent whole if and only if every byte is mapped |
| `BurstSplit.SplitIsPlaced` | pulp/floonoc_v2/floonoc_network_interface_v2.cpp:226-238 | every data flit fits the link, lies in one entry, goes to its node and is translated by its offset |
| `BurstSplit.RunsHaveOneDestination` | pulp/floonoc_v2/floonoc_network_interface_v2.cpp:258-284 | outside write packets, flits go to one node until a tail, and no packet is left open |
| `BurstSplit.FirstMarksNewNode` | pulp/floonoc_v2/floonoc_network_interface_v2.cpp:270-273 | a flit is marked first exactly when the node changes; between two entries of one node a tail is not followed by a first flit |
| `BurstSplit.WholeBeatIsOneFlit` | pulp/floonoc_v2/floonoc_network_interface_v2.cpp:240-257 | a beat that fits the link and one entry is one flit that owns it, silent exactly when the burst goes on |
| `BurstSplit.AddressIsOneFlit` | pulp/floonoc_v2/floonoc_network_interface_v2.cpp:226-257 | the address of a beat in one entry is one flit of its whole size, on a link of any width |
| `BurstSplit.SplitIsGreedy` | pulp/floonoc_v2/floonoc_network_interface_v2.cpp:226-238 | a flit ends only with the beat, with its entry, or, for data, at the width of the link |
| `BurstSplit.OwnerCarriesBeat` | pulp/floonoc_v2/floonoc_network_interface_v2.cpp:240-257 | a flit owns its beat exactly if it is the whole write beat; the flits of a split beat own nothing and none is silent |
| `BurstSplit.BurstIsOnePacket` | pulp/floonoc_v2/floonoc_network_interface_v2.cpp:124-143 | a write burst with an id is one packet to one node, opened by one address flit and closed by the last flit of its last beat |
| `WriteAck.WritePort.HandleReq` | pulp/floonoc_v2/floonoc_network_interface_v2.cpp:739-879 | a continuation is denied only without room; a new burst also at the limit of outstanding bursts, reads included, or while one to another node is in flight; what is granted is tracked, and a denial changes nothing |
| `WriteAck.IssueKeeps` | pulp/floonoc_v2/floonoc_network_interface_v2.cpp:780-811 | what admission grants, and nothing else is assumed of it, keeps the bookkeeping, with all beats in flight going to one node |
| `WriteAck.WritePort.LinkB` | pulp/floonoc_v2/floonoc_network_interface_v2.cpp:1046-1139 | accounts a B flit and acknowledges the burst when its last beat was issued and every byte is accounted |
| `WriteAck.TrackedAnswer` | pulp/floonoc_v2/floonoc_network_interface_v2.cpp:1443-1461 | the target's answer turns into a B flit for the last beat, or for a rejected one; the accounting stays exact |
| `WriteAck.TrackedDeliver` | pulp/floonoc_v2/floonoc_network_interface_v2.cpp:1108-1139 | a B flit closes its burst if and only if it is that of the last beat; the acknowledgement then has all bytes issued and the OR of all errors |
| `WriteAck.AllRunsKeepInv` | pulp/floonoc_v2/floonoc_network_interface_v2.cpp:842-873 | in every run of admitted beats and reads: acknowledgements match the closed, completely answered bursts one to one; pending bursts are exactly the open ones; no B flit comes for an untracked burst; all beats in flight go to one node; writes and reads never exceed the limit |
| `WriteAck.QuietMeansAcked` | pulp/floonoc_v2/floonoc_network_interface_v2.cpp:1108-1139 | when nothing is under way, every burst begun has exactly one acknowledgement |
| `Bits.MatchCount` | pulp/floonoc_flex/floonoc_collective_policy.cpp:68-76 | a mask of k bits leaves exactly 2 to the k numbers that agree outside it |
| `Bits.MatchesInRange` | pulp/floonoc_flex/floonoc_collective_policy.cpp:107-112 | numbers that agree outside the mask lie between the masked source and the source with the mask added |
| `Multicast.MeshPolicy.constructor` | pulp/floonoc_flex/floonoc_collective_policy.cpp:25-37 | every node is found at its position |
| `Multicast.MeshPolicy.Analyze` | pulp/floonoc_flex/floonoc_collective_policy.cpp:78-179 | the fan-out lists each next router once, and the own NI gets a copy exactly for members, in both orders |
| `Multicast.MaskAxes` | pulp/floonoc_flex/floonoc_flex.hpp:163-179 | bits 0-15 of the mask belong to x, bits 16-31 to y: it matches two packed positions exactly if it does so on both axes |
| `Multicast.AxesInOrder` | pulp/floonoc_flex/floonoc_collective_policy.cpp:119-178 | a copy moves along the first axis only while it has not moved along the second, x first or y first as configured |
| `Multicast.CopyFromParent` | pulp/floonoc_flex/floonoc_collective_policy.cpp:119-178 | a copy can only come from one router, and goes away from the source |
| `Multicast.BranchIsSimple` | pulp/floonoc_flex/floonoc_collective_policy.cpp:78-179 | the tree ends and visits no router twice |
| `Multicast.EveryMemberOnce` | pulp/floonoc_flex/floonoc_collective_policy.cpp:78-179 | when the box is all routers, each member is reached on exactly one branch |
| `Multicast.BranchStaysInTree` | pulp/floonoc_flex/floonoc_collective_policy.cpp:107-112 | no copy leaves the box |
| `Multicast.MemberCountExact` | pulp/floonoc_flex/floonoc_collective_policy.cpp:51-76 | member_count is the number of nodes that is_member accepts |
| `ForkJoin.Collective.ForkRequest` | pulp/floonoc_flex/floonoc_router_flex.cpp:230-250 | one live child per next hop, counted by the parent, which starts from the identity of the operation |
| `ForkJoin.Collective.HandleCollectiveCompletion` | pulp/floonoc_flex/floonoc_flex.cpp:416-470 | a completed child is merged, deleted and discounted; the last one completes the parent, up to the root |
| `ForkJoin.IdentityNeutral` | pulp/floonoc_flex/floonoc_flex.cpp:601-657 | the identity is neutral in every later merge |
| `ForkJoin.FoldFromConcat` | pulp/floonoc_flex/floonoc_flex.cpp:449-470 | merging a fork point is merging everything it got |
| `ForkJoin.FoldFromReduces` | pulp/floonoc_flex/floonoc_flex.cpp:601-657 | starting from the identity, the result is the reduction of the answers alone |
| `ForkJoin.AllRunsKeepInv` | pulp/floonoc_flex/floonoc_flex.cpp:416-470 | every live request counts exactly its live children and hangs off live fork points; no answer is lost |
| `ForkJoin.CopiesCarryData` | pulp/floonoc_flex/floonoc_router_flex.cpp:492-531 | in every run each unanswered copy of a multicast carries the data of the root, and each one of a reduction the identity |
| `ForkJoin.RootCompletesOnce` | pulp/floonoc_flex/floonoc_flex.cpp:416-470 | the root completes once, exactly when no copy is in flight; the result is, lane by lane, the sum, the maximum or the AND of all answers |
| `Reductions.ProcessCollectiveOperations` | pulp/floonoc_flex/floonoc_flex.cpp:662-741 | merges a buffer into another in place: each lane is the sum modulo 2^16, the larger one (signed or not), or 1 exactly if both were odd |
| `Reductions.FoldReduces` | pulp/floonoc_flex/floonoc_flex.cpp:662-741 | over any sequence of contributions each lane of the result is their sum modulo 2^16, their maximum, or 1 exactly if all are odd |
| `Reductions.FoldAnyOrder` | pulp/floonoc_flex/floonoc_flex.cpp:662-741 | integer add, maximum and bit-0 AND give the same result for every order of contributions |
| `Reductions.RemoveChanges` | pulp/floonoc_flex/floonoc_flex.cpp:528-530 | swap-removal takes out one group and leaves all others unchanged |
| `Reductions.WriteReductions.Contribute` | pulp/floonoc_flex/floonoc_flex.cpp:474-531 | a group is committed by exactly the contribution that completes it, with the merge of all of them, and its other contributors are parked; no other group changes |
| `ReductionRuns.RoundsAreCommitted` | pulp/floonoc_flex/floonoc_flex.cpp:474-531 | in every run over any number of keys, each full round of `member_count` contributions to a key is committed once, as their lane-wise sum, maximum or AND, and the pending group holds exactly the contributions since |
| `ReductionRuns.CommittedInAnyOrder` | pulp/floonoc_flex/floonoc_flex.cpp:474-531 | two runs whose rounds for a key hold the same contributions in any order commit the same data for it, whatever other keys receive in between |
| `ReductionRuns.OneRoundAnyOrder` | pulp/floonoc_flex/floonoc_flex.cpp:474-531 | when each member contributes once, exactly one result is committed, the same in every order |
| `Dispatch.DispatchUnit.Read` | pulp/event_unit/eu_v3_impl.cpp:1259-1297 | the bypass loop ends; a ready value is returned and passed, or the core is parked at its tail |
| `Dispatch.DispatchUnit.Push` | pulp/event_unit/eu_v3_impl.cpp:1197-1255 | parked cores of the team get the value, other parked cores move on to the next entry, all others find it ready |
| `DispatchRuns.ReadKeeps` | pulp/event_unit/eu_v3_impl.cpp:1259-1297 | a read returns the next value pushed for the core; it parks exactly when the core has them all; a read of any other core changes nothing for it |
| `DispatchRuns.PushKeeps` | pulp/event_unit/eu_v3_impl.cpp:1197-1255 | a push keeps the ready bits equal to the unread part of the ring for every core within a ring of the pusher |
| `DispatchRuns.RingRefinesLog` | pulp/event_unit/eu_v3_impl.cpp:1193-1303 | in every run each core that has stayed within a ring of the pusher has received exactly the values pushed for it, in push order; all other cores read as they like |
| `Ring.StoredPop` | pulp/event_unit/eu_v3_impl.cpp:1522-1544 | moving the tail of a ring on removes its first element |
| `EventUnit.EventUnit.CheckState` | pulp/event_unit/eu_v3_impl.cpp:938-1013 | a waiting core with a masked event stops waiting with its wake-up scheduled, and no core gains an event but the raised FIFO event; the recursion ends, as fewer cores wait at every wake-up |
| `EventUnit.EventUnit.CheckWaitMask` | pulp/event_unit/eu_v3_impl.cpp:710-718 | the events to clear are cleared once, and only on that core; no other core loses or gains any, but for the raised FIFO event |
| `EventUnit.EventUnit.ClearStatus` | pulp/event_unit/eu_v3_impl.cpp:691-695 | the core holds nothing of the mask afterwards but a raised FIFO event; a non-empty SoC FIFO is pending on every core again, and nothing else is gained |
| `EventUnit.EventUnit.TriggerEvent` | pulp/event_unit/eu_v3_impl.cpp:437-452 | every addressed core is woken or has the events; a core gains nothing but the events addressed to it and the raised FIFO event, stops waiting only for one of them in its mask, and is unchanged if it gains none; all cores are settled again |
| `EventUnit.EventUnit.WaitEvent` | pulp/event_unit/eu_v3_impl.cpp:720-780 | a core sleeps exactly when no masked event is pending, and otherwise gets the masked status and a wake-up |
| `EventUnit.EventUnit.WakeupHandler` | pulp/event_unit/eu_v3_impl.cpp:919-927 | the core runs again and nothing else changes, all cores settled |
| `EventUnit.EventUnit.SetEventMask` | pulp/event_unit/eu_v3_impl.cpp:503-525 | changing a mask wakes the core if that unmasks an event |
| `EventUnit.EventUnit.BufferClear` | pulp/event_unit/eu_v3_impl.cpp:495-502 | clearing the buffer keeps all cores settled |
| `EventUnit.EventUnit.SocSync` | pulp/event_unit/eu_v3_impl.cpp:1505-1520 | appends to the FIFO or drops when full; then the FIFO event is pending on every core |
| `EventUnit.EventUnit.SocRead` | pulp/event_unit/eu_v3_impl.cpp:1522-1544 | removes the oldest event; the FIFO event stays pending on every core while events are left |
| `EventUnit.EventWakes` | pulp/event_unit/eu_v3_impl.cpp:437-452 | whoever sleeps for one of the events sent to it is woken, its wake-up scheduled |
| `EventUnit.OthersSleepOn` | pulp/event_unit/eu_v3_impl.cpp:437-452 | a core that an event is not addressed to sleeps on, unless the FIFO event reaches it |
| `DebugBurst.ComputeCrc` | pulp/adv_dbg_unit/adv_dbg_unit_impl.cpp:347-361 | the loop is the CRC of the low bits of the word |
| `DebugBurst.CrcOfStream` | pulp/adv_dbg_unit/adv_dbg_unit_impl.cpp:347-361 | the CRC of a sequence of words is the CRC of their concatenated bits |
| `DebugBurst.DamageChangesCrc` | pulp/adv_dbg_unit/adv_dbg_unit_impl.cpp:347-361 | the CRC differs whenever the wrong bits lie within 32 bits in a row, a single one included |
| `DebugBurst.DebugUnit.ShiftDr` | pulp/adv_dbg_unit/adv_dbg_unit_impl.cpp:378-483 | one shift of a read or write burst: state, memory and TDO are those of the step function |
| `DebugBurst.ReadBurst` | pulp/adv_dbg_unit/adv_dbg_unit_impl.cpp:382-427 | a read burst puts on TDO exactly a start bit, the words least significant bit first, and their CRC |
| `DebugBurst.WriteBurst` | pulp/adv_dbg_unit/adv_dbg_unit_impl.cpp:428-482 | a write burst stores exactly its words, and reports a match if and only if the CRC received is theirs |
| `DebugBurst.DamageIsReported` | pulp/adv_dbg_unit/adv_dbg_unit_impl.cpp:428-482 | a write burst damaged within 32 bits in a row ends without a match |
| `DebugBurst.WaitsForStart` | pulp/adv_dbg_unit/adv_dbg_unit_impl.cpp:428-440 | idle bits before the start bit of a write burst change nothing |
| `DebugBurst.PayloadReadBack` | pulp/adv_dbg_unit/adv_dbg_unit_impl.cpp:428-465 | reading back a written burst gives the same words, also where the address wraps around |
| `DebugBurst.RoundTrip` | pulp/adv_dbg_unit/adv_dbg_unit_impl.cpp:378-483 | the output of any read burst fed to a write burst of the same shape reproduces the words and ends with a CRC match |

## Left out

- UpDownTables: a given root must be a router; the source does not check that.
- NoTurnsDeadlockFree: one direction; a turn need not close a cycle (`TurnWithoutDeadlock`); the exact test is the dependency graph that `check_routes` builds.
- CycleDeadlocks: the stuck state is well formed; when it arises from an empty network is `CircleArises`, one direction.
- `multi_tree`, `hexamesh` and `next_hops`: their deadlock freedom is whatever `check_routes` finds.
- NextPosition: a missing axis is an ordinary error here, an uncaught index error in the source; the letters of the order are already axis numbers.
- Node names and the wording of errors.
- Router.RouterV2.FsmHandler: the delays of `vp::Queue` are not part of this model; which head flits are visible, and what the next nodes answer, is arbitrary in every cycle.
- BoundedWaiting: stated per output arbiter and in packets, not in cycles, as outputs may be stalled for ever by the next node.
- EnqueueRouterReq: 64-bit wrap-around of addresses, and the counter left behind by an unmapped burst.
- Response flits, the splitting of read responses and the retry callbacks of the network interface.
- WritePort.HandleReq: the number of read bursts in flight is an input; in the runs it changes under the same limit.
- LinkFlow.NeverOverflows: links into routers; the receiving side of a network interface is not part of this model.
- NetworkKeepsInv: routers with a table, on a delivering network; flits cross a link in order, after any delay. Stalls are in `LinkFlow`.
- TrackedDeliver: beats that travel split over several flits, where only the status of the last slice comes back; atomics; addresses that are not mapped.
- The address-phase packets of flex multicasts, the echoes of reduction acknowledgements, and the flow control of forking routers.
- ForkJoin.AllRunsKeepInv: a request with an empty fan-out, which completes at once, is no event; it cannot occur on a full mesh with an NI per router.
- RootCompletesOnce: no empty fan-outs; one root; the counting of the roots of one write burst (`REQ_REM_SIZE`) is left out.
- FP16 reductions, which are not associative, and the odd byte after the last 16-bit lane.
- Analyze: coordinates are not negative.
- DispatchUnit.Read: the parked core is put to sleep; that it has no unrelated masked event pending is assumed, and the event that wakes it is in `EventUnit`.
- RingRefinesLog: nothing is claimed about what a core receives once the pusher has overtaken it by more than a ring; its reads are part of the runs.
- EventUnit.EventUnit.CheckState: interrupts, interrupt wake-ups and the replay of interrupted waits.
- EventUnit.EventUnit.SocRead: with no FIFO event configured the source shifts by -1; here nothing is triggered.
- The mutex and barrier units, software events and the register map.
- DebugUnit.ShiftDr: other modules, failing memory accesses, word counts of zero, shifts without a burst (they move the command register), and the TAP state machine of clause 6 of IEEE 1149.1; the running CRC, one variable for all instances in the source, is a field. TDO is false where the source leaves it as it was: while a write burst receives, and in the last shift of a read burst.
- Traces, signals, statistics, clocks, resets and port binding.
