# Verified models of ns-2.35 protocols

ns-2.35 is a discrete-event network simulator. This project models seven of its components in
Dafny and proves what each of them is relied on for, over every input, every run and every
interleaving:

| component | files | main results |
|---|---|---|
| AODV routing | `AodvProtocol`, `AodvAgent`, `AodvNetwork`, `AodvSafety`, `AodvTheorems`, `AodvOutcomes`, `AodvDiscovery` | loop freedom, route discovery from end to end, freshness, parity, sequence number ownership, request containment |
| asim bottleneck scaling | `AsimModel`, `AsimRounds`, `Asim` | weighted max-min fairness, each link fits if and only if there is room on it, termination |
| asim RED router | `RedSolver` | the drop probability is the unique fixed point of the RED curve |
| RFID reader and tags | `RfidModel`, `RfidSafety`, `RfidQ`, `RfidAgents`, `RfidInventory` | inventories are complete, frames conserve tags, when the Q algorithm halts soundly |
| Bay full TCP receiver | `Reassembly`, `BayReceiver` | `rcv_nxt_` is the first byte not yet received |
| token bucket and admission control | `TokenBucket`, `Admission`, `SaLink` | rate bound if and only if packets fit, or always without a queue; all-or-nothing reservation |
| AOMDV path table, AODV packet buffer | `AomdvModel`, `AomdvEntry`, `AomdvOutcomes`, `PacketBuffer` | disjoint paths, route state; ordered deadlines, oldest packet first |

Each component has the same shape. A functional model gives the meaning of one operation on a
value; a class performs the operation in place, with loops, and is proved to realise that function;
a state machine composes the operations into runs; lemmas prove an invariant of every step and
derive the theorems from it. `Common` holds what several components share.

**AODV.** The network is a map of nodes and a set of messages. A message once sent may be delivered
to any node, at any time, any number of times or never, so loss, duplication, delay, reordering and
mobility are covered. Timers are steps that may fire at any time; expiry of a route needs only that
its time has passed. `Inv` in `AodvNetwork` ties every valid entry and every message in flight to
the freshness of its next hop or sender. Hop counts share their value range with `INFINITY2` (255),
so the theorems speak of states in which no reply has counted that far (`HopsFinite`);
`SmallNetworks` proves this of every run of up to 223 nodes, by counting for each hop of a reply
one more node that holds the route. `AodvOutcomes` says of every handler what it brings about, and
`DiscoveryWorks` puts these together: a request out and its reply back set up the whole path.

**asim.** Arithmetic is exact. `Allocated` in `Asim` is what `newupdate` achieves for positive bulk
rates, link by link: a link that carries bulk connections fits exactly when the short connections
leave room on it, and every bulk connection with such a link on its route ends with a full link on
which no other bulk connection kept a larger share of its demand; the others keep their rate.
`FairIsMaxMin` shows that this is the usual max-min optimality. The main loop terminates on every
input.

**RFID.** One reader, lossless slots, arbitrary slot choices. A unicast acknowledgement reaches the
tag heard last.

**TCP.** Data segments without FIN; any two are identical or disjoint. What happens otherwise is
stated by `StraddlingSegment`.

Time, random draws, the latency estimate `PerHopTime`, the square root of the RED discriminant and
questions to components outside a model (does the send buffer hold packets for d?) are parameters.

## Findings

- `recvRequest` takes the maximum of its own and the requested sequence number before it replies
  (aodv.cc:756-759); its comment calls this a precaution. `FreshReply`: the maximum never matters, the
  number always goes up by exactly two.
- The `TTL_START` branch of `sendRequest` (aodv.cc:1114-1117) is dead, because the last known hop
  count starts at `INFINITY2` (`RingStartUnused`). The first ring search already uses the network
  diameter.
- `BCAST_ID_SAVE` is 6 seconds although its comment says 3; the code is followed.
- The Q algorithm can halt with tags unread: it halts at Q = 15 only when at least two are
  (`QHaltSound`), and `HaltUnread` is such a run.
- A segment that straddles `rcv_nxt_` while others are queued always leaves `rcv_nxt_` wrong; with
  an empty queue it never does (`StraddlingSegment`, `StraddleExample`).
- A packet larger than the bucket breaks the token bucket's rate bound, but only if it is queued and
  served; nothing else does (`ConformsIffAllFit`, `AlwaysConformsIffUnqueued`, `OversizeBreaks`).
- A TEARDOWN for a flow that a link does not hold corrupts its books (`StrayTeardown`,
  `StrayTeardownBreaks`).
- The correction to an odd sequence number in AOMDV's `rt_purge` (aomdv.cc:653) never applies:
  the number is already odd (`PurgeCorrectionUnused`).

## Model

| member | source | states |
|---|---|---|
| `AodvTheorems.LoopFreedom` | ns-2.35/aodv/aodv.cc:653-935 | in every state of every run, following next hops of valid routes to d never visits a node twice and ends within as many hops as there are nodes |
| `AodvTheorems.FresherAlongPath` | ns-2.35/aodv/aodv.cc:705-711 | along valid next hops each node is strictly fresher: greater sequence number, or equal and fewer hops |
| `AodvTheorems.FreshnessGrows` | ns-2.35/aodv/aodv.cc:402-434 | no table entry ever loses freshness between any two states of a run |
| `AodvTheorems.RouteStates` | ns-2.35/aodv/aodv.cc:352-359 | in every run an entry is UP iff its hop count is finite iff its number is even and non-zero; own numbers are even; hop counts are bounded by the number of nodes plus 30; rt_req_cnt is at most RREQ_RETRIES + 1 |
| `AodvTheorems.SequenceOwnership` | ns-2.35/aodv/aodv.cc:1174-1178 | no entry, request, reply or error names a number for d above d's own plus one; valid entries and replies never exceed d's own |
| `AodvTheorems.FreshReply` | ns-2.35/aodv/aodv.cc:756-766 | a destination's reply raises its number by exactly two, whatever was asked for, and beats every entry any node holds for it |
| `AodvTheorems.RingStartUnused` | ns-2.35/aodv/aodv.cc:1109-1130 | the first-query branch of the expanding ring is never taken; ring sizes are 3 to 8 or the network diameter |
| `AodvTheorems.HandlersApply` | ns-2.35/aodv/aodv.cc:617-650 | every node and message of a run meets the preconditions of the handlers, so their asserts hold |
| `AodvTheorems.PurgeAllIsSteps` | ns-2.35/aodv/aodv.cc:503-550 | a whole rt_purge, in any list order, keeps the network invariant and loses no freshness |
| `AodvTheorems.RequestContainment` | ns-2.35/aodv/aodv.cc:1001-1024 | all copies of a request agree on hop count plus time to live, at most NETWORK_DIAMETER + 1, and on destination and source number |
| `AodvTheorems.RequestsRun` | ns-2.35/aodv/aodv.cc:1170-1178 | broadcast ids in flight are below their source's counter, so (source, id) identifies a request in every run |
| `AodvTheorems.HeardOncePerPeriod` | ns-2.35/aodv/aodv.cc:221-255 | a node takes the same (source, id) past its cache at most once in BCAST_ID_SAVE seconds |
| `AodvTheorems.CacheChange` | ns-2.35/aodv/aodv.cc:673-686 | only a request newly heard or the purge timer changes the broadcast id cache |
| `AodvSafety.StepKeepsInv` | ns-2.35/aodv/aodv.cc:556-650 | every step of any node keeps the network invariant and loses no freshness |
| `AodvSafety.RunInv` | ns-2.35/aodv/aodv.cc:137-153 | the network invariant holds in every state of every run |
| `AodvSafety.SmallNetworks` | ns-2.35/aodv/aodv_rtable.h:41-41 | with up to 223 nodes no reply of any run counts up to INFINITY2 |
| `AodvSafety.RequestStep` | ns-2.35/aodv/aodv.cc:653-820 | receiving a request changes entries only by keeping or adopting a fresher route; the reply or copy sent is backed by the sender's table |
| `AodvSafety.ReplyStep` | ns-2.35/aodv/aodv.cc:823-935 | the same for receiving a reply |
| `AodvSafety.ErrorStep` | ns-2.35/aodv/aodv.cc:938-993 | an error invalidates only with greater odd numbers and is passed on with numbers the destination bounds |
| `AodvSafety.LinkStep` | ns-2.35/aodv/aodv.cc:347-383 | a lost link invalidates its routes with fresher odd numbers and announces sound ones |
| `AodvSafety.ResolveStep` | ns-2.35/aodv/aodv.cc:436-501 | forwarding or resolving a data packet keeps every entry's freshness; a request sent vouches for its source at distance one |
| `AodvSafety.PurgeStep` | ns-2.35/aodv/aodv.cc:503-550 | expiring one entry makes it odd and fresher; renewing or re-requesting leaves it as fresh |
| `AodvNetwork.AdoptCounts` | ns-2.35/aodv/aodv.cc:855-866 | adopting a route adds a holder, which pays for the extra hop in the hop count bound |
| `AodvNetwork.NodeStepInv` | ns-2.35/aodv/aodv.cc:402-434 | the invariant survives whenever one node keeps, adopts or invalidates its entries and sends backed messages |
| `AodvDiscovery.DiscoveryWorks` | ns-2.35/aodv/aodv.cc:653-935 | from any sound world: a request carried hop by hop along a path of nodes that have not heard of it and know no answer, and its reply carried back to the nodes it is addressed to, leave every node of the path with a valid route to the destination by the next node, at the right distance |
| `AodvDiscovery.FirstDiscovery` | ns-2.35/aodv/aodv.cc:436-501 | in a network just started the first search of any node establishes any path of up to 30 hops to any other node |
| `AodvDiscovery.RequestForward` | ns-2.35/aodv/aodv.cc:806-820 | one hop out: a route back by the sender, and the copy that the next node needs |
| `AodvDiscovery.RequestArrives` | ns-2.35/aodv/aodv.cc:747-768 | the destination turns the request into a reply that beats all that is known on the path |
| `AodvDiscovery.ReplyBack` | ns-2.35/aodv/aodv.cc:855-935 | one hop home: a route to the destination by the sender, and the reply addressed to the next node home |
| `AodvOutcomes.EveryRequestAnswered` | ns-2.35/aodv/aodv.cc:673-820 | in every run a request that passes the id check is answered at once: by the destination, from a route fresh enough, or by a copy, unless the time to live is spent |
| `AodvOutcomes.OldRequestIgnored` | ns-2.35/aodv/aodv.cc:664-681 | own and repeated requests change nothing and are not answered |
| `AodvOutcomes.RequestLeavesReverse` | ns-2.35/aodv/aodv.cc:683-740 | a new request leaves a route to its source, by the sender iff it was fresher, good for 6 seconds at least; the id is remembered for 6 seconds; no other route changes |
| `AodvOutcomes.DestinationReplies` | ns-2.35/aodv/aodv.cc:747-768 | exactly one reply: the node itself at 1 hop with its new own number, to the source by the next hop of the reverse route |
| `AodvOutcomes.IntermediateReplies` | ns-2.35/aodv/aodv.cc:772-800 | exactly one reply with the number and hops + 1 of the entry, to the source by the reverse next hop; both next hops become precursors |
| `AodvOutcomes.OtherwisePassedOn` | ns-2.35/aodv/aodv.cc:806-820 | exactly one copy, one hop older, same request, asking for the larger of the two numbers, iff time to live is left |
| `AodvOutcomes.StaleReplyIgnored` | ns-2.35/aodv/aodv.cc:855-906 | a reply that is not fresher changes no route and goes no further |
| `AodvOutcomes.FresherReplyTaken` | ns-2.35/aodv/aodv.cc:855-900 | a fresher one leaves a valid route by its sender with its number, hops and lifetime, and ends the search |
| `AodvOutcomes.FresherReplyPassed` | ns-2.35/aodv/aodv.cc:906-935 | passed on once, one hop older, to the next hop towards the asker, iff there is a route, time to live is left and this is not the asker; the precursor is noted |
| `AodvOutcomes.ErrorTakesDown` | ns-2.35/aodv/aodv.cc:949-978 | exactly the listed finite routes through the sender with a number not above go down with the listed number and lose their precursors; no other entry changes |
| `AodvOutcomes.ErrorPassedOn` | ns-2.35/aodv/aodv.cc:970-990 | an error goes out iff such a route had precursors, and lists exactly those with those numbers |
| `AodvOutcomes.LostLinkTakesDown` | ns-2.35/aodv/aodv.cc:347-383 | exactly the finite routes through the lost neighbour go down with the next number; it leaves every precursor list; the own number moves on |
| `AodvOutcomes.LostLinkReported` | ns-2.35/aodv/aodv.cc:360-383 | an error goes out iff a route was lost and lists exactly the lost ones with their new numbers |
| `AodvOutcomes.HelloHeard` | ns-2.35/aodv/aodv.cc:1307-1335 | the sender is a neighbour for another 4.5 seconds; the own number moves iff it is new |
| `AodvOutcomes.RequestIssued` | ns-2.35/aodv/aodv.cc:1062-1183 | a request goes out iff the route is down, the wait is over and retries are left; its fields; each ring is wider than the last and than the last route; only the widest counts as a retry; after the last retry a pause of 10 seconds |
| `AodvOutcomes.RequestBackoff` | ns-2.35/aodv/aodv.cc:1132-1152 | the wait is the round trip of the ring times the retries counted, at most 10 seconds |
| `AodvOutcomes.PurgeTakesDown` | ns-2.35/aodv/aodv.cc:512-535 | a valid route goes down iff its time is over, with the next number, and is renewed iff packets wait |
| `AodvOutcomes.PurgeAsksAgain` | ns-2.35/aodv/aodv.cc:536-548 | an invalid route is asked for again iff packets wait for it |
| `AodvOutcomes.PacketResolved` | ns-2.35/aodv/aodv.cc:436-501 | a valid route is used and kept alive; without one the source searches and any other node reports the destination |
| `AodvOutcomes.IdPurgeExact` | ns-2.35/aodv/aodv.cc:242-255 | the cache forgets exactly the ids whose time is over |
| `AodvAgent.Agent.constructor` | ns-2.35/aodv/aodv.cc:137-153 | an agent starts with number 2, broadcast id 1 and empty tables |
| `AodvAgent.Agent.IdLookup` | ns-2.35/aodv/aodv.cc:230-240 | true iff the (source, id) pair is in the cache |
| `AodvAgent.Agent.IdPurge` | ns-2.35/aodv/aodv.cc:242-255 | exactly the expired ids go, the others keep their order |
| `AodvAgent.Agent.RtLookupAdd` | ns-2.35/aodv/aodv_rtable.cc:38-67 | a missing entry is created with the constructor's values, an existing one is kept |
| `AodvAgent.Agent.UpdateReverse` | ns-2.35/aodv/aodv.cc:697-740 | the reverse route is replaced iff the request is fresher, and only that entry changes |
| `AodvAgent.Agent.RecvRequest` | ns-2.35/aodv/aodv.cc:653-820 | the in-place handler computes the request step of the network model, keeps the route-state invariant, its asserts hold |
| `AodvAgent.Agent.AnswerRequest` | ns-2.35/aodv/aodv.cc:752-820 | reply as destination, reply from a route fresh enough, pass on, or drop, as the network model says |
| `AodvAgent.Agent.RecvReply` | ns-2.35/aodv/aodv.cc:823-935 | the in-place handler computes the reply step of the network model and keeps the invariant |
| `AodvAgent.Agent.PassReply` | ns-2.35/aodv/aodv.cc:908-935 | the reply goes on with one more hop iff the asker's route is finite and time to live is left |
| `AodvAgent.Agent.ErrorOne` | ns-2.35/aodv/aodv.cc:949-978 | one destination of an error: taken down iff the route runs through the sender with a number not above; reported iff it had precursors |
| `AodvAgent.Agent.RecvError` | ns-2.35/aodv/aodv.cc:938-993 | the loop over the error's destinations, in any order, computes the error step and the error sent on |
| `AodvAgent.Agent.BreakOne` | ns-2.35/aodv/aodv.cc:356-368 | one entry at a link failure: the two asserts hold, the entry goes down with the next number |
| `AodvAgent.Agent.HandleLinkFailure` | ns-2.35/aodv/aodv.cc:347-383 | the loop over the table takes down exactly the routes through the neighbour, frees it as precursor and reports them |
| `AodvAgent.Agent.NbDelete` | ns-2.35/aodv/aodv.cc:1353-1371 | losing a neighbour advances the own number by two and breaks its link |
| `AodvAgent.Agent.RecvHello` | ns-2.35/aodv/aodv.cc:1307-1335 | only a new neighbour advances the own number; every hello renews its expiry; the number stays even |
| `AodvAgent.Agent.SendRequest` | ns-2.35/aodv/aodv.cc:1062-1183 | suppressed, given up after the retries, or issued with the ring size, back-off and numbers the model computes; keeps the invariant |
| `AodvAgent.Agent.RtResolve` | ns-2.35/aodv/aodv.cc:436-501 | forward on a valid route, request as source, error otherwise; the assert on a down route holds |
| `AodvAgent.Agent.PurgeOne` | ns-2.35/aodv/aodv.cc:512-548 | one iteration of rt_purge: expire, renew, re-request or leave |
| `AodvAgent.Agent.RtPurge` | ns-2.35/aodv/aodv.cc:503-550 | the loop visits every entry exactly once and equals its iterations composed |
| `Asim.Asim.NewUpdate` | ns-2.35/asim/asim.cc:845-962 | terminates; with positive bulk rates, link by link: a link that carries bulk connections fits iff the short ones leave room on it; every bulk connection with such a link is scaled once, by non-increasing ratios, to a weighted max-min fair allocation, every other keeps its rate; after newupdate(0) lambda is within 1.05 mu on exactly the links whose short connections fit |
| `Asim.Asim.ScaleBottlenecks` | ns-2.35/asim/asim.cc:845-958 | the main loop with its invariant and measure, the number of unscaled connections; the same allocation |
| `Asim.Asim.Round` | ns-2.35/asim/asim.cc:905-932 | one round scales what still runs through the bottleneck; setting uc to 0 changes nothing; fewer connections stay unscaled |
| `Asim.Asim.ScaleLink` | ns-2.35/asim/asim.cc:909-928 | the loop over theflows scales exactly the unscaled bulk connections through the link, once each, and keeps residuals and demands exact |
| `Asim.Asim.ScaleFlow` | ns-2.35/asim/asim.cc:915-927 | scaling one connection moves its demand to use on every link of its route |
| `Asim.Asim.FindBottleneck` | ns-2.35/asim/asim.cc:879-889 | the result attains the largest positive ratio of demand to residual; -1 iff none is positive |
| `Asim.Asim.InitResidual` | ns-2.35/asim/asim.cc:849-869 | residuals are 1.05 mu less the short connections, demands the sums of the bulk rates |
| `Asim.Asim.UpdateHelper` | ns-2.35/asim/asim.cc:679-696 | every link's load is the sum over the connections counted, once per use |
| `Asim.Asim.Update` | ns-2.35/asim/asim.cc:699-722 | loads are exact sums; lambda becomes the load, or its smoothed form after the first iteration |
| `Asim.SmoothedHalfWay` | ns-2.35/asim/asim.cc:703-718 | the first iteration takes the load as it is; later ones move lambda half way towards the load, counted for at most 1.1 mu |
| `Asim.SmoothedSettles` | ns-2.35/asim/asim.cc:703-718 | within 1.1 mu stays within; at a steady load the error halves |
| `Asim.TheFlows` | ns-2.35/asim/asim.cc:487-528 | a link's list holds each connection as often as its route uses the link |
| `Asim.LoadsFit` | ns-2.35/asim/asim.cc:845-962 | for each link on its own: the load is within 1.05 mu iff the short connections fit there (strictly, if bulk connections run there) |
| `AsimModel.FairIsMaxMin` | ns-2.35/asim/asim.cc:899-958 | in any allocation that gives a connection more and overloads no further link, a bulk connection with no larger share gets less |
| `AsimModel.NoRoomOverloads` | ns-2.35/asim/asim.cc:849-869 | without room, positive bulk rates overload the link whatever they are |
| `AsimRounds.RoundMoves` | ns-2.35/asim/asim.cc:915-927 | on every link a round takes x times gamma off the demand and x off the residual |
| `AsimRounds.RoundFills` | ns-2.35/asim/asim.cc:932-932 | the bottleneck ends with zero demand and zero residual |
| `AsimRounds.RoundsKeep` | ns-2.35/asim/asim.cc:905-932 | a round keeps, on every roomy link, a non-negative residual and the ratio bound, and a limiting link for every connection already scaled, all of which have a roomy link |
| `AsimRounds.RatioIsRoomy` | ns-2.35/asim/asim.cc:879-889 | a positive ratio is only found on a link where the short connections leave room |
| `AsimRounds.SearchShrinks` | ns-2.35/asim/asim.cc:934-944 | the next ratio is at most the last |
| `AsimRounds.RoundsEnd` | ns-2.35/asim/asim.cc:905-958 | when no ratio is positive: fair; each bulk link fits iff roomy; scaled iff there is a roomy link on the route; the others keep their rate |
| `RedSolver.RedRouter.constructor` | ns-2.35/asim/asim.h:79-86 | takes any parameters; the lower threshold is the load whose queue is MinTh; with 0 <= MinTh < MaxTh and MaxP > 0 the object is ready to solve |
| `RedSolver.RedRouter.ComputeProbability` | ns-2.35/asim/asim.h:89-112 | for every MaxP > 0, p in [0,1); below: no drops; middle: 0 < p <= MaxP and the M/M/1 queue of the thinned load lies on the RED line; above (MaxP < 1): the thinned load is pinned |
| `RedSolver.PolyIsFixedPoint` | ns-2.35/asim/asim.h:103-109 | the quadratic vanishes iff the thinned queue lies on the RED line |
| `RedSolver.MiddleSigns` | ns-2.35/asim/asim.h:103-109 | a middle load has a positive discriminant |
| `RedSolver.MiddleLoad` | ns-2.35/asim/asim.h:103-111 | the larger root of the quadratic is a drop probability below 1 and at most MaxP on the RED line |
| `RedSolver.MiddleUnique` | ns-2.35/asim/asim.h:103-111 | no other positive probability lies on the RED line |
| `RedSolver.LowLoad` | ns-2.35/asim/asim.h:92-95 | without drops the queue is at most MinTh |
| `RedSolver.HighLoad` | ns-2.35/asim/asim.h:97-101 | the thinned load is MaxTh/(1+MaxTh) and p exceeds MaxP |
| `RedSolver.RegimesMeet` | ns-2.35/asim/asim.h:79-112 | the three regimes agree at both thresholds |
| `RfidSafety.InventoryComplete` | ns-2.35/apps/rfidReader.cc:643-751 | whenever the DFSA reader, plain or nested, has stopped, every tag is acknowledged and there were as many successes as tags |
| `RfidSafety.EachTagOnce` | ns-2.35/apps/rfidReader.cc:643-751 | at every moment successes equal read tags and read tags stay read, so no tag is acknowledged twice |
| `RfidSafety.FrameConservation` | ns-2.35/apps/rfidReader.cc:643-675 | a frame's idle, success and collision slots add up to its size; the multiset of repliers is the set of tags unread at its start, so each replied exactly once; 2 * col is at most the backlog; no collision iff nobody is left |
| `RfidSafety.SubFrameConservation` | ns-2.35/apps/rfidReader.cc:717-751 | in a sub-frame everybody who joined replied exactly once; 2 * col is at most what is left of the group; no collision iff the group is read |
| `RfidSafety.GroupIsSlot` | ns-2.35/apps/rfidReader.cc:677-751 | as long as sub-frames run, the group is exactly the unread tags of the outer slot that collided, for tags as they are created |
| `RfidSafety.GroupIsClaimed` | ns-2.35/apps/rfidTag.cc:225-244 | for any tag memory: the group is the unread tags of that slot together with those whose memory names it; at least two collided |
| `RfidSafety.NextFrame` | ns-2.35/apps/rfidReader.cc:753-827 | the frame asked for has twice the collided slots, the integer nearest to 2.39 times them, or the whole part of 2.45 or 2.62 times; rep 0 sets the outer frame, any other the sub-frame |
| `RfidSafety.NoNextFrame` | ns-2.35/apps/rfidReader.cc:828-839 | without collisions a sub-frame hands back to the outer slot after its own, and an outer frame ends the inventory |
| `RfidSafety.PlainStops` | ns-2.35/apps/rfidReader.cc:643-675 | plain DFSA stops iff a frame ends that leaves nobody unread |
| `RfidSafety.NestedStops` | ns-2.35/apps/rfidReader.cc:677-712 | the nested reader stops iff the outer frame is through and its last slot has not collided |
| `RfidSafety.SlotsCounted` | ns-2.35/apps/rfidReader.cc:643-751 | slotCounter_ counts the slots of the run |
| `RfidSafety.QueryHeard` | ns-2.35/apps/rfidTag.cc:214-244 | who draws on a query, what it remembers and when it replies |
| `RfidSafety.CallHeard` | ns-2.35/apps/rfidTag.cc:245-258 | who replies to a call |
| `RfidSafety.FrameStep` | ns-2.35/apps/rfidTag.cc:214-258 | calling the next slot of a frame is answered by exactly the unread tags of that slot |
| `RfidSafety.OuterStep` | ns-2.35/apps/rfidReader.cc:677-712 | an outer slot is read, passed, or opens a sub-frame that keeps its group apart from the later outer slots |
| `RfidSafety.GroupStep` | ns-2.35/apps/rfidReader.cc:717-751 | a sub-frame keeps its group apart from the later outer slots until it is read, then the outer frame resumes |
| `RfidSafety.StartGroup` | ns-2.35/apps/rfidTag.cc:225-244 | a sub-frame query is joined by exactly the unread tags whose slot or memory it names |
| `RfidQ.QHaltSound` | ns-2.35/apps/rfidReader.cc:467-539 | after a halt all tags are acknowledged iff Q = -1; halting at Q = 15 leaves at least two unread; successes plus unread tags are conserved |
| `RfidQ.HaltUnread` | ns-2.35/apps/rfidReader.cc:518-537 | a run of two tags that halts at Q = 15 with both unread |
| `RfidQ.QStepKeeps` | ns-2.35/apps/rfidTag.cc:134-193 | every slot conserves successes plus unread tags, and at Q = -1 every unread tag is heard |
| `RfidQ.QMoves` | ns-2.35/apps/rfidReader.cc:467-539 | idle lowers Qfp by c, a collision raises it by c, within 0 to 15; Q is the nearest integer, or -1 to ask everybody; one reply changes neither |
| `RfidQ.DrawTaken` | ns-2.35/apps/rfidTag.cc:130-167 | who draws anew, and replies iff it drew 0 |
| `RfidQ.IdentifiedRests` | ns-2.35/apps/rfidTag.cc:169-175 | an identified tag is read and replies no more |
| `RfidQ.CountDownTurn` | ns-2.35/apps/rfidTag.cc:176-193 | an unread tag in slot s replies to the s-th count-down and to none before |
| `RfidAgents.RfidTag.RecvEdfsa` | ns-2.35/apps/rfidTag.cc:214-271 | the in-place tag makes the model's transition and replies exactly when the model does |
| `RfidAgents.RfidTag.RecvStandard` | ns-2.35/apps/rfidTag.cc:134-193 | the same for a query or adjustment of the Q algorithm |
| `RfidAgents.RfidTag.RecvCountDown` | ns-2.35/apps/rfidTag.cc:162-193 | the same for a slot count-down |
| `RfidAgents.RfidReader.Query` | ns-2.35/apps/rfidReader.cc:257-289 | the packet carries the frame size that belongs to the frame asked, and one timer is set |
| `RfidAgents.RfidReader.StartEdfsa` | ns-2.35/apps/rfidReader.cc:643-675 | the in-place slot handler makes the model's step: tally, acknowledge, next slot or next frame |
| `RfidAgents.RfidReader.StartEstimationDfsa` | ns-2.35/apps/rfidReader.cc:677-712 | the same for the outer frame |
| `RfidAgents.RfidReader.ResolveCollisions` | ns-2.35/apps/rfidReader.cc:717-751 | the same for a sub-frame |
| `RfidAgents.RfidReader.CalculateNextQ` | ns-2.35/apps/rfidReader.cc:753-841 | next frame by methods 0, 1, 3, 4, or return to the outer frame, or stop |
| `RfidAgents.RfidReader.StartSing` | ns-2.35/apps/rfidReader.cc:467-539 | the in-place Q step: adjust down, identify, adjust up, or halt |
| `RfidInventory.Inventory` | ns-2.35/apps/rfidReader.cc:643-751 | reader and tag objects driven slot by slot, with any random numbers: once the reader has stopped, every tag object is acknowledged and success counts them all |
| `RfidInventory.Slot` | ns-2.35/apps/rfidReader.cc:860-877 | one timer expiry of the objects is one step of the model |
| `RfidInventory.Broadcast` | ns-2.35/apps/rfidTag.cc:214-271 | a packet reaches every tag object once; the count and the last replier are those of the model |
| `Reassembly.FirstMissingByte` | ns-2.35/baytcp/tcp-full-bay.cc:1054-1104 | after any arrivals rcv_nxt_ is the first byte missing and the ordered queue strictly beyond it holds exactly the other bytes received |
| `Reassembly.OrderIrrelevant` | ns-2.35/baytcp/tcp-full-bay.cc:1054-1104 | rcv_nxt_ depends only on the set of bytes received |
| `Reassembly.NeverBack` | ns-2.35/baytcp/tcp-full-bay.cc:1054-1104 | rcv_nxt_ never decreases along a run |
| `Reassembly.RecvKeeps` | ns-2.35/baytcp/tcp-full-bay.cc:801-829 | one arrival, by fast path or queue or as duplicate, keeps the refinement |
| `Reassembly.AddKeeps` | ns-2.35/baytcp/tcp-full-bay.cc:1314-1404 | so does add on its own |
| `Reassembly.DrainGap` | ns-2.35/baytcp/tcp-full-bay.cc:1372-1404 | draining loses no byte and stops at the first gap |
| `Reassembly.PushesMeans` | ns-2.35/baytcp/tcp-full-bay.cc:1076-1098 | the application is told iff a segment with PUSH, the one arriving or one that waited, is delivered by this arrival |
| `Reassembly.InsertOrdered` | ns-2.35/baytcp/tcp-full-bay.cc:1324-1372 | insertion keeps the queue sorted |
| `Reassembly.StraddlingSegment` | ns-2.35/baytcp/tcp-full-bay.cc:826-828 | after a segment that straddles rcv_nxt_, rcv_nxt_ is the first byte missing iff the queue was empty |
| `Reassembly.StraddleExample` | ns-2.35/baytcp/tcp-full-bay.cc:826-828 | bytes 0-1, 3 and then 1-2 arrive: rcv_nxt_ stays 2 although the first byte missing is 4 |
| `BayReceiver.Receiver.Clear` | ns-2.35/baytcp/tcp-full-bay.cc:1297-1307 | the linked list is walked to its end and ends empty |
| `BayReceiver.Receiver.Splice` | ns-2.35/baytcp/tcp-full-bay.cc:1324-1372 | the doubly linked list refines insertion at the model's position, with head_, tail_, next_ and prev_ consistent |
| `BayReceiver.Receiver.Search` | ns-2.35/baytcp/tcp-full-bay.cc:1344-1347 | the first node that begins after the segment ends, null iff none |
| `BayReceiver.Receiver.InsertAfter` | ns-2.35/baytcp/tcp-full-bay.cc:1360-1368 | the node is joined in both directions behind p, in the middle or at the end |
| `BayReceiver.Receiver.DropHead` | ns-2.35/baytcp/tcp-full-bay.cc:1388-1395 | the first node leaves the list, links and ends consistent |
| `BayReceiver.Receiver.DrainAll` | ns-2.35/baytcp/tcp-full-bay.cc:1380-1402 | delivery from the head stops at the first gap |
| `BayReceiver.Receiver.Add` | ns-2.35/baytcp/tcp-full-bay.cc:1314-1404 | insertion and draining give the model's rcv_nxt_ and queue; PUSH is reported iff a drained segment carried it |
| `BayReceiver.Receiver.RecvData` | ns-2.35/baytcp/tcp-full-bay.cc:801-829 | duplicate trimming, fast path and queue together make the model's step |
| `BayReceiver.Receiver.Receive` | ns-2.35/baytcp/tcp-full-bay.cc:1054-1104 | an arrival in place keeps rcv_nxt_ the first byte missing and never moves it back; the application is told iff a segment with PUSH is delivered |
| `TokenBucket.ConformsIffAllFit` | ns-2.35/adc/tbf.cc:74-149 | in every run the bits sent in every window from a to b are at most bucket + rate * (b - a) iff every packet sent fits the bucket |
| `TokenBucket.FromArrivals` | ns-2.35/adc/tbf.cc:74-149 | nothing is sent or queued that did not arrive |
| `TokenBucket.FirstComeFirstServed` | ns-2.35/adc/tbf.cc:74-149 | in every run what has been sent, followed by what waits, is what was accepted, in order |
| `TokenBucket.ArrivalOutcome` | ns-2.35/adc/tbf.cc:87-112 | refused iff it finds packets waiting and qlen_ of them, or too few tokens and no queue; sent at once iff it finds no queue and enough tokens; else queued last |
| `TokenBucket.FireOutcome` | ns-2.35/adc/tbf.cc:126-149 | the packet that has waited longest is sent |
| `TokenBucket.EarnedIs` | ns-2.35/adc/tbf.cc:115-124 | tokens accrue at the rate |
| `TokenBucket.FittingArrivalsConform` | ns-2.35/adc/tbf.cc:74-149 | when every arriving packet fits the bucket, the rate bound holds |
| `TokenBucket.AlwaysConformsIffUnqueued` | ns-2.35/adc/tbf.cc:97-112 | the bound holds in all runs, whatever arrives, iff qlen_ is 0 |
| `TokenBucket.OversizeBreaks` | ns-2.35/adc/tbf.cc:126-149 | with a queue, a packet of bucket + 1 bits is queued, served and breaks the bound |
| `TokenBucket.TimerMeansQueued` | ns-2.35/adc/tbf.cc:126-149 | the timer is pending iff packets wait, so the abort is unreachable; tokens stay in [0, bucket]; the head packet leaves with exactly its tokens |
| `TokenBucket.ArriveKeeps` | ns-2.35/adc/tbf.cc:74-113 | an arrival keeps the filter's invariant |
| `TokenBucket.FireKeeps` | ns-2.35/adc/tbf.cc:126-149 | so does the timer |
| `TokenBucket.StepPays` | ns-2.35/adc/tbf.cc:74-149 | every send is paid for: windows ending now leave the tokens in hand unspent |
| `TokenBucket.Filter.GetUpdatedTokens` | ns-2.35/adc/tbf.cc:115-124 | tokens grow with time and are capped, in place as in the model |
| `TokenBucket.Filter.Recv` | ns-2.35/adc/tbf.cc:74-113 | forward, queue and set the timer, or drop, as in the model |
| `TokenBucket.Filter.Timeout` | ns-2.35/adc/tbf.cc:126-149 | the head packet is sent and the timer set for the next, as in the model |
| `Admission.ReservedWithinLimit` | ns-2.35/adc/param-adc.cc:78-96 | in every interleaving each link's reserved rate is the sum of the rates held and at most utilization times bandwidth |
| `Admission.AllOrNothing` | ns-2.35/adc/salink.cc:86-132 | once a CONFIRM has passed every link, the flow's rate is held on all links of its path if accepted and on none otherwise |
| `Admission.AcceptedIffAllHold` | ns-2.35/adc/salink.cc:86-110 | a flow whose REQUEST has passed all links is accepted iff every link holds it |
| `Admission.AcceptedHadRoom` | ns-2.35/adc/param-adc.cc:89-96 | an accepted or running flow found room on every link of its path when it asked |
| `Admission.RefusedHadNoRoom` | ns-2.35/adc/param-adc.cc:89-96 | a flow is turned down only by a link of its path without room for it when it asked |
| `Admission.RequestKeeps` | ns-2.35/adc/salink.cc:87-110 | a REQUEST keeps the books, holds and lists the flow iff it is admitted, and leaves other flows alone |
| `Admission.ConfirmKeeps` | ns-2.35/adc/salink.cc:114-126 | a CONFIRM settles the flow: held iff accepted, pending no more |
| `Admission.TeardownKeeps` | ns-2.35/adc/salink.cc:127-132 | a TEARDOWN of a held flow releases exactly its rate |
| `Admission.StrayTeardown` | ns-2.35/adc/salink.cc:127-132 | a TEARDOWN keeps the books iff the link holds the flow |
| `Admission.StrayTeardownBreaks` | ns-2.35/adc/salink.cc:127-132 | an idle link, a TEARDOWN of rate 1: the reserved rate is -1 |
| `Admission.StepKeeps` | ns-2.35/adc/sa.cc:146-190 | every move of every flow keeps the books of all links and the standing of all flows |
| `SaLink.ParamAdc.AdmitFlow` | ns-2.35/adc/param-adc.cc:89-96 | admits iff the rate still fits, and reserves it then only |
| `SaLink.SALink.Lookup` | ns-2.35/adc/salink.cc:185-205 | the first slot with the id, -1 iff there is none |
| `SaLink.SALink.RecvRequest` | ns-2.35/adc/salink.cc:87-110 | the in-place link makes the model's step; the packet's decision is only ever cleared |
| `SaLink.SALink.RecvConfirm` | ns-2.35/adc/salink.cc:114-126 | the in-place link makes the model's step, also for a flow it does not know |
| `SaLink.SALink.RecvTeardown` | ns-2.35/adc/salink.cc:127-132 | the in-place link makes the model's step |
| `AomdvModel.PathsDisjoint` | ns-2.35/aomdv/aomdv_rtable.cc:181-285 | in every run an entry's paths have pairwise different next hops and last hops, are counted right and at most max(1, aomdv_max_paths_); removing the first path through id removes all |
| `AomdvModel.RouteState` | ns-2.35/aomdv/aomdv.cc:482-508 | in every run UP iff there is a path iff the number is even and non-zero, so path_find is never null under RTF_UP; the highest number heard is odd or zero |
| `AomdvModel.DeleteRemovesAll` | ns-2.35/aomdv/aomdv_rtable.cc:262-275 | with disjoint paths, deleting the first match leaves exactly the paths not through id |
| `AomdvModel.LearnKeeps` | ns-2.35/aomdv/aomdv.cc:837-882 | learning a path keeps disjointness, count and parity; the UP assert holds |
| `AomdvOutcomes.NewerReplaces` | ns-2.35/aomdv/aomdv.cc:837-848 | a newer number leaves exactly the path heard; an older one, or one not closer, changes nothing |
| `AomdvOutcomes.KnownPathExtended` | ns-2.35/aomdv/aomdv.cc:861-864 | the path with both hops lives on to the later of the two times; nothing else changes |
| `AomdvOutcomes.NewPathJoins` | ns-2.35/aomdv/aomdv.cc:871-882 | an unknown path joins last iff it shares neither hop, there is room and it is not too long |
| `AomdvOutcomes.StoredWasHeard` | ns-2.35/aomdv/aomdv.cc:1098-1127 | every (next hop, last hop) an entry for d holds in any run was heard at that node, from that next hop, in a request from d or a reply about d |
| `AomdvOutcomes.LinkLossOutcome` | ns-2.35/aomdv/aomdv.cc:482-508 | exactly the paths through the lost neighbour go; the entry goes down iff none is left, with a number above its own and not below any heard |
| `AomdvOutcomes.ErrorOutcome` | ns-2.35/aomdv/aomdv.cc:1290-1325 | an error counts iff it comes from a neighbour used and is not older; then exactly its paths go, its number is remembered, and without paths the entry goes down with the highest number heard |
| `AomdvOutcomes.PurgeOutcome` | ns-2.35/aomdv/aomdv.cc:634-657 | exactly the paths whose time is over go, and the entry with the last of them |
| `AomdvOutcomes.UseOutcome` | ns-2.35/aomdv/aomdv.cc:1370-1375 | data goes by the first path, which alone lives on |
| `AomdvOutcomes.ReplyNumber` | ns-2.35/aomdv/aomdv.cc:931-938 | a destination answers with an even number, not below its own nor the one asked for |
| `AomdvModel.LoseLinkKeeps` | ns-2.35/aomdv/aomdv.cc:472-519 | a lost link leaves no path through it and a consistent entry |
| `AomdvModel.HearErrorKeeps` | ns-2.35/aomdv/aomdv.cc:1290-1325 | an error leaves a consistent entry |
| `AomdvModel.PurgeKeeps` | ns-2.35/aomdv/aomdv.cc:634-657 | expiry leaves a consistent entry |
| `AomdvModel.PurgeCorrectionUnused` | ns-2.35/aomdv/aomdv.cc:651-653 | the number rt_purge computes for an UP entry is odd already |
| `AomdvModel.StepKeeps` | ns-2.35/aomdv/aomdv.cc:1098-1127 | every step of every node keeps all entries consistent and all numbers in flight of the right parity |
| `AomdvEntry.RtEntry.PathLookup` | ns-2.35/aomdv/aomdv_rtable.cc:207-217 | true iff some path has the next hop |
| `AomdvEntry.RtEntry.DisjointPathLookup` | ns-2.35/aomdv/aomdv_rtable.cc:220-231 | the first path with both hops, the length iff none |
| `AomdvEntry.RtEntry.NewDisjointPath` | ns-2.35/aomdv/aomdv_rtable.cc:234-245 | true iff no path shares either hop |
| `AomdvEntry.RtEntry.GetMinHopcount` | ns-2.35/aomdv/aomdv_rtable.cc:362-373 | the least hop count |
| `AomdvEntry.RtEntry.PathDelete` | ns-2.35/aomdv/aomdv_rtable.cc:262-275 | the first match goes, the rest keep their order, the count follows |
| `AomdvEntry.RtEntry.PathPurge` | ns-2.35/aomdv/aomdv_rtable.cc:389-406 | the restarting scan removes exactly the expired paths and keeps the order of the rest |
| `AomdvEntry.RtEntry.PathEmpty` | ns-2.35/aomdv/aomdv_rtable.cc:309-320 | true iff no path is left; its asserts on the count hold |
| `AomdvEntry.RtEntry.RtDown` | ns-2.35/aomdv/aomdv.cc:538-561 | an entry goes down without paths, once |
| `AomdvEntry.RtEntry.Learn` | ns-2.35/aomdv/aomdv.cc:837-882 | the in-place update makes the model's step, keeps the entry consistent and its assert holds |
| `AomdvEntry.RtEntry.LoseLink` | ns-2.35/aomdv/aomdv.cc:482-508 | the same for one entry at a link failure |
| `AomdvEntry.RtEntry.HearError` | ns-2.35/aomdv/aomdv.cc:1290-1325 | the same for one entry of an error |
| `AomdvEntry.RtEntry.Purge` | ns-2.35/aomdv/aomdv.cc:634-657 | the same for one entry of rt_purge |
| `AomdvEntry.RtEntry.Forward` | ns-2.35/aomdv/aomdv.cc:1370-1375 | on a valid route path_find is not null, by the invariant; the path used is kept alive and the entry stays consistent |
| `PacketBuffer.RunKeepsOrder` | ns-2.35/aodv/aodv_rqueue.cc:50-138 | under a clock that never runs back, every run keeps deadlines in order and the length within the limit, so purge equals the head-only purge |
| `PacketBuffer.PurgeIsPrefix` | ns-2.35/aodv/aodv_rqueue.cc:204-260 | with ordered deadlines purge removes exactly a prefix and equals the commented-out purge |
| `PacketBuffer.LiveMembers` | ns-2.35/aodv/aodv_rqueue.cc:232-260 | exactly the packets not timed out survive |
| `PacketBuffer.EnqueueKeeps` | ns-2.35/aodv/aodv_rqueue.cc:50-85 | enque keeps order and limit |
| `PacketBuffer.EnqueueAppends` | ns-2.35/aodv/aodv_rqueue.cc:50-85 | the new packet goes last with 30 seconds to live; all live ones stay in order, except that a full buffer gives up its oldest |
| `PacketBuffer.DequeueKeeps` | ns-2.35/aodv/aodv_rqueue.cc:106-138 | deque(dst) keeps order and adds nothing |
| `PacketBuffer.DequeueOldest` | ns-2.35/aodv/aodv_rqueue.cc:106-138 | while a packet for dst is alive, deque(dst) takes the one with the earliest deadline and keeps the rest in order |
| `PacketBuffer.DequeueNone` | ns-2.35/aodv/aodv_rqueue.cc:106-138 | when none is alive it takes nothing |
| `PacketBuffer.RQueue.RemoveHead` | ns-2.35/aodv/aodv_rqueue.cc:159-174 | head, tail and length follow the removal of the first packet |
| `PacketBuffer.RQueue.FindPacketWithDst` | ns-2.35/aodv/aodv_rqueue.cc:176-187 | the first packet for dst with its predecessor, null iff none |
| `PacketBuffer.RQueue.FindAgedPacket` | ns-2.35/aodv/aodv_rqueue.cc:219-230 | a timed-out packet with its predecessor, false iff none |
| `PacketBuffer.RQueue.Purge` | ns-2.35/aodv/aodv_rqueue.cc:232-260 | the linked list ends up holding exactly the live packets in order |
| `PacketBuffer.RQueue.Enque` | ns-2.35/aodv/aodv_rqueue.cc:50-85 | the linked list refines enque on the sequence; its assert on the dropped head holds |
| `PacketBuffer.RQueue.Deque` | ns-2.35/aodv/aodv_rqueue.cc:88-103 | the oldest live packet, null iff none |
| `PacketBuffer.RQueue.DequeFor` | ns-2.35/aodv/aodv_rqueue.cc:106-138 | the linked list refines deque(dst) on the sequence, at head, middle and tail |

## Left out

- AODV local repair and RTF_IN_REPAIR: aodv.h:49 defines AODV_LOCAL_REPAIR, so the build as shipped is outside the theorems wherever it takes local_rt_repair, which leaves finite hops on a route that is not UP and whose timer takes it down without raising its number; the theorems are about builds without the option and runs that do not take it.
- AODV networks in which a reply counts up to INFINITY2, possible only with more than 223 nodes; such a reply would leave a route UP with the hop count of a broken one.
- AODV list order and fixed arrays: the routing table, precursor lists and the 100-entry RERR arrays are maps and sets; 32-bit wrap-around of sequence numbers and broadcast ids.
- AODV reply lifetimes: an expiry already past, cast to an unsigned number in the original, is the negative rounded-down difference here.
- AODV data packets, jitter and the contents of the send buffer (booleans passed to the handlers).
- AodvAgent.Agent.RecvReply: does not record the discovery latency history; the estimate PerHopTime makes of it is a parameter of SendRequest and can be any number.
- AOMDV advertised hop counts (the comparison is the parameter `closer`), loop freedom, the error threshold rt_error, broadcast id caching of paths (what a node sends is over-approximated: any hop count and first hop in what it passes on), local repair; `INFINITY` is not defined in the files shown.
- RfidAgents.RfidReader.CalculateNextQ: does not model method 2, the Eom-Lee estimate, a fixed-point iteration in floating point.
- RFID estimation phase, lossy channels, several readers and the tracking service.
- TCP FIN and SYN handling, segments overlapping queued ones, the sender and congestion control.
- Floating point rounding in asim, RED, the token bucket and admission control: reals are exact.
- asim input parsing, including the short connections' share of the initial lambda, Update2, Update3 and the Padhye and queueing formulas; asimstd.cc is a near copy.
- RedSolver.RedRouter.constructor: promises nothing about solving for negative MinTh, MinTh not below MaxTh or MaxP of at most 0, for which the quadratic has no such meaning.
- Admission control other than by parameters (HB, ACTP, ACTO, MS) and the rate estimators; more simultaneous pending flows than the table has slots, at which the original exits.
- Admission.AllOrNothing: assumes that only accepted flows send TEARDOWN. SA_Agent::stop (sa.cc:136-143) sends it whatever its state, so it is up to the simulation script; StrayTeardown gives the other case.
- aomdv_rqueue.cc, a near copy of the AODV buffer; Tcl bindings, tracing, packet allocation and the scheduler.
