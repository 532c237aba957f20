# Proofs about the cores of SDNware

The repository joins an InfiniBand and iWARP userland (`rdma-core-37.8`), an online route server
(`sync`) and an offline routing tool (`route`). This project models the parts of them that carry
state or arithmetic and proves what they keep. `dafny verify dfyconfig.toml` checks all of it.

**The iWARP port mapper** (`Iwpm*.dfy`). A daemon keeps a reference-counted table of mapped
ports and a list of requests in flight; a timer ages and resends them, and daemons talk over
datagrams. `IwpmState` gives every handler as a step on a state value. `IwpmDaemon` is the
daemon itself: mappings and requests are objects in memory that the lists hold by reference,
their counts, timers and flags are changed in place, and each method is proved to make exactly
that step on the state that the memory stands for. Addresses have the layout of the C
structures, so that the comparison and the copy between families mean what they mean there. Each
section under the request lock is one step; an accept is two, because the lock is given up in
between. Sockets, netlink, allocation and the clock are inputs of a step. On top of that: every
reachable state of every run is consistent and no event can crash it; a lookup has one candidate
and does not depend on the list's order; reference counts are conserved; the message of a request
is sent again by at most nine passes of the timer, by exactly nine if it is never answered, and
the request is gone after eleven; a query is answered at most once; and in a
system of any number of daemons, over a network that loses, duplicates and reorders, every
answer goes back to a query that was posted and to the later event at which the right daemon
took up that very request: a success names an address that it then had listed and offered in the
accept formed at that event, and a reject was sent at an event at which it had nothing listed.
The client's own side of the answer is that of one mapping listed when the accept or reject was
read, and the mapping stands for the address that the query came from.
That last theorem needs handles that are never used twice, as the code's comment asks;
`IwpmHandleReuse` gives a run, faultless otherwise, with a reused handle in which it fails. The
other direction needs no such thing: in every run what an accepting client is told of its peer,
the address and the mapped one, is what that peer's daemon put into the query that was taken up.
`IwpmAnswers` and `IwpmExchange` say what each message makes of the table, the requests and the
answers, on their fields and with the numbers of the protocol written out, and that an exchange
whose datagrams arrive comes to its end.

**Online route search** (`RouteSearch.dfy`). The cut-growing search and the walk back, on
arrays, with the truncation of loads to integers and the limit of 4000000000000 kept. What a
load is is said without the sum that computes it, and the result of the search is stated for
every function that is such a load.

**Offline routing** (`Offline*.dfy`). The linear program's constraints as a predicate over
reals, the bound that its prices certify, the decomposition of the flow into paths with its
cutoff of 1e-5, and the two put together. The decomposition is a class that changes its routing
and a visited array; it refines the function `SplitFrom`. `OfflineLoss` bounds what it loses:
where the flow of a pair has no cycle, at most the cutoff for each arc, and nothing if the flow
comes in a grain above the cutoff. `OfflineCycle` shows that it takes that condition: an optimal
solution with a cycle for which no path at all is found.

**Management datagrams** (`BitNumbers.dfy`, `Mad*.dfy`). Bit fields in byte-swapped 32-bit words
beside raw big-endian ones, the layouts of sections 13.4.2, 14.2.1.1, 14.2.1.2 and 15.2.1.1 of
the InfiniBand Architecture Specification. Masks and shifts are functions on naturals with known
bits. `MadLayout` and `MadFrame` give the datagram that is made byte by byte, with the byte
numbers of those sections, and say that every other byte stays as it was. A field is written and
read as it should be if and only if its three bit counts add up,
and a value that is too long spoils its neighbours if and only if the field shares its last
byte. `MadTable` holds the fields of at most 32 bits of the library's own table: the counts of
every one of them add up, so they all read back, while those of 14, 15 and 20 bits and one of 27
let a value that is too long into the field above; a congestion control multiplier of 0x4000
changes the shift beside it. In congestion control datagrams the management key is overwritten
by the class's own key.

**ccan** (`CcanList.dfy`, `Bitmap.dfy`, `BitmapExact.dfy`, `Ilog.dfy`). The circular list on
heap nodes with its corruption check, the word-packed bitmap and the integer logarithm. The
bitmap's masks are computed in `unsigned long long`; where that is wider than a word, as on
32-bit machines, clearing, setting and searching a range each go wrong on some bitmap unless the
range is empty or starts and ends with a word, and are right on all of them if it is or does.

**The static library graph** (`LibraryGraph.dfy`, `LibraryPrune.dfy`). In-place pruning leaves
exactly the transitive reduction, in whatever order it goes.

## Model

| member | source | states |
|---|---|---|
| IwpmAddr.ViewIndistinguishable | rdma-core-37.8/iwpmd/iwarp_pm_common.c:528-578 | an address copied to the wire and back is one that no comparison, port or wildcard question can tell from the original |
| IwpmAddr.CarriedBytes | rdma-core-37.8/iwpmd/iwarp_pm_common.c:528-578 | which bytes of a message carry an address of either family, both ways |
| IwpmAddr.SameExactly | rdma-core-37.8/iwpmd/iwarp_pm_helper.c:350-383 | two addresses are the same if and only if they share one of the two families and travel as the same port and bytes |
| IwpmAddr.WildcardExactly | rdma-core-37.8/iwpmd/iwarp_pm_common.c:583-613 | an address is a wildcard if and only if all the bytes it travels as are zero |
| IwpmWire.FormLayout | rdma-core-37.8/iwpmd/iwarp_pm_common.c:420-490 | every byte of each message by its number: the packed first byte, ports in network order, handle and addresses, and that only a request carries the mapped address |
| IwpmWire.FormAfterParse | rdma-core-37.8/iwpmd/iwarp_pm_common.c:379-438 | a datagram of the length that its type calls for is exactly what its parsed parameters form |
| IwpmWire.RoundTrip | rdma-core-37.8/iwpmd/iwarp_pm_common.c:379-438 | parsing what was formed gives back every field of every well-formed message |
| IwpmWire.ParseDefined | rdma-core-37.8/iwpmd/iwarp_pm_server.c:1245-1291 | exactly the datagrams of a right length and IP version are accepted, and what is accepted is well formed |
| IwpmState.FindFirst | rdma-core-37.8/iwpmd/iwarp_pm_helper.c:394-413 | a lookup gives the first candidate in list order, and none if there is none |
| IwpmState.FindSameFirst | rdma-core-37.8/iwpmd/iwarp_pm_helper.c:423-438 | the exact lookup gives the first mapping in list order with the same address, and none if there is none |
| IwpmState.FindReq | rdma-core-37.8/iwpmd/iwarp_pm_helper.c:125-160 | the first request with the handle and source and one of the kinds, or none if there is none |
| IwpmInvariants.TableInsert | rdma-core-37.8/iwpmd/iwarp_pm_helper.c:337-344 | adding a mapping that no lookup finds keeps the table free of conflicts |
| IwpmInvariants.TableRemove | rdma-core-37.8/iwpmd/iwarp_pm_server.c:539-578 | taking out a mapping keeps the table consistent and the mapping is gone from list and store |
| IwpmInvariants.HitUnique | rdma-core-37.8/iwpmd/iwarp_pm_helper.c:394-413 | at most one listed mapping answers for a local address that is not a wildcard |
| IwpmInvariants.FindOrderIrrelevant | rdma-core-37.8/iwpmd/iwarp_pm_helper.c:394-413 | the answer of a lookup is the same in every order of the list |
| IwpmInvariants.UnwindHeld | rdma-core-37.8/iwpmd/iwarp_pm_server.c:483-531 | the error path of a query on a listed mapping undoes its reference exactly |
| IwpmInvariants.UnwindNew | rdma-core-37.8/iwpmd/iwarp_pm_server.c:361-398 | the error path after creating a mapping leaves the table as it was |
| IwpmInvariants.AddMappingKeeps | rdma-core-37.8/iwpmd/iwarp_pm_server.c:314-398 | an add request keeps the daemon consistent, on every path |
| IwpmInvariants.QueryMappingKeeps | rdma-core-37.8/iwpmd/iwarp_pm_server.c:418-531 | a query keeps the daemon consistent, on every path |
| IwpmInvariants.MapInfoKeeps | rdma-core-37.8/iwpmd/iwarp_pm_server.c:901-957 | restoring a mapping from a client keeps the daemon consistent |
| IwpmInvariants.ReceiveKeeps | rdma-core-37.8/iwpmd/iwarp_pm_server.c:1245-1291 | any datagram whatever keeps the daemon consistent |
| IwpmInvariants.EventKeepsValid | rdma-core-37.8/iwpmd/iwarp_pm_server.c:95-957 | every event succeeds on a consistent daemon and leaves it consistent |
| IwpmRuns.ReachableValid | rdma-core-37.8/iwpmd/iwarp_pm_helper.c:337-438 | in every state of every run each listed mapping appears once, is allocated, has a positive count and conflicts with no other; nothing without a message is ever queued for resending |
| IwpmRuns.ReachableLookup | rdma-core-37.8/iwpmd/iwarp_pm_helper.c:394-438 | so in every run a lookup has one candidate at most and does not depend on list order |
| IwpmRuns.EventCounts | rdma-core-37.8/iwpmd/iwarp_pm_server.c:314-578 | each event changes the count of each mapping by what it grants or releases, error paths included |
| IwpmRuns.Conservation | rdma-core-37.8/iwpmd/iwarp_pm_server.c:314-578 | over every run a count is what was granted minus what the owner released, and the mapping is listed and allocated exactly while that is positive |
| IwpmTracking.Budget | rdma-core-37.8/iwpmd/iwarp_pm_server.c:95-142 | what a tracking object has left and what it has spent never exceed what it started with, for retries, timer passes, answers and copies |
| IwpmTracking.NothingAfterCompletion | rdma-core-37.8/iwpmd/iwarp_pm_helper.c:125-160 | a completed request costs no further retry |
| IwpmRetries.PassParts | rdma-core-37.8/iwpmd/iwarp_pm_server.c:115-134 | what a pass of the timer sends is what it sends for each request in turn |
| IwpmRetries.PassOne | rdma-core-37.8/iwpmd/iwarp_pm_server.c:116-127 | for one request that is its own message if it is a query or accept with a timeout from one to nine, and else nothing |
| IwpmRetries.BoundedRetries | rdma-core-37.8/iwpmd/iwarp_pm_server.c:95-142 | over every run the message of a request is added to what is sent by at most nine passes, and at most eleven meet it |
| IwpmRetries.NoRetryAfterCompletion | rdma-core-37.8/iwpmd/iwarp_pm_helper.c:125-160 | once a request is complete no pass adds its message again |
| IwpmRetries.NextPassSends | rdma-core-37.8/iwpmd/iwarp_pm_server.c:116-127 | in every run a request that waits and has been met by one to nine passes has its message added by the next one, in its turn; the first pass adds none, nor does the one after ten |
| IwpmRetries.ExactlyResent | rdma-core-37.8/iwpmd/iwarp_pm_server.c:95-142 | in a run in which it is never completed its message is added once for each pass after the first, and nine times in all |
| IwpmTracking.GoneByEleventhTick | rdma-core-37.8/iwpmd/iwarp_pm_server.c:95-142 | a query or accept is off the list after eleven ticks |
| IwpmTracking.AtMostOneResult | rdma-core-37.8/iwpmd/iwarp_pm_helper.c:125-160 | over every interleaving a query is answered at most once, by success or by reject |
| IwpmNetwork.AllKnown | rdma-core-37.8/iwpmd/iwarp_pm_server.c:640-882 | in every run of any number of daemons, whatever the handles, every message, request and pending answer anywhere goes back to a query posted under its handle and, for answers, to the event at which the serving daemon took up that request and formed the accept or sent the reject |
| IwpmNetwork.Provenance | rdma-core-37.8/iwpmd/iwarp_pm_server.c:640-855 | each answer given to a client belongs to a query posted for it and to a later event at which the daemon that serves the peer received the request with its handle and its peer; a success names an address listed there at that event, for which the accept was put on the request list then, and a reject was sent at that event with nothing listed; and at a third event the client's daemon read that accept or reject while it had a mapping listed whose owner, local and mapped address are those of the answer and whose local address stands for the one that the query came from |
| IwpmNetwork.IntroductionProvenance | rdma-core-37.8/iwpmd/iwarp_pm_server.c:640-716 | in every run each peer that an accepting client is told of comes from a query that the peer's daemon posted before: the address is the one asked from, the mapped one that of a mapping then listed for it, and the accept of the mapping that the client is told of was formed when the query was taken up |
| IwpmHandleReuse.HandleReuseMisleads | rdma-core-37.8/iwpmd/iwarp_pm_helper.c:48-82 | with a reused handle, and every other identity fresh, there is a run in which a client is told, for one peer, the address of another, and no event accounts for the answer |
| IwpmHeap.TableSet | rdma-core-37.8/iwpmd/iwarp_pm_server.c:340-341 | changing an object that the list holds once changes that entry of the table alone |
| IwpmHeap.TableOff | rdma-core-37.8/iwpmd/iwarp_pm_helper.c:457-463 | taking an object off the list takes its entry out of the table and no other |
| IwpmDaemon.PortMapper.Handle | rdma-core-37.8/iwpmd/iwarp_pm_server.c:1392-1470 | no event that can occur makes the daemon fail, and the memory afterwards stands for the state that the model gives |
| IwpmDaemon.PortMapper.FindMapping | rdma-core-37.8/iwpmd/iwarp_pm_helper.c:394-413 | the loop over the list gives the object that the lookup names |
| IwpmDaemon.PortMapper.FindSameMapping | rdma-core-37.8/iwpmd/iwarp_pm_helper.c:423-438 | the loop over the list gives the object that the exact lookup names |
| IwpmDaemon.PortMapper.UpdateMapRequest | rdma-core-37.8/iwpmd/iwarp_pm_helper.c:125-160 | the first matching request alone is completed, in place, and a copy of it as it was is given |
| IwpmDaemon.PortMapper.AddMappedPort | rdma-core-37.8/iwpmd/iwarp_pm_helper.c:337-344 | a new object is put on the list; one that is held already is not listed again |
| IwpmDaemon.PortMapper.Release | rdma-core-37.8/iwpmd/iwarp_pm_server.c:514-518 | a reference given back lowers the count of a listed object and leaves nothing of a new one |
| IwpmDaemon.PortMapper.Unlist | rdma-core-37.8/iwpmd/iwarp_pm_helper.c:457-463 | exactly that object leaves the list and the table |
| IwpmDaemon.PortMapper.ProcessAddMapping | rdma-core-37.8/iwpmd/iwarp_pm_server.c:314-398 | the handler makes the add step on the objects and keeps the daemon consistent |
| IwpmDaemon.PortMapper.ProcessQueryMapping | rdma-core-37.8/iwpmd/iwarp_pm_server.c:418-531 | the handler makes the query step and keeps the daemon consistent |
| IwpmDaemon.PortMapper.ProcessRemoveMapping | rdma-core-37.8/iwpmd/iwarp_pm_server.c:539-578 | the handler makes the remove step and keeps the daemon consistent |
| IwpmDaemon.PortMapper.ProcessMapInfo | rdma-core-37.8/iwpmd/iwarp_pm_server.c:901-957 | the handler makes the restore step and keeps the daemon consistent |
| IwpmDaemon.PortMapper.ProcessWireRequest | rdma-core-37.8/iwpmd/iwarp_pm_server.c:640-716 | the handler answers with an accept or a reject as the step says |
| IwpmDaemon.PortMapper.ProcessWireAccept | rdma-core-37.8/iwpmd/iwarp_pm_server.c:735-774 | the first half of an accept, up to the release of the lock |
| IwpmDaemon.PortMapper.FinishWireAccept | rdma-core-37.8/iwpmd/iwarp_pm_server.c:775-796 | the second half, which answers the client |
| IwpmDaemon.PortMapper.ProcessWireReject | rdma-core-37.8/iwpmd/iwarp_pm_server.c:806-855 | the handler completes the query and tells the client |
| IwpmDaemon.PortMapper.ProcessWireAck | rdma-core-37.8/iwpmd/iwarp_pm_server.c:861-882 | the handler completes the accept |
| IwpmDaemon.PortMapper.ProcessMsg | rdma-core-37.8/iwpmd/iwarp_pm_server.c:1245-1291 | any datagram is dispatched or dropped as the step says |
| IwpmDaemon.PortMapper.AgeRequests | rdma-core-37.8/iwpmd/iwarp_pm_server.c:95-142 | one pass of the timer ages the objects in place, resends and unlinks exactly those it should |
| IwpmAnswers.AnswersExactly | rdma-core-37.8/iwpmd/iwarp_pm_helper.c:394-413 | which mappings a lookup takes: those on the same port with the same address, or where one of the two is a wildcard |
| IwpmAnswers.AddNewAnswer | rdma-core-37.8/iwpmd/iwarp_pm_server.c:314-398 | an add for an address that is not mapped answers with that address and a mapped one of the same family and IP on the port that was bound, or with itself if no port is wanted, and lists exactly that; what it does where it fails |
| IwpmAnswers.AddSharedAnswer | rdma-core-37.8/iwpmd/iwarp_pm_server.c:336-357 | an add for an address that is mapped shares the very wildcard, and answers with that entry's addresses, or is refused as a duplicate |
| IwpmAnswers.MapInfoNewAnswer | rdma-core-37.8/iwpmd/iwarp_pm_server.c:901-957 | mapping info restores the mapping with the client's own addresses, on the port that was bound, if the families agree |
| IwpmAnswers.MapInfoKnownAnswer | rdma-core-37.8/iwpmd/iwarp_pm_server.c:925-938 | and changes nothing for an address that is mapped, with an error unless it is mapped the same way |
| IwpmAnswers.QueryNewAnswer | rdma-core-37.8/iwpmd/iwarp_pm_server.c:418-531 | a query from an address that is not mapped lists a mapping as an add does and posts a request to port 3935 of the peer, whose datagram carries the three addresses and the handle |
| IwpmAnswers.QueryNewRefused | rdma-core-37.8/iwpmd/iwarp_pm_server.c:446-531 | where that fails nothing is left behind |
| IwpmAnswers.QueryHeldAnswer | rdma-core-37.8/iwpmd/iwarp_pm_server.c:418-531 | a query from an address that is mapped adds a reference and posts the request with that entry's addresses |
| IwpmAnswers.QueryHeldRefused | rdma-core-37.8/iwpmd/iwarp_pm_server.c:446-531 | a wildcard is refused, and where posting fails the reference is given back |
| IwpmAnswers.RemoveOwnAnswer | rdma-core-37.8/iwpmd/iwarp_pm_server.c:539-578 | the owner gives one reference back, and the last one takes exactly that mapping off the list |
| IwpmAnswers.RemoveNothing | rdma-core-37.8/iwpmd/iwarp_pm_server.c:558-571 | no other client's request has any effect, nor one for an address that is not mapped |
| IwpmAnswers.MalformedAnswer | rdma-core-37.8/iwpmd/iwarp_pm_server.c:548-554 | a message that cannot be read is answered with error 10 and does nothing else |
| IwpmExchange.RequestTaken | rdma-core-37.8/iwpmd/iwarp_pm_server.c:640-716 | a new request for a mapped address adds one accept with its message, sends it back to where the request came from and tells the owner of the mapping about both sides |
| IwpmExchange.RequestTurnedDown | rdma-core-37.8/iwpmd/iwarp_pm_server.c:650-668 | one for an address that is not mapped sends back a reject with the addresses and handle of the request, and nothing else changes |
| IwpmExchange.AcceptTaken | rdma-core-37.8/iwpmd/iwarp_pm_server.c:735-774 | an accept for which a query waits completes the query and keeps what the client will be told |
| IwpmExchange.AcceptRepeated | rdma-core-37.8/iwpmd/iwarp_pm_server.c:735-774 | one that was answered before is acknowledged again, and nothing else happens |
| IwpmExchange.AcceptFinished | rdma-core-37.8/iwpmd/iwarp_pm_server.c:774-796 | the client is told its own mapping and the peer's mapped address, with error 0, and the accept is acknowledged |
| IwpmExchange.RejectTaken | rdma-core-37.8/iwpmd/iwarp_pm_server.c:806-855 | a reject completes the query and tells the client its own mapping, the peer unmapped and error 16 |
| IwpmExchange.AckTaken | rdma-core-37.8/iwpmd/iwarp_pm_server.c:861-882 | an acknowledgement completes the accept of the mapped address under its handle |
| IwpmExchange.ExchangeSucceeds | rdma-core-37.8/iwpmd/iwarp_pm_server.c:640-796 | a request's datagram at a daemon that has the peer mapped gives an accept whose datagram, back while the query waits, gets the client told its own mapping and the peer's |
| IwpmExchange.ExchangeRefused | rdma-core-37.8/iwpmd/iwarp_pm_server.c:640-855 | at a daemon that has not, a reject that gets the client told so |
| IwpmExchange.ExchangeEnds | rdma-core-37.8/iwpmd/iwarp_pm_server.c:861-882 | the datagram of the acknowledgement ends the accept |
| RouteSearch.LoadIsLoad | sync/server.cpp:297-311 | the load is 0 without flows; a flow put anywhere among others adds its rate in the table, and nothing if it has no entry or is the one that is routed |
| RouteSearch.OneLoad | sync/server.cpp:297-311 | and only one function is like that |
| RouteSearch.LoadAnyOrder | sync/server.cpp:297-311 | so the order of the flows does not matter |
| RouteSearch.TruncTowardsZero | sync/server.cpp:591-621 | a load stored as an integer is the one next to it on the side of zero |
| RouteSearch.InterfaceRate | sync/server.cpp:297-311 | the loop gives that load, for every function that is one |
| RouteSearch.BestCrossing | sync/server.cpp:591-621 | one round gives a usable link out of the visited set with the least truncated load, or there is none |
| RouteSearch.PathCrosses | sync/server.cpp:591-621 | every path from inside the visited set to outside crosses it |
| RouteSearch.CutIsUnavoidable | sync/server.cpp:591-621 | so every path to the destination is at least as heavy as the round's choice |
| RouteSearch.CutBlocks | sync/server.cpp:591-621 | and if no usable link leaves the set, no usable path reaches the destination |
| RouteSearch.TreeGrows | sync/server.cpp:591-621 | what the search keeps: predecessors form a tree of usable links, each no heavier than any way to the destination |
| RouteSearch.Walk | sync/server.cpp:624-635 | following predecessors from the destination gives the tree path, in order |
| RouteSearch.TreePathGood | sync/server.cpp:624-635 | that path is simple, real, and no path has a lighter heaviest link |
| RouteSearch.GetRoute | sync/server.cpp:573-635 | a path is found exactly when the destination is reachable over usable links, in fewer rounds than switches; it is simple and its heaviest load is least on integer parts; and for every function that is a load a route is found if and only if some path has all its links loaded with less than 4000000000000, is then such a path, and to each of its links every other path has one loaded as much, up to the fraction |
| RouteSearch.OptimalWithinOne | sync/server.cpp:591-621 | what truncation costs: the true heaviest load is within one of the best |
| OfflineLp.LoadMonotone | route/routesolve.py:103-140 | sending no more of any pair over a link loads it no more |
| OfflineLp.PricesCover | route/routesolve.py:103-140 | the prices times the host bandwidths cover the load of the link, for any traffic within those bandwidths |
| OfflineLp.Certificate | route/routesolve.py:103-140 | any solution of the constraints keeps every link within `mlu` times its capacity for every admissible traffic, whatever the number of switches |
| OfflineLp.InsideCancels | route/routesolve.py:111-125 | flow between switches of a set cancels |
| OfflineLp.CutFlow | route/routesolve.py:111-125 | the net flow of a pair out of any set with its source and without its target is exactly one |
| OfflinePaths.SplitSound | route/SDNroute.py:278-301 | for any non-negative routing: residuals stay non-negative, weights sum to at most what was asked for, every path is a walk over links to `v` that meets nothing twice between its ends, and each link is lowered by at least what the paths put on it |
| OfflinePaths.PathsDecompose | route/SDNroute.py:303-322 | the paths of a pair carry at most one unit and no more on any link than the solved flow |
| OfflinePaths.SplitLocal | route/SDNroute.py:278-301 | the paths of a pair depend on the flow of that pair alone |
| OfflinePaths.OthersKept | route/SDNroute.py:278-301 | and taking them leaves the flow of the other pairs alone, and that of arcs with at most 0.00001 |
| OfflinePaths.ThinUnused | route/SDNroute.py:285-286 | so no path takes anything over such an arc |
| OfflinePaths.SplitTrafficFits | route/SDNroute.py:278-322 | splitting each demand over such paths by weight keeps every link within `mlu` |
| OfflinePaths.RoutedTrafficFits | route/SDNroute.py:303-322 | the whole pipeline: any solution, its paths and any admissible traffic |
| OfflineLoss.SplitLoses | route/SDNroute.py:278-301 | on flow without a cycle, below each switch that was searched no more is held back than may be lost for its used up arcs, and the paths carry all that no longer arrives at `v` |
| OfflineLoss.SolutionFeeds | route/routesolve.py:111-125 | a solution sends one unit from the source, keeps one at the target and passes on what each other switch receives |
| OfflineLoss.LossBounded | route/SDNroute.py:303-322 | so for any solution without a cycle the weights of a pair of `n` switches sum to at least one less 0.00001 times `(n - 1)` squared |
| OfflineLoss.DecompositionExact | route/SDNroute.py:303-322 | and to exactly one if the flow comes in a grain above 0.00001 |
| OfflineCycle.CycleLosesAll | route/SDNroute.py:278-322 | on four switches an optimal solution with a cycle, for which the search finds no path |
| OfflineSearch.Nonblocking.GetPaths | route/SDNroute.py:278-301 | the recursive search over the routing and the visited array gives those paths and residuals, and restores the array |
| OfflineSearch.Nonblocking.Turn | route/SDNroute.py:281-300 | one turn of that loop: it skips the arc, goes on with what is left or stops, as the specification does |
| OfflineSearch.Nonblocking.GetAllPaths | route/SDNroute.py:303-322 | every pair gets the paths of the solved routing, although all of them are taken from one map in turn |
| OfflineSearch.Nonblocking.PathsOfPair | route/SDNroute.py:303-322 | one pair's turn |
| MadFields.BitsOffsApart | rdma-core-37.8/libibmad/fields.c:49-51 | normalising offsets keeps fields apart that share no bit, and only those |
| MadFields.BitsOffsReads | rdma-core-37.8/libibmad/fields.c:49-51 | a normalised field is read from the bits of the buffer from its offset on, counted from the top bit of byte 0, the highest first |
| MadFields.SetSpan | rdma-core-37.8/libibmad/fields.c:1043-1073 | every bit of the buffer after any write: the value's inside the span, the old one outside, and what is too long or-ed into the last byte |
| MadFields.GetSpan | rdma-core-37.8/libibmad/fields.c:1075-1101 | every bit that a read gives, of any field: those of the span and then those of the last byte, cut to 32 |
| MadFields.RegularOrLonger | rdma-core-37.8/libibmad/fields.c:1043-1073 | exactly which fields have counts that do not add up, and that they are eight bits off |
| MadFields.RoundTrip | rdma-core-37.8/libibmad/fields.c:1043-1101 | set then get gives any value back, cut to the field's length |
| MadFields.NoInterference | rdma-core-37.8/libibmad/fields.c:1043-1101 | a value that fits disturbs no field on other bits |
| MadFields.WritesOnlyItselfExactly | rdma-core-37.8/libibmad/fields.c:1043-1073 | a field keeps to itself for all its values if and only if its counts add up |
| MadFields.MasksEverythingExactly | rdma-core-37.8/libibmad/fields.c:1068-1072 | and for all 32-bit values if and only if, besides, it does not share its last byte |
| MadFields.ReadsBackExactly | rdma-core-37.8/libibmad/fields.c:1075-1101 | a field reads back all its values if and only if its counts add up or it has 32 bits |
| MadFields.Adjacent | rdma-core-37.8/libibmad/fields.c:1075-1101 | two fields side by side read as one |
| MadTable.TableRegular | rdma-core-37.8/libibmad/fields.c:53-1023 | the counts of every field of the table of at most 32 bits add up |
| MadTable.TableRoundTrip | rdma-core-37.8/libibmad/fields.c:53-1101 | so each of them reads back any value, cut to its length |
| MadTable.TableNoInterference | rdma-core-37.8/libibmad/fields.c:53-1101 | and a value that fits disturbs no field of the table on other bits |
| MadTable.TableMasks | rdma-core-37.8/libibmad/fields.c:53-1073 | exactly which fields of the table keep a value that is too long to themselves |
| MadTable.SpillsInto | rdma-core-37.8/libibmad/fields.c:1068-1072 | in the others the value one past the largest sets the lowest bit of the field above, whatever the buffer |
| MadTable.MultiplierSpills | rdma-core-37.8/libibmad/fields.c:899-900 | so a congestion control multiplier of 0x4000 changes the shift |
| MadEncode.BeReadsBack | rdma-core-37.8/libibmad/fields.c:1025-1041 | a 64-bit field reads back |
| MadEncode.DoHolds | rdma-core-37.8/libibmad/fields.c:1025-1073 | each of the three kinds of write reads back |
| MadEncode.DoKeeps | rdma-core-37.8/libibmad/fields.c:1025-1073 | and changes no bit but those it covers or spills into |
| MadEncode.ArrayCovers | rdma-core-37.8/libibmad/fields.c:1103-1113 | an array that is short, and moved inside its word, or made of whole words lies on the bits of the field of the same offset and length |
| MadEncode.RunHolds | rdma-core-37.8/libibmad/mad.c:82-159 | in any sequence of writes, of all three kinds, each reads back that no later one covers |
| MadEncode.AlignedRange | rdma-core-37.8/libibmad/fields.c:1025-1033 | a raw write of whole words covers the same bits in both conventions |
| MadHeader.EncodeReadsBack | rdma-core-37.8/libibmad/mad.c:82-159 | in a datagram whose payload is clear of the header every header write and the payload read back |
| MadHeader.UsualPlace | rdma-core-37.8/libibmad/mad.c:129-156 | a payload of whole words after its class's header, and before a directed route, is clear |
| MadHeader.KeyReplaced | rdma-core-37.8/libibmad/mad.c:126-149 | in the congestion control class the management key survives if and only if it equals the class's key |
| MadHeader.EncodeKeeps | rdma-core-37.8/libibmad/mad.c:82-159 | nothing else in the buffer changes |
| MadHeader.MethodReads | rdma-core-37.8/libibmad/mad.c:84-89 | method and response bit, written apart, read as the method's eight bits |
| MadHeader.CommonReads | rdma-core-37.8/libibmad/mad.c:90-96 | class, class version and base version |
| MadHeader.MiddleReads | rdma-core-37.8/libibmad/mad.c:118-149 | transaction number, attribute, modifier and key read back |
| MadLayout.WordLaid | rdma-core-37.8/libibmad/fields.c:1043-1101 | a field of whole bytes inside a word lies in the buffer highest byte first, at the other end of the word |
| MadLayout.EncodedLaid | rdma-core-37.8/libibmad/mad.c:82-159 | the datagram by byte numbers: 0 base version, 1 class, 2 class version, 3 method with response bit, 4-5 status or direction and status, 6 hop number, 7 hop count, 8-15 transaction, 16-17 attribute, 20-23 modifier, 24-31 key, 32-35 the addresses with all ones for none, 37-39 vendor, 48-55 mask, 128 or 192 the path, and the payload, wherever that is clear of the header |
| MadLayout.UsualLaid | rdma-core-37.8/libibmad/mad.c:82-159 | the same for payloads of whole words after byte 32, 36, 40 or 56, as the class has it, and before a directed route |
| MadFrame.EncodedSpares | rdma-core-37.8/libibmad/mad.c:82-159 | every other byte of the buffer stays as it was, wherever the payload goes |
| MadFrame.RefusedLaid | rdma-core-37.8/libibmad/mad.c:82-109 | a refused datagram has its first four bytes written and no other |
| MadHeader.RouteReads | rdma-core-37.8/libibmad/mad.c:98-116 | hop counts, status and direction of a directed route, whatever the status |
| MadHeader.PathReads | rdma-core-37.8/libibmad/mad.c:129-141 | addresses and the path, in the place for requests or for responses |
| MadHeader.RestReads | rdma-core-37.8/libibmad/mad.c:115-156 | status, component mask, vendor number and payload |
| MadCodec.SetFieldIn | rdma-core-37.8/libibmad/fields.c:1043-1073 | the loop over the bytes of the buffer makes exactly that write |
| MadCodec.GetFieldFrom | rdma-core-37.8/libibmad/fields.c:1075-1101 | the loop from the highest byte down gives exactly that read |
| MadCodec.SetWideIn | rdma-core-37.8/libibmad/fields.c:1025-1033 | a 64-bit write, byte by byte |
| MadCodec.SetBlockIn | rdma-core-37.8/libibmad/fields.c:1112 | the copy of the bytes |
| MadCodec.SetArrayIn | rdma-core-37.8/libibmad/fields.c:1103-1113 | the copy goes to the offset that is turned back inside its word for arrays under 32 bits |
| MadCodec.Encode | rdma-core-37.8/libibmad/mad.c:82-159 | exactly a directed class without a route of fewer than 64 hops is refused, with the first four bytes written; otherwise an unset transaction number has been filled in and the buffer holds the datagram as laid out above, with the other bytes as they were |
| CcanList.RingFollowed | rdma-core-37.8/ccan/list.c:20-36 | a ring through a node is the only way on from it |
| CcanList.CheckNode | rdma-core-37.8/ccan/list.c:20-36 | on any nodes closed under `next`, however corrupt, the check ends within their number and succeeds exactly on rings |
| CcanList.AddAfter | rdma-core-37.8/ccan/list.h:178-188 | the node comes after the given one in the ring |
| CcanList.AddBefore | rdma-core-37.8/ccan/list.h:227-237 | the node comes before the given one, at the end if that is the head |
| CcanList.Empty | rdma-core-37.8/ccan/list.h:267-271 | true exactly when the head is alone |
| CcanList.Del | rdma-core-37.8/ccan/list.h:324-333 | the ring without the node; alone it stays |
| CcanList.DelInit | rdma-core-37.8/ccan/list.h:350-354 | and the node becomes a ring of its own |
| CcanList.Swap | rdma-core-37.8/ccan/list.h:405-417 | the new node takes the old one's place, unless that was alone, when both end up in one ring |
| CcanList.Pop | rdma-core-37.8/ccan/list.h:475-484 | the first node and the rest, or nothing |
| CcanList.AppendList | rdma-core-37.8/ccan/list.h:640-656 | the one list after the other and the source empty, also when either was |
| CcanList.PrependList | rdma-core-37.8/ccan/list.h:672-688 | the one list before the other and the source empty, also when either was |
| Bitmap.HeadBits | rdma-core-37.8/ccan/bitmap.c:16 | which bits the head mask has, at any pair of widths |
| Bitmap.TailBits | rdma-core-37.8/ccan/bitmap.c:17 | which bits the tail mask has |
| Bitmap.HitsExactly | rdma-core-37.8/ccan/bitmap.c:9-35 | the masks select exactly the range if and only if the widths agree, or it is empty, or it starts and ends with a word |
| Bitmap.PlaceOrder | rdma-core-37.8/ccan/bitmap.h:37-39 | words and places in them are ordered as bit numbers are |
| Bitmap.ZeroRange | rdma-core-37.8/ccan/bitmap.c:12-35 | the bits that the masks select are cleared; where the widths agree, or the range is empty or starts and ends with a word, exactly those from `n` up to `m` |
| Bitmap.FillRange | rdma-core-37.8/ccan/bitmap.c:37-60 | the bits that the masks select are set; under the same condition exactly those from `n` up to `m` |
| Bitmap.LeadingZeros | rdma-core-37.8/ccan/bitmap.c:62-77 | the first set bit from the top |
| Bitmap.FirstSetPlace | rdma-core-37.8/ccan/bitmap.c:79-125 | the least selected bit that is set, or none if there is none |
| Bitmap.FirstSet | rdma-core-37.8/ccan/bitmap.c:79-125 | in bit numbers: the least selected bit that is set, or the end; under the same condition the least set bit of the range |
| BitmapExact.ZeroExactly | rdma-core-37.8/ccan/bitmap.c:12-35 | clearing is right on every bitmap if and only if that condition holds |
| BitmapExact.FillExactly | rdma-core-37.8/ccan/bitmap.c:37-60 | and so is setting |
| BitmapExact.SearchExactly | rdma-core-37.8/ccan/bitmap.c:79-125 | and searching |
| BitmapExact.LongWords | rdma-core-37.8/ccan/bitmap.c:9-125 | on 64-bit machines all three are right on all ranges |
| BitmapExact.ShortWords | rdma-core-37.8/ccan/bitmap.c:9-125 | on 32-bit machines each is right exactly on ranges that are empty or start and end with a word |
| Ilog.Ilog32 | rdma-core-37.8/ccan/ilog.c:54-65 | smearing and the de Bruijn table give the bit length of every 32-bit value |
| Ilog.Ilog64 | rdma-core-37.8/ccan/ilog.c:114-133 | and of every 64-bit value |
| Ilog.Ilog64Halves | rdma-core-37.8/ccan/ilog.c:97-113 | the form for 32-bit machines, which takes the upper half if it is not zero, gives it too |
| Ilog.Branchless32 | rdma-core-37.8/ccan/ilog.c:35-52 | the form without branches gives the bit length |
| Ilog.Branchless64 | rdma-core-37.8/ccan/ilog.c:74-96 | and in 64 bits |
| Ilog.Static5 | rdma-core-37.8/ccan/ilog.h:139-147 | the constant expression gives the bit length |
| Ilog.Static6 | rdma-core-37.8/ccan/ilog.h:148-149 | and in 64 bits |
| Ilog.FormsAgree32 | rdma-core-37.8/ccan/ilog.c:31-66 | the table, the form without branches and the constant expression agree on every 32-bit value |
| Ilog.FormsAgree64 | rdma-core-37.8/ccan/ilog.c:73-135 | and with the form by halves on every 64-bit value |
| LibraryGraph.WayRound | rdma-core-37.8/buildlib/sanitize_static_lib.py:206-214 | an edge that is taken away leaves a way round |
| LibraryGraph.CutSameReach | rdma-core-37.8/buildlib/sanitize_static_lib.py:212-214 | pruning one library changes no reachability |
| LibraryGraph.UniqueReduction | rdma-core-37.8/buildlib/sanitize_static_lib.py:205-214 | graphs that reach the same and have no implied edge are equal |
| LibraryGraph.ReductionExact | rdma-core-37.8/buildlib/sanitize_static_lib.py:205-214 | of an acyclic graph exactly one graph reaches the same with no implied edge: the one that keeps the edges no longer path implies |
| LibraryPrune.Libraries.Prune | rdma-core-37.8/buildlib/sanitize_static_lib.py:206-210 | the recursion ends and drops exactly the edges to what is reached, on both sides of the relation |
| LibraryPrune.Libraries.PruneLib | rdma-core-37.8/buildlib/sanitize_static_lib.py:212-214 | exactly the implied edges of one library are dropped |
| LibraryPrune.Libraries.PruneAll | rdma-core-37.8/buildlib/sanitize_static_lib.py:212-214 | in any order the pass leaves the transitive reduction |
| LibraryPrune.Libraries.LinkAll | rdma-core-37.8/buildlib/sanitize_static_lib.py:200-203 | the edges are who uses whose symbols |
| LibraryPrune.Libraries.ComputeGraph | rdma-core-37.8/buildlib/sanitize_static_lib.py:197-214 | from symbols to the transitive reduction of who uses whom |

## Left out

- IwpmNetwork.Provenance: assumes that no handle is posted twice in the whole run, as the comment at rdma-core-37.8/iwpmd/iwarp_pm_helper.c:43 asks (a unique number per host); the daemon itself does not enforce it.
- IwpmState: registration, hello messages, the daemon's counters and debug output change nothing that other handlers read, and would add only easy members.
- IwpmWire.ParseDefined: a request cut to the short length leaves its mapped address unset in C; here it reads as zero.
- IwpmDaemon.PortMapper.AgeRequests: the timer's sleep and the sending thread's queue are not modelled; a queued message is sent or lost.
- RouteSearch.GetRoute: with no link out of the visited set the round falls back to index 0 in the source; here the search ends as stuck, so what follows such a round is not modelled.
- RouteSearch.InterfaceRate: the smoothing of rates in add_send_rec is an input.
- save_route_in_links and del_route_in_links name different ports for the last hop, so there is no inverse to state; the eviction list of add_route never counts down, so no bound follows.
- OfflineLp.Certificate: the solver is left out; any solution of its constraints is taken, and floats are reals.
- OfflineSearch.Nonblocking.GetAllPaths: get_s_to_d_routing and the text files that feed it are left out.
- OfflinePaths.SplitSound: a path may come back to its own start once, as in the source, where the start is not marked; so the statement is about the switches between the ends.
- MadTable.TableRegular: entries with the same offset and length are one member of the constants; fields of more than 32 bits are copied as bytes and have no counts to add up.
- MadFields.NoInterference: the whole field table is not shown to be disjoint, because it is not: two counters normalise to the same bits.
- MadHeader.EncodeReadsBack: mad_build_pkt and the RMPP header that it adds after encoding are left out; addressing is I/O and the RMPP fields would add only more of the same writes.
- CcanList: the checks compiled in by CCAN_LIST_DEBUG, which set the links of removed nodes to null, and the iteration macros are left out.
- Bitmap: single-bit operations, word-wise combinations and comparisons of rdma-core-37.8/ccan/bitmap.h are left out as easy members.
- LibraryPrune.Libraries.ComputeGraph: acyclicity is required. On a cycle through the library that is pruned the source changes a set while it iterates over it, which Python refuses; on one that avoids it the recursion has no end.
- The shared-memory ring of sync/client.cpp: its producer is not in the repository and its lock is commented out.
- The diagnostic tools, printers and device naming are input and output.
